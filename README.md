# Huntress match voting and New Horizon configuration, in Dafny

This project models two plugins of the Huntress Discord bot.

**The `!match` plugin** (`src/Plugin/Match.php`) lets a server manager run a vote:
- `create` opens a match with a title and a voting period (default `24h`).
- `addcompetitor` adds a competitor to a match. A competitor is a guild member with an optional data string.
- Anyone may `vote` until the due date. A later vote by the same voter in the same match replaces the earlier one.
- `announce` posts an embed into a `<#channel>` mention.
- `tally` lists the competitors with their vote counts.

The model covers:
- The three tables `match_matches`, `match_competitors` and `match_votes`, with their primary and foreign keys.
- The period parser `readTime` / `isRelativeTime` / `timeRelative`.
- The grouping done in `getMatchInfo`.
- The five command handlers. Each returns every failure as a value, because the handlers catch every exception.

**The New Horizon plugin** (`src/Plugin/NewHorizon.php`) keeps a key/value table `nh_config`. The model covers:
- The two readers `getLastRSS` and `getWelcomeMessage`.
- The `setWelcome` command.
- The selection of new forum posts in `poll`, and the watermark `poll` writes back.

Modules:
- `Wrappers`: `Option` and `Result`.
- `Digits`: decimal digit runs and their values.
- `PhpText`: PHP's `trim`, ASCII lower-casing, and `str_replace` with an empty replacement.
- `Duration`: the relative-time language.
  - The PCRE scan of `/((\d+)([ywdhm]))/i` is `Scan`. It takes the set of unit letters as a parameter, so the same scan also serves the evaluator's `[ywdhms]`.
  - `IsRelativeTime` is the classifier, `TimeRelative` the evaluator, and `ReadTime` the dispatcher between the two.
- `RoomMention`: the first `<#digits>` in a room operand.
- `MatchSchema`: the tables as maps keyed by their primary keys, the foreign-key invariant, and the grouped match that `getMatchInfo` builds (`Grouped`).
- `Tally`: the lines of `tallyMatch` and the embed fields of `announceMatch`.
- `MatchStore`: class `Tables`, holding the three tables as fields updated by the command methods.
- `NewHorizon`: the `nh_config` readers, the feed filter, and class `Config` with `Put`, `SetWelcome` and `Poll`.

What the caller supplies to the model:
- The current time. `createMatch` and `addCompetitor` receive it as `now`, in whole seconds, because their `datetime` columns (lines 40-41, 49) drop the fraction. A relative due date is `now` plus whole seconds, so truncating before or after adding stores the same value. `voteMatch` receives it as `clock`, in microseconds, because line 191 compares the unrounded `Carbon::now()` with the stored due date.
- The snowflake id a new row gets (`newId`).
- Whether the author holds MANAGE_ROLES (`canManage`), or the New Horizon role (`hasRole`).
- The guild's member ids (`members`) and its text channels (`textChannels`).
- Whether Carbon recognises the zone named by `announce --timezone` (`zoneKnown`); the option defaults to `UTC` (line 89).
- The calendar: `addYears`, and `parseAbsolute`, which stands for `new Carbon($r)`.

Where the code and its usual description differ, the model follows the code:
- A tally lists the voters after the count line even in anonymous mode. Anonymity only hides the competitor's user (lines 264-271).
- Voting closes only when the stored due date is earlier than the clock (line 191, `IsClosed`). The due date holds whole seconds and the clock holds microseconds. So a vote at exactly the due date is accepted, and a vote any fraction of a second later is refused (`ClosedIffPastDue`). The vote row stores the clock truncated to whole seconds.
- Both groups of the period pattern are mandatory. So the fallbacks `$m[2] ?? 1` and `$m[3] ?? "m"` (lines 308-309) never apply, and every matched token carries its own count and unit.
- The `s` unit reaches `timeRelative` only through `readTime`, and `readTime` sends nothing containing `s` there. So a period like `30s` is read as an absolute date instead.
- `createMatch` does not check that an absolute due date lies after the creation time.
- `addCompetitor` accepts competitors after the due date.
- The title fallback `$title ?? "#$id"` (line 135) never applies, since the title was already cast to a string (line 121). The stored title is the operand as given.
- The primary key of `match_matches` makes the "more than one row" branch of `getMatchInfo` (line 342) unreachable. Only "no row" fails.

## Model

| member | source | states |
|---|---|---|
| Digits.LeadingDigits | src/Plugin/Match.php:293 | the greedy `\d+` run: the prefix of that length is all digits and the next character, if any, is not a digit |
| Digits.DecimalRoundTrip | src/Plugin/NewHorizon.php:71-75 | reading back the decimal text of a natural gives that natural, so the watermark survives its trip through the text column |
| PhpText.TrimEmptyIff | src/Plugin/Match.php:299 | `trim` leaves nothing exactly when every character is one of PHP's six trimmed characters |
| PhpText.RemoveAll | src/Plugin/NewHorizon.php:90 | `str_replace($pat, "", $s)` never lengthens the text, and leaves it unchanged when the pattern is empty or occurs nowhere in it |
| Duration.Scan | src/Plugin/Match.php:293-298 | the left-to-right scan, moving one character on where no match starts, yields only matches whose digit group is a non-empty run of decimal digits and whose unit is one of the allowed letters |
| Duration.ScanCovers | src/Plugin/Match.php:293-298 | the matched pieces and the stray characters, read in order, give back the whole input |
| Duration.ScanOfText | src/Plugin/Match.php:293-298 | the scan finds every match: scanning the text of any pieces a scan could produce (matches with a unit letter, no digit as a stray character) gives back exactly those pieces, so `Scan` and `Text` are inverse |
| Duration.ResidueAllTrim | src/Plugin/Match.php:298-299 | the removal of all tokens trims to nothing exactly when every stray character is a trim character |
| Duration.RelativeIff | src/Plugin/Match.php:289-300 | both directions of the classifier for every string, described by its pieces: it is relative exactly when at least one piece is a `ywdhm` match and every stray character is a trim character |
| Duration.UnitOf | src/Plugin/Match.php:309-329 | a unit letter is mapped case-insensitively, and it is seconds exactly when it is not one of the classifier's letters `ywdhm` |
| Duration.Tokens | src/Plugin/Match.php:293-297 | the token list is non-empty exactly when the scan matched something |
| Duration.IsRelativeTime | src/Plugin/Match.php:289-300 | the counting loop returns true exactly when at least one token matched and the residue trims to nothing |
| Duration.TimeRelative | src/Plugin/Match.php:302-335 | without a match the evaluator fails with "Could not parse relative time"; otherwise it applies every token to `now` in order |
| Duration.ReadTime | src/Plugin/Match.php:280-287 | relative text goes through the evaluator, which always succeeds on it; any other text is parsed as an absolute date, and it is an error if that does not parse |
| Duration.ClassifierAgreesWithEvaluator | src/Plugin/Match.php:282-283 | on text the classifier accepts, the evaluator's `[ywdhms]` scan finds the same non-empty token list as the classifier's `[ywdhm]` scan |
| Duration.ClassifierTokensHaveNoSeconds | src/Plugin/Match.php:326-328 | no token of the classifier's scan is in seconds, so the `s` branch is unreachable through `readTime` |
| Duration.SecondsNeverRelative | src/Plugin/Match.php:293-299 | a period containing an `s` or `S` anywhere is not relative |
| Duration.StrayCharNotRelative | src/Plugin/Match.php:298-299 | any character that survives the removal of tokens and is not trimmed makes the period not relative |
| Duration.ApplyIsLater | src/Plugin/Match.php:306-331 | with positive counts and a calendar whose year addition moves forward, the due date is after `now` |
| Duration.YearFreeIsOffset | src/Plugin/Match.php:314-328 | without year tokens the due date is `now` plus the sum of each count times its unit's length in seconds |
| Duration.TotalSecondsReorder | src/Plugin/Match.php:307-330 | that sum of offsets is the same for any reordering of the tokens |
| Duration.YearFreeOrderIrrelevant | src/Plugin/Match.php:307-330 | without year tokens, two token lists with the same tokens in any order give the same due date (`3d2h` and `2h3d` agree) |
| Duration.ThreeDaysTwoHours | src/Plugin/Match.php:280-300 | `3d2h` is relative, scans to the tokens 3 days and 2 hours, and is due 3 days and 2 hours after `now` |
| Duration.DefaultPeriodIsOneDay | src/Plugin/Match.php:72 | the default period `24h` resolves to exactly one day after `now` |
| Duration.TrailingWordsNotRelative | src/Plugin/Match.php:298-299 | `24h and stuff` is not relative, because the words survive the token removal |
| Duration.DanglingDigitNotRelative | src/Plugin/Match.php:298-299 | `1d2` is not relative, because the trailing digit has no unit |
| Duration.ThirtySecondsNotRelative | src/Plugin/Match.php:293 | `30s` is not relative, so `readTime` sends it to the absolute-date parser |
| RoomMention.MentionAt | src/Plugin/Match.php:224 | a match at a position returns a non-empty digit string whose mention text is exactly the slice there |
| RoomMention.MentionAtComplete | src/Plugin/Match.php:224 | whenever the text holds `<#id>` at a position with `id` decimal, the position matches with that id |
| RoomMention.FirstMention | src/Plugin/Match.php:224 | it finds nothing exactly when no position from `from` on matches; otherwise it returns the id at the leftmost matching position |
| RoomMention.MentionFound | src/Plugin/Match.php:224-231 | a room containing `<#id>` always yields some channel id, and yields `id` itself when no mention starts earlier |
| RoomMention.LeftmostMention | src/Plugin/Match.php:224 | when `p` is the first matching position at or after `from`, the search returns the match at `p` |
| MatchSchema.GroupedListsEveryCompetitor | src/Plugin/Match.php:351-359 | a grouped match lists each of the match's competitors exactly once, and nothing else, so its number of entries is the number of competitor rows |
| MatchSchema.GroupStep | src/Plugin/Match.php:361-367 | handing one more voter's row to its competitor keeps every entry's vote set equal to the guild members' votes among the voters seen so far |
| MatchSchema.MemberVoteLandsOnce | src/Plugin/Match.php:362-366 | a guild member's vote appears in the vote set of the competitor it names and in no other |
| MatchSchema.NonMemberVoteDropped | src/Plugin/Match.php:362 | a vote from someone no longer in the guild is in no competitor's vote set |
| MatchSchema.LastVoteWins | src/Plugin/Match.php:59 | after a second vote by the same voter in the same match, only the second choice holds that voter's vote |
| MatchSchema.ReplaceGrowsByAtMostOne | src/Plugin/Match.php:195 | `REPLACE INTO` on the vote key adds one row for a new voter in that match and none for a returning one |
| MatchSchema.ReplaceKeepsForeignKeys | src/Plugin/Match.php:60 | replacing a vote with one that names a competitor of its match keeps both foreign keys |
| Tally.DataText | src/Plugin/Match.php:265 | a missing data value is shown as `<null>`, and a present one as itself |
| Tally.TallyLines | src/Plugin/Match.php:260-273 | heading, blank, then per competitor in entry order: its line (user hidden when anonymous), the count line with the count and the voters, and a blank line |
| Tally.GroupedTallyReports | src/Plugin/Match.php:263-273 | for a grouped match, the tally has one block per competitor row, lists every competitor, and each count is the number of guild members whose current vote names that competitor |
| Tally.AnnounceFields | src/Plugin/Match.php:237-243 | one field per competitor in entry order, titled by option id when anonymous and by user otherwise, each carrying the match and competitor ids to vote with |
| Tally.GroupedAnnounceReports | src/Plugin/Match.php:237-243 | for a grouped match, the announcement has one field per competitor row, and each field names a real competitor of the match with its data and, if not anonymous, its user |
| MatchStore.Tables.constructor | src/Plugin/Match.php:36-61 | the tables start empty, which satisfies the foreign keys |
| MatchStore.Tables.CreateMatch | src/Plugin/Match.php:115-143 | unauthorised first, then a bad period, then a taken id, each writing nothing; otherwise exactly one match row created now and due at the resolved time |
| MatchStore.Tables.AddCompetitor | src/Plugin/Match.php:145-180 | unauthorised, unrecognised user, taken key and missing match each write nothing; otherwise exactly one competitor row; foreign keys are kept |
| MatchStore.Tables.GetMatchInfo | src/Plugin/Match.php:337-371 | fails exactly when the match row is missing; otherwise the result is the match grouped with its competitors and their guild-member votes |
| MatchStore.Tables.ListCompetitors | src/Plugin/Match.php:351-359 | every competitor row of the match becomes an entry with an empty vote set, listed once, in some order |
| MatchStore.Tables.GroupVotes | src/Plugin/Match.php:360-368 | after the loop, each entry's vote set is exactly the votes of guild members that name that competitor |
| MatchStore.ClosedIffPastDue | src/Plugin/Match.php:191 | voting is closed exactly when the microsecond clock, rounded up to whole seconds, is past the whole-second due date; a vote at the due date is accepted and one a microsecond later is refused |
| MatchStore.Tables.Vote | src/Plugin/Match.php:182-209 | no permission check; a missing match fails, a match closed at the microsecond clock refuses, a vote for a non-competitor breaks the foreign key; otherwise the voter's single vote row in that match is replaced by one stamped with the clock in whole seconds, the row count grows by at most one, and nothing else changes |
| MatchStore.Tables.Announce | src/Plugin/Match.php:211-248 | unauthorised, missing match, a `--timezone` Carbon does not recognise, no channel mention and non-text channel fail in that order; once every guard passes it succeeds, and the announcement targets the mentioned channel, carries the match's title and due date and the cc list, and reports every competitor |
| MatchStore.Tables.Tally | src/Plugin/Match.php:250-278 | unauthorised and missing match fail; otherwise the tally reports every competitor with its guild-member vote count; nothing is written |
| NewHorizon.LastRss | src/Plugin/NewHorizon.php:130-139 | the stored watermark's value, or 0 when no row exists |
| NewHorizon.WelcomeMessage | src/Plugin/NewHorizon.php:119-128 | the stored message, or "Welcome to New Horizon!" when no row exists |
| NewHorizon.LastRssReadsBack | src/Plugin/NewHorizon.php:71-75 | after the watermark `n` is written, `getLastRSS` returns `n` and the row stays decimal |
| NewHorizon.KeysAreIndependent | src/Plugin/NewHorizon.php:31-34 | writing the welcome message leaves the watermark unchanged, and writing the watermark leaves the welcome message unchanged |
| NewHorizon.SelectNew | src/Plugin/NewHorizon.php:50-65 | the loop keeps the feed items that are newer than the watermark and not replies, in feed order, and computes the new watermark |
| NewHorizon.FreshItemsAreNew | src/Plugin/NewHorizon.php:55-56 | every posted item is newer than the old watermark and its title does not start with `Re:` in any case |
| NewHorizon.FreshIsComplete | src/Plugin/NewHorizon.php:53-58 | every feed item that is neither stale nor a reply is posted |
| NewHorizon.FreshKeepsOrder | src/Plugin/NewHorizon.php:53-66 | selecting from two feeds joined is the same as joining their selections, so posts keep feed order |
| NewHorizon.SkippedItemIsInvisible | src/Plugin/NewHorizon.php:55-56 | a stale item or a reply anywhere in the feed changes neither the posts nor the new watermark |
| NewHorizon.NewestIsMax | src/Plugin/NewHorizon.php:57 | the running maximum is at least the base, at least every item's time, and equal to the base or to one of the items' times |
| NewHorizon.WatermarkBounds | src/Plugin/NewHorizon.php:51-57 | the new watermark never goes down, is at least every posted item's time, and is the old watermark or a posted item's time |
| NewHorizon.Config.Put | src/Plugin/NewHorizon.php:93-97 | an upsert: the key now holds the value and every other key is as it was |
| NewHorizon.Config.SetWelcome | src/Plugin/NewHorizon.php:80-104 | without the role, or with fewer than two words, nothing is written; otherwise the message is the command text with its first word removed, trimmed, and `getWelcomeMessage` now returns it |
| NewHorizon.Config.Poll | src/Plugin/NewHorizon.php:46-75 | posts exactly the fresh items and stores the new watermark, which `getLastRSS` then returns and which is never below the old one |

## Left out

- Discord transport is left out: sending messages, embeds and their text formatting (`sprintf` lines, `diffForHumans`, timezones, cookie strings, `split`), deleting the vote message, and the `exceptionHandler` replies. Each outcome is a value instead.
- Command-line parsing by GetOpt is left out, apart from the `period` default of `24h`. Operands arrive as parameters.
- Snowflake generation, parsing and formatting are left out. Ids are natural numbers supplied by the caller, and a snowflake that fails to parse is not modelled.
- The server's default timezone is assumed to be UTC, and a due date is one number of seconds. An absolute period is stored in UTC (line 285), a relative one from `Carbon::now()` in the default zone (line 306), and both are read back in the default zone (line 347). With another default zone, an absolute due date would be read back shifted by the zone offset; this is not modelled.
- MatchStore.Tables.Announce: the `--timezone` zone only changes how the due date is written in the embed, which is left out with the other text formatting; only its failure, after the match lookup and before the room check (line 222), is modelled.
- Carbon's calendar is left out. `addYears` and the absolute-date parser are parameters, and all other units are fixed numbers of seconds.
- Duration.TimeRelative: does not model PHP integer overflow of very long digit runs, because counts are unbounded naturals.
- Rows come back from SQL in no particular order. The model chooses an arbitrary order, so the tally and the announcement claim no particular competitor order.
- A competitor's voters are a set, so the order of the voter list in a tally is not modelled.
- Cascading deletes are not modelled, because no command deletes a row. Database failures other than key violations (`StorageError`, lost connection) are left out.
- Guild membership is a set of ids passed in; `parseGuildUser` resolving a user operand is reduced to an optional id.
- In New Horizon, these are left out: fetching the RSS feed over HTTP, the Windows check, the periodic timer, XML parsing, Markdown conversion, posting to the fixed channel, `voiceStateHandler`, `guildMemberAddHandler`, and `formatWelcomeMessage` (a `sprintf` of the stored message).
- `_split` is not modelled. The split words `args` are a parameter of `SetWelcome`.
- A failing `strtotime` in `poll` is not modelled. Every feed item carries an integer publication time.
- NewHorizon.LastRss: the watermark row is assumed to hold decimal text (the invariant `WatermarkIsDecimal`), which holds for everything `poll` writes. Other text in that row is not modelled.
- src/Plugin/Identity.php and src/UserLocale.php are not part of this model.
