/** The `!match` commands of src/Plugin/Match.php over the three tables.

    The caller supplies what the bot gets from elsewhere: whether the author
    holds MANAGE_ROLES (`canManage`), the current time (`now` in whole
    seconds, as the `datetime` columns store it, or `clock` in microseconds
    where `voteMatch` compares it unrounded), the ids of the guild's members
    (`members`), the text channels of the guild
    (`textChannels`), the id the snowflake generator hands out (`newId`) and
    the calendar (`addYears`, `parseAbsolute`). Every failure is a value, as
    the command handlers catch every exception and answer with a message. */
module MatchStore {
  import opened Wrappers
  import opened Duration
  import opened RoomMention
  import opened MatchSchema
  import opened Tally

  datatype Error =
    | Unauthorized             // `self::unauthorized($message)`
    | InvalidTime(TimeError)   // `readTime` threw
    | MatchNotFound            // "Either that match doesn't exist, or ..."
    | UserNotRecognised        // "Could not parse user. ..."
    | DuplicateKey             // the INSERT hit an existing primary key
    | ForeignKeyViolation      // the row names a match or competitor that is not there
    | NoChannelMention         // "That's not a valid channel name!"
    | NotTextChannel           // "<room> is not a valid text channel in this guild."
    | UnknownTimezone          // Carbon rejected the `--timezone` option

  /** A vote either lands or is turned away because the match has closed. */
  datatype VoteOutcome = Recorded | VotingClosed

  /** The announcement `announceMatch` posts: target channel id, match title,
      due date, one field per competitor and the users to mention. */
  datatype Announcement = Announcement(channel: string, title: string, duedate: int,
                                       fields: seq<AnnounceField>, cc: seq<string>)

  /** The `period` operand of `create`, with its default. */
  function PeriodOrDefault(period: Option<string>): string {
    if period.Some? then period.value else DefaultPeriod
  }

  /** The clock `Carbon::now()` carries microseconds; a `datetime` column
      keeps whole seconds. */
  const MicrosPerSecond := 1_000_000

  /** The vote test `$info->duedate < Carbon::now()`. The due date comes back
      from the table in whole seconds, and `clock` is the current time in
      microseconds. */
  predicate IsClosed(duedate: int, clock: int) {
    duedate * MicrosPerSecond < clock
  }

  /** The current time as a `datetime` column stores it: whole seconds,
      the fraction dropped. */
  function StoredSeconds(clock: int): int {
    clock / MicrosPerSecond
  }

  /** Voting is closed exactly when the clock, rounded up to whole seconds,
      is past the due date: a vote at the due date itself is accepted, and
      one any fraction of a second later is refused. */
  lemma ClosedIffPastDue(duedate: int, clock: int)
    ensures IsClosed(duedate, clock) <==> duedate < (clock + MicrosPerSecond - 1) / MicrosPerSecond
    ensures !IsClosed(duedate, duedate * MicrosPerSecond)
    ensures IsClosed(duedate, duedate * MicrosPerSecond + 1)
  {
    var q := (clock + MicrosPerSecond - 1) / MicrosPerSecond;
    var r := (clock + MicrosPerSecond - 1) % MicrosPerSecond;
    assert clock + MicrosPerSecond - 1 == q * MicrosPerSecond + r && 0 <= r < MicrosPerSecond;
    if duedate < q {
      assert duedate * MicrosPerSecond <= (q - 1) * MicrosPerSecond;
    } else {
      assert duedate * MicrosPerSecond >= q * MicrosPerSecond;
    }
  }

  class Tables {
    var matches: MatchTable
    var competitors: CompetitorTable
    var votes: VoteTable

    ghost predicate Valid()
      reads this
    {
      ForeignKeysHold(matches, competitors, votes)
    }

    constructor ()
      ensures Valid()
      ensures matches == map[] && competitors == map[] && votes == map[]
    {
      matches, competitors, votes := map[], map[], map[];
    }

    /** `createMatch`: check MANAGE_ROLES, resolve the period, then insert
        the match row created now and due at the resolved time. */
    method CreateMatch(canManage: bool, title: string, period: Option<string>, now: int, newId: nat,
                       addYears: (int, nat) -> int, parseAbsolute: string -> Option<int>)
      returns (r: Result<nat, Error>)
      requires Valid()
      modifies this
      ensures Valid()
      ensures competitors == old(competitors) && votes == old(votes)
      ensures r.Failure? ==> matches == old(matches)
      ensures !canManage ==> r == Failure(Unauthorized)
      ensures canManage ==>
                var due := ResolvedTime(PeriodOrDefault(period), now, addYears, parseAbsolute);
                && (due.Failure? ==> r == Failure(InvalidTime(due.error)))
                && (due.Success? && newId in old(matches) ==> r == Failure(DuplicateKey))
                && (due.Success? && newId !in old(matches) ==>
                      r == Success(newId) && matches == old(matches)[newId := MatchRow(now, due.value, title)])
    {
      if !canManage {
        return Failure(Unauthorized);
      }
      var time := ReadTime(PeriodOrDefault(period), now, addYears, parseAbsolute);
      if time.Failure? {
        return Failure(InvalidTime(time.error));
      }
      if newId in matches {
        return Failure(DuplicateKey);
      }
      matches := matches[newId := MatchRow(now, time.value, title)];
      r := Success(newId);
    }

    /** `addCompetitor`: check MANAGE_ROLES, require that the user operand
        resolved to a guild member (`user`), then insert the competitor row.
        Nothing stops a competitor being added after the due date. */
    method AddCompetitor(canManage: bool, idMatch: nat, user: Option<nat>, data: Option<string>, now: int, newId: nat)
      returns (r: Result<nat, Error>)
      requires Valid()
      modifies this
      ensures Valid()
      ensures matches == old(matches) && votes == old(votes)
      ensures r.Failure? ==> competitors == old(competitors)
      ensures !canManage ==> r == Failure(Unauthorized)
      ensures canManage && user.None? ==> r == Failure(UserNotRecognised)
      ensures canManage && user.Some? && idMatch !in matches ==> r == Failure(ForeignKeyViolation)
      ensures canManage && user.Some? && (idMatch, newId) in old(competitors) ==> r == Failure(DuplicateKey)
      ensures canManage && user.Some? && idMatch in matches && (idMatch, newId) !in old(competitors) ==>
                r == Success(newId) &&
                competitors == old(competitors)[(idMatch, newId) := CompetitorRow(user.value, now, data)]
    {
      if !canManage {
        return Failure(Unauthorized);
      }
      if user.None? {
        return Failure(UserNotRecognised);
      }
      if (idMatch, newId) in competitors {
        return Failure(DuplicateKey);
      }
      if idMatch !in matches {
        return Failure(ForeignKeyViolation);
      }
      competitors := competitors[(idMatch, newId) := CompetitorRow(user.value, now, data)];
      r := Success(newId);
    }

    /** `getMatchInfo`: look the match up, list its competitors each with an
        empty vote set, then hand every vote of a guild member to the
        competitor it names. */
    method GetMatchInfo(idMatch: nat, members: set<nat>) returns (r: Result<MatchInfo, Error>)
      requires Valid()
      ensures r.Failure? <==> idMatch !in matches
      ensures r.Failure? ==> r.error == MatchNotFound
      ensures r.Success? ==> Grouped(r.value, matches, competitors, votes, idMatch, members)
    {
      if idMatch !in matches {
        return Failure(MatchNotFound);
      }
      var row := matches[idMatch];
      var order, entries := ListCompetitors(idMatch, members);
      entries := GroupVotes(idMatch, members, entries);
      r := Success(MatchInfo(idMatch, row.title, row.created, row.duedate, order, entries));
    }

    /** The competitor query of `getMatchInfo`, each row mapped to an entry
        with an empty vote set. Rows come back in no particular order, which
        the arbitrary choice below stands for. */
    method ListCompetitors(idMatch: nat, members: set<nat>) returns (order: seq<nat>, entries: map<nat, Entry>)
      ensures entries.Keys == CompetitorIds(competitors, idMatch)
      ensures Distinct(order)
      ensures forall i :: 0 <= i < |order| ==> order[i] in entries
      ensures forall c :: c in entries ==> c in order
      ensures EntriesHold(entries, competitors, votes, idMatch, members, {})
    {
      var ids := CompetitorIds(competitors, idMatch);
      order, entries := [], map[];
      var pending := ids;
      while pending != {}
        invariant pending <= ids
        invariant entries.Keys == ids - pending
        invariant Distinct(order)
        invariant forall i :: 0 <= i < |order| ==> order[i] in entries
        invariant forall c :: c in entries ==> c in order
        invariant EntriesHold(entries, competitors, votes, idMatch, members, {})
        decreases pending
      {
        var c :| c in pending;
        CompetitorIdsMeaning(competitors, idMatch, c);
        var cr := competitors[(idMatch, c)];
        var user := if cr.idDiscord in members then Some(cr.idDiscord) else None;
        assert VotesAmong(votes, idMatch, c, members, {}) == map[];
        var e := Entry(c, user, cr.created, cr.data, map[]);
        assert e == EntryOf(competitors, votes, idMatch, c, members, {});
        AddEntry(entries, competitors, votes, idMatch, members, c);
        assert c !in order;
        DistinctAppend(order, c);
        entries := entries[c := e];
        order := order + [c];
        pending := pending - {c};
      }
    }

    /** The vote query of `getMatchInfo`: each vote of a guild member is put
        into the vote set of its competitor, keyed by the voter. */
    method GroupVotes(idMatch: nat, members: set<nat>, entries0: map<nat, Entry>) returns (entries: map<nat, Entry>)
      requires Valid()
      requires entries0.Keys == CompetitorIds(competitors, idMatch)
      requires EntriesHold(entries0, competitors, votes, idMatch, members, {})
      ensures entries.Keys == entries0.Keys
      ensures EntriesHold(entries, competitors, votes, idMatch, members, VoterIds(votes, idMatch))
    {
      var voters := VoterIds(votes, idMatch);
      entries := entries0;
      var done: set<nat> := {};
      var unseen := voters;
      while unseen != {}
        invariant done + unseen == voters && done !! unseen
        invariant entries.Keys == entries0.Keys
        invariant EntriesHold(entries, competitors, votes, idMatch, members, done)
        decreases unseen
      {
        var v :| v in unseen;
        VoterIdsMeaning(votes, idMatch, v);
        var vr := votes[(v, idMatch)];
        CompetitorIdsMeaning(competitors, idMatch, vr.idCompetitor);
        GroupStep(entries, competitors, votes, idMatch, members, done, v);
        if v in members {
          var e := entries[vr.idCompetitor];
          entries := entries[vr.idCompetitor := e.(votes := e.votes[v := vr.created])];
        }
        done, unseen := done + {v}, unseen - {v};
      }
      assert done == voters;
    }

    /** `voteMatch`: no permission check; the match must exist and be open
        at `clock` (microseconds), and the vote replaces whatever the voter
        had cast in that match, stamped with the clock in whole seconds. */
    method Vote(voter: nat, idMatch: nat, entry: nat, clock: int, members: set<nat>)
      returns (r: Result<VoteOutcome, Error>)
      requires Valid()
      modifies this
      ensures Valid()
      ensures matches == old(matches) && competitors == old(competitors)
      ensures r != Success(Recorded) ==> votes == old(votes)
      ensures r == Success(Recorded) ==>
                |votes| == |old(votes)| + (if (voter, idMatch) in old(votes) then 0 else 1)
      ensures idMatch !in matches ==> r == Failure(MatchNotFound)
      ensures idMatch in matches && IsClosed(matches[idMatch].duedate, clock) ==> r == Success(VotingClosed)
      ensures idMatch in matches && !IsClosed(matches[idMatch].duedate, clock) && (idMatch, entry) !in competitors ==>
                r == Failure(ForeignKeyViolation)
      ensures idMatch in matches && !IsClosed(matches[idMatch].duedate, clock) && (idMatch, entry) in competitors ==>
                r == Success(Recorded) &&
                votes == old(votes)[(voter, idMatch) := VoteRow(entry, StoredSeconds(clock))]
    {
      var info := GetMatchInfo(idMatch, members);
      if info.Failure? {
        return Failure(info.error);
      }
      if IsClosed(info.value.duedate, clock) {
        return Success(VotingClosed);
      }
      if (idMatch, entry) !in competitors {
        return Failure(ForeignKeyViolation);
      }
      ReplaceGrowsByAtMostOne(votes, (voter, idMatch), VoteRow(entry, StoredSeconds(clock)));
      ReplaceKeepsForeignKeys(matches, competitors, votes, voter, idMatch, VoteRow(entry, StoredSeconds(clock)));
      votes := votes[(voter, idMatch) := VoteRow(entry, StoredSeconds(clock))];
      r := Success(Recorded);
    }

    /** `announceMatch`: check MANAGE_ROLES, load the match, move its due
        date into the `--timezone` zone (`zoneKnown` says whether Carbon
        recognises that zone; the option defaults to "UTC"), require a
        `<#digits>` mention of a text channel in `room`, then build one field
        per competitor. Writes nothing. */
    method Announce(canManage: bool, idMatch: nat, zoneKnown: bool, room: string, anon: bool,
                    cc: seq<string>, members: set<nat>, textChannels: set<string>)
      returns (r: Result<Announcement, Error>)
      requires Valid()
      ensures !canManage ==> r == Failure(Unauthorized)
      ensures canManage && idMatch !in matches ==> r == Failure(MatchNotFound)
      ensures canManage && idMatch in matches && !zoneKnown ==> r == Failure(UnknownTimezone)
      ensures canManage && idMatch in matches && zoneKnown && ChannelMention(room).None? ==>
                r == Failure(NoChannelMention)
      ensures canManage && idMatch in matches && zoneKnown && ChannelMention(room).Some?
              && ChannelMention(room).value !in textChannels ==>
                r == Failure(NotTextChannel)
      ensures canManage && idMatch in matches && zoneKnown && ChannelMention(room).Some?
              && ChannelMention(room).value in textChannels ==>
                r.Success?
      ensures r.Success? ==>
                && canManage && idMatch in matches && zoneKnown
                && ChannelMention(room) == Some(r.value.channel) && r.value.channel in textChannels
                && r.value.title == matches[idMatch].title && r.value.duedate == matches[idMatch].duedate
                && r.value.cc == cc
                && AnnounceReports(r.value.fields, competitors, idMatch, members, anon)
    {
      if !canManage {
        return Failure(Unauthorized);
      }
      var info := GetMatchInfo(idMatch, members);
      if info.Failure? {
        return Failure(info.error);
      }
      if !zoneKnown {
        return Failure(UnknownTimezone);
      }
      var mention := ChannelMention(room);
      if mention.None? {
        return Failure(NoChannelMention);
      }
      if mention.value !in textChannels {
        return Failure(NotTextChannel);
      }
      var m := info.value;
      var fields := AnnounceFields(m, anon);
      GroupedAnnounceReports(fields, m, matches, competitors, votes, idMatch, members, anon);
      r := Success(Announcement(mention.value, m.title, m.duedate, fields, cc));
    }

    /** `tallyMatch`: check MANAGE_ROLES, load and group the match, then one
        block of lines per competitor whose count is the number of guild
        members currently voting for it. Writes nothing. */
    method Tally(canManage: bool, idMatch: nat, anon: bool, members: set<nat>)
      returns (r: Result<seq<TallyLine>, Error>)
      requires Valid()
      ensures !canManage ==> r == Failure(Unauthorized)
      ensures canManage && idMatch !in matches ==> r == Failure(MatchNotFound)
      ensures canManage && idMatch in matches ==> r.Success?
      ensures r.Success? ==> TallyReports(r.value, matches, competitors, votes, idMatch, members, anon)
    {
      if !canManage {
        return Failure(Unauthorized);
      }
      var info := GetMatchInfo(idMatch, members);
      if info.Failure? {
        return Failure(info.error);
      }
      var m := info.value;
      var lines := TallyLines(m, anon);
      GroupedTallyReports(lines, m, matches, competitors, votes, idMatch, members, anon);
      r := Success(lines);
    }
  }
}
