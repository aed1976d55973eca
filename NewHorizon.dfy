/** The New Horizon plugin's state: the `nh_config` key/value table, the
    readers `getLastRSS` and `getWelcomeMessage`, the `setWelcome` command, and
    the choice of new forum posts with its watermark in `poll`. */
module NewHorizon {
  import opened Digits
  import opened PhpText

  const RssPublishedKey := "rssPublished"
  const WelcomeKey := "serverWelcomeMessage"
  const DefaultWelcome := "Welcome to New Horizon!"

  /** The `nh_config` table: `key` is its primary key, `value` is text. */
  type ConfigTable = map<string, string>

  /** The watermark row, when present, holds the decimal text of a
      timestamp, as `poll` writes it. */
  predicate WatermarkIsDecimal(rows: ConfigTable) {
    RssPublishedKey in rows ==> IsDecimal(rows[RssPublishedKey])
  }

  /** `getLastRSS`: the stored watermark, or 0 when no row exists. */
  function LastRss(rows: ConfigTable): (t: nat)
    requires WatermarkIsDecimal(rows)
    ensures RssPublishedKey !in rows ==> t == 0
    ensures RssPublishedKey in rows ==> t == DecimalValue(rows[RssPublishedKey])
  {
    if RssPublishedKey in rows then DecimalValue(rows[RssPublishedKey]) else 0
  }

  /** `getWelcomeMessage`: the stored message, or the built-in greeting. */
  function WelcomeMessage(rows: ConfigTable): (m: string)
    ensures WelcomeKey !in rows ==> m == DefaultWelcome
    ensures WelcomeKey in rows ==> m == rows[WelcomeKey]
  {
    if WelcomeKey in rows then rows[WelcomeKey] else DefaultWelcome
  }

  /** After the watermark `n` is written, `getLastRSS` reads `n` back. */
  lemma LastRssReadsBack(rows: ConfigTable, n: nat)
    ensures WatermarkIsDecimal(rows[RssPublishedKey := NatToDecimal(n)])
    ensures LastRss(rows[RssPublishedKey := NatToDecimal(n)]) == n
  {
    DecimalRoundTrip(n);
  }

  /** Setting the welcome message does not disturb the watermark, and
      writing the watermark does not disturb the welcome message. */
  lemma KeysAreIndependent(rows: ConfigTable, msg: string, n: nat)
    requires WatermarkIsDecimal(rows)
    ensures WatermarkIsDecimal(rows[WelcomeKey := msg])
    ensures LastRss(rows[WelcomeKey := msg]) == LastRss(rows)
    ensures WelcomeMessage(rows[RssPublishedKey := NatToDecimal(n)]) == WelcomeMessage(rows)
  {
  }

  /** A forum post as `poll` reads it from the feed. */
  datatype FeedItem = FeedItem(published: int, title: string)

  /** `stripos($title, "Re:") === 0`: the title starts with `Re:` in any case. */
  predicate IsReply(title: string) {
    |title| >= 3 && Lower(title[0]) == 'r' && Lower(title[1]) == 'e' && title[2] == ':'
  }

  /** The test that makes `poll` skip an item: not newer than the stored
      watermark, or a reply. */
  predicate Skipped(item: FeedItem, lastPub: int) {
    item.published <= lastPub || IsReply(item.title)
  }

  /** The items `poll` posts, in feed order. */
  function Fresh(items: seq<FeedItem>, lastPub: int): seq<FeedItem> {
    if items == [] then []
    else
      var init := Fresh(items[..|items| - 1], lastPub);
      var last := items[|items| - 1];
      if Skipped(last, lastPub) then init else init + [last]
  }

  /** `base` raised by the publication time of each of `items`. */
  function Newest(base: int, items: seq<FeedItem>): int {
    if items == [] then base
    else
      var n := Newest(base, items[..|items| - 1]);
      var p := items[|items| - 1].published;
      if n >= p then n else p
  }

  /** The watermark `poll` stores: the old one raised by the posted items. */
  function Watermark(items: seq<FeedItem>, lastPub: int): int {
    Newest(lastPub, Fresh(items, lastPub))
  }

  /** `poll`'s loop over the feed: skip stale items and replies, keep the
      rest in order, and raise `newest` to each kept item's time. */
  method SelectNew(items: seq<FeedItem>, lastPub: int) returns (newest: int, newItems: seq<FeedItem>)
    ensures newItems == Fresh(items, lastPub)
    ensures newest == Watermark(items, lastPub)
  {
    newest := lastPub;
    newItems := [];
    for i := 0 to |items|
      invariant newItems == Fresh(items[..i], lastPub)
      invariant newest == Newest(lastPub, newItems)
    {
      var item := items[i];
      assert items[..i + 1][..i] == items[..i];
      if item.published <= lastPub || IsReply(item.title) {
        continue;
      }
      newest := if newest >= item.published then newest else item.published;
      newItems := newItems + [item];
    }
    assert items[..|items|] == items;
  }

  /** Every posted item is newer than the old watermark and is not a reply. */
  lemma {:induction false} FreshItemsAreNew(items: seq<FeedItem>, lastPub: int)
    ensures forall x :: x in Fresh(items, lastPub) ==> x.published > lastPub && !IsReply(x.title)
  {
    if items != [] {
      FreshItemsAreNew(items[..|items| - 1], lastPub);
    }
  }

  /** Every item that is neither stale nor a reply is posted. */
  lemma {:induction false} FreshIsComplete(items: seq<FeedItem>, lastPub: int)
    ensures forall x :: x in items && !Skipped(x, lastPub) ==> x in Fresh(items, lastPub)
  {
    if items != [] {
      var init := items[..|items| - 1];
      FreshIsComplete(init, lastPub);
      assert items == init + [items[|items| - 1]];
    }
  }

  /** Selection distributes over concatenation, so posts keep feed order. */
  lemma {:induction false} FreshKeepsOrder(a: seq<FeedItem>, b: seq<FeedItem>, lastPub: int)
    ensures Fresh(a + b, lastPub) == Fresh(a, lastPub) + Fresh(b, lastPub)
  {
    if b == [] {
      assert a + b == a;
    } else {
      var init := b[..|b| - 1];
      FreshKeepsOrder(a, init, lastPub);
      assert (a + b)[..|a + b| - 1] == a + init;
    }
  }

  /** A stale item or a reply, wherever it stands in the feed, changes
      neither the posts nor the watermark. */
  lemma SkippedItemIsInvisible(a: seq<FeedItem>, x: FeedItem, b: seq<FeedItem>, lastPub: int)
    requires Skipped(x, lastPub)
    ensures Fresh(a + [x] + b, lastPub) == Fresh(a + b, lastPub)
    ensures Watermark(a + [x] + b, lastPub) == Watermark(a + b, lastPub)
  {
    FreshKeepsOrder(a + [x], b, lastPub);
    FreshKeepsOrder(a, [x], lastPub);
    FreshKeepsOrder(a, b, lastPub);
    assert [x][..0] == [];
  }

  /** The watermark is the largest of the old watermark and the posted
      items' times: never below the old one, never below a posted item, and
      equal to one of them. */
  lemma {:induction false} NewestIsMax(base: int, items: seq<FeedItem>)
    ensures Newest(base, items) >= base
    ensures forall x :: x in items ==> x.published <= Newest(base, items)
    ensures Newest(base, items) == base || exists x :: x in items && x.published == Newest(base, items)
  {
    if items != [] {
      var init := items[..|items| - 1];
      NewestIsMax(base, init);
      assert items == init + [items[|items| - 1]];
    }
  }

  lemma WatermarkBounds(items: seq<FeedItem>, lastPub: int)
    ensures Watermark(items, lastPub) >= lastPub
    ensures forall x :: x in Fresh(items, lastPub) ==> x.published <= Watermark(items, lastPub)
    ensures Watermark(items, lastPub) == lastPub ||
            exists x :: x in Fresh(items, lastPub) && x.published == Watermark(items, lastPub)
  {
    NewestIsMax(lastPub, Fresh(items, lastPub));
  }

  datatype WelcomeOutcome =
    | WelcomeSet(message: string)   // stored; the bot then shows it
    | Unauthorized                  // author lacks the New Horizon role
    | MissingMessage                // fewer than two words in the command

  class Config {
    var rows: ConfigTable

    ghost predicate Valid()
      reads this
    {
      WatermarkIsDecimal(rows)
    }

    constructor ()
      ensures Valid() && rows == map[]
    {
      rows := map[];
    }

    /** `INSERT ... ON DUPLICATE KEY UPDATE`: the key now maps to `value`,
        every other key is as it was. */
    method Put(key: string, value: string)
      requires Valid()
      requires key == RssPublishedKey ==> IsDecimal(value)
      modifies this
      ensures Valid()
      ensures rows == old(rows)[key := value]
    {
      rows := rows[key := value];
    }

    /** `setWelcome`: with the role and a message, store the command text
        with its first word removed and trimmed; otherwise write nothing.
        `args` is the command split into words. */
    method SetWelcome(hasRole: bool, content: string, args: seq<string>) returns (r: WelcomeOutcome)
      requires Valid()
      modifies this
      ensures Valid()
      ensures !hasRole ==> r == Unauthorized && rows == old(rows)
      ensures hasRole && |args| < 2 ==> r == MissingMessage && rows == old(rows)
      ensures hasRole && |args| >= 2 ==>
                var msg := Trim(RemoveAll(content, args[0]));
                r == WelcomeSet(msg) && rows == old(rows)[WelcomeKey := msg] && WelcomeMessage(rows) == msg
    {
      if !hasRole {
        return Unauthorized;
      }
      if |args| < 2 {
        return MissingMessage;
      }
      var welcomeMsg := Trim(RemoveAll(content, args[0]));
      Put(WelcomeKey, welcomeMsg);
      r := WelcomeSet(welcomeMsg);
    }

    /** One run of `poll`'s timer on an already fetched feed: post the new
        items in feed order and store the new watermark. */
    method Poll(items: seq<FeedItem>) returns (posted: seq<FeedItem>)
      requires Valid()
      modifies this
      ensures Valid()
      ensures posted == Fresh(items, old(LastRss(rows)))
      ensures Watermark(items, old(LastRss(rows))) >= old(LastRss(rows))
      ensures rows == old(rows)[RssPublishedKey := NatToDecimal(Watermark(items, old(LastRss(rows))))]
      ensures LastRss(rows) == Watermark(items, old(LastRss(rows)))
    {
      var lastPub := LastRss(rows);
      var newest, newItems := SelectNew(items, lastPub);
      WatermarkBounds(items, lastPub);
      LastRssReadsBack(rows, newest);
      Put(RssPublishedKey, NatToDecimal(newest));
      posted := newItems;
    }
  }
}
