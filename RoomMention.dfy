/** The channel mention `<#digits>` that `!match announce` looks for in its
    `room` operand (`preg_match("/<#(\d+)>/", $room, $matches)`). */
module RoomMention {
  import opened Wrappers
  import opened Digits

  /** The text of a mention of channel `id`. */
  function MentionText(id: string): string {
    "<#" + id + ">"
  }

  /** The regex tried at position `p` of `s`: the digit group of a match that
      starts there, if one does. */
  function MentionAt(s: string, p: nat): (d: Option<string>)
    requires p <= |s|
    ensures d.Some? ==> IsDecimal(d.value) && p + |d.value| + 3 <= |s|
    ensures d.Some? ==> s[p..p + |d.value| + 3] == MentionText(d.value)
  {
    if p + 2 < |s| && s[p] == '<' && s[p + 1] == '#' then
      var n := LeadingDigits(s[p + 2..]);
      if n > 0 && p + 2 + n < |s| && s[p + 2 + n] == '>' then
        Some(s[p + 2..p + 2 + n])
      else None
    else None
  }

  /** Whenever the text of a mention stands at `p`, the regex matches there,
      with exactly that id. */
  lemma MentionAtComplete(s: string, p: nat, id: string)
    requires IsDecimal(id) && p + |id| + 3 <= |s|
    requires s[p..p + |id| + 3] == MentionText(id)
    ensures MentionAt(s, p) == Some(id)
  {
    var t := s[p + 2..];
    var n := |id|;
    assert forall i :: 0 <= i < n ==> t[i] == id[i];
    assert t[n] == '>';
    assert s[p + 2..p + 2 + n] == id;
  }

  /** The leftmost match at or after `from`. */
  function FirstMention(s: string, from: nat): (r: Option<string>)
    requires from <= |s|
    ensures r.None? <==> forall p :: from <= p <= |s| ==> MentionAt(s, p).None?
    ensures r.Some? ==> exists p :: from <= p < |s| && MentionAt(s, p) == r &&
                                    forall q :: from <= q < p ==> MentionAt(s, q).None?
    decreases |s| - from
  {
    if from == |s| then None
    else if MentionAt(s, from).Some? then MentionAt(s, from)
    else FirstMention(s, from + 1)
  }

  /** When `p` is the first match at or after `from`, the search returns
      the match at `p`. */
  lemma {:induction false} LeftmostMention(s: string, from: nat, p: nat)
    requires from <= p < |s| && MentionAt(s, p).Some?
    requires forall q :: from <= q < p ==> MentionAt(s, q).None?
    ensures FirstMention(s, from) == MentionAt(s, p)
    decreases p - from
  {
    if from < p {
      assert MentionAt(s, from).None?;
      LeftmostMention(s, from + 1, p);
    }
  }

  /** Any match at or after `from` makes the search succeed. */
  lemma FirstMentionFindsSome(s: string, from: nat, p: nat)
    requires from <= p < |s| && MentionAt(s, p).Some?
    ensures FirstMention(s, from).Some?
  {
  }

  /** The id of the first channel mentioned in `room`, as `$matches[1]`. */
  function ChannelMention(room: string): Option<string> {
    FirstMention(room, 0)
  }

  /** A room string that contains the text of a mention yields some channel
      id, and yields that one when no mention starts before it. */
  lemma MentionFound(room: string, p: nat, id: string)
    requires IsDecimal(id) && p + |id| + 3 <= |room|
    requires room[p..p + |id| + 3] == MentionText(id)
    ensures ChannelMention(room).Some?
    ensures (forall q :: 0 <= q < p ==> MentionAt(room, q).None?) ==> ChannelMention(room) == Some(id)
  {
    MentionAtComplete(room, p, id);
    if forall q :: 0 <= q < p ==> MentionAt(room, q).None? {
      LeftmostMention(room, 0, p);
    } else {
      var q :| 0 <= q < p && MentionAt(room, q).Some?;
      FirstMentionFindsSome(room, 0, q);
    }
  }
}
