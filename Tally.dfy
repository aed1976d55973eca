/** What `!match tally` and `!match announce` make of a grouped match: the
    lines of the tally (`tallyMatch`) and the fields of the announcement embed
    (`announceMatch`), one block per competitor in the order of `entries`. */
module Tally {
  import opened Wrappers
  import opened MatchSchema

  /** One line of the tally message. `CompetitorLine.user` is absent in
      anonymous mode; `CountLine` carries the count and the voters listed
      after it. */
  datatype TallyLine =
    | Heading(title: string, idMatch: nat)
    | Blank
    | CompetitorLine(id: nat, user: Option<nat>, data: string)
    | CountLine(count: nat, voters: set<nat>)

  /** `$v->data ?? "<null>"`. */
  function DataText(data: Option<string>): (t: string)
    ensures data.None? ==> t == "<null>"
    ensures data.Some? ==> t == data.value
  {
    if data.Some? then data.value else "<null>"
  }

  predicate OrderListsEntries(info: MatchInfo) {
    forall i :: 0 <= i < |info.order| ==> info.order[i] in info.entries
  }

  /** `lines` holds a heading, a blank line, then for the i-th competitor of
      `info.order` its line, its count line and a blank line. */
  predicate LinesFor(lines: seq<TallyLine>, info: MatchInfo, anon: bool)
    requires OrderListsEntries(info)
  {
    && |lines| == 2 + 3 * |info.order|
    && lines[0] == Heading(info.title, info.idMatch) && lines[1] == Blank
    && forall i :: 0 <= i < |info.order| ==>
         var e := info.entries[info.order[i]];
         && lines[2 + 3 * i] == CompetitorLine(e.id, if anon then None else e.user, DataText(e.data))
         && lines[3 + 3 * i] == CountLine(|e.votes|, e.votes.Keys)
         && lines[4 + 3 * i] == Blank
  }

  /** What a tally of match `idMatch` reports against the tables: one block
      per competitor of the match, each competitor in some block, the user
      shown only when not anonymous and only for a guild member, and a count
      equal to the number of guild members whose vote names that
      competitor. */
  predicate TallyReports(lines: seq<TallyLine>, matches: MatchTable, competitors: CompetitorTable, votes: VoteTable,
                         idMatch: nat, members: set<nat>, anon: bool)
  {
    var n := |CompetitorIds(competitors, idMatch)|;
    && idMatch in matches
    && |lines| == 2 + 3 * n
    && lines[0] == Heading(matches[idMatch].title, idMatch)
    && (forall i :: 0 <= i < n ==> CompetitorBlock(lines[2 + 3 * i], lines[3 + 3 * i], competitors, votes, idMatch, members, anon))
    && (forall c :: c in CompetitorIds(competitors, idMatch) ==>
          exists i :: 0 <= i < n && lines[2 + 3 * i].CompetitorLine? && lines[2 + 3 * i].id == c)
  }

  /** A competitor line and the count line after it, against the tables. */
  predicate CompetitorBlock(head: TallyLine, count: TallyLine, competitors: CompetitorTable, votes: VoteTable,
                            idMatch: nat, members: set<nat>, anon: bool)
  {
    && head.CompetitorLine?
    && (idMatch, head.id) in competitors
    && var row := competitors[(idMatch, head.id)];
    && var ballots := VotesFor(votes, idMatch, head.id, members);
    && head.user == (if anon || row.idDiscord !in members then None else Some(row.idDiscord))
    && head.data == DataText(row.data)
    && count == CountLine(|ballots|, ballots.Keys)
  }

  /** The lines built from a grouped match report that match's tally. */
  lemma GroupedTallyReports(lines: seq<TallyLine>, info: MatchInfo, matches: MatchTable, competitors: CompetitorTable,
                            votes: VoteTable, idMatch: nat, members: set<nat>, anon: bool)
    requires Grouped(info, matches, competitors, votes, idMatch, members)
    requires OrderListsEntries(info) && LinesFor(lines, info, anon)
    ensures TallyReports(lines, matches, competitors, votes, idMatch, members, anon)
  {
    GroupedListsEveryCompetitor(info, matches, competitors, votes, idMatch, members);
    forall i | 0 <= i < |info.order|
      ensures CompetitorBlock(lines[2 + 3 * i], lines[3 + 3 * i], competitors, votes, idMatch, members, anon)
    {
      var c := info.order[i];
      var e := info.entries[c];
      assert e == EntryOf(competitors, votes, idMatch, c, members, VoterIds(votes, idMatch));
      assert e.id == c;
      assert lines[2 + 3 * i] == CompetitorLine(c, if anon then None else e.user, DataText(e.data));
      assert lines[3 + 3 * i] == CountLine(|e.votes|, e.votes.Keys);
    }
    forall c | c in CompetitorIds(competitors, idMatch)
      ensures exists i :: 0 <= i < |info.order| && lines[2 + 3 * i].CompetitorLine? && lines[2 + 3 * i].id == c
    {
      var i :| 0 <= i < |info.order| && info.order[i] == c;
      assert lines[2 + 3 * i].id == c;
    }
  }

  /** `tallyMatch`'s loop over the entries: a heading, a blank line, then
      three lines per competitor. The count is the size of the competitor's
      vote set; the competitor's user is shown only when not anonymous. The
      voters are listed in both modes. */
  method TallyLines(info: MatchInfo, anon: bool) returns (lines: seq<TallyLine>)
    requires OrderListsEntries(info)
    ensures LinesFor(lines, info, anon)
  {
    lines := [Heading(info.title, info.idMatch), Blank];
    for k := 0 to |info.order|
      invariant |lines| == 2 + 3 * k
      invariant lines[0] == Heading(info.title, info.idMatch) && lines[1] == Blank
      invariant forall i :: 0 <= i < k ==>
                  var e := info.entries[info.order[i]];
                  && lines[2 + 3 * i] == CompetitorLine(e.id, if anon then None else e.user, DataText(e.data))
                  && lines[3 + 3 * i] == CountLine(|e.votes|, e.votes.Keys)
                  && lines[4 + 3 * i] == Blank
    {
      var v := info.entries[info.order[k]];
      var head := if anon then CompetitorLine(v.id, None, DataText(v.data))
                  else CompetitorLine(v.id, v.user, DataText(v.data));
      lines := lines + [head, CountLine(|v.votes|, v.votes.Keys), Blank];
    }
  }

  /** The title of one embed field: `Option <id>` when anonymous, the
      competitor's display name otherwise (absent for a non-member). */
  datatype FieldTitle = OptionTitle(idCompetitor: nat) | UserTitle(user: Option<nat>)

  /** One embed field: its title, the competitor's data and the ids that the
      "Vote with `!match vote <match> <entry>`" hint names. */
  datatype AnnounceField = AnnounceField(title: FieldTitle, data: Option<string>, idMatch: nat, idCompetitor: nat)

  /** `fields` holds one field per competitor of `info.order`, in order. */
  predicate FieldsFor(fields: seq<AnnounceField>, info: MatchInfo, anon: bool)
    requires OrderListsEntries(info)
  {
    && |fields| == |info.order|
    && forall i :: 0 <= i < |info.order| ==>
         var e := info.entries[info.order[i]];
         && fields[i].title == (if anon then OptionTitle(e.id) else UserTitle(e.user))
         && fields[i].data == e.data
         && fields[i].idMatch == info.idMatch
         && fields[i].idCompetitor == e.id
  }

  /** What the announcement of match `idMatch` shows against the tables: one
      field per competitor of the match, each competitor in some field, with
      its data and the vote hint for it; the title names the user only when
      not anonymous and only for a guild member. */
  predicate AnnounceReports(fields: seq<AnnounceField>, competitors: CompetitorTable,
                            idMatch: nat, members: set<nat>, anon: bool)
  {
    && |fields| == |CompetitorIds(competitors, idMatch)|
    && (forall i :: 0 <= i < |fields| ==> FieldShows(fields[i], competitors, idMatch, members, anon))
    && (forall c :: c in CompetitorIds(competitors, idMatch) ==>
          exists i :: 0 <= i < |fields| && fields[i].idCompetitor == c)
  }

  predicate FieldShows(field: AnnounceField, competitors: CompetitorTable, idMatch: nat, members: set<nat>, anon: bool) {
    && (idMatch, field.idCompetitor) in competitors
    && field.idMatch == idMatch
    && var row := competitors[(idMatch, field.idCompetitor)];
    && field.data == row.data
    && field.title == if anon then OptionTitle(field.idCompetitor)
                      else UserTitle(if row.idDiscord in members then Some(row.idDiscord) else None)
  }

  /** The fields built from a grouped match are that match's announcement. */
  lemma GroupedAnnounceReports(fields: seq<AnnounceField>, info: MatchInfo, matches: MatchTable,
                               competitors: CompetitorTable, votes: VoteTable, idMatch: nat, members: set<nat>, anon: bool)
    requires Grouped(info, matches, competitors, votes, idMatch, members)
    requires OrderListsEntries(info) && FieldsFor(fields, info, anon)
    ensures AnnounceReports(fields, competitors, idMatch, members, anon)
  {
    GroupedListsEveryCompetitor(info, matches, competitors, votes, idMatch, members);
    forall i | 0 <= i < |fields|
      ensures FieldShows(fields[i], competitors, idMatch, members, anon)
    {
      var c := info.order[i];
      var e := info.entries[c];
      assert e == EntryOf(competitors, votes, idMatch, c, members, VoterIds(votes, idMatch));
      assert fields[i].idCompetitor == e.id == c;
    }
    forall c | c in CompetitorIds(competitors, idMatch)
      ensures exists i :: 0 <= i < |fields| && fields[i].idCompetitor == c
    {
      var i :| 0 <= i < |info.order| && info.order[i] == c;
      assert fields[i].idCompetitor == c;
    }
  }

  /** `announceMatch`'s loop over the entries: one field per competitor, in
      order; the title never names the user in anonymous mode. */
  method AnnounceFields(info: MatchInfo, anon: bool) returns (fields: seq<AnnounceField>)
    requires OrderListsEntries(info)
    ensures FieldsFor(fields, info, anon)
  {
    fields := [];
    for k := 0 to |info.order|
      invariant |fields| == k
      invariant forall i :: 0 <= i < k ==>
                  var e := info.entries[info.order[i]];
                  && fields[i].title == (if anon then OptionTitle(e.id) else UserTitle(e.user))
                  && fields[i].data == e.data
                  && fields[i].idMatch == info.idMatch
                  && fields[i].idCompetitor == e.id
    {
      var v := info.entries[info.order[k]];
      var title := if anon then OptionTitle(v.id) else UserTitle(v.user);
      fields := fields + [AnnounceField(title, v.data, info.idMatch, v.id)];
    }
  }
}
