/** The three tables behind `!match` (`match_matches`, `match_competitors`,
    `match_votes`) and the grouped view `getMatchInfo` builds from them. */
module MatchSchema {
  import opened Wrappers

  /** A `match_matches` row; the table's key `idMatch` is the map key. */
  datatype MatchRow = MatchRow(created: int, duedate: int, title: string)

  /** A `match_competitors` row; the key is `(idMatch, idCompetitor)`. */
  datatype CompetitorRow = CompetitorRow(idDiscord: nat, created: int, data: Option<string>)

  /** A `match_votes` row; the key is `(idVoter, idMatch)`. */
  datatype VoteRow = VoteRow(idCompetitor: nat, created: int)

  type MatchTable = map<nat, MatchRow>
  type CompetitorTable = map<(nat, nat), CompetitorRow>
  type VoteTable = map<(nat, nat), VoteRow>

  /** The two foreign keys: a competitor's match exists, and a vote names a
      competitor of the match it is cast in. */
  predicate ForeignKeysHold(matches: MatchTable, competitors: CompetitorTable, votes: VoteTable) {
    && (forall k :: k in competitors ==> k.0 in matches)
    && (forall k :: k in votes ==> (k.1, votes[k].idCompetitor) in competitors)
  }

  /** Ids of the competitors registered in `idMatch`. */
  function CompetitorIds(competitors: CompetitorTable, idMatch: nat): set<nat> {
    set k | k in competitors && k.0 == idMatch :: k.1
  }

  /** Ids of the voters who have a vote in `idMatch`. */
  function VoterIds(votes: VoteTable, idMatch: nat): set<nat> {
    set k | k in votes && k.1 == idMatch :: k.0
  }

  lemma VoterIdsMeaning(votes: VoteTable, idMatch: nat, v: nat)
    ensures v in VoterIds(votes, idMatch) <==> (v, idMatch) in votes
  {
    if (v, idMatch) in votes {
      var k := (v, idMatch);
      assert k in votes && k.1 == idMatch;
    }
  }

  lemma CompetitorIdsMeaning(competitors: CompetitorTable, idMatch: nat, c: nat)
    ensures c in CompetitorIds(competitors, idMatch) <==> (idMatch, c) in competitors
  {
    if (idMatch, c) in competitors {
      var k := (idMatch, c);
      assert k in competitors && k.0 == idMatch;
    }
  }

  /** Among `voters`, the guild members whose vote in `idMatch` is for
      `idCompetitor`, each with the time of the vote. */
  function VotesAmong(votes: VoteTable, idMatch: nat, idCompetitor: nat, members: set<nat>, voters: set<nat>): map<nat, int> {
    map v | v in voters && (v, idMatch) in votes && votes[(v, idMatch)].idCompetitor == idCompetitor && v in members
      :: votes[(v, idMatch)].created
  }

  /** The vote set `getMatchInfo` attaches to competitor `idCompetitor`. */
  function VotesFor(votes: VoteTable, idMatch: nat, idCompetitor: nat, members: set<nat>): map<nat, int> {
    VotesAmong(votes, idMatch, idCompetitor, members, VoterIds(votes, idMatch))
  }

  /** One competitor as `getMatchInfo` presents it; `user` is absent when the
      competitor's account is not (or no longer) a guild member, and `votes`
      maps voter ids to vote times. */
  datatype Entry = Entry(id: nat, user: Option<nat>, created: int, data: Option<string>, votes: map<nat, int>)

  /** The object `getMatchInfo` returns: the match row plus its competitors,
      keyed by id (`keyBy("id")`) and listed in `order`, the order in which the
      competitor query returned them. */
  datatype MatchInfo = MatchInfo(idMatch: nat, title: string, created: int, duedate: int,
                                 order: seq<nat>, entries: map<nat, Entry>)

  predicate Distinct(s: seq<nat>) {
    forall i, j :: 0 <= i < j < |s| ==> s[i] != s[j]
  }

  /** The entry for competitor `c` once the votes of `voters` are grouped. */
  function EntryOf(competitors: CompetitorTable, votes: VoteTable, idMatch: nat, c: nat, members: set<nat>, voters: set<nat>): Entry
    requires (idMatch, c) in competitors
  {
    var row := competitors[(idMatch, c)];
    Entry(c, if row.idDiscord in members then Some(row.idDiscord) else None, row.created, row.data,
          VotesAmong(votes, idMatch, c, members, voters))
  }

  /** `info` is what `getMatchInfo(idMatch)` builds: the match row, every
      competitor of the match exactly once, and for each competitor the votes
      of guild members cast for it. */
  predicate Grouped(info: MatchInfo, matches: MatchTable, competitors: CompetitorTable, votes: VoteTable,
                    idMatch: nat, members: set<nat>)
  {
    && idMatch in matches
    && info.idMatch == idMatch
    && info.title == matches[idMatch].title
    && info.created == matches[idMatch].created
    && info.duedate == matches[idMatch].duedate
    && info.entries.Keys == CompetitorIds(competitors, idMatch)
    && Distinct(info.order)
    && (forall i :: 0 <= i < |info.order| ==> info.order[i] in info.entries)
    && (forall c :: c in info.entries ==> c in info.order)
    && EntriesHold(info.entries, competitors, votes, idMatch, members, VoterIds(votes, idMatch))
  }

  /** The grouped view lists every competitor of the match exactly once,
      each with its own row and its current vote set. */
  lemma GroupedListsEveryCompetitor(info: MatchInfo, matches: MatchTable, competitors: CompetitorTable,
                                    votes: VoteTable, idMatch: nat, members: set<nat>)
    requires Grouped(info, matches, competitors, votes, idMatch, members)
    ensures |info.order| == |CompetitorIds(competitors, idMatch)|
    ensures forall c :: c in CompetitorIds(competitors, idMatch) ==>
              exists i :: 0 <= i < |info.order| && info.order[i] == c
    ensures forall i :: 0 <= i < |info.order| ==>
              && (idMatch, info.order[i]) in competitors
              && info.entries[info.order[i]] == EntryOf(competitors, votes, idMatch, info.order[i], members, VoterIds(votes, idMatch))
  {
    DistinctCardinality(info.order);
    assert Elements(info.order) == CompetitorIds(competitors, idMatch);
  }

  /** Every entry is its competitor's row with the votes of `voters` grouped. */
  predicate EntriesHold(entries: map<nat, Entry>, competitors: CompetitorTable, votes: VoteTable,
                        idMatch: nat, members: set<nat>, voters: set<nat>)
  {
    forall c :: c in entries ==>
      (idMatch, c) in competitors && entries[c] == EntryOf(competitors, votes, idMatch, c, members, voters)
  }

  /** `REPLACE INTO` on the vote table: a new key adds one row, an existing
      key keeps the row count. */
  lemma ReplaceGrowsByAtMostOne(votes: VoteTable, key: (nat, nat), row: VoteRow)
    ensures |votes[key := row]| == |votes| + (if key in votes then 0 else 1)
  {
    if key in votes {
      assert votes[key := row].Keys == votes.Keys;
    } else {
      assert votes[key := row].Keys == votes.Keys + {key};
    }
  }

  /** A vote naming a competitor of its match keeps the foreign keys. */
  lemma ReplaceKeepsForeignKeys(matches: MatchTable, competitors: CompetitorTable, votes: VoteTable,
                                voter: nat, idMatch: nat, row: VoteRow)
    requires ForeignKeysHold(matches, competitors, votes)
    requires (idMatch, row.idCompetitor) in competitors
    ensures ForeignKeysHold(matches, competitors, votes[(voter, idMatch) := row])
  {
  }

  /** Listing one more competitor, with no votes grouped yet. */
  lemma AddEntry(entries: map<nat, Entry>, competitors: CompetitorTable, votes: VoteTable,
                 idMatch: nat, members: set<nat>, c: nat)
    requires (idMatch, c) in competitors
    requires EntriesHold(entries, competitors, votes, idMatch, members, {})
    ensures EntriesHold(entries[c := EntryOf(competitors, votes, idMatch, c, members, {})],
                        competitors, votes, idMatch, members, {})
  {
  }

  lemma DistinctAppend(s: seq<nat>, x: nat)
    requires Distinct(s) && x !in s
    ensures Distinct(s + [x])
  {
  }

  /** Grouping one more vote: a guild member's vote is added to the set of
      the competitor it names, and every other set stays as it was. */
  lemma GroupStep(entries: map<nat, Entry>, competitors: CompetitorTable, votes: VoteTable,
                  idMatch: nat, members: set<nat>, done: set<nat>, v: nat)
    requires (v, idMatch) in votes && v !in done
    requires votes[(v, idMatch)].idCompetitor in entries
    requires EntriesHold(entries, competitors, votes, idMatch, members, done)
    ensures var vr := votes[(v, idMatch)];
            var e := entries[vr.idCompetitor];
            EntriesHold(if v in members then entries[vr.idCompetitor := e.(votes := e.votes[v := vr.created])] else entries,
                        competitors, votes, idMatch, members, done + {v})
  {
    var vr := votes[(v, idMatch)];
    forall c | c in entries {
      VotesAmongStep(votes, idMatch, c, members, done, v);
    }
  }

  /** Grouping one more voter changes only the set of the competitor that
      voter chose, and only when the voter is a guild member. */
  lemma VotesAmongStep(votes: VoteTable, idMatch: nat, c: nat, members: set<nat>, done: set<nat>, v: nat)
    requires (v, idMatch) in votes && v !in done
    ensures var row := votes[(v, idMatch)];
            VotesAmong(votes, idMatch, c, members, done + {v}) ==
              if row.idCompetitor == c && v in members
              then VotesAmong(votes, idMatch, c, members, done)[v := row.created]
              else VotesAmong(votes, idMatch, c, members, done)
  {
  }

  /** A guild member's vote lands in the set of exactly the competitor it
      names, keyed by the voter, with the vote's time. */
  lemma MemberVoteLandsOnce(votes: VoteTable, idMatch: nat, members: set<nat>, v: nat, c: nat)
    requires (v, idMatch) in votes && v in members
    ensures v in VotesFor(votes, idMatch, c, members) <==> c == votes[(v, idMatch)].idCompetitor
    ensures v in VotesFor(votes, idMatch, c, members) ==> VotesFor(votes, idMatch, c, members)[v] == votes[(v, idMatch)].created
  {
    VoterIdsMeaning(votes, idMatch, v);
  }

  /** Votes of accounts that are not guild members are left out. */
  lemma NonMemberVoteDropped(votes: VoteTable, idMatch: nat, members: set<nat>, v: nat, c: nat)
    requires v !in members
    ensures v !in VotesFor(votes, idMatch, c, members)
  {
  }

  /** Voting twice in one match: the voter appears in the set of the second
      competitor only. */
  lemma LastVoteWins(votes: VoteTable, idMatch: nat, members: set<nat>, v: nat, c1: nat, c2: nat, t1: int, t2: int, c: nat)
    requires v in members
    ensures var after := votes[(v, idMatch) := VoteRow(c1, t1)][(v, idMatch) := VoteRow(c2, t2)];
            v in VotesFor(after, idMatch, c, members) <==> c == c2
  {
    var after := votes[(v, idMatch) := VoteRow(c1, t1)][(v, idMatch) := VoteRow(c2, t2)];
    MemberVoteLandsOnce(after, idMatch, members, v, c);
  }

  /** The set of elements of a sequence. */
  function Elements(s: seq<nat>): (r: set<nat>)
    ensures forall x :: x in r <==> x in s
  {
    if s == [] then {} else Elements(s[..|s| - 1]) + {s[|s| - 1]}
  }

  /** A sequence without repetitions has as many distinct elements as it has
      positions. */
  lemma {:induction false} DistinctCardinality(s: seq<nat>)
    requires Distinct(s)
    ensures |Elements(s)| == |s|
  {
    if s != [] {
      var t := s[..|s| - 1];
      assert Distinct(t);
      DistinctCardinality(t);
      assert s[|s| - 1] !in t;
    }
  }
}
