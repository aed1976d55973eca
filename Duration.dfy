/** The relative-duration mini-language of `!match create`: `readTime`,
    `isRelativeTime` and `timeRelative` of src/Plugin/Match.php.

    Time is an integer count of seconds. Adding whole years is calendar
    arithmetic, so it is a parameter `addYears`; weeks, days, hours, minutes
    and seconds are fixed multiples of a second. */
module Duration {
  import opened Wrappers
  import opened Digits
  import opened PhpText

  /** Unit letters of the classifier regex `/((\d+)([ywdhm]))/i`. */
  const ClassifierUnits: set<char> := {'y', 'w', 'd', 'h', 'm', 'Y', 'W', 'D', 'H', 'M'}

  /** Unit letters of the evaluator regex `/((\d+)([ywdhms]))/i`: one more, `s`. */
  const EvaluatorUnits: set<char> := ClassifierUnits + {'s', 'S'}

  const Minute := 60
  const Hour := 60 * Minute
  const Day := 24 * Hour
  const Week := 7 * Day

  /** `period` when `!match create` is given no second operand. */
  const DefaultPeriod := "24h"

  /** What a regex scan of a string leaves behind, piece by piece: either a
      match (its digit group and its unit letter) or one character that no
      match covered. */
  datatype Piece = Matched(digits: string, letter: char) | Literal(c: char)

  predicate WellFormed(ps: seq<Piece>, units: set<char>) {
    forall i :: 0 <= i < |ps| && ps[i].Matched? ==> IsDecimal(ps[i].digits) && ps[i].letter in units
  }

  /** Left-to-right, non-overlapping matching of `(\d+)([units])`, the way
      `preg_match_all` and `preg_replace` walk the subject. At a digit the
      greedy `\d+` takes the whole run of digits; backtracking cannot help,
      since a shorter run is followed by a digit and not by a unit letter.
      Every match has both of its groups, so the fallbacks `?? 1` and `?? "m"`
      of the evaluator never apply. */
  function Scan(s: string, units: set<char>): (ps: seq<Piece>)
    ensures WellFormed(ps, units)
    decreases |s|
  {
    if s == [] then []
    else
      var n := LeadingDigits(s);
      if 0 < n < |s| && s[n] in units then
        [Matched(s[..n], s[n])] + Scan(s[n + 1..], units)
      else
        [Literal(s[0])] + Scan(s[1..], units)
  }

  function PieceText(p: Piece): string {
    match p
    case Matched(ds, u) => ds + [u]
    case Literal(c) => [c]
  }

  function Text(ps: seq<Piece>): string {
    if ps == [] then [] else PieceText(ps[0]) + Text(ps[1..])
  }

  lemma TextCons(p: Piece, ps: seq<Piece>)
    ensures Text([p] + ps) == PieceText(p) + Text(ps)
  {
    assert ([p] + ps)[1..] == ps;
  }

  /** What `preg_replace(regex, "", $r)` returns: the uncovered characters. */
  function Residue(ps: seq<Piece>): string {
    if ps == [] then []
    else (if ps[0].Literal? then [ps[0].c] else []) + Residue(ps[1..])
  }

  datatype Unit = Years | Weeks | Days | Hours | Minutes | Seconds

  datatype Token = Token(count: nat, unit: Unit)

  /** The `switch (mb_strtolower($m[3]))` of the evaluator. */
  function UnitOf(letter: char): (u: Unit)
    requires letter in EvaluatorUnits
    ensures u == Seconds <==> letter !in ClassifierUnits
  {
    match Lower(letter)
    case 'y' => Years
    case 'w' => Weeks
    case 'd' => Days
    case 'h' => Hours
    case 'm' => Minutes
    case _ => Seconds
  }

  /** The matches of a scan, in input order, as (count, unit) tokens. */
  function Tokens(ps: seq<Piece>): (ts: seq<Token>)
    requires WellFormed(ps, EvaluatorUnits)
    ensures |ts| <= |ps|
    ensures |ts| > 0 <==> exists i :: 0 <= i < |ps| && ps[i].Matched?
  {
    if ps == [] then []
    else
      var rest := Tokens(ps[1..]);
      assert forall i :: 1 <= i < |ps| && ps[i].Matched? ==> ps[1..][i - 1].Matched?;
      match ps[0]
      case Matched(ds, u) => [Token(DecimalValue(ds), UnitOf(u))] + rest
      case Literal(_) => rest
  }

  /** The tokens the classifier regex finds in `r`. */
  function RelativeTokens(r: string): seq<Token> {
    Tokens(Scan(r, ClassifierUnits))
  }

  /** The tokens the evaluator regex finds in `r`. */
  function EvaluatedTokens(r: string): seq<Token> {
    Tokens(Scan(r, EvaluatorUnits))
  }

  /** `r` is a relative duration: at least one `<digits><unit>` token occurs
      (units `ywdhm`, either case) and removing every such token leaves
      nothing but trim characters. */
  predicate IsRelative(r: string) {
    var ps := Scan(r, ClassifierUnits);
    |Tokens(ps)| > 0 && AllTrimChars(Residue(ps))
  }

  /** `isRelativeTime`: counts the matches in a loop, then checks that the
      trimmed remainder is empty. */
  method IsRelativeTime(r: string) returns (b: bool)
    ensures b == IsRelative(r)
  {
    var ps := Scan(r, ClassifierUnits);
    var matches := Tokens(ps);
    var nmatches := 0;
    for i := 0 to |matches|
      invariant nmatches == i
    {
      nmatches := nmatches + 1;
    }
    var m := Residue(ps);
    TrimEmptyIff(m);
    b := nmatches > 0 && |Trim(m)| == 0;
  }

  /** One step of the evaluator's loop: add `count` units to `t`. */
  function Advance(t: int, tok: Token, addYears: (int, nat) -> int): int {
    match tok.unit
    case Years => addYears(t, tok.count)
    case Weeks => t + tok.count * Week
    case Days => t + tok.count * Day
    case Hours => t + tok.count * Hour
    case Minutes => t + tok.count * Minute
    case Seconds => t + tok.count
  }

  /** The tokens applied to `now` one after the other, in input order. */
  function Apply(now: int, ts: seq<Token>, addYears: (int, nat) -> int): int {
    if ts == [] then now else Advance(Apply(now, ts[..|ts| - 1], addYears), ts[|ts| - 1], addYears)
  }

  datatype TimeError =
    | NoRelativeTime   // "Could not parse relative time."
    | BadTimestamp     // the absolute-time parser rejected the text

  /** `timeRelative`: folds the evaluator's matches into an offset from `now`. */
  method TimeRelative(r: string, now: int, addYears: (int, nat) -> int) returns (res: Result<int, TimeError>)
    ensures EvaluatedTokens(r) == [] ==> res == Failure(NoRelativeTime)
    ensures EvaluatedTokens(r) != [] ==> res == Success(Apply(now, EvaluatedTokens(r), addYears))
  {
    var matches := EvaluatedTokens(r);
    if |matches| > 0 {
      var time := now;
      for i := 0 to |matches|
        invariant time == Apply(now, matches[..i], addYears)
      {
        assert matches[..i + 1][..i] == matches[..i];
        time := Advance(time, matches[i], addYears);
      }
      assert matches[..|matches|] == matches;
      return Success(time);
    } else {
      return Failure(NoRelativeTime);
    }
  }

  /** What `readTime` resolves `r` to: the relative deadline when `r` is
      relative, otherwise whatever the absolute-time parser makes of it. */
  function ResolvedTime(r: string, now: int, addYears: (int, nat) -> int, parseAbsolute: string -> Option<int>): Result<int, TimeError> {
    if IsRelative(r) then Success(Apply(now, RelativeTokens(r), addYears))
    else if parseAbsolute(r).Some? then Success(parseAbsolute(r).value)
    else Failure(BadTimestamp)
  }

  /** `readTime`. On a relative string the evaluator sees exactly the
      classifier's tokens, so its `s` case and its "could not parse" error
      are never reached from here. */
  method ReadTime(r: string, now: int, addYears: (int, nat) -> int, parseAbsolute: string -> Option<int>)
    returns (res: Result<int, TimeError>)
    ensures IsRelative(r) ==> res == Success(Apply(now, RelativeTokens(r), addYears))
    ensures !IsRelative(r) ==> res == (if parseAbsolute(r).Some? then Success(parseAbsolute(r).value) else Failure(BadTimestamp))
    ensures res == ResolvedTime(r, now, addYears, parseAbsolute)
  {
    var relative := IsRelativeTime(r);
    if relative {
      ClassifierAgreesWithEvaluator(r);
      res := TimeRelative(r, now, addYears);
    } else {
      var t := parseAbsolute(r);
      res := if t.Some? then Success(t.value) else Failure(BadTimestamp);
    }
  }

  // ---------------------------------------------------------------------
  // Properties of the scan

  /** The scan partitions its input: its pieces, read back, are the input. */
  lemma {:induction false} ScanCovers(s: string, units: set<char>)
    ensures Text(Scan(s, units)) == s
  {
    if s != [] {
      var n := LeadingDigits(s);
      if 0 < n < |s| && s[n] in units {
        var rest := s[n + 1..];
        var tail := Scan(rest, units);
        assert Scan(s, units) == [Matched(s[..n], s[n])] + tail;
        ScanCovers(rest, units);
        TextCons(Matched(s[..n], s[n]), tail);
        SplitAround(s, n);
      } else {
        var rest := s[1..];
        var tail := Scan(rest, units);
        assert Scan(s, units) == [Literal(s[0])] + tail;
        ScanCovers(rest, units);
        TextCons(Literal(s[0]), tail);
        SplitAround(s, 0);
      }
    }
  }

  lemma SplitAround(s: string, n: nat)
    requires n < |s|
    ensures s == s[..n] + [s[n]] + s[n + 1..]
    ensures n == 0 ==> s == [s[0]] + s[1..]
  {
  }

  /** A character that is neither a digit nor a unit letter is never covered
      by a match, so it survives into the residue. */
  lemma {:induction false} StrayCharSurvives(s: string, units: set<char>, k: nat)
    requires k < |s| && !IsDigit(s[k]) && s[k] !in units
    ensures s[k] in Residue(Scan(s, units))
  {
    var n := LeadingDigits(s);
    if 0 < n < |s| && s[n] in units {
      assert k > n;
      StrayCharSurvives(s[n + 1..], units, k - n - 1);
    } else if k > 0 {
      StrayCharSurvives(s[1..], units, k - 1);
    }
  }

  /** A character other than a digit, a unit letter `ywdhm` or a trim
      character makes the whole string non-relative; `"24h and stuff"` is one
      such string. */
  lemma StrayCharNotRelative(r: string, k: nat)
    requires k < |r| && !IsDigit(r[k]) && r[k] !in ClassifierUnits && !IsTrimChar(r[k])
    ensures !IsRelative(r)
  {
    StrayCharSurvives(r, ClassifierUnits, k);
  }

  /** Any `s` in the string, such as the one in `"30s"`, makes it
      non-relative: the classifier has no `s` unit. */
  lemma SecondsNeverRelative(r: string, k: nat)
    requires k < |r| && (r[k] == 's' || r[k] == 'S')
    ensures !IsRelative(r)
  {
    StrayCharNotRelative(r, k);
  }

  /** Two unit sets that agree on every character of `s` scan it alike. */
  lemma {:induction false} ScanSameUnits(s: string, u1: set<char>, u2: set<char>)
    requires forall i :: 0 <= i < |s| ==> (s[i] in u1 <==> s[i] in u2)
    ensures Scan(s, u1) == Scan(s, u2)
  {
    if s != [] {
      var n := LeadingDigits(s);
      ScanSameUnits(s[1..], u1, u2);
      if n < |s| - 1 {
        ScanSameUnits(s[n + 1..], u1, u2);
      }
    }
  }

  /** On a relative string the evaluator regex finds the very matches the
      classifier found. */
  lemma ClassifierAgreesWithEvaluator(r: string)
    requires IsRelative(r)
    ensures Scan(r, EvaluatorUnits) == Scan(r, ClassifierUnits)
    ensures EvaluatedTokens(r) == RelativeTokens(r) != []
  {
    forall i | 0 <= i < |r| ensures r[i] in EvaluatorUnits <==> r[i] in ClassifierUnits {
      if r[i] == 's' || r[i] == 'S' {
        SecondsNeverRelative(r, i);
      }
    }
    ScanSameUnits(r, EvaluatorUnits, ClassifierUnits);
  }

  /** The tokens of a relative string never carry the `s` unit. */
  lemma {:induction false} ClassifierTokensHaveNoSeconds(ps: seq<Piece>)
    requires WellFormed(ps, ClassifierUnits)
    ensures forall i :: 0 <= i < |Tokens(ps)| ==> Tokens(ps)[i].unit != Seconds
  {
    if ps != [] {
      assert WellFormed(ps[1..], ClassifierUnits) by {
        forall i | 0 <= i < |ps[1..]| && ps[1..][i].Matched?
          ensures IsDecimal(ps[1..][i].digits) && ps[1..][i].letter in ClassifierUnits {
          assert ps[1..][i] == ps[i + 1];
        }
      }
      ClassifierTokensHaveNoSeconds(ps[1..]);
    }
  }

  // ---------------------------------------------------------------------
  // Completeness of the scan

  /** Pieces that a scan could have produced: every match is a digit run
      with a unit letter, and no stray character is a digit, so no match
      can reach back into the piece before it. */
  predicate Separable(ps: seq<Piece>, units: set<char>) {
    && WellFormed(ps, units)
    && forall i :: 0 <= i < |ps| && ps[i].Literal? ==> !IsDigit(ps[i].c)
  }

  /** The greedy digit run of `ds + [u] + rest` stops at the unit letter. */
  lemma LeadingDigitsOfMatch(ds: string, u: char, rest: string)
    requires IsDecimal(ds) && !IsDigit(u)
    ensures LeadingDigits(ds + [u] + rest) == |ds|
  {
    var s := ds + [u] + rest;
    assert forall i :: 0 <= i < |ds| ==> s[i] == ds[i];
    assert s[|ds|] == u;
  }

  /** The scan finds every match: scanning the text of pieces that a scan
      could have produced gives back exactly those pieces. Together with
      `ScanCovers` this makes `Scan` and `Text` inverse to each other. */
  lemma {:induction false} ScanOfText(ps: seq<Piece>, units: set<char>)
    requires Separable(ps, units)
    requires forall c :: c in units ==> !IsDigit(c)
    ensures Scan(Text(ps), units) == ps
  {
    if ps != [] {
      var tail := ps[1..];
      assert Separable(tail, units) by {
        forall i | 0 <= i < |tail| ensures tail[i] == ps[i + 1] {
        }
      }
      ScanOfText(tail, units);
      TextCons(ps[0], tail);
      assert [ps[0]] + tail == ps;
      var s := Text(ps);
      match ps[0]
      case Matched(ds, u) =>
        assert ps[0].Matched?;
        LeadingDigitsOfMatch(ds, u, Text(tail));
        assert s == ds + [u] + Text(tail);
        assert s[..|ds|] == ds && s[|ds|] == u && s[|ds| + 1..] == Text(tail);
      case Literal(c) =>
        assert ps[0].Literal?;
        assert s == [c] + Text(tail);
        assert s[1..] == Text(tail);
    }
  }

  /** The residue trims to nothing exactly when every stray character is a
      trim character. */
  lemma {:induction false} ResidueAllTrim(ps: seq<Piece>)
    ensures AllTrimChars(Residue(ps)) <==>
            forall i :: 0 <= i < |ps| && ps[i].Literal? ==> IsTrimChar(ps[i].c)
  {
    if ps != [] {
      var tail := ps[1..];
      ResidueAllTrim(tail);
      var head := if ps[0].Literal? then [ps[0].c] else [];
      assert Residue(ps) == head + Residue(tail);
      if forall i :: 0 <= i < |ps| && ps[i].Literal? ==> IsTrimChar(ps[i].c) {
        forall i | 0 <= i < |tail| && tail[i].Literal? ensures IsTrimChar(tail[i].c) {
          assert tail[i] == ps[i + 1];
        }
      }
      if AllTrimChars(Residue(ps)) {
        assert AllTrimChars(Residue(tail)) by {
          forall i | 0 <= i < |Residue(tail)| ensures IsTrimChar(Residue(tail)[i]) {
            assert Residue(tail)[i] == Residue(ps)[|head| + i];
          }
        }
        forall i | 0 <= i < |ps| && ps[i].Literal? ensures IsTrimChar(ps[i].c) {
          if i == 0 {
            assert Residue(ps)[0] == ps[0].c;
          } else {
            assert ps[i] == tail[i - 1];
          }
        }
      }
    }
  }

  /** `isRelativeTime`'s iff over every string a scan can describe: the
      text of some pieces is relative exactly when at least one piece is a
      `ywdhm` match and every stray character is a trim character. */
  lemma RelativeIff(ps: seq<Piece>)
    requires Separable(ps, ClassifierUnits)
    ensures IsRelative(Text(ps)) <==>
            && (exists i :: 0 <= i < |ps| && ps[i].Matched?)
            && (forall i :: 0 <= i < |ps| && ps[i].Literal? ==> IsTrimChar(ps[i].c))
  {
    ScanOfText(ps, ClassifierUnits);
    ResidueAllTrim(ps);
  }

  // ---------------------------------------------------------------------
  // Properties of the fold

  /** Adding a positive number of years moves time forward. */
  ghost predicate YearsAdvance(addYears: (int, nat) -> int) {
    forall t: int, n: nat :: n > 0 ==> addYears(t, n) > t
  }

  predicate AllPositive(ts: seq<Token>) {
    forall i :: 0 <= i < |ts| ==> ts[i].count > 0
  }

  /** With every count positive, the deadline is strictly later than `now`. */
  lemma {:induction false} ApplyIsLater(now: int, ts: seq<Token>, addYears: (int, nat) -> int)
    requires YearsAdvance(addYears)
    requires ts != [] && AllPositive(ts)
    ensures Apply(now, ts, addYears) > now
  {
    var init := ts[..|ts| - 1];
    if init != [] {
      ApplyIsLater(now, init, addYears);
    }
  }

  predicate NoYears(ts: seq<Token>) {
    forall i :: 0 <= i < |ts| ==> ts[i].unit != Years
  }

  function OffsetOf(tok: Token): int {
    match tok.unit
    case Years => 0
    case Weeks => tok.count * Week
    case Days => tok.count * Day
    case Hours => tok.count * Hour
    case Minutes => tok.count * Minute
    case Seconds => tok.count
  }

  function TotalSeconds(ts: seq<Token>): int {
    if ts == [] then 0 else TotalSeconds(ts[..|ts| - 1]) + OffsetOf(ts[|ts| - 1])
  }

  /** Without years the deadline is `now` plus a fixed offset, so the same
      tokens applied from two anchors keep the anchors' distance. */
  lemma {:induction false} YearFreeIsOffset(now: int, ts: seq<Token>, addYears: (int, nat) -> int)
    requires NoYears(ts)
    ensures Apply(now, ts, addYears) == now + TotalSeconds(ts)
  {
    if ts != [] {
      YearFreeIsOffset(now, ts[..|ts| - 1], addYears);
    }
  }

  lemma {:induction false} TotalSecondsAppend(a: seq<Token>, b: seq<Token>)
    ensures TotalSeconds(a + b) == TotalSeconds(a) + TotalSeconds(b)
  {
    if b != [] {
      var init := b[..|b| - 1];
      TotalSecondsAppend(a, init);
      assert (a + b)[..|a + b| - 1] == a + init;
    } else {
      assert a + b == a;
    }
  }

  /** Taking the token at `k` out of the fold takes out its offset. */
  lemma {:induction false} TotalSecondsWithout(b: seq<Token>, k: nat)
    requires k < |b|
    ensures TotalSeconds(b) == TotalSeconds(b[..k] + b[k + 1..]) + OffsetOf(b[k])
  {
    var left, x, right := b[..k], b[k], b[k + 1..];
    assert b == (left + [x]) + right;
    assert (left + [x])[..|left|] == left;
    calc {
      TotalSeconds(b);
      { TotalSecondsAppend(left + [x], right); }
      TotalSeconds(left + [x]) + TotalSeconds(right);
      TotalSeconds(left) + OffsetOf(x) + TotalSeconds(right);
      { TotalSecondsAppend(left, right); }
      TotalSeconds(left + right) + OffsetOf(x);
    }
  }

  /** Removing the same element from two equal multisets of tokens. */
  lemma {:induction false} MultisetWithout(init: seq<Token>, x: Token, b: seq<Token>, k: nat)
    requires k < |b| && b[k] == x
    requires multiset(init + [x]) == multiset(b)
    ensures multiset(init) == multiset(b[..k] + b[k + 1..])
  {
    var left, right := b[..k], b[k + 1..];
    assert b == left + [x] + right;
    calc {
      multiset(init) + multiset{x};
      multiset(init + [x]);
      multiset(b);
      multiset(left) + multiset{x} + multiset(right);
      multiset(left + right) + multiset{x};
    }
    forall y ensures multiset(init)[y] == multiset(left + right)[y] {
      assert (multiset(init) + multiset{x})[y] == (multiset(left + right) + multiset{x})[y];
    }
  }

  /** The fixed offset does not depend on the order of the tokens. */
  lemma {:induction false} TotalSecondsReorder(a: seq<Token>, b: seq<Token>)
    requires multiset(a) == multiset(b)
    ensures TotalSeconds(a) == TotalSeconds(b)
    decreases |a|
  {
    if a == [] {
      assert |b| == |multiset(b)| == 0;
    } else {
      var x := a[|a| - 1];
      var init := a[..|a| - 1];
      assert a == init + [x];
      assert x in multiset(b);
      var k :| 0 <= k < |b| && b[k] == x;
      MultisetWithout(init, x, b, k);
      TotalSecondsReorder(init, b[..k] + b[k + 1..]);
      TotalSecondsWithout(b, k);
    }
  }

  /** Without years the order of the tokens does not matter: `3d2h` and
      `2h3d` give the same deadline. */
  lemma YearFreeOrderIrrelevant(now: int, a: seq<Token>, b: seq<Token>, addYears: (int, nat) -> int)
    requires NoYears(a) && multiset(a) == multiset(b)
    ensures Apply(now, a, addYears) == Apply(now, b, addYears)
  {
    assert NoYears(b) by {
      forall i | 0 <= i < |b| ensures b[i].unit != Years {
        assert b[i] in multiset(a);
      }
    }
    YearFreeIsOffset(now, a, addYears);
    YearFreeIsOffset(now, b, addYears);
    TotalSecondsReorder(a, b);
  }

  // ---------------------------------------------------------------------
  // Worked examples

  /** The scan of `"3d2h"`: two matches and no stray character. */
  lemma ScanThreeDaysTwoHours()
    ensures Scan("3d2h", ClassifierUnits) == [Matched("3", 'd'), Matched("2", 'h')]
  {
    assert Scan("2h", ClassifierUnits) == [Matched("2", 'h')] by {
      assert LeadingDigits("2h") == 1;
      assert "2h"[2..] == [] && "2h"[..1] == "2";
    }
    assert LeadingDigits("3d2h") == 1;
    assert "3d2h"[2..] == "2h" && "3d2h"[..1] == "3";
  }

  /** `"3d2h"` is relative and resolves to three days and two hours from now. */
  lemma ThreeDaysTwoHours(now: int, addYears: (int, nat) -> int)
    ensures IsRelative("3d2h")
    ensures RelativeTokens("3d2h") == [Token(3, Days), Token(2, Hours)]
    ensures Apply(now, RelativeTokens("3d2h"), addYears) == now + 3 * Day + 2 * Hour
  {
    var ps := [Matched("3", 'd'), Matched("2", 'h')];
    ScanThreeDaysTwoHours();
    assert Residue(ps) == [] by {
      assert ps[1..] == [Matched("2", 'h')] && ps[1..][1..] == [];
    }
    TokensThreeDaysTwoHours();
    ApplyTwo(now, Token(3, Days), Token(2, Hours), addYears);
  }

  lemma TokensThreeDaysTwoHours()
    ensures Tokens([Matched("3", 'd'), Matched("2", 'h')]) == [Token(3, Days), Token(2, Hours)]
  {
    var ps := [Matched("3", 'd'), Matched("2", 'h')];
    assert ps[1..] == [Matched("2", 'h')] && ps[1..][1..] == [];
    assert DecimalValue("3") == 3 && DecimalValue("2") == 2;
  }

  /** Two tokens are applied first to last. */
  lemma ApplyTwo(now: int, a: Token, b: Token, addYears: (int, nat) -> int)
    ensures Apply(now, [a, b], addYears) == Advance(Advance(now, a, addYears), b, addYears)
  {
    assert [a, b][..1] == [a] && [a][..0] == [];
    assert Apply(now, [a], addYears) == Advance(now, a, addYears);
    assert Apply(now, [a, b], addYears) == Advance(Apply(now, [a], addYears), b, addYears);
  }

  /** Omitting `period` on create gives a deadline 24 hours from now. */
  lemma DefaultPeriodIsOneDay(now: int, addYears: (int, nat) -> int, parseAbsolute: string -> Option<int>)
    ensures IsRelative(DefaultPeriod)
    ensures ResolvedTime(DefaultPeriod, now, addYears, parseAbsolute) == Success(now + 24 * Hour)
  {
    var s := DefaultPeriod;
    assert LeadingDigits(s[2..]) == 0;
    assert LeadingDigits(s[1..]) == 1;
    assert LeadingDigits(s) == 2;
    assert s[3..] == [] && s[..2] == "24";
    var ps := Scan(s, ClassifierUnits);
    assert ps == [Matched("24", 'h')] && ps[1..] == [];
    assert Residue(ps) == [];
    assert DecimalValue("24") == 24 by {
      assert "24"[..1] == "2";
      assert DecimalValue("2") == 2;
    }
    var ts := [Token(24, Hours)];
    assert Tokens(ps) == ts;
    assert RelativeTokens(s) == ts;
    assert ts[..0] == [];
    assert Apply(now, ts, addYears) == now + 24 * Hour;
  }

  /** `"24h and stuff"` is not relative. */
  lemma TrailingWordsNotRelative()
    ensures !IsRelative("24h and stuff")
  {
    StrayCharNotRelative("24h and stuff", 4);
  }

  /** `"1d2"` is not relative: the trailing `2` has no unit. */
  lemma DanglingDigitNotRelative()
    ensures !IsRelative("1d2")
  {
    var s := "1d2";
    assert LeadingDigits("2") == 1;
    assert "2"[1..] == [];
    assert Scan("2", ClassifierUnits) == [Literal('2')];
    assert LeadingDigits(s) == 1;
    assert s[2..] == "2" && s[..1] == "1";
    var ps := Scan(s, ClassifierUnits);
    assert ps == [Matched("1", 'd'), Literal('2')];
    assert ps[1..] == [Literal('2')] && ps[1..][1..] == [];
    assert Residue(ps[1..]) == "2";
    assert Residue(ps) == "2";
  }

  /** `"30s"` is not relative. */
  lemma ThirtySecondsNotRelative()
    ensures !IsRelative("30s")
  {
    SecondsNeverRelative("30s", 2);
  }
}
