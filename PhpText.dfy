/** The PHP string primitives the core relies on: `trim`, ASCII case folding
    and `str_replace` with an empty replacement. */
module PhpText {

  /** The characters PHP's `trim` strips by default: space, tab, newline,
      carriage return, NUL and vertical tab. */
  predicate IsTrimChar(c: char) {
    c == ' ' || c == '\t' || c == '\n' || c == '\r' || c == '\0' || c == '\U{0B}'
  }

  predicate AllTrimChars(s: string) {
    forall i :: 0 <= i < |s| ==> IsTrimChar(s[i])
  }

  function TrimStart(s: string): (r: string)
    ensures |r| <= |s|
  {
    if s != [] && IsTrimChar(s[0]) then TrimStart(s[1..]) else s
  }

  function TrimEnd(s: string): (r: string)
    ensures |r| <= |s|
    ensures r != [] ==> !IsTrimChar(r[|r| - 1])
  {
    if s != [] && IsTrimChar(s[|s| - 1]) then TrimEnd(s[..|s| - 1]) else s
  }

  function Trim(s: string): string {
    TrimStart(TrimEnd(s))
  }

  lemma {:induction false} TrimStartEmptyIff(s: string)
    ensures TrimStart(s) == [] <==> AllTrimChars(s)
  {
    if s != [] {
      TrimStartEmptyIff(s[1..]);
      if IsTrimChar(s[0]) {
        assert AllTrimChars(s) <==> AllTrimChars(s[1..]) by {
          if AllTrimChars(s[1..]) {
            forall i | 0 <= i < |s| ensures IsTrimChar(s[i]) {
              if i > 0 { assert s[i] == s[1..][i - 1]; }
            }
          }
        }
      }
    }
  }

  lemma {:induction false} TrimEndEmptyIff(s: string)
    ensures TrimEnd(s) == [] <==> AllTrimChars(s)
  {
    if s != [] {
      var p := s[..|s| - 1];
      TrimEndEmptyIff(p);
      if IsTrimChar(s[|s| - 1]) {
        assert AllTrimChars(s) <==> AllTrimChars(p) by {
          if AllTrimChars(p) {
            forall i | 0 <= i < |s| ensures IsTrimChar(s[i]) {
              if i < |s| - 1 { assert s[i] == p[i]; }
            }
          }
        }
      }
    }
  }

  /** `mb_strlen(trim($m)) == 0` holds exactly when `$m` is made of trim
      characters only. */
  lemma TrimEmptyIff(s: string)
    ensures |Trim(s)| == 0 <==> AllTrimChars(s)
  {
    TrimEndEmptyIff(s);
    TrimStartEmptyIff(TrimEnd(s));
    var t := TrimEnd(s);
    if t != [] {
      assert !IsTrimChar(t[|t| - 1]);
    }
  }

  /** ASCII lower-casing, as `mb_strtolower` and `stripos` treat the letters
      that occur here. */
  function Lower(c: char): (r: char)
    ensures 'A' <= c <= 'Z' ==> 'a' <= r <= 'z'
    ensures !('A' <= c <= 'Z') ==> r == c
  {
    if 'A' <= c <= 'Z' then (c as int - 'A' as int + 'a' as int) as char else c
  }

  /** `pat` occurs in `s` starting at index `i`. */
  predicate OccursAt(s: string, pat: string, i: nat) {
    i + |pat| <= |s| && s[i..i + |pat|] == pat
  }

  /** `str_replace($pat, "", $s)`: every non-overlapping occurrence of `pat`,
      found left to right, is removed; an empty `pat` leaves `s` as it is. */
  function RemoveAll(s: string, pat: string): (r: string)
    ensures |r| <= |s|
    ensures pat == [] ==> r == s
    ensures (forall i: nat :: !OccursAt(s, pat, i)) ==> r == s
    decreases |s|
  {
    if pat == [] || |s| < |pat| then s
    else if s[..|pat|] == pat then
      assert OccursAt(s, pat, 0);
      RemoveAll(s[|pat|..], pat)
    else
      assert forall i: nat :: OccursAt(s[1..], pat, i) ==> OccursAt(s, pat, i + 1);
      [s[0]] + RemoveAll(s[1..], pat)
  }
}
