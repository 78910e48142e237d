/**
  Character classes of JavaScript regular expressions (without the `u` or `m`
  flags) and the scanning primitives the hand-written matchers are built from:
  greedy runs, literals at a position, and the leftmost / rightmost search that
  a backtracking engine performs for an unanchored pattern and for a greedy `.+`.
 */
module Text {
  import opened Wrappers

  // ---------------------------------------------------------------- classes

  /** The characters JavaScript's `.` does not match. */
  predicate IsLineTerminator(c: char) {
    c == '\n' || c == '\r' || c == '\U{2028}' || c == '\U{2029}'
  }

  /** `.` */
  predicate IsDot(c: char) {
    !IsLineTerminator(c)
  }

  /** `\s`: white space and line terminators as ECMAScript defines them. */
  predicate IsWhitespace(c: char) {
    c == '\t' || c == '\n' || c == '\U{000B}' || c == '\U{000C}' || c == '\r' || c == ' '
    || c == '\U{00A0}' || c == '\U{1680}' || ('\U{2000}' <= c <= '\U{200A}')
    || c == '\U{2028}' || c == '\U{2029}' || c == '\U{202F}' || c == '\U{205F}'
    || c == '\U{3000}' || c == '\U{FEFF}'
  }

  /** `\S` */
  predicate IsNonWhitespace(c: char) {
    !IsWhitespace(c)
  }

  /** `\d` */
  predicate IsDigit(c: char) {
    '0' <= c <= '9'
  }

  /** `[a-z]` */
  predicate IsLower(c: char) {
    'a' <= c <= 'z'
  }

  /** `[a-zA-Z0-9]` */
  predicate IsAlnum(c: char) {
    IsLower(c) || ('A' <= c <= 'Z') || IsDigit(c)
  }

  /** `\w`, that is `[a-zA-Z0-9_]` */
  predicate IsWordChar(c: char) {
    IsAlnum(c) || c == '_'
  }

  /** `(\w|-)` and `[a-zA-Z0-9_-]`, the same set */
  predicate IsIdChar(c: char) {
    IsWordChar(c) || c == '-'
  }

  /** `[^_]` (a negated class also matches line terminators) */
  predicate IsNotUnderscore(c: char) {
    c != '_'
  }

  /** `=` */
  predicate IsEquals(c: char) {
    c == '='
  }

  /** `[a-z]` or `/`: the alphabet of `([a-z]*\/)*` */
  predicate IsLowerOrSlash(c: char) {
    IsLower(c) || c == '/'
  }

  // ---------------------------------------------------------------- positions

  /** Every character of `s[i..j]` is in class `p`. */
  predicate All(s: string, i: nat, j: nat, p: char -> bool)
    requires i <= j <= |s|
  {
    forall k :: i <= k < j ==> p(s[k])
  }

  /** The literal `lit` occurs in `s` at position `i`. */
  predicate LitAt(s: string, i: nat, lit: string) {
    i + |lit| <= |s| && s[i..i + |lit|] == lit
  }

  predicate EndsWith(s: string, suffix: string) {
    |suffix| <= |s| && s[|s| - |suffix|..] == suffix
  }

  /** The end of the greedy run `p*` that starts at `i`: as far as the class reaches. */
  function RunEnd(s: string, i: nat, p: char -> bool): (e: nat)
    requires i <= |s|
    ensures i <= e <= |s|
    ensures All(s, i, e, p)
    ensures e == |s| || !p(s[e])
    decreases |s| - i
  {
    if i < |s| && p(s[i]) then RunEnd(s, i + 1, p) else i
  }

  /** A run of `p` from `i` to `j` never reaches past the greedy run's end. */
  lemma {:induction false} RunEndCovers(s: string, i: nat, j: nat, p: char -> bool)
    requires i <= j <= |s| && All(s, i, j, p)
    ensures j <= RunEnd(s, i, p)
  {
  }

  /** A run that is followed by a character outside the class is the greedy run. */
  lemma {:induction false} RunEndIs(s: string, i: nat, j: nat, p: char -> bool)
    requires i <= j <= |s| && All(s, i, j, p) && (j == |s| || !p(s[j]))
    ensures RunEnd(s, i, p) == j
  {
    RunEndCovers(s, i, j, p);
  }

  // ---------------------------------------------------------------- search

  /**
    The leftmost start position `k >= i` at which `at` matches, as a backtracking
    engine finds it for an unanchored pattern (a match may start at `|s|`).
   */
  function Leftmost<T>(s: string, i: nat, at: (string, nat) -> Option<T>): (r: Option<(nat, T)>)
    requires i <= |s| + 1
    ensures r.Some? ==> i <= r.value.0 <= |s| && at(s, r.value.0) == Some(r.value.1)
    ensures r.Some? ==> forall k :: i <= k < r.value.0 ==> at(s, k).None?
    ensures r.None? ==> forall k :: i <= k <= |s| ==> at(s, k).None?
    decreases |s| + 1 - i
  {
    if i > |s| then None
    else match at(s, i)
      case Some(t) => Some((i, t))
      case None => Leftmost(s, i + 1, at)
  }

  /** Where the pattern matches at no start position, the search finds nothing. */
  lemma LeftmostNone<T>(s: string, i: nat, at: (string, nat) -> Option<T>)
    requires i <= |s| + 1
    requires forall k :: i <= k <= |s| ==> at(s, k).None?
    ensures Leftmost(s, i, at).None?
  {
  }

  /**
    The largest end position `k` with `lo < k <= hi` at which `at` matches: the
    order in which a greedy `.+` that starts at `lo` gives characters back.
   */
  function Rightmost<T>(s: string, lo: nat, hi: nat, at: (string, nat) -> Option<T>): (r: Option<(nat, T)>)
    ensures r.Some? ==> lo < r.value.0 <= hi && at(s, r.value.0) == Some(r.value.1)
    ensures r.Some? ==> forall k :: r.value.0 < k <= hi ==> at(s, k).None?
    ensures r.None? ==> forall k :: lo < k <= hi ==> at(s, k).None?
    decreases hi
  {
    if hi <= lo then None
    else match at(s, hi)
      case Some(t) => Some((hi, t))
      case None => Rightmost(s, lo, hi - 1, at)
  }

  /** A literal at `i` fixes each character it covers. */
  lemma LitAtChar(s: string, i: nat, lit: string, m: nat)
    requires LitAt(s, i, lit) && m < |lit|
    ensures s[i + m] == lit[m]
  {
    assert s[i + m] == s[i..i + |lit|][m];
  }

  /** One mismatched character rules a literal out at that position. */
  lemma NotLitAt(s: string, i: nat, lit: string, m: nat)
    requires m < |lit| && (i + m >= |s| || s[i + m] != lit[m])
    ensures !LitAt(s, i, lit)
  {
    if i + m < |s| && i + |lit| <= |s| {
      assert s[i..i + |lit|][m] == s[i + m];
    }
  }

  /** Two literals side by side are their concatenation. */
  lemma LitAtConcat(s: string, i: nat, a: string, b: string)
    requires LitAt(s, i, a) && LitAt(s, i + |a|, b)
    ensures s[i..i + |a| + |b|] == a + b
  {
    assert s[i..i + |a| + |b|] == s[i..i + |a|] + s[i + |a|..i + |a| + |b|];
  }

  /** A slice that equals a literal makes the literal occur there. */
  lemma SliceLitAt(s: string, i: nat, j: nat, lit: string)
    requires i <= j <= |s| && s[i..j] == lit
    ensures LitAt(s, i, lit)
  {
  }

  /** Where the pattern matches at some end position, the search finds one. */
  lemma RightmostSome<T>(s: string, lo: nat, hi: nat, k: nat, at: (string, nat) -> Option<T>)
    requires lo < k <= hi && at(s, k).Some?
    ensures Rightmost(s, lo, hi, at).Some?
  {
  }

  /** Where the pattern matches at no end position, the search finds nothing. */
  lemma RightmostNoneIf<T>(s: string, lo: nat, hi: nat, at: (string, nat) -> Option<T>)
    requires forall k :: lo < k <= hi ==> at(s, k).None?
    ensures Rightmost(s, lo, hi, at).None?
  {
  }

  /** Every character of a literal that occurs in a text is a character of that text. */
  lemma LitAtHasChars(s: string, i: nat, lit: string, c: char)
    requires LitAt(s, i, lit) && c in lit
    ensures c in s
  {
    var m :| 0 <= m < |lit| && lit[m] == c;
    assert s[i + m] == s[i..i + |lit|][m];
  }

  /** Start positions where the pattern does not match are skipped by the search. */
  lemma {:induction false} LeftmostSkip<T>(s: string, i: nat, j: nat, at: (string, nat) -> Option<T>)
    requires i <= j <= |s| + 1
    requires forall k :: i <= k < j ==> at(s, k).None?
    ensures Leftmost(s, i, at) == Leftmost(s, j, at)
    decreases j - i
  {
    if i < j {
      LeftmostSkip(s, i + 1, j, at);
    }
  }

  /** A literal holding a character the text lacks occurs nowhere in the text. */
  lemma NoLitWithout(s: string, lit: string, c: char)
    requires c in lit && c !in s
    ensures forall k :: !LitAt(s, k, lit)
  {
    forall k | LitAt(s, k, lit)
      ensures false
    {
      LitAtHasChars(s, k, lit, c);
    }
  }
}
