/**
 * The pieces of Go's `strings` package that the validators and the error
 * messages use: `Trim` with a one-character cut set, `TrimSpace` and `Join`.
 * Trimming is written once, over a character class `p`, the way Go's
 * `TrimFunc` works: find the first and the last character outside the class
 * and keep what lies between them. `Trim` and `TrimSpace` are instances of it.
 */
module GoStrings {

  /** Every character of `s` is in the class `p`. */
  ghost predicate All(s: string, p: char -> bool)
  {
    forall i :: 0 <= i < |s| ==> p(s[i])
  }

  /** Every character of `s` before position `lo` is in the class `p`. */
  ghost predicate ClassBefore(s: string, lo: int, p: char -> bool)
  {
    forall j :: 0 <= j < lo && j < |s| ==> p(s[j])
  }

  /** Every character of `s` from position `hi` on is in the class `p`. */
  ghost predicate ClassFrom(s: string, hi: int, p: char -> bool)
  {
    forall j :: 0 <= hi <= j < |s| ==> p(s[j])
  }

  /** `s` is `w` with characters of class `p` (only) around it. */
  ghost predicate PaddedBy(s: string, w: string, p: char -> bool)
  {
    exists lo, hi {:trigger s[lo..hi]} ::
      0 <= lo <= hi <= |s| && s[lo..hi] == w && ClassBefore(s, lo, p) && ClassFrom(s, hi, p)
  }

  /**
   * The first position at or after `i` whose character is outside the class
   * `p`, or `|s|` when there is none (Go's `indexFunc` with the test negated).
   */
  function FirstKept(s: string, p: char -> bool, i: int): (k: int)
    requires 0 <= i <= |s|
    ensures i <= k <= |s|
    ensures forall j :: i <= j < k ==> p(s[j])
    ensures k < |s| ==> !p(s[k])
    decreases |s| - i
  {
    if i < |s| && p(s[i]) then FirstKept(s, p, i + 1) else i
  }

  /**
   * One past the last position in `[lo, j)` whose character is outside the
   * class `p`, or `lo` when there is none (Go's `lastIndexFunc`, plus one).
   */
  function LastKept(s: string, p: char -> bool, lo: int, j: int): (k: int)
    requires 0 <= lo <= j <= |s|
    ensures lo <= k <= j
    ensures forall m :: k <= m < j ==> p(s[m])
    ensures k > lo ==> !p(s[k - 1])
    decreases j
  {
    if j > lo && p(s[j - 1]) then LastKept(s, p, lo, j - 1) else j
  }

  /**
   * Go's `strings.TrimFunc`: both ends stripped of class-`p` characters. The
   * result is `s` with only class-`p` characters around it, and it neither
   * starts nor ends with one.
   */
  function Trim(s: string, p: char -> bool): (r: string)
    ensures PaddedBy(s, r, p)
    ensures r == [] || (!p(r[0]) && !p(r[|r| - 1]))
  {
    var lo := FirstKept(s, p, 0);
    var hi := LastKept(s, p, lo, |s|);
    assert ClassBefore(s, lo, p) && ClassFrom(s, hi, p);
    s[lo..hi]
  }

  /** The cut set `"\""` of `strings.Trim(status, "\"")`. */
  predicate IsQuote(c: char)
  {
    c == '"'
  }

  /**
   * Go's `unicode.IsSpace`, the class `strings.TrimSpace` removes: the
   * Latin-1 spaces '\t', '\n', '\v', '\f', '\r', ' ', U+0085, U+00A0 and
   * the other code points with the Unicode White_Space property.
   */
  predicate IsSpace(c: char)
  {
    || c == '\t' || c == '\n' || c == '\U{000B}' || c == '\U{000C}' || c == '\r' || c == ' '
    || c == '\U{0085}' || c == '\U{00A0}' || c == '\U{1680}'
    || ('\U{2000}' <= c <= '\U{200A}')
    || c == '\U{2028}' || c == '\U{2029}' || c == '\U{202F}' || c == '\U{205F}' || c == '\U{3000}'
  }

  /** Go's `strings.TrimSpace`. */
  function TrimSpace(s: string): string
  {
    Trim(s, IsSpace)
  }

  /** Go's `strings.Join`. */
  function Join(xs: seq<string>, sep: string): string
  {
    if xs == [] then [] else if |xs| == 1 then xs[0] else xs[0] + sep + Join(xs[1..], sep)
  }

  /** Go's `strings.Repeat` for a one-character string: `n` copies of `c`. */
  function Repeat(c: char, n: nat): (r: string)
    ensures |r| == n && forall i :: 0 <= i < n ==> r[i] == c
  {
    if n == 0 then [] else [c] + Repeat(c, n - 1)
  }

  /** The first kept position is the only one with class `p` before it and a kept character at it. */
  lemma FirstKeptAt(s: string, p: char -> bool, lo: int)
    requires 0 <= lo <= |s| && ClassBefore(s, lo, p) && (lo < |s| ==> !p(s[lo]))
    ensures FirstKept(s, p, 0) == lo
  {
  }

  /** Symmetrically for the last kept position. */
  lemma LastKeptAt(s: string, p: char -> bool, lo: int, hi: int)
    requires 0 <= lo < hi <= |s| && ClassFrom(s, hi, p) && !p(s[hi - 1])
    ensures LastKept(s, p, lo, |s|) == hi
  {
  }

  /** Trimming a word that is padded with class `p`, and starts and ends outside it, gives the word. */
  lemma TrimOfPadding(s: string, lo: int, hi: int, p: char -> bool)
    requires 0 <= lo < hi <= |s| && ClassBefore(s, lo, p) && ClassFrom(s, hi, p)
    requires !p(s[lo]) && !p(s[hi - 1])
    ensures Trim(s, p) == s[lo..hi]
  {
    FirstKeptAt(s, p, lo);
    LastKeptAt(s, p, lo, hi);
  }

  /** The trimmed string is empty exactly when the whole string is of class `p`. */
  lemma TrimEmptyIff(s: string, p: char -> bool)
    ensures Trim(s, p) == [] <==> All(s, p)
  {
  }

  /** With a non-empty word `w` that neither starts nor ends with class `p`,
      trimming `s` gives `w` exactly when `s` is `w` padded with class `p`. */
  lemma TrimEqualsIff(s: string, w: string, p: char -> bool)
    requires w != [] && !p(w[0]) && !p(w[|w| - 1])
    ensures Trim(s, p) == w <==> PaddedBy(s, w, p)
  {
    if PaddedBy(s, w, p) {
      var lo, hi :| 0 <= lo <= hi <= |s| && s[lo..hi] == w && ClassBefore(s, lo, p) && ClassFrom(s, hi, p);
      assert s[lo] == w[0] && s[hi - 1] == w[|w| - 1];
      TrimOfPadding(s, lo, hi, p);
    }
  }

  /** Trimming twice removes nothing more. */
  lemma TrimIdempotent(s: string, p: char -> bool)
    ensures Trim(Trim(s, p), p) == Trim(s, p)
  {
    var r := Trim(s, p);
    if r != [] {
      TrimOfPadding(r, 0, |r|, p);
      assert r[0..|r|] == r;
    }
  }
}
