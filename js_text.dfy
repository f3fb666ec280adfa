/**
 * The part of JavaScript's `String.prototype.trim` that the form relies on:
 * the editor treats a field as empty when `value.trim()` is the empty string.
 */
module JsText {

  /**
   * The characters `trim` removes: the ECMAScript WhiteSpace code points
   * (tab, vertical tab, form feed, the space separators of category Zs and
   * the byte-order mark) and the LineTerminator code points.
   */
  predicate IsTrimmable(c: char)
  {
    c == '\t' || c == '\n' || c == '\U{B}' || c == '\U{C}' || c == '\r' || c == ' '
    || c == '\U{A0}' || c == '\U{1680}' || ('\U{2000}' <= c <= '\U{200A}')
    || c == '\U{2028}' || c == '\U{2029}' || c == '\U{202F}' || c == '\U{205F}'
    || c == '\U{3000}' || c == '\U{FEFF}'
  }

  /** Every character of `s` is one that `trim` removes. */
  predicate IsBlank(s: string)
  {
    forall i :: 0 <= i < |s| ==> IsTrimmable(s[i])
  }

  /** Every character of `s` from index `lo` (inclusive) to `hi` (exclusive) is one that `trim` removes. */
  predicate IsBlankBetween(s: string, lo: int, hi: int)
  {
    forall i :: lo <= i < hi && 0 <= i < |s| ==> IsTrimmable(s[i])
  }

  /** The length of the longest all-whitespace prefix of `s`. */
  function LeadingCount(s: string): (k: nat)
    ensures k <= |s|
    ensures IsBlankBetween(s, 0, k)
    ensures k < |s| ==> !IsTrimmable(s[k])
  {
    if |s| > 0 && IsTrimmable(s[0]) then LeadingCount(s[1..]) + 1 else 0
  }

  /** The length of the longest all-whitespace suffix of `s`. */
  function TrailingCount(s: string): (k: nat)
    ensures k <= |s|
    ensures IsBlankBetween(s, |s| - k, |s|)
    ensures k < |s| ==> !IsTrimmable(s[|s| - 1 - k])
  {
    if |s| > 0 && IsTrimmable(s[|s| - 1]) then TrailingCount(s[..|s| - 1]) + 1 else 0
  }

  /**
   * `s.trim()`: `s` with its leading and trailing whitespace removed. The
   * result is a slice of `s` that is empty exactly when `s` is blank, and
   * otherwise starts and ends with a character `trim` keeps.
   */
  function Trim(s: string): (r: string)
    ensures r == [] <==> IsBlank(s)
    ensures r != [] ==> !IsTrimmable(r[0]) && !IsTrimmable(r[|r| - 1])
    ensures exists a, b :: 0 <= a <= b <= |s| && r == s[a..b] && IsBlankBetween(s, 0, a) && IsBlankBetween(s, b, |s|)
  {
    var a := LeadingCount(s);
    var b := a + (|s| - a - TrailingCount(s[a..]));
    s[a..b]
  }
}
