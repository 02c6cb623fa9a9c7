/** Python's `str.strip()` without arguments, as the completion client applies it to every reply. */
module Strings {

  /** Python's `str.isspace` on one character: the characters `str.strip()` removes by default. */
  predicate IsSpace(c: char) {
    var n := c as int;
    || n == 0x20 || 0x09 <= n <= 0x0D || 0x1C <= n <= 0x1F
    || n == 0x85 || n == 0xA0 || n == 0x1680 || 0x2000 <= n <= 0x200A
    || n == 0x2028 || n == 0x2029 || n == 0x202F || n == 0x205F || n == 0x3000
  }

  /** Every character of `s` in positions `lo` to `hi - 1` is white space. */
  predicate SpaceBetween(s: string, lo: nat, hi: nat)
    requires lo <= hi <= |s|
  {
    forall m :: lo <= m < hi ==> IsSpace(s[m])
  }

  predicate AllSpace(s: string) {
    SpaceBetween(s, 0, |s|)
  }

  /** Scans forward from `lo` over white space: the position of the first other character, or `|s|`. */
  function TextStart(s: string, lo: nat): (k: nat)
    requires lo <= |s|
    ensures lo <= k <= |s| && SpaceBetween(s, lo, k)
    ensures k == |s| || !IsSpace(s[k])
    decreases |s| - lo
  {
    if lo == |s| || !IsSpace(s[lo]) then lo else TextStart(s, lo + 1)
  }

  /** Scans backward from `hi` down to `lo` over white space: the end of the text that precedes it. */
  function TextEnd(s: string, lo: nat, hi: nat): (j: nat)
    requires lo <= hi <= |s|
    ensures lo <= j <= hi && SpaceBetween(s, j, hi)
    ensures j == lo || !IsSpace(s[j - 1])
    decreases hi
  {
    if hi == lo || !IsSpace(s[hi - 1]) then hi else TextEnd(s, lo, hi - 1)
  }

  /**
   * `s.strip()`: the part of `s` between its leading and its trailing white space.
   * It is empty exactly when `s` is all white space; otherwise it starts and ends
   * with a character that is not white space, and everything cut off is white space.
   */
  function Strip(s: string): (r: string)
    ensures r == [] <==> AllSpace(s)
    ensures r != [] ==> !IsSpace(r[0]) && !IsSpace(r[|r| - 1])
    ensures var i := TextStart(s, 0);
      && i + |r| <= |s| && r == s[i..i + |r|]
      && SpaceBetween(s, 0, i) && SpaceBetween(s, i + |r|, |s|)
  {
    var i := TextStart(s, 0);
    var j := TextEnd(s, i, |s|);
    s[i..j]
  }
}
