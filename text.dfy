/**
 * `String.prototype.trim` as the chat client uses it on the message input and
 * on the key input: white space and line terminators of ECMAScript are
 * removed from both ends.
 */
module Text {

  /** ECMAScript WhiteSpace (TAB, VT, FF, ZWNBSP and category Zs) and LineTerminator. */
  const Whitespace: set<char> := {
    '\t', '\U{B}', '\U{C}', ' ', '\U{A0}', '\U{FEFF}', '\U{1680}',
    '\U{2000}', '\U{2001}', '\U{2002}', '\U{2003}', '\U{2004}', '\U{2005}',
    '\U{2006}', '\U{2007}', '\U{2008}', '\U{2009}', '\U{200A}',
    '\U{202F}', '\U{205F}', '\U{3000}',
    '\n', '\r', '\U{2028}', '\U{2029}'
  }

  predicate IsWhitespace(c: char) {
    c in Whitespace
  }

  /** Every character of `s` from index `lo` up to `hi` is white space. */
  predicate WhitespaceBetween(s: string, lo: int, hi: int)
    requires 0 <= lo <= hi <= |s|
  {
    forall k :: lo <= k < hi ==> IsWhitespace(s[k])
  }

  predicate AllWhitespace(s: string) {
    WhitespaceBetween(s, 0, |s|)
  }

  /** How many white-space characters `s` starts with. */
  function LeadingCount(s: string): (n: nat)
    ensures n <= |s| && WhitespaceBetween(s, 0, n)
    ensures n < |s| ==> !IsWhitespace(s[n])
    decreases |s|
  {
    if |s| > 0 && IsWhitespace(s[0]) then 1 + LeadingCount(s[1..]) else 0
  }

  /** How many white-space characters `s` ends with. */
  function TrailingCount(s: string): (n: nat)
    ensures n <= |s| && WhitespaceBetween(s, |s| - n, |s|)
    ensures n < |s| ==> !IsWhitespace(s[|s| - 1 - n])
    decreases |s|
  {
    if |s| > 0 && IsWhitespace(s[|s| - 1]) then 1 + TrailingCount(s[..|s| - 1]) else 0
  }

  /**
   * `s` without its leading and trailing white space. It is empty exactly
   * when `s` is all white space; otherwise it is the slice `s[i..j]` with only
   * white space before `i` and from `j` on, and it starts and ends with a
   * character that is not white space.
   */
  function Trim(s: string): (r: string)
    ensures r == [] <==> AllWhitespace(s)
    ensures r != [] ==> var i, j := LeadingCount(s), |s| - TrailingCount(s);
                        i < j && r == s[i..j] && WhitespaceBetween(s, 0, i) && WhitespaceBetween(s, j, |s|)
                        && !IsWhitespace(r[0]) && !IsWhitespace(r[|r| - 1])
  {
    var i, j := LeadingCount(s), |s| - TrailingCount(s);
    if i < j then s[i..j] else []
  }

  /**
   * Trim is determined by its contract: any slice with only white space around
   * it that starts and ends outside white space is the trimmed string.
   */
  lemma TrimUnique(s: string, i: int, j: int)
    requires 0 <= i < j <= |s|
    requires WhitespaceBetween(s, 0, i) && WhitespaceBetween(s, j, |s|)
    requires !IsWhitespace(s[i]) && !IsWhitespace(s[j - 1])
    ensures Trim(s) == s[i..j]
  {
    var lead, trail := LeadingCount(s), TrailingCount(s);
    assert lead == i;
    assert |s| - trail == j;
  }

  /** Trimming removes nothing from a string that is already trimmed. */
  lemma TrimIdempotent(s: string)
    ensures Trim(Trim(s)) == Trim(s)
  {
    var r := Trim(s);
    if r != [] {
      TrimUnique(r, 0, |r|);
      assert r[0..|r|] == r;
    }
  }
}
