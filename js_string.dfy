/**
 JavaScript's `String.prototype.trim`, which the add-task guard uses: it
 strips leading and trailing white space and line terminators as ECMAScript
 defines them (section 12.2 "White Space" and section 12.3 "Line
 Terminators" of ECMA-262).
 */
module JsString {

  /** ECMAScript WhiteSpace or LineTerminator: TAB, LF, VT, FF, CR, SPACE,
      NBSP, ZWNBSP, the Unicode space separators (category Zs), LINE
      SEPARATOR and PARAGRAPH SEPARATOR. */
  predicate IsWhiteSpace(c: char) {
    var n := c as int;
    || 0x09 <= n <= 0x0D
    || n == 0x20 || n == 0xA0 || n == 0x1680
    || 0x2000 <= n <= 0x200A
    || n == 0x2028 || n == 0x2029 || n == 0x202F || n == 0x205F
    || n == 0x3000 || n == 0xFEFF
  }

  ghost predicate AllWhiteSpace(s: string) {
    forall i :: 0 <= i < |s| ==> IsWhiteSpace(s[i])
  }

  /** `s` without its leading white space. */
  function TrimStart(s: string): (r: string)
    ensures |r| <= |s| && r == s[|s| - |r|..]
    ensures forall i :: 0 <= i < |s| - |r| ==> IsWhiteSpace(s[i])
    ensures r != "" ==> !IsWhiteSpace(r[0])
  {
    if s != "" && IsWhiteSpace(s[0]) then TrimStart(s[1..]) else s
  }

  /** `s` without its trailing white space. */
  function TrimEnd(s: string): (r: string)
    ensures |r| <= |s| && r == s[..|r|]
    ensures forall i :: |r| <= i < |s| ==> IsWhiteSpace(s[i])
    ensures r != "" ==> !IsWhiteSpace(r[|r| - 1])
  {
    if s != "" && IsWhiteSpace(s[|s| - 1]) then TrimEnd(s[..|s| - 1]) else s
  }

  /** `s.trim()`: `s` without its leading white space, cut after its last
      non-white-space character; empty exactly when `s` is all white space. */
  function Trim(s: string): (r: string)
    ensures r == "" <==> AllWhiteSpace(s)
    ensures |r| <= |s|
    ensures r != "" ==> !IsWhiteSpace(r[0]) && !IsWhiteSpace(r[|r| - 1])
    ensures |r| <= |TrimStart(s)| && r == TrimStart(s)[..|r|]
    ensures forall i :: |r| <= i < |TrimStart(s)| ==> IsWhiteSpace(TrimStart(s)[i])
  {
    TrimBothEnds(s);
    TrimEnd(TrimStart(s))
  }

  /** Trimming both ends leaves nothing exactly when `s` is all white space. */
  lemma TrimBothEnds(s: string)
    ensures TrimEnd(TrimStart(s)) == "" <==> AllWhiteSpace(s)
  {
  }
}
