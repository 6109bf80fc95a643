/** JavaScript's String.prototype.trim, which the edit dialog uses to decide whether a
    title is blank. */
module JsText {

  /** The characters `trim` removes: the ECMAScript WhiteSpace code points (tab, vertical
      tab, form feed, space, no-break space, the byte order mark and the Unicode space
      separators) and the LineTerminator code points. */
  predicate IsWhitespace(c: char)
  {
    c == '\t' || c == '\n' || c == '\U{000B}' || c == '\U{000C}' || c == '\r' || c == ' '
    || c == '\U{00A0}' || c == '\U{1680}' || ('\U{2000}' <= c <= '\U{200A}')
    || c == '\U{2028}' || c == '\U{2029}' || c == '\U{202F}' || c == '\U{205F}'
    || c == '\U{3000}' || c == '\U{FEFF}'
  }

  /** Drops the leading whitespace: the result is a suffix of `s`, everything dropped
      was whitespace, and the result does not start with whitespace. */
  function TrimStart(s: string): (r: string)
    ensures |r| <= |s| && r == s[|s| - |r|..]
    ensures forall i :: 0 <= i < |s| - |r| ==> IsWhitespace(s[i])
    ensures r == [] || !IsWhitespace(r[0])
  {
    if s != [] && IsWhitespace(s[0]) then
      var r := TrimStart(s[1..]);
      assert s[1..][|s| - 1 - |r|..] == s[|s| - |r|..];
      assert forall i :: 1 <= i < |s| - |r| ==> s[i] == s[1..][i - 1];
      r
    else s
  }

  /** Drops the trailing whitespace: the result is a prefix of `s`, everything dropped
      was whitespace, and the result does not end with whitespace. */
  function TrimEnd(s: string): (r: string)
    ensures |r| <= |s| && r == s[..|r|]
    ensures forall i :: |r| <= i < |s| ==> IsWhitespace(s[i])
    ensures r == [] || !IsWhitespace(r[|r| - 1])
  {
    if s != [] && IsWhitespace(s[|s| - 1]) then
      var r := TrimEnd(s[..|s| - 1]);
      assert s[..|s| - 1][..|r|] == s[..|r|];
      assert forall i :: |r| <= i < |s| - 1 ==> s[i] == s[..|s| - 1][i];
      r
    else s
  }

  /** String.prototype.trim. The result is the slice of `s` that starts where TrimStart's
      leading whitespace run ends, and everything outside it is whitespace. It is empty
      exactly when `s` consists of whitespace only; otherwise it neither starts nor ends
      with whitespace. */
  function Trim(s: string): (r: string)
    ensures |r| <= |s|
    ensures |s| - |TrimStart(s)| + |r| <= |s|
    ensures r == s[|s| - |TrimStart(s)|..|s| - |TrimStart(s)| + |r|]
    ensures forall i :: 0 <= i < |s| - |TrimStart(s)| ==> IsWhitespace(s[i])
    ensures forall i :: |s| - |TrimStart(s)| + |r| <= i < |s| ==> IsWhitespace(s[i])
    ensures r == [] <==> forall i :: 0 <= i < |s| ==> IsWhitespace(s[i])
    ensures r != [] ==> !IsWhitespace(r[0])
    ensures r != [] ==> !IsWhitespace(r[|r| - 1])
  {
    var u := TrimStart(s);
    var r := TrimEnd(u);
    TrimmedSlice(s, u, r);
    r
  }

  /** A whitespace-free-ended prefix `r` of a whitespace-free-started suffix `u` of `s`,
      with only whitespace cut off either side, is the slice of `s` at the suffix's offset,
      and it is empty exactly when `s` is all whitespace. */
  lemma TrimmedSlice(s: string, u: string, r: string)
    requires |u| <= |s| && u == s[|s| - |u|..]
    requires forall i :: 0 <= i < |s| - |u| ==> IsWhitespace(s[i])
    requires u == [] || !IsWhitespace(u[0])
    requires |r| <= |u| && r == u[..|r|]
    requires forall i :: |r| <= i < |u| ==> IsWhitespace(u[i])
    requires r == [] || !IsWhitespace(r[|r| - 1])
    ensures r == s[|s| - |u|..|s| - |u| + |r|]
    ensures forall i :: |s| - |u| + |r| <= i < |s| ==> IsWhitespace(s[i])
    ensures r == [] <==> forall i :: 0 <= i < |s| ==> IsWhitespace(s[i])
    ensures r != [] ==> !IsWhitespace(r[0])
    ensures r != [] ==> !IsWhitespace(r[|r| - 1])
  {
    var k := |s| - |u|;
    assert forall i :: k <= i < |s| ==> s[i] == u[i - k];
    if r != [] {
      assert r[0] == u[0] == s[k];
    }
  }

  /** A title the dialog treats as empty: `!s.trim()` in the source. */
  predicate IsBlank(s: string)
  {
    Trim(s) == []
  }
}
