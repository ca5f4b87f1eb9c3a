/**
 * The part of JavaScript's `String.prototype.trim` that the team builder relies on:
 * leading and trailing white space and line terminators are removed, nothing else changes.
 */
module JsString {

  /** The WhiteSpace and LineTerminator code points of the ECMAScript language specification. */
  predicate IsWhitespace(c: char)
  {
    ('\t' <= c <= '\r') || c == ' ' || c == '\U{00A0}' || c == '\U{1680}' ||
    ('\U{2000}' <= c <= '\U{200A}') || c == '\U{2028}' || c == '\U{2029}' ||
    c == '\U{202F}' || c == '\U{205F}' || c == '\U{3000}' || c == '\U{FEFF}'
  }

  /** A string that `trim` reduces to the empty string, which JavaScript treats as false. */
  predicate IsBlank(s: string)
  {
    forall k :: 0 <= k < |s| ==> IsWhitespace(s[k])
  }

  /** `s` without its leading white space: a suffix of `s`, and everything cut off is white space. */
  function TrimStart(s: string): (r: string)
    ensures |r| <= |s| && r == s[|s| - |r|..]
    ensures forall k :: 0 <= k < |s| - |r| ==> IsWhitespace(s[k])
    ensures r != [] ==> !IsWhitespace(r[0])
  {
    if s != [] && IsWhitespace(s[0]) then TrimStart(s[1..]) else s
  }

  /** `s` without its trailing white space: a prefix of `s`, and everything cut off is white space. */
  function TrimEnd(s: string): (r: string)
    ensures |r| <= |s| && r == s[..|r|]
    ensures forall k :: |r| <= k < |s| ==> IsWhitespace(s[k])
    ensures r != [] ==> !IsWhitespace(r[|r| - 1])
  {
    if s != [] && IsWhitespace(s[|s| - 1]) then TrimEnd(s[..|s| - 1]) else s
  }

  /** `r` is `s` with only white space cut from its start and from its end. */
  predicate IsTrimmedFrom(s: string, r: string)
  {
    exists i, j :: 0 <= i <= j <= |s| && r == s[i..j] &&
      (forall k :: 0 <= k < i ==> IsWhitespace(s[k])) &&
      (forall k :: j <= k < |s| ==> IsWhitespace(s[k]))
  }

  /** Trimming both ends cuts nothing but white space. */
  lemma TrimBothEndsIsSlice(s: string)
    ensures IsTrimmedFrom(s, TrimEnd(TrimStart(s)))
  {
    var t := TrimStart(s);
    var r := TrimEnd(t);
    var i := |s| - |t|;
    var j := i + |r|;
    assert r == s[i..j] by {
      assert r == t[..|r|];
    }
    assert forall k :: j <= k < |s| ==> IsWhitespace(s[k]) by {
      forall k | j <= k < |s|
        ensures IsWhitespace(s[k])
      {
        assert s[k] == t[k - i];
      }
    }
    assert 0 <= i <= j <= |s| && r == s[i..j] &&
           (forall k :: 0 <= k < i ==> IsWhitespace(s[k])) &&
           (forall k :: j <= k < |s| ==> IsWhitespace(s[k]));
  }

  /** Trimming both ends leaves nothing exactly when `s` is all white space. */
  lemma TrimBothEndsEmpty(s: string)
    ensures TrimEnd(TrimStart(s)) == [] <==> IsBlank(s)
  {
    var t := TrimStart(s);
    assert TrimEnd(t) == [] ==> t == [];
  }

  /** Trimming both ends leaves no white space at either end. */
  lemma TrimBothEndsNoWhitespaceAtEnds(s: string)
    ensures var r := TrimEnd(TrimStart(s));
            |r| <= |s| && (r != [] ==> !IsWhitespace(r[0]) && !IsWhitespace(r[|r| - 1]))
  {
    var t := TrimStart(s);
    var r := TrimEnd(t);
    assert r != [] ==> r[0] == t[0];
  }

  /**
   * `s.trim()`: `s` with only white space cut from either end, neither starting nor ending
   * with white space, and empty exactly when `s` holds nothing but white space.
   */
  function Trim(s: string): (r: string)
    ensures |r| <= |s|
    ensures IsTrimmedFrom(s, r)
    ensures r != [] ==> !IsWhitespace(r[0]) && !IsWhitespace(r[|r| - 1])
    ensures r == [] <==> IsBlank(s)
  {
    TrimBothEndsIsSlice(s);
    TrimBothEndsEmpty(s);
    TrimBothEndsNoWhitespaceAtEnds(s);
    TrimEnd(TrimStart(s))
  }
}
