/** The part of ECMAScript string handling the forms rely on:
    `String.prototype.trim` and the truthiness of its result. */
module JsText {

  /** The characters `trim` strips: ECMAScript's WhiteSpace production (tab,
      vertical tab, form feed, space, no-break space, ogham space mark, the
      space separators U+2000 to U+200A, narrow no-break space, medium
      mathematical space, ideographic space, byte-order mark) and its
      LineTerminator production (LF, CR, line separator, paragraph separator). */
  predicate IsTrimmable(c: char) {
    || c == '\t' || c == '\n' || c == '\U{B}' || c == '\U{C}' || c == '\r' || c == ' '
    || c == '\U{A0}' || c == '\U{1680}' || ('\U{2000}' <= c <= '\U{200A}')
    || c == '\U{2028}' || c == '\U{2029}' || c == '\U{202F}' || c == '\U{205F}'
    || c == '\U{3000}' || c == '\U{FEFF}'
  }

  /** Every character of `s` is one that `trim` strips (the empty string included). */
  predicate IsBlank(s: string) {
    forall i :: 0 <= i < |s| ==> IsTrimmable(s[i])
  }

  /** `s` with its longest blank prefix removed. */
  function TrimStart(s: string): (r: string)
    ensures |r| <= |s| && r == s[|s| - |r|..]
    ensures IsBlank(s[..|s| - |r|])
    ensures r == [] || !IsTrimmable(r[0])
  {
    if s != [] && IsTrimmable(s[0]) then TrimStart(s[1..]) else s
  }

  /** `s` with its longest blank suffix removed. */
  function TrimEnd(s: string): (r: string)
    ensures |r| <= |s| && r == s[..|r|]
    ensures IsBlank(s[|r|..])
    ensures r == [] || !IsTrimmable(r[|r| - 1])
  {
    if s != [] && IsTrimmable(s[|s| - 1]) then TrimEnd(s[..|s| - 1]) else s
  }

  /** A concatenation is blank exactly when both parts are. */
  lemma BlankConcat(a: string, b: string)
    ensures IsBlank(a + b) <==> IsBlank(a) && IsBlank(b)
  {
    if IsBlank(a + b) {
      forall i | 0 <= i < |a| ensures IsTrimmable(a[i]) {
        assert a[i] == (a + b)[i];
      }
      forall i | 0 <= i < |b| ensures IsTrimmable(b[i]) {
        assert b[i] == (a + b)[|a| + i];
      }
    }
  }

  /** A blank string loses every character to `TrimStart`. */
  lemma TrimStartOfBlank(s: string)
    requires IsBlank(s)
    ensures TrimStart(s) == []
  {
  }

  /** When stripping both ends leaves nothing, the input was blank. */
  lemma BlankOfTrimEmpty(s: string)
    ensures TrimEnd(TrimStart(s)) == [] ==> IsBlank(s)
  {
    var u := TrimStart(s);
    var p := s[..|s| - |u|];
    assert s == p + u;
    var r := TrimEnd(u);
    if r == [] {
      assert u == u[|r|..];
      BlankConcat(p, u);
    }
  }

  lemma TrimEmptyIff(s: string)
    ensures TrimEnd(TrimStart(s)) == [] <==> IsBlank(s)
  {
    if IsBlank(s) {
      TrimStartOfBlank(s);
    }
    BlankOfTrimEmpty(s);
  }

  /** `String.prototype.trim`. Its result is the empty string, which is the
      one falsy string, exactly when every character of the input is blank. */
  function Trim(s: string): (r: string)
    ensures r == [] <==> IsBlank(s)
  {
    TrimEmptyIff(s);
    TrimEnd(TrimStart(s))
  }
}
