/**
 * Trimming of surrounding whitespace, as Python's `str.strip()` and
 * JavaScript's `String.prototype.trim()` do it, and ASCII lower-casing.
 */
module Text {

  /** The characters Python's `str.isspace()` accepts, which `str.strip()` removes. */
  predicate IsPySpace(c: char) {
    || '\t' <= c <= '\r'
    || '\U{1C}' <= c <= ' '
    || c == '\U{85}' || c == '\U{A0}' || c == '\U{1680}'
    || '\U{2000}' <= c <= '\U{200A}'
    || c == '\U{2028}' || c == '\U{2029}' || c == '\U{202F}' || c == '\U{205F}' || c == '\U{3000}'
  }

  /** WhiteSpace and LineTerminator of ECMAScript, which `trim()` removes. */
  predicate IsJsSpace(c: char) {
    || '\t' <= c <= '\r' || c == ' '
    || c == '\U{A0}' || c == '\U{1680}'
    || '\U{2000}' <= c <= '\U{200A}'
    || c == '\U{2028}' || c == '\U{2029}' || c == '\U{202F}' || c == '\U{205F}' || c == '\U{3000}'
    || c == '\U{FEFF}'
  }

  /** `s` without its leading characters that satisfy `space`. */
  function TrimStart(s: string, space: char -> bool): (r: string)
    ensures |r| <= |s| && r == s[|s| - |r|..]
    ensures forall i :: 0 <= i < |s| - |r| ==> space(s[i])
    ensures r != [] ==> !space(r[0])
  {
    if s != [] && space(s[0]) then TrimStart(s[1..], space) else s
  }

  /** `s` without its trailing characters that satisfy `space`. */
  function TrimEnd(s: string, space: char -> bool): (r: string)
    ensures |r| <= |s| && r == s[..|r|]
    ensures forall i :: |r| <= i < |s| ==> space(s[i])
    ensures r != [] ==> !space(r[|r| - 1])
  {
    if s != [] && space(s[|s| - 1]) then TrimEnd(s[..|s| - 1], space) else s
  }

  /** `s` without leading and trailing whitespace. */
  function Trim(s: string, space: char -> bool): string
  {
    TrimEnd(TrimStart(s, space), space)
  }

  /** Trimming leaves nothing exactly when the text is whitespace only. */
  lemma {:induction false} TrimEmpty(s: string, space: char -> bool)
    ensures Trim(s, space) == [] <==> forall i :: 0 <= i < |s| ==> space(s[i])
  {
    var t := TrimStart(s, space);
    var r := TrimEnd(t, space);
    if r != [] {
      var k := |s| - |t|;
      assert t == s[k..] && s[k] == t[0];
      assert !space(s[k]);
    }
  }

  /** What trimming leaves neither starts nor ends with whitespace. */
  lemma TrimBorders(s: string, space: char -> bool)
    ensures var r := Trim(s, space);
      r != [] ==> !space(r[0]) && !space(r[|r| - 1])
  {
    var t := TrimStart(s, space);
    var r := TrimEnd(t, space);
    if r != [] {
      assert r == t[..|r|];
      assert r[0] == t[0];
    }
  }

  /** What trimming leaves is the slice of `s` outside which there is only whitespace. */
  lemma TrimSlice(s: string, space: char -> bool)
    ensures var r, a := Trim(s, space), |s| - |TrimStart(s, space)|;
      && a + |r| <= |s| && r == s[a..a + |r|]
      && (forall i :: 0 <= i < a ==> space(s[i]))
      && (forall i :: a + |r| <= i < |s| ==> space(s[i]))
  {
    var t := TrimStart(s, space);
    var a := |s| - |t|;
    var r := TrimEnd(t, space);
    assert t == s[a..];
    assert r == t[..|r|];
    assert s[a..a + |r|] == t[..|r|];
    forall i | a + |r| <= i < |s| ensures space(s[i]) {
      assert s[i] == t[i - a];
    }
  }

  /** Trimming twice is trimming once. */
  lemma {:induction false} TrimIdempotent(s: string, space: char -> bool)
    ensures Trim(Trim(s, space), space) == Trim(s, space)
  {
    var r := Trim(s, space);
    TrimBorders(s, space);
    if r != [] {
      assert TrimStart(r, space) == r;
      assert TrimEnd(r, space) == r;
    }
  }

  /** ASCII lower-casing of one character. */
  function LowerChar(c: char): char {
    if 'A' <= c <= 'Z' then (c as int + 32) as char else c
  }

  /** ASCII lower-casing of a string, character by character. */
  function Lower(s: string): (r: string)
    ensures |r| == |s|
  {
    seq(|s|, i requires 0 <= i < |s| => LowerChar(s[i]))
  }

  /** A string that neither starts nor ends with a space is its own trim. */
  lemma TrimLeavesUnspaced(s: string, space: char -> bool)
    requires s != [] && !space(s[0]) && !space(s[|s| - 1])
    ensures Trim(s, space) == s
  {
    assert TrimStart(s, space) == s;
  }
}
