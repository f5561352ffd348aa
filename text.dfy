/** The JavaScript string built-ins the core relies on: `trim`, `toLowerCase`
    (ASCII letters only) and `split(/[\n\r]+/)`. */
module Text {

  /** The WhiteSpace and LineTerminator code points of ECMAScript, which is the
      set `String.prototype.trim` strips from both ends. */
  predicate IsWhitespace(c: char) {
    c == '\t' || c == '\n' || c == '\U{000B}' || c == '\U{000C}' || c == '\r' || c == ' '
    || c == '\U{00A0}' || c == '\U{1680}' || ('\U{2000}' <= c <= '\U{200A}')
    || c == '\U{2028}' || c == '\U{2029}' || c == '\U{202F}' || c == '\U{205F}'
    || c == '\U{3000}' || c == '\U{FEFF}'
  }

  predicate AllWhitespace(s: string) {
    forall i :: 0 <= i < |s| ==> IsWhitespace(s[i])
  }

  /** `String.prototype.trim`: whitespace is removed from the front, then from
      the back. */
  function Trim(s: string): (r: string)
    ensures |r| <= |s|
    decreases |s|
  {
    if s != [] && IsWhitespace(s[0]) then Trim(s[1..])
    else if s != [] && IsWhitespace(s[|s| - 1]) then Trim(s[..|s| - 1])
    else s
  }

  /** Number of whitespace characters at the front of `s`. */
  function LeadingWhitespace(s: string): (n: nat)
    ensures n <= |s| && AllWhitespace(s[..n])
    ensures n < |s| ==> !IsWhitespace(s[n])
    decreases |s|
  {
    if s != [] && IsWhitespace(s[0]) then
      var n := LeadingWhitespace(s[1..]);
      assert s[..n + 1] == [s[0]] + s[1..][..n];
      n + 1
    else 0
  }

  /** `trim(s)` is the slice of `s` left after removing the whitespace at both
      ends, so it begins and ends with a non-whitespace character or is empty. */
  lemma {:induction false} TrimSlice(s: string)
    ensures var r := Trim(s); var i := LeadingWhitespace(s);
      i + |r| <= |s| && r == s[i..i + |r|]
      && AllWhitespace(s[i + |r|..])
      && (r == [] || (!IsWhitespace(r[0]) && !IsWhitespace(r[|r| - 1])))
    decreases |s|, 1
  {
    if s != [] && IsWhitespace(s[0]) {
      TrimSliceFront(s);
    } else if s != [] && IsWhitespace(s[|s| - 1]) {
      TrimSliceBack(s);
    }
  }

  /** `TrimSlice` when `s` starts with whitespace. */
  lemma {:induction false} TrimSliceFront(s: string)
    requires s != [] && IsWhitespace(s[0])
    ensures var r := Trim(s); var i := LeadingWhitespace(s);
      i + |r| <= |s| && r == s[i..i + |r|]
      && AllWhitespace(s[i + |r|..])
      && (r == [] || (!IsWhitespace(r[0]) && !IsWhitespace(r[|r| - 1])))
    decreases |s|, 0
  {
    var t := s[1..];
    TrimSlice(t);
    var i, r := LeadingWhitespace(t), Trim(t);
    assert LeadingWhitespace(s) == i + 1 && Trim(s) == r;
    assert t[i..i + |r|] == s[i + 1..i + 1 + |r|];
    assert t[i + |r|..] == s[i + 1 + |r|..];
  }

  /** `TrimSlice` when `s` ends, but does not start, with whitespace. */
  lemma {:induction false} TrimSliceBack(s: string)
    requires s != [] && !IsWhitespace(s[0]) && IsWhitespace(s[|s| - 1])
    ensures var r := Trim(s); var i := LeadingWhitespace(s);
      i + |r| <= |s| && r == s[i..i + |r|]
      && AllWhitespace(s[i + |r|..])
      && (r == [] || (!IsWhitespace(r[0]) && !IsWhitespace(r[|r| - 1])))
    decreases |s|, 0
  {
    var t := s[..|s| - 1];
    TrimSlice(t);
    var r := Trim(t);
    assert LeadingWhitespace(s) == 0 == LeadingWhitespace(t) && Trim(s) == r;
    assert t[0..|r|] == s[0..|r|];
    assert s[|r|..] == t[|r|..] + [s[|s| - 1]];
  }

  lemma TrimIdempotent(s: string)
    ensures Trim(Trim(s)) == Trim(s)
  {
    TrimSlice(s);
  }

  /** `trim()` is empty exactly when the string is all whitespace. */
  lemma TrimEmptyIff(s: string)
    ensures Trim(s) == [] <==> AllWhitespace(s)
  {
    TrimSlice(s);
    var i := LeadingWhitespace(s);
    if Trim(s) == [] {
      assert i == |s|;
      forall k | 0 <= k < |s| ensures IsWhitespace(s[k]) {
        assert s[k] == s[..i][k];
      }
    } else {
      assert Trim(s)[0] == s[i];
    }
  }

  /** A trimmed string has no character its source lacks at that place. */
  lemma TrimChar(s: string, k: nat)
    requires k < |Trim(s)|
    ensures LeadingWhitespace(s) + k < |s| && Trim(s)[k] == s[LeadingWhitespace(s) + k]
  {
    TrimSlice(s);
  }

  /** `toLowerCase` on one character; only the ASCII letters are mapped. */
  function LowerChar(c: char): (d: char)
    ensures IsWhitespace(d) <==> IsWhitespace(c)
  {
    if 'A' <= c <= 'Z' then (c as int + 32) as char else c
  }

  /** `String.prototype.toLowerCase`, restricted to ASCII letters. */
  function Lower(s: string): (r: string)
    ensures |r| == |s|
    ensures forall i :: 0 <= i < |s| ==> r[i] == LowerChar(s[i])
  {
    if s == [] then [] else [LowerChar(s[0])] + Lower(s[1..])
  }

  /** Lower-casing twice is lower-casing once. */
  lemma LowerIdempotent(s: string)
    ensures Lower(Lower(s)) == Lower(s)
  {
  }

  /** Lower-casing and trimming commute, so the dictionary key
      `toLowerCase().trim()` is also the lower case of the trimmed word. */
  lemma {:induction false} LowerTrimCommute(s: string)
    ensures Trim(Lower(s)) == Lower(Trim(s))
    decreases |s|
  {
    var l := Lower(s);
    if s != [] && IsWhitespace(s[0]) {
      assert IsWhitespace(l[0]) && l[1..] == Lower(s[1..]);
      LowerTrimCommute(s[1..]);
    } else if s != [] && IsWhitespace(s[|s| - 1]) {
      assert !IsWhitespace(l[0]) && IsWhitespace(l[|s| - 1]) && l[..|s| - 1] == Lower(s[..|s| - 1]);
      LowerTrimCommute(s[..|s| - 1]);
    } else {
      assert l == [] || (!IsWhitespace(l[0]) && !IsWhitespace(l[|l| - 1]));
    }
  }

  predicate IsBreak(c: char) {
    c == '\n' || c == '\r'
  }

  predicate NoBreaks(s: string) {
    forall i :: 0 <= i < |s| ==> !IsBreak(s[i])
  }

  /** A non-empty run of `\n` and `\r` characters: one match of `/[\n\r]+/`. */
  predicate BreakRun(s: string) {
    0 < |s| && forall i :: 0 <= i < |s| ==> IsBreak(s[i])
  }

  /** Index of the first line-break character, or |s| when there is none. */
  function BreakIndex(s: string): (k: nat)
    ensures k <= |s| && NoBreaks(s[..k])
    ensures k < |s| ==> IsBreak(s[k])
  {
    if s == [] || IsBreak(s[0]) then 0
    else
      var k := BreakIndex(s[1..]);
      assert s[..k + 1] == [s[0]] + s[1..][..k];
      k + 1
  }

  /** `s` without the run of line-break characters at its front. */
  function SkipBreaks(s: string): (r: string)
    ensures |r| <= |s| && r == s[|s| - |r|..]
    ensures r == [] || !IsBreak(r[0])
    ensures 0 < |s| && IsBreak(s[0]) ==> |r| < |s|
  {
    if s != [] && IsBreak(s[0]) then SkipBreaks(s[1..]) else s
  }

  /** `s.split(/[\n\r]+/)`: the pieces between maximal runs of line breaks.
      A leading or trailing run yields an empty first or last piece, and the
      empty string yields `[""]`, as in JavaScript. */
  function SplitLines(s: string): (pieces: seq<string>)
    ensures 0 < |pieces|
    ensures forall p :: p in pieces ==> NoBreaks(p)
    decreases |s|
  {
    var k := BreakIndex(s);
    if k == |s| then
      assert s[..k] == s;
      [s]
    else
      [s[..k]] + SplitLines(SkipBreaks(s[k..]))
  }
}
