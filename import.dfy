/** components/word-dictation/ImportDialog.tsx: turning an uploaded text file
    into the words of a new list, and the dialog state around it. */
module Import {
  import opened Types
  import opened Text

  /** `pieces.map(f)`. */
  function MapLines(pieces: seq<string>, f: string -> string): (r: seq<string>)
    ensures |r| == |pieces|
    ensures forall i :: 0 <= i < |pieces| ==> r[i] == f(pieces[i])
    decreases |pieces|
  {
    if pieces == [] then [] else [f(pieces[0])] + MapLines(pieces[1..], f)
  }

  /** `pieces.filter(word => word !== '')`. */
  function NonEmpty(pieces: seq<string>): (r: seq<string>)
    ensures forall w :: w in r <==> w in pieces && w != ""
    ensures |r| <= |pieces|
    decreases |pieces|
  {
    if pieces == [] then []
    else (if pieces[0] == "" then [] else [pieces[0]]) + NonEmpty(pieces[1..])
  }

  /** The pieces, each passed through `f`, without the ones `f` makes empty. */
  function Words(pieces: seq<string>, f: string -> string): seq<string> {
    NonEmpty(MapLines(pieces, f))
  }

  /** The upload handler's chain `split`, `map(f)`, `filter`, for a per-line
      function `f`. The lemmas about line breaks below hold for every `f` that
      leaves the empty line empty. */
  function SplitMapFilter(content: string, f: string -> string): seq<string> {
    Words(SplitLines(content), f)
  }

  /** The words the upload handler extracts from the file's text. */
  function ParseWords(content: string): seq<string> {
    SplitMapFilter(content, Trim)
  }

  lemma {:induction false} MapLinesConcat(x: seq<string>, y: seq<string>, f: string -> string)
    ensures MapLines(x + y, f) == MapLines(x, f) + MapLines(y, f)
    decreases |x|
  {
    if x == [] {
      assert x + y == y;
    } else {
      assert (x + y)[0] == x[0] && (x + y)[1..] == x[1..] + y;
      MapLinesConcat(x[1..], y, f);
    }
  }

  lemma {:induction false} NonEmptyConcat(x: seq<string>, y: seq<string>)
    ensures NonEmpty(x + y) == NonEmpty(x) + NonEmpty(y)
    decreases |x|
  {
    if x == [] {
      assert x + y == y;
    } else {
      assert (x + y)[0] == x[0] && (x + y)[1..] == x[1..] + y;
      NonEmptyConcat(x[1..], y);
    }
  }

  /** The words of two runs of pieces are the words of each, in order. */
  lemma WordsConcat(x: seq<string>, y: seq<string>, f: string -> string)
    ensures Words(x + y, f) == Words(x, f) + Words(y, f)
  {
    MapLinesConcat(x, y, f);
    NonEmptyConcat(MapLines(x, f), MapLines(y, f));
  }

  /** A single piece contributes its image, or nothing when that is empty. */
  lemma WordsSingle(p: string, f: string -> string)
    ensures Words([p], f) == if f(p) == "" then [] else [f(p)]
  {
    assert MapLines([p], f) == [f(p)] + MapLines([], f);
    assert NonEmpty([f(p)]) == (if f(p) == "" then [] else [f(p)]) + NonEmpty([]);
  }

  /** The first break of a string lies in the part before a later break. */
  lemma BreakIndexPrefix(a: string, z: string)
    requires BreakIndex(a) < |a|
    ensures BreakIndex(a + z) == BreakIndex(a)
    decreases |a|
  {
    if !IsBreak(a[0]) {
      assert (a + z)[1..] == a[1..] + z;
      BreakIndexPrefix(a[1..], z);
    }
  }

  /** A string without breaks reaches up to the first break of what follows. */
  lemma {:induction false} BreakIndexAfter(a: string, z: string)
    requires NoBreaks(a) && 0 < |z| && IsBreak(z[0])
    ensures BreakIndex(a + z) == |a|
    decreases |a|
  {
    if a != [] {
      assert (a + z)[0] == a[0] && (a + z)[1..] == a[1..] + z;
      BreakIndexAfter(a[1..], z);
    }
  }

  /** Skipping the breaks at the front of a concatenation. */
  lemma {:induction false} SkipBreaksConcat(y: string, z: string)
    ensures SkipBreaks(y + z) == if SkipBreaks(y) == [] then SkipBreaks(z) else SkipBreaks(y) + z
    decreases |y|
  {
    if y == [] {
      assert y + z == z;
    } else if IsBreak(y[0]) {
      assert (y + z)[0] == y[0] && (y + z)[1..] == y[1..] + z;
      SkipBreaksConcat(y[1..], z);
    }
  }

  /** The words of a string with a break at index `k`: those of its first
      line, then those after the run of breaks. */
  lemma SplitStep(s: string, f: string -> string)
    requires BreakIndex(s) < |s|
    ensures var k := BreakIndex(s);
      SplitMapFilter(s, f) == Words([s[..k]], f) + SplitMapFilter(SkipBreaks(s[k..]), f)
  {
    var k := BreakIndex(s);
    WordsConcat([s[..k]], SplitLines(SkipBreaks(s[k..])), f);
  }

  /** A single line yields its image, unless that is empty. */
  lemma SplitLine(line: string, f: string -> string)
    requires NoBreaks(line)
    ensures SplitMapFilter(line, f) == if f(line) == "" then [] else [f(line)]
  {
    assert line[..|line|] == line;
    WordsSingle(line, f);
  }

  /** Line breaks at the front of the file produce only empty pieces. */
  lemma SkipLeading(b: string, f: string -> string)
    requires f("") == ""
    ensures SplitMapFilter(SkipBreaks(b), f) == SplitMapFilter(b, f)
  {
    if b != [] && IsBreak(b[0]) {
      SplitStep(b, f);
      assert b[0..] == b && b[..0] == "";
      WordsSingle("", f);
    }
  }

  /** A run of breaks and the breaks after it are skipped together. */
  lemma SkipRun(sep: string, b: string, f: string -> string)
    requires BreakRun(sep) && f("") == ""
    ensures SplitMapFilter(SkipBreaks(sep + b), f) == SplitMapFilter(b, f)
  {
    SkipBreaksConcat(sep, b);
    assert SkipBreaks(sep) == [];
    SkipLeading(b, f);
  }

  /** The first line of `a + z` is `a` when `a` has no break and `z` starts with one. */
  lemma PlainHead(a: string, z: string, f: string -> string)
    requires NoBreaks(a) && 0 < |z| && IsBreak(z[0])
    ensures SplitMapFilter(a + z, f) == Words([a], f) + SplitMapFilter(SkipBreaks(z), f)
  {
    var s := a + z;
    BreakIndexAfter(a, z);
    assert s[..|a|] == a && s[|a|..] == z;
    SplitStep(s, f);
  }

  /** The first line of `a + z` is the first line of `a` when `a` has a break. */
  lemma BrokenHead(a: string, z: string, f: string -> string)
    requires BreakIndex(a) < |a|
    ensures var k := BreakIndex(a);
      SplitMapFilter(a + z, f) == Words([a[..k]], f) + SplitMapFilter(SkipBreaks(a[k..] + z), f)
  {
    var s, k := a + z, BreakIndex(a);
    BreakIndexPrefix(a, z);
    assert s[..k] == a[..k] && s[k..] == a[k..] + z;
    SplitStep(s, f);
  }

  /** Any run of line breaks separates the words in the same way. */
  lemma {:induction false} SplitAtRun(a: string, sep: string, b: string, f: string -> string)
    requires BreakRun(sep) && f("") == ""
    ensures SplitMapFilter(a + (sep + b), f) == SplitMapFilter(a, f) + SplitMapFilter(b, f)
    decreases |a|, 1
  {
    if BreakIndex(a) == |a| {
      assert a[..|a|] == a;
      PlainHead(a, sep + b, f);
      SkipRun(sep, b, f);
      SplitLine(a, f);
    } else if SkipBreaks(a[BreakIndex(a)..]) == [] {
      BrokenAtEnd(a, sep + b, f);
      SkipRun(sep, b, f);
    } else {
      SplitAtRunInside(a, sep, b, f);
    }
  }

  /** `SplitAtRun` when a break in `a` is followed by more text of `a`. */
  lemma {:induction false} SplitAtRunInside(a: string, sep: string, b: string, f: string -> string)
    requires BreakRun(sep) && f("") == "" && BreakIndex(a) < |a|
    requires SkipBreaks(a[BreakIndex(a)..]) != []
    ensures SplitMapFilter(a + (sep + b), f) == SplitMapFilter(a, f) + SplitMapFilter(b, f)
    decreases |a|, 0
  {
    var rest := SkipBreaks(a[BreakIndex(a)..]);
    BrokenInside(a, sep + b, f);
    SplitAtRun(rest, sep, b, f);
    ConcatAssoc(Words([a[..BreakIndex(a)]], f), SplitMapFilter(rest, f), SplitMapFilter(b, f));
  }

  // Associativity of `+`, kept in lemmas of their own: proved where it is
  // used, inside the larger contexts above, it costs the solver far more.
  lemma ConcatAssoc(x: seq<string>, y: seq<string>, z: seq<string>)
    ensures x + (y + z) == (x + y) + z
  {
  }

  lemma StringAssoc(x: string, y: string, z: string)
    ensures x + y + z == x + (y + z)
  {
  }

  /** The words of `a + z` when `a` ends in its first run of breaks. */
  lemma BrokenAtEnd(a: string, z: string, f: string -> string)
    requires f("") == "" && BreakIndex(a) < |a|
    requires SkipBreaks(a[BreakIndex(a)..]) == []
    ensures SplitMapFilter(a + z, f) == SplitMapFilter(a, f) + SplitMapFilter(SkipBreaks(z), f)
  {
    var k := BreakIndex(a);
    SkipBreaksConcat(a[k..], z);
    BrokenHead(a, z, f);
    SplitStep(a, f);
    SplitLine([], f);
  }

  /** The words of `a + z` when breaks in `a` are followed by more text. */
  lemma BrokenInside(a: string, z: string, f: string -> string)
    requires BreakIndex(a) < |a|
    requires SkipBreaks(a[BreakIndex(a)..]) != []
    ensures var rest := SkipBreaks(a[BreakIndex(a)..]);
      SplitMapFilter(a + z, f) == Words([a[..BreakIndex(a)]], f) + SplitMapFilter(rest + z, f)
      && SplitMapFilter(a, f) == Words([a[..BreakIndex(a)]], f) + SplitMapFilter(rest, f)
  {
    SkipBreaksConcat(a[BreakIndex(a)..], z);
    BrokenHead(a, z, f);
    SplitStep(a, f);
  }

  /** Any run of line breaks between two parts of a file splits its words
      into the words of each part. */
  lemma ParseWordsSplit(a: string, sep: string, b: string)
    requires BreakRun(sep)
    ensures ParseWords(a + sep + b) == ParseWords(a) + ParseWords(b)
  {
    assert Trim("") == "";
    SplitAtRun(a, sep, b, Trim);
    StringAssoc(a, sep, b);
  }

  /** LF, CRLF and blank lines between two lines give the same words. */
  lemma LineEndingsAgree(a: string, b: string)
    ensures ParseWords(a + "\r\n" + b) == ParseWords(a + "\n" + b)
    ensures ParseWords(a + "\n\n" + b) == ParseWords(a + "\n" + b)
    ensures ParseWords(a + "\n" + b) == ParseWords(a) + ParseWords(b)
  {
    ParseWordsSplit(a, "\r\n", b);
    ParseWordsSplit(a, "\n\n", b);
    ParseWordsSplit(a, "\n", b);
  }

  /** A single line yields its trimmed text, unless that is empty. */
  lemma ParseWordsLine(line: string)
    requires NoBreaks(line)
    ensures ParseWords(line) == if Trim(line) == "" then [] else [Trim(line)]
  {
    SplitLine(line, Trim);
  }

  /** No extracted word is empty, contains a line break or has whitespace
      at either end. */
  lemma {:induction false} TrimmedClean(pieces: seq<string>)
    requires forall p :: p in pieces ==> NoBreaks(p)
    ensures forall w :: w in Words(pieces, Trim) ==>
      w != "" && NoBreaks(w) && Trim(w) == w && !IsWhitespace(w[0]) && !IsWhitespace(w[|w| - 1])
    decreases |pieces|
  {
    if pieces != [] {
      var p := pieces[0];
      assert pieces == [p] + pieces[1..];
      WordsConcat([p], pieces[1..], Trim);
      WordsSingle(p, Trim);
      TrimmedClean(pieces[1..]);
      TrimSlice(p);
      TrimIdempotent(p);
      var w := Trim(p);
      assert p in pieces;
      forall k | 0 <= k < |w| ensures !IsBreak(w[k]) {
        TrimChar(p, k);
        assert !IsBreak(p[LeadingWhitespace(p) + k]);
      }
    }
  }

  lemma ParseWordsClean(content: string)
    ensures forall w :: w in ParseWords(content) ==>
      w != "" && NoBreaks(w) && Trim(w) == w && !IsWhitespace(w[0]) && !IsWhitespace(w[|w| - 1])
  {
    TrimmedClean(SplitLines(content));
  }

  /** Every piece of a split consists of characters of the split string. */
  lemma {:induction false} SplitLinesChars(s: string, P: char -> bool)
    requires forall i :: 0 <= i < |s| ==> P(s[i])
    ensures forall p, i :: p in SplitLines(s) && 0 <= i < |p| ==> P(p[i])
    decreases |s|
  {
    var k := BreakIndex(s);
    if k < |s| {
      var rest := SkipBreaks(s[k..]);
      assert forall i :: 0 <= i < |rest| ==> rest[i] == s[|s| - |rest| + i];
      SplitLinesChars(rest, P);
      assert SplitLines(s) == [s[..k]] + SplitLines(rest);
    }
  }

  lemma {:induction false} AllBlank(pieces: seq<string>)
    requires forall p :: p in pieces ==> Trim(p) == ""
    ensures Words(pieces, Trim) == []
    decreases |pieces|
  {
    if pieces != [] {
      assert MapLines(pieces, Trim)[0] == "";
      AllBlank(pieces[1..]);
    }
  }

  /** A file of whitespace only yields no words. */
  lemma ParseWordsOfBlank(content: string)
    requires AllWhitespace(content)
    ensures ParseWords(content) == []
  {
    var pieces := SplitLines(content);
    SplitLinesChars(content, IsWhitespace);
    forall p | p in pieces ensures Trim(p) == "" {
      TrimEmptyIff(p);
    }
    AllBlank(pieces);
  }

  /** What the import button leads to: the error toast when the name is
      blank, or the list handed to `onImport`. */
  datatype ImportOutcome = NameMissing | Imported(list: WordList)

  /** The dialog's state cells. */
  class ImportDialog {
    var importDialogOpen: bool
    var wordListName: string
    var uploadedWords: seq<string>

    constructor ()
      ensures !importDialogOpen && wordListName == "" && uploadedWords == []
    {
      importDialogOpen := false;
      wordListName := "";
      uploadedWords := [];
    }

    /** `onOpenChange` of the dialog. */
    method SetOpen(open: bool)
      modifies this`importDialogOpen
      ensures importDialogOpen == open
    {
      importDialogOpen := open;
    }

    /** `onChange` of the name field. */
    method SetWordListName(name: string)
      modifies this`wordListName
      ensures wordListName == name
    {
      wordListName := name;
    }

    /** `handleFileUpload`: `file` is the text of the chosen file, or `None`
        when no file was chosen, in which case nothing changes. */
    method HandleFileUpload(file: Option<string>)
      modifies this`uploadedWords
      ensures file.Some? ==> uploadedWords == ParseWords(file.value)
      ensures file.None? ==> uploadedWords == old(uploadedWords)
      ensures file.Some? ==> forall w :: w in uploadedWords ==> w != "" && NoBreaks(w) && Trim(w) == w
    {
      if file.Some? {
        var words := ParseWords(file.value);
        ParseWordsClean(file.value);
        uploadedWords := words;
      }
    }

    /** `handleImport`: `id` is the `Date.now().toString()` value of the click. */
    method HandleImport(id: string) returns (outcome: ImportOutcome)
      modifies this
      ensures outcome == NameMissing <==> AllWhitespace(old(wordListName))
      ensures outcome == NameMissing ==>
        importDialogOpen == old(importDialogOpen) && wordListName == old(wordListName)
        && uploadedWords == old(uploadedWords)
      ensures outcome.Imported? ==>
        outcome.list == WordList(id, old(wordListName), old(uploadedWords))
        && !importDialogOpen && wordListName == "" && uploadedWords == []
    {
      TrimEmptyIff(wordListName);
      if Trim(wordListName) == "" {
        return NameMissing;
      }
      outcome := Imported(WordList(id, wordListName, uploadedWords));
      importDialogOpen := false;
      wordListName := "";
      uploadedWords := [];
    }
  }
}
