/** hooks/useWordProgress.ts: the lists of words answered correctly and
    incorrectly. Each list is updated with JavaScript's set idiom
    `Array.from(new Set([...xs, w]))` or with `filter`; the two lists are not
    kept disjoint. */
module Progress {
  import opened Types

  predicate NoDuplicates(xs: seq<string>) {
    forall i, j :: 0 <= i < j < |xs| ==> xs[i] != xs[j]
  }

  /** Position of the first occurrence of `x`. */
  function FirstIndex(xs: seq<string>, x: string): (k: nat)
    requires x in xs
    ensures k < |xs| && xs[k] == x
    ensures forall j :: 0 <= j < k ==> xs[j] != x
    decreases |xs|
  {
    if x in xs[..|xs| - 1] then FirstIndex(xs[..|xs| - 1], x) else |xs| - 1
  }

  /** `Array.from(new Set(xs))`: a `Set` keeps the first occurrence of each
      element, in insertion order. */
  function Distinct(xs: seq<string>): (r: seq<string>)
    ensures NoDuplicates(r)
    ensures forall x :: x in r <==> x in xs
    decreases |xs|
  {
    if xs == [] then []
    else
      var init, last := xs[..|xs| - 1], xs[|xs| - 1];
      assert xs == init + [last];
      var d := Distinct(init);
      if last in d then d else d + [last]
  }

  /** The distinct elements appear in the order of their first occurrences. */
  lemma {:induction false} DistinctOrder(xs: seq<string>)
    ensures forall i, j :: 0 <= i < j < |Distinct(xs)| ==>
      FirstIndex(xs, Distinct(xs)[i]) < FirstIndex(xs, Distinct(xs)[j])
    decreases |xs|
  {
    if xs != [] {
      var init, last := xs[..|xs| - 1], xs[|xs| - 1];
      assert xs == init + [last];
      assert xs[..|xs| - 1] == init;
      DistinctOrder(init);
      var d := Distinct(init);
      var r := Distinct(xs);
      assert r == if last in d then d else d + [last];
      forall i, j | 0 <= i < j < |r| ensures FirstIndex(xs, r[i]) < FirstIndex(xs, r[j]) {
        assert r[i] == d[i] && r[i] in d && r[i] in init;
        assert FirstIndex(xs, r[i]) == FirstIndex(init, r[i]);
        if j < |d| {
          assert r[j] == d[j] && r[j] in init;
          assert FirstIndex(init, d[i]) < FirstIndex(init, d[j]);
          assert FirstIndex(xs, r[j]) == FirstIndex(init, r[j]);
        } else {
          assert r[j] == last && last !in init;
          assert FirstIndex(xs, r[j]) == |xs| - 1;
        }
      }
    }
  }

  /** A duplicate-free list is its own distinct list. */
  lemma {:induction false} DistinctOfNoDuplicates(xs: seq<string>)
    requires NoDuplicates(xs)
    ensures Distinct(xs) == xs
    decreases |xs|
  {
    if xs != [] {
      var init, last := xs[..|xs| - 1], xs[|xs| - 1];
      assert xs == init + [last];
      DistinctOfNoDuplicates(init);
      assert last !in init;
    }
  }

  /** The set idiom adds `w` at the end when it is new and leaves a
      duplicate-free list as it is when `w` is already there. */
  lemma AddToSet(xs: seq<string>, w: string)
    requires NoDuplicates(xs)
    ensures Distinct(xs + [w]) == if w in xs then xs else xs + [w]
  {
    assert (xs + [w])[..|xs|] == xs;
    DistinctOfNoDuplicates(xs);
  }

  /** `xs.filter(x => x !== w)`. */
  function Without(xs: seq<string>, w: string): (r: seq<string>)
    ensures forall x :: x in r <==> x in xs && x != w
    ensures |r| <= |xs|
  {
    if xs == [] then []
    else (if xs[0] == w then [] else [xs[0]]) + Without(xs[1..], w)
  }

  /** Filtering keeps the remaining elements in their order. */
  lemma {:induction false} WithoutConcat(a: seq<string>, b: seq<string>, w: string)
    ensures Without(a + b, w) == Without(a, w) + Without(b, w)
    decreases |a|
  {
    if a != [] {
      assert (a + b)[0] == a[0] && (a + b)[1..] == a[1..] + b;
      WithoutConcat(a[1..], b, w);
      calc {
        Without(a + b, w);
        (if a[0] == w then [] else [a[0]]) + Without(a[1..] + b, w);
        (if a[0] == w then [] else [a[0]]) + (Without(a[1..], w) + Without(b, w));
        Without(a, w) + Without(b, w);
      }
    } else {
      assert a + b == b;
    }
  }

  lemma {:induction false} WithoutAbsent(xs: seq<string>, w: string)
    requires w !in xs
    ensures Without(xs, w) == xs
    decreases |xs|
  {
    if xs != [] {
      WithoutAbsent(xs[1..], w);
    }
  }

  lemma {:induction false} WithoutNoDuplicates(xs: seq<string>, w: string)
    requires NoDuplicates(xs)
    ensures NoDuplicates(Without(xs, w))
    decreases |xs|
  {
    if xs != [] {
      WithoutNoDuplicates(xs[1..], w);
      assert xs[0] !in xs[1..];
    }
  }

  datatype WordProgress = WordProgress(correctWords: seq<string>, incorrectWords: seq<string>)

  const EmptyProgress: WordProgress := WordProgress([], [])

  /** The updater `addWord` passes to `setWordProgress`. A correct answer
      moves the word into the correct list and out of the incorrect one; a
      wrong answer only adds it to the incorrect list. No other word changes
      list. */
  function AddWordUpdate(prev: WordProgress, word: string, isCorrect: bool): (next: WordProgress)
    ensures isCorrect ==> word in next.correctWords && word !in next.incorrectWords
    ensures !isCorrect ==> word in next.incorrectWords && next.correctWords == prev.correctWords
    ensures forall x :: x != word ==>
      (x in next.correctWords <==> x in prev.correctWords) && (x in next.incorrectWords <==> x in prev.incorrectWords)
  {
    if isCorrect then
      prev.(correctWords := Distinct(prev.correctWords + [word]),
            incorrectWords := Without(prev.incorrectWords, word))
    else
      prev.(incorrectWords := Distinct(prev.incorrectWords + [word]))
  }

  /** The updater of `removeIncorrectWord`, which builds a fresh record and
      ends in the same state as a correct answer. */
  function RemoveIncorrectWordUpdate(prev: WordProgress, word: string): (next: WordProgress)
    ensures next == AddWordUpdate(prev, word, true)
  {
    WordProgress(Distinct(prev.correctWords + [word]), Without(prev.incorrectWords, word))
  }

  /** Recording the same outcome twice is the same as recording it once. */
  lemma AddWordIdempotent(prev: WordProgress, word: string, isCorrect: bool)
    ensures AddWordUpdate(AddWordUpdate(prev, word, isCorrect), word, isCorrect)
            == AddWordUpdate(prev, word, isCorrect)
  {
    var once := AddWordUpdate(prev, word, isCorrect);
    if isCorrect {
      AddToSet(once.correctWords, word);
      WithoutAbsent(once.incorrectWords, word);
    } else {
      AddToSet(once.incorrectWords, word);
    }
  }

  /** Duplicate-free lists stay duplicate-free. */
  lemma AddWordKeepsNoDuplicates(prev: WordProgress, word: string, isCorrect: bool)
    requires NoDuplicates(prev.correctWords) && NoDuplicates(prev.incorrectWords)
    ensures var next := AddWordUpdate(prev, word, isCorrect);
      NoDuplicates(next.correctWords) && NoDuplicates(next.incorrectWords)
  {
    if isCorrect {
      WithoutNoDuplicates(prev.incorrectWords, word);
    }
  }

  /** The lists need not stay disjoint: a word answered correctly and then
      wrongly is in both. */
  lemma WrongAfterCorrectInBoth(prev: WordProgress, word: string)
    ensures var next := AddWordUpdate(AddWordUpdate(prev, word, true), word, false);
      word in next.correctWords && word in next.incorrectWords
  {
  }

  /** The state cell of the hook. */
  class WordProgressStore {
    var wordProgress: WordProgress

    /** The lazy initial value: the saved progress when there is one, and two
      empty lists otherwise. Reading and parsing the saved value is outside
      the model. */
    constructor (saved: Option<WordProgress>)
      ensures wordProgress == (if saved.Some? then saved.value else EmptyProgress)
    {
      wordProgress := if saved.Some? then saved.value else EmptyProgress;
    }

    method AddWord(word: string, isCorrect: bool)
      modifies this
      ensures wordProgress == AddWordUpdate(old(wordProgress), word, isCorrect)
    {
      wordProgress := AddWordUpdate(wordProgress, word, isCorrect);
    }

    method RemoveIncorrectWord(word: string)
      modifies this
      ensures wordProgress == RemoveIncorrectWordUpdate(old(wordProgress), word)
      ensures wordProgress == AddWordUpdate(old(wordProgress), word, true)
    {
      wordProgress := RemoveIncorrectWordUpdate(wordProgress, word);
    }

    method ResetProgress()
      modifies this
      ensures wordProgress.correctWords == [] && wordProgress.incorrectWords == []
    {
      wordProgress := EmptyProgress;
    }
  }
}
