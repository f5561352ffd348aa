/** hooks/useWordHistory.ts: a list of attempts that grows at the end and
    shrinks by dropping its last entry. */
module History {
  import opened Types

  /** How `Array.prototype.slice` resolves one bound against a length: a
      negative bound counts from the end, and both are clamped to `[0, len]`. */
  function SliceBound(len: nat, k: int): (b: nat)
    ensures b <= len
    ensures 0 <= k <= len ==> b == k
    ensures k < 0 && 0 <= len + k ==> b == len + k
    ensures len < k ==> b == len
    ensures len + k < 0 ==> b == 0
  {
    if k < 0 then (if len + k < 0 then 0 else len + k)
    else if k > len then len
    else k
  }

  /** `s.slice(start, end)`. */
  function Slice(s: seq<WordHistory>, start: int, end: int): (r: seq<WordHistory>)
    ensures |r| <= |s|
    ensures 0 <= start <= end <= |s| ==> r == s[start..end]
    ensures SliceBound(|s|, end) <= SliceBound(|s|, start) ==> r == []
  {
    var from, to := SliceBound(|s|, start), SliceBound(|s|, end);
    if from < to then s[from..to] else []
  }

  /** `[...prev, word]`. */
  function Appended(prev: seq<WordHistory>, word: WordHistory): (next: seq<WordHistory>)
    ensures |next| == |prev| + 1 && next[..|prev|] == prev && next[|prev|] == word
  {
    prev + [word]
  }

  /** `prev.slice(0, -1)`: everything but the last entry; nothing when empty. */
  function WithoutLast(prev: seq<WordHistory>): (next: seq<WordHistory>)
    ensures prev != [] ==> next == prev[..|prev| - 1]
    ensures prev == [] ==> next == []
  {
    Slice(prev, 0, -1)
  }

  /** Adding an entry and removing the last one restores the history. */
  lemma AddThenRemove(prev: seq<WordHistory>, word: WordHistory)
    ensures WithoutLast(Appended(prev, word)) == prev
  {
  }

  /** Removing the last entry and adding it back restores the history. */
  lemma RemoveThenAdd(prev: seq<WordHistory>)
    requires prev != []
    ensures Appended(WithoutLast(prev), prev[|prev| - 1]) == prev
  {
  }

  /** The state cell of the hook. */
  class WordHistoryStore {
    var wordHistory: seq<WordHistory>

    constructor ()
      ensures wordHistory == []
    {
      wordHistory := [];
    }

    method AddWordToHistory(word: WordHistory)
      modifies this
      ensures wordHistory == Appended(old(wordHistory), word)
    {
      wordHistory := Appended(wordHistory, word);
    }

    method RemoveLastWordFromHistory()
      modifies this
      ensures wordHistory == WithoutLast(old(wordHistory))
    {
      wordHistory := WithoutLast(wordHistory);
    }
  }
}
