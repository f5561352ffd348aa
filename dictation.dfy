/** The dictation step of components/word-dictation/DictationArea.tsx: the
    answer checker, submission, back-navigation, continuous play and the
    keyboard shortcuts. Speech synthesis is an abstract device: every call the
    component makes on it is appended to a log of speech events. */
module Dictation {
  import opened Types

  /** Translation text every history entry receives on submit. */
  const TranslationPlaceholder: string := "翻译待添加"

  // ---------------------------------------------------------------------
  // Answer checker
  // ---------------------------------------------------------------------

  /** Position `i` of the word is wrong: the input has no character there, or
      a different one. The comparison is exact (no trimming, no case folding). */
  predicate Differs(correct: string, input: string, i: nat)
    requires i < |correct|
  {
    i >= |input| || correct[i] != input[i]
  }

  predicate StrictlyAscending(xs: seq<nat>) {
    forall i, j :: 0 <= i < j < |xs| ==> xs[i] < xs[j]
  }

  /** The wrong positions below `n`, in ascending order. */
  function MismatchesBelow(correct: string, input: string, n: nat): (r: seq<nat>)
    requires n <= |correct|
    ensures StrictlyAscending(r) && |r| <= n
    ensures forall k: nat :: k in r <==> k < n && Differs(correct, input, k)
  {
    if n == 0 then []
    else
      var r := MismatchesBelow(correct, input, n - 1);
      if Differs(correct, input, n - 1) then
        assert forall i :: 0 <= i < |r| ==> r[i] in r && r[i] < n - 1;
        r + [n - 1]
      else r
  }

  /** Reference definition of the checker's answer: every wrong position of
      `correct`, ascending. */
  function Mismatches(correct: string, input: string): seq<nat> {
    MismatchesBelow(correct, input, |correct|)
  }

  /** `compareWords`: walks the word and collects the positions where the
      input differs or has run out. */
  method CompareWords(correct: string, input: string) returns (errors: seq<nat>)
    ensures errors == Mismatches(correct, input)
    ensures StrictlyAscending(errors) && |errors| <= |correct|
    ensures forall k: nat :: k in errors <==> k < |correct| && Differs(correct, input, k)
  {
    errors := [];
    for i := 0 to |correct|
      invariant errors == MismatchesBelow(correct, input, i)
    {
      if i >= |input| || correct[i] != input[i] {
        errors := errors + [i];
      }
    }
  }

  /** Two inputs that agree at every position of the word get the same answer. */
  lemma {:induction false} MismatchesBelowAgree(correct: string, x: string, y: string, n: nat)
    requires n <= |correct|
    requires forall k :: 0 <= k < n ==> Differs(correct, x, k) == Differs(correct, y, k)
    ensures MismatchesBelow(correct, x, n) == MismatchesBelow(correct, y, n)
  {
    if n > 0 {
      MismatchesBelowAgree(correct, x, y, n - 1);
    }
  }

  /** Characters typed beyond the length of the word never affect the answer. */
  lemma ExtraInputIgnored(correct: string, input: string, extra: string)
    requires |correct| <= |input|
    ensures Mismatches(correct, input + extra) == Mismatches(correct, input)
  {
    MismatchesBelowAgree(correct, input + extra, input, |correct|);
  }

  // The sequence fact of its own: asserted inline in `NoMismatchIff`, where the
  // branch shows `r` has no member, it is proved from contradictory facts.
  lemma HeadIsMember(r: seq<nat>)
    ensures |r| > 0 ==> r[0] in r
  {
  }

  /** The answer is empty exactly when the word is a prefix of the input, so a
      longer input starting with the word is accepted as fully correct. */
  lemma NoMismatchIff(correct: string, input: string)
    ensures Mismatches(correct, input) == [] <==> |correct| <= |input| && input[..|correct|] == correct
  {
    var r := Mismatches(correct, input);
    if |correct| <= |input| && input[..|correct|] == correct {
      forall k: nat | k < |correct| ensures !Differs(correct, input, k) {
        assert input[..|correct|][k] == input[k];
      }
      HeadIsMember(r);
    } else if |input| < |correct| {
      assert |input| in r;
    } else {
      var k :| 0 <= k < |correct| && input[..|correct|][k] != correct[k];
      assert k in r;
    }
  }

  /** The word typed exactly, and the empty word, have no wrong position. */
  lemma ExactInputCorrect(correct: string, input: string)
    ensures Mismatches(correct, correct) == []
    ensures Mismatches("", input) == []
  {
    NoMismatchIff(correct, correct);
  }

  // ---------------------------------------------------------------------
  // Navigation, speech and keys
  // ---------------------------------------------------------------------

  /** `Math.max(0, i - 1)`: the index one back, clamped at 0. */
  function PreviousIndex(i: nat): (j: nat)
    ensures j <= i
    ensures if i == 0 then j == 0 else j + 1 == i
  {
    if i - 1 > 0 then i - 1 else 0
  }

  /** A call on the speech synthesiser. */
  datatype SpeechEvent = Speak(text: string, lang: string) | CancelSpeech

  /** The utterance language for a pronunciation setting. */
  function Lang(p: Pronunciation): string {
    match p
    case American => "en-US"
    case British => "en-GB"
  }

  /** What a key does, by its `KeyboardEvent.code`. */
  datatype KeyAction = TogglePlayback | PreviousWord | ReplayWord | NoAction

  function KeyActionOf(code: string): (a: KeyAction)
    ensures a == TogglePlayback <==> code == "Space"
    ensures a == PreviousWord <==> code == "ArrowLeft"
    ensures a == ReplayWord <==> code == "ArrowUp"
  {
    if code == "Space" then TogglePlayback
    else if code == "ArrowLeft" then PreviousWord
    else if code == "ArrowUp" then ReplayWord
    else NoAction
  }

  /** The component's state. `settings` and the selected list's words are
      props, fixed for the life of one instance. */
  class DictationArea {
    const settings: Settings
    const words: seq<string>
    var userInput: string
    var currentWordIndex: nat
    var wordHistory: seq<WordHistory>
    var isPlaying: bool
    /** Every call made on the speech synthesiser, oldest first. */
    var speech: seq<SpeechEvent>

    constructor (settings: Settings, selectedWordList: WordList)
      ensures this.settings == settings && words == selectedWordList.words
      ensures userInput == "" && currentWordIndex == 0 && wordHistory == []
      ensures !isPlaying && speech == []
    {
      this.settings := settings;
      words := selectedWordList.words;
      userInput := "";
      currentWordIndex := 0;
      wordHistory := [];
      isPlaying := false;
      speech := [];
    }

    /** `selectedWordList.words[currentWordIndex] || ""`. */
    function CurrentWord(): (w: string)
      reads this
      ensures currentWordIndex < |words| ==> w == words[currentWordIndex]
      ensures w == "" || w in words
    {
      if currentWordIndex < |words| then words[currentWordIndex] else ""
    }

    function Cue(word: string): SpeechEvent {
      Speak(word, Lang(settings.pronunciation))
    }

    /** The input field's change handler. */
    method SetUserInput(value: string)
      modifies this`userInput
      ensures userInput == value
    {
      userInput := value;
    }

    /** `handleSubmit`: records the attempt at the front of the history, moves
      to the next index without an upper bound and clears the input. */
    method HandleSubmit()
      modifies this`wordHistory, this`currentWordIndex, this`userInput
      ensures wordHistory == [WordHistory(old(CurrentWord()), TranslationPlaceholder,
                                          Mismatches(old(CurrentWord()), old(userInput)))]
                             + old(wordHistory)
      ensures currentWordIndex == old(currentWordIndex) + 1 && userInput == ""
      ensures |words| <= currentWordIndex ==> CurrentWord() == ""
    {
      var word := CurrentWord();
      var errors := CompareWords(word, userInput);
      wordHistory := [WordHistory(word, TranslationPlaceholder, errors)] + wordHistory;
      currentWordIndex := currentWordIndex + 1;
      userInput := "";
    }

    /** The back button and the left-arrow key. */
    method GoToPrevious()
      modifies this`currentWordIndex
      ensures currentWordIndex == PreviousIndex(old(currentWordIndex))
    {
      currentWordIndex := PreviousIndex(currentWordIndex);
    }

    /** `playAudio`: one utterance of `word` in the configured language. */
    method PlayAudio(word: string)
      modifies this`speech
      ensures speech == old(speech) + [Cue(word)]
    {
      speech := speech + [Cue(word)];
    }

    /** `startContinuousPlay`: creates a run for the current word and makes
      its first `play` call. The run is returned when that call scheduled a
      timer, which happens exactly when `playCount` is positive. */
    method StartContinuousPlay() returns (pending: ContinuousPlay?)
      modifies this`speech, this`isPlaying
      ensures (pending == null) <==> settings.playCount <= 0
      ensures pending != null ==>
        fresh(pending) && pending.word == CurrentWord() && pending.playCount == settings.playCount
        && pending.count == 1 && speech == old(speech) + [Cue(CurrentWord())] && isPlaying == old(isPlaying)
      ensures pending == null ==> speech == old(speech) && !isPlaying
    {
      var run := new ContinuousPlay(CurrentWord(), settings.playCount);
      var scheduled := run.Play(this);
      pending := if scheduled then run else null;
    }

    /** `togglePlay`: pausing cancels the current utterance; starting sets the
      flag and begins a run (which clears the flag at once when `playCount`
      is not positive). */
    method TogglePlay() returns (pending: ContinuousPlay?)
      modifies this`speech, this`isPlaying
      ensures old(isPlaying) ==> !isPlaying && speech == old(speech) + [CancelSpeech] && pending == null
      ensures !old(isPlaying) && settings.playCount <= 0 ==> !isPlaying && speech == old(speech) && pending == null
      ensures !old(isPlaying) && 0 < settings.playCount ==>
        isPlaying && speech == old(speech) + [Cue(CurrentWord())]
        && pending != null && fresh(pending) && pending.word == CurrentWord()
        && pending.playCount == settings.playCount && pending.count == 1
    {
      if isPlaying {
        speech := speech + [CancelSpeech];
        isPlaying := false;
        pending := null;
      } else {
        isPlaying := true;
        pending := StartContinuousPlay();
      }
    }

    /** A whole run of continuous play started from idle: the first `play`
      call and every later timer firing, with no other event in between. It
      issues exactly `playCount` cues (none when that is not positive), all
      for the word current at the start, and ends with the flag cleared. */
    method PlayToEnd()
      requires !isPlaying
      modifies this`speech, this`isPlaying
      ensures speech == old(speech)
                        + seq(if settings.playCount < 0 then 0 else settings.playCount,
                              _ => Cue(old(CurrentWord())))
      ensures !isPlaying
    {
      var pending := TogglePlay();
      if pending == null {
        return;
      }
      var run: ContinuousPlay := pending;
      var scheduled := true;
      while scheduled
        invariant fresh(run)
        invariant run.word == old(CurrentWord()) && run.playCount == settings.playCount
        invariant 1 <= run.count <= run.playCount
        invariant speech == old(speech) + seq(run.count, _ => Cue(run.word))
        invariant isPlaying == scheduled
        invariant !scheduled ==> run.count == run.playCount
        decreases run.playCount - run.count + (if scheduled then 1 else 0)
      {
        scheduled := run.Play(this);
      }
    }

    /** The `keydown` listener: Space toggles playback, ArrowLeft goes back
      one word, ArrowUp replays the current word, every other key does nothing. */
    method HandleKeyDown(code: string) returns (pending: ContinuousPlay?)
      modifies this`speech, this`isPlaying, this`currentWordIndex
      ensures KeyActionOf(code) != TogglePlayback ==> pending == null && isPlaying == old(isPlaying)
      ensures KeyActionOf(code) != PreviousWord ==> currentWordIndex == old(currentWordIndex)
      ensures KeyActionOf(code) == TogglePlayback ==>
        (old(isPlaying) ==> !isPlaying && speech == old(speech) + [CancelSpeech]) &&
        (!old(isPlaying) ==> isPlaying == (0 < settings.playCount) &&
                             speech == old(speech) + (if 0 < settings.playCount then [Cue(CurrentWord())] else []))
      ensures KeyActionOf(code) == PreviousWord ==>
        currentWordIndex == PreviousIndex(old(currentWordIndex)) && speech == old(speech)
      ensures KeyActionOf(code) == ReplayWord ==> speech == old(speech) + [Cue(CurrentWord())]
      ensures KeyActionOf(code) == NoAction ==> speech == old(speech)
    {
      pending := null;
      match KeyActionOf(code)
      case TogglePlayback =>
        pending := TogglePlay();
      case PreviousWord =>
        GoToPrevious();
      case ReplayWord =>
        PlayAudio(CurrentWord());
      case NoAction =>
    }
  }

  /** The state of one `startContinuousPlay` closure: the word and play count
      it captured and its own `count` variable. A run outlives the event that
      started it: every firing of its timer is a further call of `Play`. */
  class ContinuousPlay {
    const word: string
    const playCount: int
    var count: nat

    constructor (word: string, playCount: int)
      ensures this.word == word && this.playCount == playCount && count == 0
    {
      this.word := word;
      this.playCount := playCount;
      count := 0;
    }

    /** One call of `play`: while fewer than `playCount` cues have been issued,
      speak the captured word and reschedule; otherwise clear the flag. */
    method Play(area: DictationArea) returns (rescheduled: bool)
      modifies this`count, area`speech, area`isPlaying
      ensures rescheduled <==> old(count) < playCount
      ensures rescheduled ==>
        count == old(count) + 1 && area.speech == old(area.speech) + [area.Cue(word)]
        && area.isPlaying == old(area.isPlaying)
      ensures !rescheduled ==> count == old(count) && area.speech == old(area.speech) && !area.isPlaying
    {
      if count < playCount {
        area.PlayAudio(word);
        count := count + 1;
        rescheduled := true;
      } else {
        area.isPlaying := false;
        rescheduled := false;
      }
    }
  }

  /** Pausing does not stop a run: it cancels the utterance in progress, but the
    timer of the run stays scheduled. When the learner then submits and moves
    on to the next word, the next firing still speaks the word captured at
    the start. */
  method PauseKeepsRunAlive(area: DictationArea) returns (run: ContinuousPlay)
    requires !area.isPlaying && 2 <= area.settings.playCount
    modifies area
    ensures area.currentWordIndex == old(area.currentWordIndex) + 1
    ensures area.speech == old(area.speech)
                           + [area.Cue(old(area.CurrentWord())), CancelSpeech, area.Cue(old(area.CurrentWord()))]
    ensures !area.isPlaying && run.word == old(area.CurrentWord())
  {
    var pending := area.TogglePlay();
    run := pending;
    var stopped := area.TogglePlay();
    area.HandleSubmit();
    var rescheduled := run.Play(area);
  }

  /** Submitting and then going back shows the same word again, while the
    attempt stays in the history. */
  method SubmitThenGoBack(area: DictationArea)
    modifies area
    ensures area.CurrentWord() == old(area.CurrentWord())
    ensures |area.wordHistory| == |old(area.wordHistory)| + 1
    ensures area.wordHistory[1..] == old(area.wordHistory)
  {
    area.HandleSubmit();
    area.GoToPrevious();
  }
}
