# Cdictation word dictation, modelled in Dafny

Cdictation is a browser trainer for English spelling dictation. The learner
imports a word list from a text file. The application speaks each word a set
number of times, and the learner types it. The typed answer is checked
character by character. Each attempt goes into a history, and correct and
wrong words are tracked in two progress lists. A dictionary of translations
is loaded from a CSV file and looked up by a normalised key.

This project models that logic and proves what it guarantees. There is one
Dafny module per source file of the core:

- `Types` (`types.dfy`): the shared records `WordList`, `Settings`,
  `WordHistory` and `Option`.
- `Text` (`text.dfy`): the JavaScript string built-ins the core depends on.
  These are `trim` (the exact ECMAScript whitespace set), `toLowerCase` and
  `split(/[\n\r]+/)`.
- `Dictation` (`dictation.dfy`): the `DictationArea` component. It holds the
  answer checker, submission, back-navigation, play/pause, continuous play
  and the keyboard shortcuts. Speech synthesis is a log of `SpeechEvent`s.
  A run of continuous play is an object (`ContinuousPlay`) holding the
  closure's captured word, play count and counter. Each firing of its timer
  is one more call of `Play`.
- `Progress` (`progress.dfy`): the `useWordProgress` hook. It covers the
  `Array.from(new Set(...))` idiom, `filter`, and the updaters.
- `History` (`history.dfy`): the `useWordHistory` hook, with `slice` index
  resolution written out.
- `Dictionary` (`dictionary.dfy`): the `useDictionary` hook. The table is
  built by a loop from parsed CSV rows, and lookup falls back to a sentinel.
- `Import` (`import.dfy`): the `ImportDialog` component. It covers the
  text → words pipeline and the import button's validation and reset.
- `App` (`app.dfy`): the `WordDictationApp` component. It covers the
  registry of lists, selection by id, the default settings and the mount
  effect.

State the source mutates lives in classes whose methods carry `modifies`
clauses. Each method is specified by a function on the old state, for
example `Mismatches`, `AddWordUpdate`, `Table`, `ParseWords` or `FindById`.
Lemmas about those functions state what the component promises.

Some statements of the code are easy to misread, and the model follows the
code in each case:

- The checker does no normalisation. Input longer than the word is accepted
  when the word is its prefix.
- The two progress lists are not kept disjoint.
- `handleSubmit` prepends the new history entry. `useWordHistory` appends.
- Pausing cancels only the utterance in progress. The pending timer of the
  run still fires and speaks again.
- The `Settings` type declares `autoSubmit` and no `isRandomOrder`. The
  settings the application actually builds have it the other way round, and
  the model follows the built value.

## Model

| member | source | states |
|---|---|---|
| Dictation.CompareWords | components/word-dictation/DictationArea.tsx:85-93 | the returned positions are strictly ascending and at most `\|correct\|` in number. A position is returned exactly when it lies inside the word and the input has no character or a different character there. The result equals the reference `Mismatches`. |
| Dictation.Mismatches | components/word-dictation/DictationArea.tsx:85-93 | reference definition of the error list: every position of the word where the input is missing or differs, ascending (`MismatchesBelow` over the whole word), whose contract gives ascending order, the bound and the membership condition |
| Dictation.NoMismatchIff | components/word-dictation/DictationArea.tsx:87-88 | the error list is empty exactly when the word is a prefix of the input (exact comparison, no trimming or case folding) |
| Dictation.ExtraInputIgnored | components/word-dictation/DictationArea.tsx:87 | characters typed beyond the word's length never change the error list |
| Dictation.ExactInputCorrect | components/word-dictation/DictationArea.tsx:87 | the word typed exactly gives no errors, and the empty word gives no errors for any input |
| Dictation.PreviousIndex | components/word-dictation/DictationArea.tsx:101 | `max(0, i - 1)`: never above `i`, 0 at 0, otherwise exactly one less |
| Dictation.DictationArea.constructor | components/word-dictation/DictationArea.tsx:33-37 | empty input, index 0, empty history, not playing |
| Dictation.DictationArea.CurrentWord | components/word-dictation/DictationArea.tsx:39 | the word at the current index while it is inside the list, and otherwise `""`. The current word is always one of the list's words or `""`. |
| Dictation.DictationArea.SetUserInput | components/word-dictation/DictationArea.tsx:141 | the input field's value replaces the user input |
| Dictation.DictationArea.HandleSubmit | components/word-dictation/DictationArea.tsx:39-53 | one entry `{current word, placeholder translation, its error list}` is put in front of the unchanged older history. The index rises by exactly 1 with no upper clamp, and the input is cleared. Past the end of the list the current word is `""`. |
| Dictation.DictationArea.GoToPrevious | components/word-dictation/DictationArea.tsx:152 | the index becomes `max(0, index - 1)` and nothing else changes |
| Dictation.DictationArea.PlayAudio | components/word-dictation/DictationArea.tsx:55-59 | exactly one utterance of the word, in `en-US` or `en-GB` by the pronunciation setting |
| Dictation.Lang | components/word-dictation/DictationArea.tsx:57 | definition: `en-US` for the American pronunciation, `en-GB` for the British one |
| Dictation.DictationArea.Cue | components/word-dictation/DictationArea.tsx:56-58 | definition: an utterance of the word in the language `Lang` gives for the pronunciation setting |
| Dictation.ContinuousPlay.constructor | components/word-dictation/DictationArea.tsx:61-62 | a run captures the word and the play count, and its counter starts at 0 |
| Dictation.ContinuousPlay.Play | components/word-dictation/DictationArea.tsx:63-71 | below `playCount`, speaks the captured word, increments the counter and reschedules. Otherwise it clears the playing flag and stops. |
| Dictation.DictationArea.StartContinuousPlay | components/word-dictation/DictationArea.tsx:61-73 | the first `play` call. It leaves a pending run (counter 1, one cue for the current word) exactly when `playCount` is positive, and otherwise clears the flag without speaking. |
| Dictation.DictationArea.TogglePlay | components/word-dictation/DictationArea.tsx:75-83 | when playing: cancels speech and clears the flag. When idle: sets the flag and starts a run, which clears the flag at once when `playCount <= 0`. |
| Dictation.DictationArea.PlayToEnd | components/word-dictation/DictationArea.tsx:61-73 | a whole run from idle issues exactly `max(0, playCount)` cues, all for the word current at the start, and ends not playing |
| Dictation.PauseKeepsRunAlive | components/word-dictation/DictationArea.tsx:39-78 | start, pause, then submit: pausing appends only a cancel, and after the index has moved to the next word the run's next timer firing still speaks the word captured at the start |
| Dictation.DictationArea.HandleKeyDown | components/word-dictation/DictationArea.tsx:96-105 | Space toggles playback, ArrowLeft goes back one word, ArrowUp replays the current word, and any other key changes nothing |
| Dictation.KeyActionOf | components/word-dictation/DictationArea.tsx:97-104 | `Space` and only `Space` toggles playback, `ArrowLeft` and only it goes back, `ArrowUp` and only it replays, and every other code does nothing |
| Dictation.SubmitThenGoBack | components/word-dictation/DictationArea.tsx:49-51 | submitting then going back shows the same word again, with the attempt kept at the front of the history |
| Progress.Distinct | hooks/useWordProgress.ts:25 | the set idiom's result has no duplicates and has exactly the input's elements |
| Progress.DistinctOrder | hooks/useWordProgress.ts:25 | the distinct elements come in the order of their first occurrences |
| Progress.AddToSet | hooks/useWordProgress.ts:25 | on a duplicate-free list the idiom appends a new word at the end and leaves the list unchanged when the word is present |
| Progress.Without | hooks/useWordProgress.ts:26 | `filter(w => w !== word)` keeps exactly the other elements |
| Progress.WithoutConcat | hooks/useWordProgress.ts:26 | filtering distributes over concatenation, so the remaining words keep their relative order |
| Progress.AddWordUpdate | hooks/useWordProgress.ts:21-32 | a correct answer puts the word in the correct list and removes it from the incorrect one. A wrong answer puts it in the incorrect list and leaves the correct list unchanged. Other words do not change list. |
| Progress.RemoveIncorrectWordUpdate | hooks/useWordProgress.ts:34-41 | gives the same state as a correct answer for that word |
| Progress.AddWordIdempotent | hooks/useWordProgress.ts:21-32 | recording the same outcome twice equals recording it once |
| Progress.AddWordKeepsNoDuplicates | hooks/useWordProgress.ts:21-32 | duplicate-free lists stay duplicate-free |
| Progress.WrongAfterCorrectInBoth | hooks/useWordProgress.ts:24-28 | a word answered correctly and then wrongly is in both lists: disjointness is not kept |
| Progress.WordProgressStore.constructor | hooks/useWordProgress.ts:9-15 | the saved progress when there is one, otherwise two empty lists |
| Progress.WordProgressStore.AddWord | hooks/useWordProgress.ts:21-32 | the state becomes `AddWordUpdate` of the old state |
| Progress.WordProgressStore.RemoveIncorrectWord | hooks/useWordProgress.ts:34-41 | the state becomes that of `AddWord(word, true)` |
| Progress.WordProgressStore.ResetProgress | hooks/useWordProgress.ts:43-45 | both lists become empty |
| History.SliceBound | hooks/useWordHistory.ts:12 | a bound in `[0, len]` is kept, a negative bound counts from the end, a bound above `len` becomes `len`, and one below `-len` becomes 0 |
| History.Slice | hooks/useWordHistory.ts:12 | `slice(start, end)` with bounds inside the history is exactly that stretch, and it is empty when the resolved end is not past the resolved start |
| History.Appended | hooks/useWordHistory.ts:8 | `[...prev, word]` grows by one, keeps the earlier entries, and ends in the new entry |
| History.WithoutLast | hooks/useWordHistory.ts:12 | `slice(0, -1)` drops exactly the last entry, and gives `[]` for `[]` |
| History.AddThenRemove | hooks/useWordHistory.ts:8-12 | adding an entry and removing the last one restores the history |
| History.RemoveThenAdd | hooks/useWordHistory.ts:8-12 | removing the last entry and adding it back restores a non-empty history |
| History.WordHistoryStore.constructor | hooks/useWordHistory.ts:5 | the history starts empty |
| History.WordHistoryStore.AddWordToHistory | hooks/useWordHistory.ts:7-9 | the history becomes the old history with the entry appended |
| History.WordHistoryStore.RemoveLastWordFromHistory | hooks/useWordHistory.ts:11-13 | the history becomes the old history without its last entry |
| Dictionary.BuildDictionary | hooks/useDictionary.ts:24-32 | the `forEach` loop builds exactly the reference table `Table(rows)` |
| Dictionary.TableOf | hooks/useDictionary.ts:24-32 | reference definition of the table for any key function: the rows taken in order, each accepted row setting its key, so a later row overwrites an earlier one |
| Dictionary.Table | hooks/useDictionary.ts:24-32 | definition: `TableOf` with the hook's key `Key` |
| Dictionary.Key | hooks/useDictionary.ts:27 | `toLowerCase().trim()`. Every key is already trimmed and lower-case, so it is its own key. |
| Dictionary.TableKeys | hooks/useDictionary.ts:25-27 | a key is in the table exactly when some row with a truthy word and translation has that key |
| Dictionary.TableLastWins | hooks/useDictionary.ts:25-30 | the stored entry is the trimmed word and translation of the last such row with that key |
| Dictionary.TranslationOfRows | hooks/useDictionary.ts:53-58 | the lookup answers with the trimmed translation of the last accepted row whose key is `trim(lower(word))` |
| Dictionary.TranslationMissing | hooks/useDictionary.ts:58 | when no accepted row has the word's key, the lookup gives `未找到翻译` |
| Dictionary.TranslationNormalises | hooks/useDictionary.ts:54 | words equal after trimming and lower-casing get the same answer |
| Dictionary.Translation | hooks/useDictionary.ts:53-59 | definition of the lookup: the stored translation under the word's key, or `未找到翻译` |
| Dictionary.TranslationOfKey | hooks/useDictionary.ts:54 | looking up a word's key gives the same answer as looking up the word |
| Dictionary.EmptyTableMisses | hooks/useDictionary.ts:10 | before loading, every lookup gives the sentinel |
| Dictionary.DictionaryStore.constructor | hooks/useDictionary.ts:10-12 | empty table, loading, no error |
| Dictionary.DictionaryStore.Complete | hooks/useDictionary.ts:23-36 | the table becomes `Table(rows)` and loading ends |
| Dictionary.DictionaryStore.LoadFailed | hooks/useDictionary.ts:37-47 | the error becomes `词典加载失败`, loading ends, and the table is kept |
| Dictionary.DictionaryStore.GetTranslation | hooks/useDictionary.ts:53-59 | `getTranslation` answers with `Translation` on the current table |
| Text.TrimSlice | components/word-dictation/ImportDialog.tsx:35 | `trim` leaves the contiguous middle of the string, with only whitespace cut from either end and no whitespace at its ends |
| Text.Trim | components/word-dictation/ImportDialog.tsx:35 | `String.prototype.trim`, whitespace removed from both ends. Never longer than its input. `TrimSlice`, `TrimEmptyIff` and `TrimIdempotent` characterise it. |
| Text.Lower | hooks/useDictionary.ts:27 | `toLowerCase` on ASCII letters: same length, each character lower-cased on its own |
| Text.TrimEmptyIff | components/word-dictation/ImportDialog.tsx:44 | `trim(s)` is empty exactly when `s` is all whitespace |
| Text.TrimIdempotent | components/word-dictation/ImportDialog.tsx:35 | trimming twice equals trimming once |
| Text.LowerTrimCommute | hooks/useDictionary.ts:27 | lower-casing and trimming commute |
| Text.LowerIdempotent | hooks/useDictionary.ts:27 | lower-casing twice equals lower-casing once |
| Text.SplitLines | components/word-dictation/ImportDialog.tsx:34 | the split has at least one piece and no piece contains `\n` or `\r` |
| Import.NonEmpty | components/word-dictation/ImportDialog.tsx:36 | keeps exactly the non-empty pieces |
| Import.MapLines | components/word-dictation/ImportDialog.tsx:35 | `map(f)`: same length, and each piece replaced by `f` of it |
| Import.SplitMapFilter | components/word-dictation/ImportDialog.tsx:33-36 | definition: split on runs of line breaks, map each line through `f`, drop the empty results |
| Import.ParseWords | components/word-dictation/ImportDialog.tsx:33-36 | definition: `SplitMapFilter` with `trim`. `ParseWordsSplit`, `ParseWordsLine`, `ParseWordsClean` and `LineEndingsAgree` state what it yields. |
| Import.WordsConcat | components/word-dictation/ImportDialog.tsx:35-36 | trimming and filtering distribute over concatenation, so words keep the order of their lines |
| Import.SplitAtRun | components/word-dictation/ImportDialog.tsx:33-36 | for any per-line function that keeps the empty line empty, any run of line breaks separates the result as the concatenation of the two sides |
| Import.ParseWordsSplit | components/word-dictation/ImportDialog.tsx:33-36 | the words of `a + breaks + b` are the words of `a` followed by those of `b` |
| Import.LineEndingsAgree | components/word-dictation/ImportDialog.tsx:34 | LF, CRLF and blank-line separated versions of the same lines give the same words |
| Import.ParseWordsLine | components/word-dictation/ImportDialog.tsx:33-36 | a single line yields its trimmed text, inner spaces kept, or nothing when that is empty |
| Import.ParseWordsClean | components/word-dictation/ImportDialog.tsx:33-36 | every word is non-empty, has no line break, equals its own trim and has no whitespace at either end |
| Import.ParseWordsOfBlank | components/word-dictation/ImportDialog.tsx:33-36 | a file of whitespace and line breaks only yields no words |
| Import.ImportDialog.constructor | components/word-dictation/ImportDialog.tsx:22-24 | closed dialog, empty name, no words |
| Import.ImportDialog.SetOpen | components/word-dictation/ImportDialog.tsx:66 | the open flag takes the given value |
| Import.ImportDialog.SetWordListName | components/word-dictation/ImportDialog.tsx:88 | the name takes the given value |
| Import.ImportDialog.HandleFileUpload | components/word-dictation/ImportDialog.tsx:27-41 | with a file, the words become `ParseWords` of its text, all clean. Without a file, nothing changes. |
| Import.ImportDialog.HandleImport | components/word-dictation/ImportDialog.tsx:43-63 | the error outcome comes exactly when the name is all whitespace, and then nothing changes. Otherwise the list `{id, untrimmed name, uploaded words}` is handed on, the dialog closes, and name and words reset. |
| App.FindById | components/word-dictation/WordDictationApp.tsx:58 | none exactly when no list has the id. Otherwise the first list with that id. |
| App.FindAfterAppend | components/word-dictation/WordDictationApp.tsx:57-64 | appending a list changes the lookup only for an id no earlier list has |
| App.FindFirst | components/word-dictation/WordDictationApp.tsx:41-44 | the first list is found by its own id |
| App.WordDictationApp.constructor | components/word-dictation/WordDictationApp.tsx:10-27 | the saved settings, or `{American, 3, 1, "", false}`. No lists and no selection. |
| App.WordDictationApp.Mount | components/word-dictation/WordDictationApp.tsx:31-47 | saved settings replace the current ones. Saved non-empty lists become the lists, the first is selected, and its id is stored in the settings. |
| App.WordDictationApp.SyncSelection | components/word-dictation/WordDictationApp.tsx:57-60 | the selection becomes the first list whose id is the stored one, or none |
| App.WordDictationApp.HandleImport | components/word-dictation/WordDictationApp.tsx:62-76 | the list is appended. The first list imported is selected and its id stored. Otherwise selection and settings are unchanged. |
| App.WordDictationApp.SelectWordList | components/word-dictation/WordDictationApp.tsx:85 | only the stored id changes |
| App.MountAndSync | components/word-dictation/WordDictationApp.tsx:31-60 | after mounting with saved lists and the selection effect, the first saved list is shown |
| App.ImportAndSync | components/word-dictation/WordDictationApp.tsx:57-71 | an import followed by the selection effect keeps a selection already in sync, and picks the new list only when no earlier list had the stored id |

## Left out

- Speech synthesis is a log of `Speak`/`CancelSpeech` events. The audio itself and the browser queue are not modelled.
- Real time is not modelled. `setTimeout` and `settings.interval` only order events: a timer firing is a further `ContinuousPlay.Play` call, and `PlayToEnd` assumes no other event falls between firings.
- Persistence is left out: `localStorage` reads and writes and `JSON.parse`/`stringify`. Saved values are parameters (`Option`), and corrupt JSON is not handled.
- Fetching the dictionary CSV, `Papa.parse` and the `FileReader` are I/O and a foreign parser. The model starts from parsed rows and from the file's text. `console.log` output is dropped.
- `Date.now().toString()` is the `id` parameter of `ImportDialog.HandleImport`. Toasts are the `ImportOutcome` value, and the success toast's text is not modelled.
- Text.LowerChar: lower-cases the ASCII letters only, because full Unicode case mapping is not available. `trim` uses the exact ECMAScript whitespace set.
- Dictation.CompareWords: indexes Unicode scalar values, where JavaScript indexes UTF-16 code units. The two differ only for characters outside the Basic Multilingual Plane.
- Settings from `parseInt` may be `NaN`, which is not modelled; `playCount` and `interval` are integers.
- Prop changes while a `DictationArea` is mounted are not modelled. The settings and the word list are fixed for one instance.
- Rendering is left out: JSX, the progress-bar percentage (a float), the history drawer, tooltips and the analytics script.
- The header and settings sheet are presentation wrappers: components/word-dictation/Header.tsx and components/word-dictation/SettingsSheet.tsx are not part of this model. Neither is components/word-dictation-app.tsx, an earlier static version of the screen, nor hooks/useKeyboardShortcuts.ts and hooks/useDictationAudio.ts, which `DictationArea` does not use.
- `useWordHistory` imports a `WordHistory` type that types/wordDictation.ts does not declare. The model uses the record declared in DictationArea.tsx.
- The import button is rendered only once words were uploaded. `ImportDialog.HandleImport` does not require this, because the handler itself does not check it.
