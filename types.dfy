/** Records shared by the dictation components (types/wordDictation.ts and the
    history record declared in DictationArea.tsx). */
module Types {

  /** Optional value, for absent saved state and absent CSV cells. */
  datatype Option<T> = None | Some(value: T)

  /** An imported word list. */
  datatype WordList = WordList(id: string, name: string, words: seq<string>)

  datatype Pronunciation = American | British

  /** The settings object as the application builds it: the default literal
      supplies `isRandomOrder` and leaves `autoSubmit` out, so the model has the
      former and not the latter. `playCount` and `interval` come from `parseInt`,
      hence integers. */
  datatype Settings = Settings(
    pronunciation: Pronunciation,
    playCount: int,
    interval: int,
    wordList: string,
    isRandomOrder: bool)

  /** One dictation attempt: the word, its translation text and the positions
      of the characters the learner got wrong. */
  datatype WordHistory = WordHistory(word: string, translation: string, errors: seq<nat>)
}
