/** components/word-dictation/WordDictationApp.tsx: the registry of imported
    word lists, the selected list and the settings. Reading and writing
    `localStorage` is outside the model: the saved values are parameters. */
module App {
  import opened Types

  /** The settings used when nothing is saved. */
  const DefaultSettings: Settings := Settings(American, 3, 1, "", false)

  /** `lists.find(list => list.id === id)`: the first list with that id. */
  function FindById(lists: seq<WordList>, id: string): (r: Option<WordList>)
    ensures r.None? <==> forall i :: 0 <= i < |lists| ==> lists[i].id != id
    ensures r.Some? ==> exists i :: (0 <= i < |lists| && lists[i] == r.value && r.value.id == id
      && forall j :: 0 <= j < i ==> lists[j].id != id)
    decreases |lists|
  {
    if lists == [] then None
    else if lists[0].id == id then Some(lists[0])
    else
      var r := FindById(lists[1..], id);
      assert forall i :: 1 <= i < |lists| ==> lists[i] == lists[1..][i - 1];
      if r.Some? then
        var k :| 0 <= k < |lists[1..]| && lists[1..][k] == r.value && r.value.id == id
          && forall j :: 0 <= j < k ==> lists[1..][j].id != id;
        assert lists[k + 1] == r.value;
        r
      else r
  }

  /** Appending a list changes the lookup only for an id no earlier list has. */
  lemma {:induction false} FindAfterAppend(lists: seq<WordList>, l: WordList, id: string)
    ensures FindById(lists + [l], id) ==
      if FindById(lists, id).Some? then FindById(lists, id)
      else if l.id == id then Some(l) else None
    decreases |lists|
  {
    if lists == [] {
      assert lists + [l] == [l];
      assert [l][1..] == [];
    } else {
      assert (lists + [l])[0] == lists[0] && (lists + [l])[1..] == lists[1..] + [l];
      FindAfterAppend(lists[1..], l, id);
    }
  }

  /** The first list is found by its own id. */
  lemma FindFirst(lists: seq<WordList>)
    requires lists != []
    ensures FindById(lists, lists[0].id) == Some(lists[0])
  {
  }

  /** The component's state cells. */
  class WordDictationApp {
    var settings: Settings
    var wordLists: seq<WordList>
    var selectedWordList: Option<WordList>

    /** The lazy initial settings: the saved ones, or the defaults. */
    constructor (savedSettings: Option<Settings>)
      ensures settings == (if savedSettings.Some? then savedSettings.value else DefaultSettings)
      ensures wordLists == [] && selectedWordList == None
    {
      settings := if savedSettings.Some? then savedSettings.value else DefaultSettings;
      wordLists := [];
      selectedWordList := None;
    }

    /** The effect run on mount. The updater that stores the first list's id
        applies after the saved settings are set, so that id wins. */
    method Mount(savedSettings: Option<Settings>, savedWordLists: Option<seq<WordList>>)
      modifies this
      ensures var base := if savedSettings.Some? then savedSettings.value else old(settings);
        if savedWordLists.Some? && savedWordLists.value != [] then
          wordLists == savedWordLists.value && selectedWordList == Some(wordLists[0])
          && settings == base.(wordList := wordLists[0].id)
        else
          wordLists == (if savedWordLists.Some? then savedWordLists.value else old(wordLists))
          && selectedWordList == old(selectedWordList) && settings == base
    {
      if savedSettings.Some? {
        settings := savedSettings.value;
      }
      if savedWordLists.Some? {
        var parsed := savedWordLists.value;
        wordLists := parsed;
        if |parsed| > 0 {
          selectedWordList := Some(parsed[0]);
          settings := settings.(wordList := parsed[0].id);
        }
      }
    }

    /** The effect that follows `settings.wordList` and `wordLists`. */
    method SyncSelection()
      modifies this`selectedWordList
      ensures selectedWordList == FindById(wordLists, settings.wordList)
    {
      selectedWordList := FindById(wordLists, settings.wordList);
    }

    /** `handleImport`: append the list; the first list ever imported is
        selected and its id stored in the settings. */
    method HandleImport(newWordList: WordList)
      modifies this
      ensures wordLists == old(wordLists) + [newWordList]
      ensures |old(wordLists)| == 0 ==>
        selectedWordList == Some(newWordList) && settings == old(settings).(wordList := newWordList.id)
      ensures |old(wordLists)| != 0 ==>
        selectedWordList == old(selectedWordList) && settings == old(settings)
    {
      var updatedWordLists := wordLists + [newWordList];
      wordLists := updatedWordLists;
      if |updatedWordLists| == 1 {
        selectedWordList := Some(newWordList);
        settings := settings.(wordList := newWordList.id);
      }
    }

    /** The `setSelectedWordList` callback handed to the header, which only
        stores the id in the settings. */
    method SelectWordList(id: string)
      modifies this`settings
      ensures settings == old(settings).(wordList := id)
    {
      settings := settings.(wordList := id);
    }
  }

  /** After mounting with saved lists and the selection effect, the first
      saved list is the one shown. */
  method MountAndSync(app: WordDictationApp, savedSettings: Option<Settings>, lists: seq<WordList>)
    requires lists != []
    modifies app
    ensures app.wordLists == lists && app.selectedWordList == Some(lists[0])
    ensures app.settings.wordList == lists[0].id
  {
    app.Mount(savedSettings, Some(lists));
    app.SyncSelection();
    FindFirst(lists);
  }

  /** An import followed by the selection effect keeps a selection that was
      already in sync with the settings, and may pick the new list only when
      no earlier list had the stored id. */
  method ImportAndSync(app: WordDictationApp, l: WordList)
    requires app.selectedWordList == FindById(app.wordLists, app.settings.wordList)
    modifies app
    ensures app.wordLists == old(app.wordLists) + [l]
    ensures app.selectedWordList == FindById(app.wordLists, app.settings.wordList)
    ensures old(app.selectedWordList).Some? ==> app.selectedWordList == old(app.selectedWordList)
    ensures old(app.selectedWordList).None? && old(app.wordLists) != [] ==>
      app.selectedWordList == (if l.id == old(app.settings.wordList) then Some(l) else None)
  {
    app.HandleImport(l);
    app.SyncSelection();
    FindAfterAppend(old(app.wordLists), l, app.settings.wordList);
  }
}
