/** hooks/useDictionary.ts: the translation table built from the rows of the
    dictionary CSV, and the lookup that falls back to a sentinel text. Fetching
    and parsing the CSV are outside the model, which starts from the parsed
    rows. */
module Dictionary {
  import opened Types
  import opened Text

  datatype DictionaryEntry = DictionaryEntry(word: string, translation: string)

  /** One parsed CSV row; a missing column is `None`. */
  datatype Row = Row(word: Option<string>, translation: Option<string>)

  /** Returned by the lookup when the word is not in the table. */
  const NotFound: string := "未找到翻译"

  /** The error text shown when loading fails. */
  const LoadError: string := "词典加载失败"

  /** JavaScript truthiness of an optional string: present and not empty. */
  predicate Truthy(s: Option<string>) {
    s.Some? && s.value != ""
  }

  /** A row enters the table when both cells are truthy. A cell made only of
      spaces is truthy, so it is accepted and trimmed to "". */
  predicate Accepted(row: Row) {
    Truthy(row.word) && Truthy(row.translation)
  }

  /** `word.toLowerCase().trim()`. A key is already trimmed and lower-case. */
  function Key(word: string): (k: string)
    ensures Trim(k) == k && Lower(k) == k
  {
    TrimIdempotent(Lower(word));
    LowerTrimCommute(word);
    LowerIdempotent(Trim(word));
    Trim(Lower(word))
  }

  function EntryOf(row: Row): DictionaryEntry
    requires Accepted(row)
  {
    DictionaryEntry(Trim(row.word.value), Trim(row.translation.value))
  }

  /** `row` is accepted and files its entry under `k` when keys are made by
      `key`. */
  predicate HasKey(row: Row, key: string -> string, k: string) {
    Accepted(row) && key(row.word.value) == k
  }

  /** Reference definition of the table, for any key function: the rows in
      order, each accepted row setting its key, so that a later row overwrites
      an earlier one. The lemmas about it hold whatever the key function is. */
  function TableOf(rows: seq<Row>, key: string -> string): map<string, DictionaryEntry>
    decreases |rows|
  {
    if rows == [] then map[]
    else
      var t, row := TableOf(rows[..|rows| - 1], key), rows[|rows| - 1];
      if Accepted(row) then t[key(row.word.value) := EntryOf(row)] else t
  }

  /** The table the hook builds, keyed by `Key`. */
  function Table(rows: seq<Row>): map<string, DictionaryEntry> {
    TableOf(rows, Key)
  }

  /** One step of `TableOf`: the last row is applied to the table of the others. */
  lemma TableStep(rows: seq<Row>, key: string -> string)
    requires rows != []
    ensures var t, row := TableOf(rows[..|rows| - 1], key), rows[|rows| - 1];
      TableOf(rows, key) == if Accepted(row) then t[key(row.word.value) := EntryOf(row)] else t
  {
  }

  /** The `forEach` loop of `complete`, filling a fresh `Map`. */
  method BuildDictionary(rows: seq<Row>) returns (dict: map<string, DictionaryEntry>)
    ensures dict == Table(rows)
  {
    dict := map[];
    for i := 0 to |rows|
      invariant dict == Table(rows[..i])
    {
      var entry := rows[i];
      TableStep(rows[..i + 1], Key);
      assert rows[..i + 1][..i] == rows[..i];
      if entry.word.Some? && entry.word.value != "" && entry.translation.Some? && entry.translation.value != "" {
        dict := dict[Key(entry.word.value) := EntryOf(entry)];
      }
    }
    assert rows[..|rows|] == rows;
  }

  /** A key is in the table exactly when some accepted row has it. */
  lemma {:induction false} TableKeys(rows: seq<Row>, key: string -> string, k: string)
    ensures k in TableOf(rows, key) <==> exists i :: 0 <= i < |rows| && HasKey(rows[i], key, k)
    decreases |rows|
  {
    if rows != [] {
      var init, last := rows[..|rows| - 1], rows[|rows| - 1];
      TableStep(rows, key);
      TableKeys(init, key, k);
      if HasKey(last, key, k) {
        assert HasKey(rows[|rows| - 1], key, k);
      } else {
        if exists i :: 0 <= i < |rows| && HasKey(rows[i], key, k) {
          var i :| 0 <= i < |rows| && HasKey(rows[i], key, k);
          assert i < |init| && init[i] == rows[i];
        }
        if exists i :: 0 <= i < |init| && HasKey(init[i], key, k) {
          var i :| 0 <= i < |init| && HasKey(init[i], key, k);
          assert rows[i] == init[i];
        }
      }
    }
  }

  /** The entry stored for a key comes from the last accepted row with that key. */
  lemma {:induction false} TableLastWins(rows: seq<Row>, key: string -> string, i: nat)
    requires i < |rows| && Accepted(rows[i])
    requires forall j :: i < j < |rows| ==> !HasKey(rows[j], key, key(rows[i].word.value))
    ensures key(rows[i].word.value) in TableOf(rows, key)
    ensures TableOf(rows, key)[key(rows[i].word.value)] == EntryOf(rows[i])
    decreases |rows|
  {
    var init := rows[..|rows| - 1];
    TableStep(rows, key);
    if i < |rows| - 1 {
      assert init[i] == rows[i];
      TableLastWins(init, key, i);
      assert !HasKey(rows[|rows| - 1], key, key(rows[i].word.value));
    }
  }

  /** `getTranslation` on a given table. */
  function Translation(dict: map<string, DictionaryEntry>, word: string): string {
    var k := Key(word);
    if k in dict then dict[k].translation else NotFound
  }

  /** The lookup on a table built from rows answers with the trimmed
      translation of the last accepted row whose key is the word's, and with
      the sentinel when no accepted row has that key. */
  lemma TranslationOfRows(rows: seq<Row>, word: string, i: nat)
    requires i < |rows| && HasKey(rows[i], Key, Key(word))
    requires forall j :: i < j < |rows| ==> !HasKey(rows[j], Key, Key(word))
    ensures Translation(Table(rows), word) == Trim(rows[i].translation.value)
  {
    TableLastWins(rows, Key, i);
  }

  lemma TranslationMissing(rows: seq<Row>, word: string)
    requires forall j :: 0 <= j < |rows| ==> !HasKey(rows[j], Key, Key(word))
    ensures Translation(Table(rows), word) == NotFound
  {
    TableKeys(rows, Key, Key(word));
  }

  /** The lookup ignores ASCII case and surrounding whitespace. */
  lemma TranslationNormalises(dict: map<string, DictionaryEntry>, a: string, b: string)
    requires Lower(Trim(a)) == Lower(Trim(b))
    ensures Translation(dict, a) == Translation(dict, b)
  {
    LowerTrimCommute(a);
    LowerTrimCommute(b);
  }

  /** Looking up a word's key gives the same answer as looking up the word. */
  lemma TranslationOfKey(dict: map<string, DictionaryEntry>, word: string)
    ensures Translation(dict, Key(word)) == Translation(dict, word)
  {
  }

  /** Before loading completes the table is empty and every lookup misses. */
  lemma EmptyTableMisses(word: string)
    ensures Translation(map[], word) == NotFound
  {
  }

  /** The hook's state: the table, the loading flag and the error text. */
  class DictionaryStore {
    var dictionary: map<string, DictionaryEntry>
    var isLoading: bool
    var error: Option<string>

    constructor ()
      ensures dictionary == map[] && isLoading && error == None
    {
      dictionary := map[];
      isLoading := true;
      error := None;
    }

    /** The `complete` callback of the CSV parser. */
    method Complete(rows: seq<Row>)
      modifies this
      ensures dictionary == Table(rows) && !isLoading && error == old(error)
    {
      var dict := BuildDictionary(rows);
      dictionary := dict;
      isLoading := false;
    }

    /** The parser's `error` callback and the `catch` of the fetch. */
    method LoadFailed()
      modifies this
      ensures error == Some(LoadError) && !isLoading && dictionary == old(dictionary)
    {
      error := Some(LoadError);
      isLoading := false;
    }

    function GetTranslation(word: string): string
      reads this
    {
      Translation(dictionary, word)
    }
  }
}
