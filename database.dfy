/**
 * src/database/mod.rs: the path database, a table from an original file
 * path to the path of its tracked copy, and where that table is stored.
 *
 * The persisted store is modelled by what it holds: `None` when the store
 * file does not exist, `Some(table)` when it does.
 */
module Database {
  import opened Wrappers

  /** Why a lookup fails. */
  datatype DatabaseError =
    | StoreUnreadable   // reading the store file failed (it does not exist)
    | KeyNotFound       // the key has no entry (the `unwrap` on `None`)

  /** `DataTable`: the one field that the store serialises. */
  class DataTable {
    var table: map<string, string>

    /** `DataTable::new`: an empty table. */
    constructor ()
      ensures table == map[]
    {
      table := map[];
    }

    /** `get_table_struct` on an existing store: the table it holds. */
    constructor Loaded(persisted: map<string, string>)
      ensures table == persisted
    {
      table := persisted;
    }

    /** `table.entry(key).or_insert(value)`: the table after a first-write-wins insertion. */
    method EntryOrInsert(key: string, value: string)
      modifies this
      ensures table == FirstWriteWins(old(table), key, value)
    {
      if key !in table {
        table := table[key := value];
      }
    }
  }

  /**
   * The table after `entry(key).or_insert(value)`: the key is present, an
   * earlier value of it is kept, a new one is `value`, and every other key
   * keeps its value.
   */
  function FirstWriteWins(table: map<string, string>, key: string, value: string): (r: map<string, string>)
    ensures r.Keys == table.Keys + {key}
    ensures key in table ==> r[key] == table[key]
    ensures key !in table ==> r[key] == value
    ensures forall k :: k in table && k != key ==> r[k] == table[k]
  {
    if key in table then table else table[key := value]
  }

  /** Inserting the same pair twice gives the table of inserting it once. */
  lemma FirstWriteWinsIdempotent(table: map<string, string>, key: string, value: string)
    ensures FirstWriteWins(FirstWriteWins(table, key, value), key, value) == FirstWriteWins(table, key, value)
  {
  }

  /** Looking a key up in the table read from the store. */
  function Lookup(store: Option<map<string, string>>, key: string): (r: Result<string, DatabaseError>)
    ensures store.None? ==> r == Err(StoreUnreadable)
    ensures store.Some? && key in store.value ==> r == Ok(store.value[key])
    ensures store.Some? && key !in store.value ==> r == Err(KeyNotFound)
  {
    match store
    case None => Err(StoreUnreadable)
    case Some(table) => if key in table then Ok(table[key]) else Err(KeyNotFound)
  }

  /** After recording `(a, b)` for a new key `a`, looking `a` up gives `b`. */
  lemma LookupAfterInsert(table: map<string, string>, a: string, b: string)
    requires a !in table
    ensures Lookup(Some(FirstWriteWins(table, a, b)), a) == Ok(b)
  {
  }

  /** Recording `(a, b)` and then `(a, c)` leaves `b` as the value of `a`. */
  lemma LookupAfterTwoInserts(table: map<string, string>, a: string, b: string, c: string)
    requires a !in table
    ensures Lookup(Some(FirstWriteWins(FirstWriteWins(table, a, b), a, c)), a) == Ok(b)
  {
  }

  /** A key that was never recorded is not found. */
  lemma LookupNeverInserted(table: map<string, string>, inserted: seq<(string, string)>, key: string)
    requires key !in table
    requires forall j :: 0 <= j < |inserted| ==> inserted[j].0 != key
    ensures Lookup(Some(InsertAll(table, inserted)), key) == Err(KeyNotFound)
  {
    InsertAllKeys(table, inserted);
  }

  /** The table after recording every pair of `inserted` in order. */
  function InsertAll(table: map<string, string>, inserted: seq<(string, string)>): map<string, string>
    decreases |inserted|
  {
    if inserted == [] then table
    else InsertAll(FirstWriteWins(table, inserted[0].0, inserted[0].1), inserted[1..])
  }

  lemma {:induction false} InsertAllKeys(table: map<string, string>, inserted: seq<(string, string)>)
    ensures forall k :: k in InsertAll(table, inserted) <==>
      (k in table || exists j :: 0 <= j < |inserted| && inserted[j].0 == k)
    decreases |inserted|
  {
    if inserted != [] {
      var next := FirstWriteWins(table, inserted[0].0, inserted[0].1);
      InsertAllKeys(next, inserted[1..]);
      forall k ensures (k in next || exists j :: 0 <= j < |inserted| - 1 && inserted[1..][j].0 == k)
                   <==> (k in table || exists j :: 0 <= j < |inserted| && inserted[j].0 == k)
      {
        if exists j :: 0 <= j < |inserted| && inserted[j].0 == k {
          var j :| 0 <= j < |inserted| && inserted[j].0 == k;
          if j > 0 {
            assert inserted[1..][j - 1].0 == k;
          }
        }
        if exists j :: 0 <= j < |inserted| - 1 && inserted[1..][j].0 == k {
          var j :| 0 <= j < |inserted| - 1 && inserted[1..][j].0 == k;
          assert inserted[j + 1].0 == k;
        }
      }
    }
  }

  const DatabaseDirName := "do_not_touch"
  const DatabaseFileName := "/path_databse.json"

  /**
   * `get_database_path`: the store directory is the base directory, a slash
   * and `do_not_touch`; the store file is that directory, a slash, and a
   * name that itself starts with a slash, so the file name (spelt as in the
   * program) follows a doubled slash.
   */
  function DatabasePath(adofDir: string): (path: string)
    ensures path == adofDir + "/do_not_touch//path_databse.json"
    ensures path[..|adofDir|] == adofDir
    ensures path[|path| - |"path_databse.json"|..] == "path_databse.json"
  {
    var databaseDir := adofDir + "/" + DatabaseDirName;
    var path := databaseDir + "/" + DatabaseFileName;
    StoreSuffixSpelling();
    assert path == adofDir + ("/" + DatabaseDirName + "/" + DatabaseFileName);
    path
  }

  lemma StoreSuffixSpelling()
    ensures "/" + DatabaseDirName + "/" + DatabaseFileName == "/do_not_touch//path_databse.json"
    ensures "/do_not_touch//path_databse.json"[15..] == "path_databse.json"
  {
    DirPartSpelling();
    FilePartSpelling();
    assert "/do_not_touch" + "//path_databse.json" == "/do_not_touch//path_databse.json";
  }

  lemma DirPartSpelling()
    ensures "/" + DatabaseDirName == "/do_not_touch"
  {
  }

  lemma FilePartSpelling()
    ensures "/" + DatabaseFileName == "//path_databse.json"
  {
  }

  /** Different base directories give different store paths. */
  lemma DatabasePathInjective(a: string, b: string)
    requires DatabasePath(a) == DatabasePath(b)
    ensures a == b
  {
    var pa, pb := DatabasePath(a), DatabasePath(b);
    assert |a| == |pa| - |"/do_not_touch//path_databse.json"|;
    assert a == pa[..|a|] == pb[..|b|] == b;
  }
}
