/**
 * src/database/add.rs: recording one original-to-copy mapping in the
 * store, creating the store first when it does not exist.
 */
module DatabaseAdd {
  import opened Wrappers
  import opened Database

  /**
   * `add_files_to_database`: load the table of an existing store (or start
   * from an empty one when there is none), insert the mapping unless the
   * original path already has one, and return the table written back.
   */
  method AddFilesToDatabase(store: Option<map<string, string>>, originalPath: string, copiedPath: string)
    returns (written: map<string, string>)
    ensures originalPath in written
    ensures store.Some? && originalPath in store.value ==> written[originalPath] == store.value[originalPath]
    ensures (store.None? || originalPath !in store.value) ==> written[originalPath] == copiedPath
    ensures store.Some? ==> written.Keys == store.value.Keys + {originalPath}
    ensures store.Some? ==> forall k :: k in store.value && k != originalPath ==> written[k] == store.value[k]
    ensures store.None? ==> written == map[originalPath := copiedPath]
  {
    var tableStruct: DataTable;
    if store.Some? {
      tableStruct := new DataTable.Loaded(store.value);
      tableStruct.EntryOrInsert(originalPath, copiedPath);
    } else {
      tableStruct := new DataTable();
      tableStruct.EntryOrInsert(originalPath, copiedPath);
    }
    written := tableStruct.table;
  }

  /** The table written for a missing store is the one an insertion into an empty table gives. */
  lemma FreshStoreIsSingleton(originalPath: string, copiedPath: string)
    ensures FirstWriteWins(map[], originalPath, copiedPath) == map[originalPath := copiedPath]
  {
  }
}
