/**
 * `saveFilesToStorage`: persists a node list as the JSON text of
 * `{ version, files }` under the storage key. Any exception is caught and
 * logged, so the method reports the logged error instead of raising it.
 */
module SaveFiles {
  import opened Wrappers
  import opened Json
  import opened FileNodes
  import opened WebContainerFiles
  import opened WebContainerPromise
  import opened LocalStorage

  /** The object `{ version: STORAGE_VERSION, files }` that is serialised. */
  function Snapshot(version: string, files: FilesObject): (j: Json)
    ensures j.JObject? && |j.members| == 2
    ensures j.members[0] == Member("version", JString(version))
    ensures j.members[1].key == "files" && j.members[1].value == ToJson(files)
  {
    JObject([Member("version", JString(version)), Member("files", ToJson(files))])
  }

  /**
   * Writes the serialised snapshot of the flattened nodes under the storage
   * key and nothing else. When the write throws, storage is unchanged and the
   * error is what gets logged.
   */
  method SaveFilesToStorage(storage: Storage, settings: StorageSettings, stringify: Json -> string, files: seq<FileNode>)
    returns (logged: Option<JsError>)
    modifies storage
    ensures storage.full == old(storage.full)
    ensures old(storage.full) ==> logged == Some(QuotaExceededError) && storage.items == old(storage.items)
    ensures !old(storage.full) ==>
      logged == None && storage.items == old(storage.items)[settings.key := stringify(Snapshot(settings.version, Converted(files)))]
  {
    var webContainerFiles := ConvertToWebContainerFormat(files);
    logged := storage.SetItem(settings.key, stringify(Snapshot(settings.version, webContainerFiles)));
  }

  /**
   * Every path in the saved snapshot is the name of a file node of the saved
   * list, and its contents are those of the last file node with that name:
   * folders, and whatever is nested in `children`, are never saved.
   */
  lemma SnapshotHoldsOnlyTopLevelFiles(version: string, files: seq<FileNode>, i: int)
    requires 0 <= i < |Snapshot(version, Converted(files)).members[1].value.members|
    ensures var m := Snapshot(version, Converted(files)).members[1].value.members[i];
      exists j :: IsFileNamed(files, j, m.key)
        && m.value == FileJson(ContentsOrEmpty(files[j]))
        && forall k :: j < k < |files| ==> !IsFileNamed(files, k, m.key)
  {
    var saved := Converted(files);
    var entry := saved[i];
    assert entry.path == Keys(saved)[i];
    ConvertedKeys(files, entry.path);
    var j := LastFileNamed(files, entry.path);
    ConvertedLastWins(files, j);
    ConvertedDistinct(files);
    GetAt(saved, i);
    assert IsFileNamed(files, j, entry.path) && entry.contents == ContentsOrEmpty(files[j]);
  }
}
