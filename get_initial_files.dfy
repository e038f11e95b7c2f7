/**
 * `getInitialFiles`: returns the parsed stored value when there is one, and
 * otherwise clears the keys of older storage versions and returns the
 * built-in sample files. `JSON.parse` is a parameter; `None` stands for a
 * parse that throws.
 */
module InitialFiles {
  import opened Wrappers
  import opened Json
  import opened Numbers
  import opened FileNodes
  import opened WebContainerFiles
  import opened WebContainerPromise
  import opened FromWebContainer
  import opened LocalStorage
  import opened SaveFiles

  /** The key `playground-files-v${i}` of storage version `i`. */
  function VersionKey(i: nat): string {
    "playground-files-v" + DecimalString(i)
  }

  /** The keys the cleanup loop removes when it runs `n` times. */
  function VersionKeys(n: nat): (keys: set<string>)
    ensures forall i: nat :: i < n ==> VersionKey(i) in keys
  {
    set i: nat | i < n :: VersionKey(i)
  }

  /** Distinct versions have distinct keys. */
  lemma VersionKeyInjective(a: nat, b: nat)
    ensures VersionKey(a) == VersionKey(b) <==> a == b
  {
    var prefix := "playground-files-v";
    if VersionKey(a) == VersionKey(b) {
      assert DecimalString(a) == VersionKey(a)[|prefix|..];
      assert DecimalString(b) == VersionKey(b)[|prefix|..];
      DecimalStringInjective(a, b);
    }
  }

  /**
   * The cleanup bound is strict: the key of version `i` is removed exactly
   * when `i < n`, so the current version's own key is kept.
   */
  lemma VersionKeysExactly(n: nat, i: nat)
    ensures VersionKey(i) in VersionKeys(n) <==> i < n
  {
    if VersionKey(i) in VersionKeys(n) {
      var j: nat :| j < n && VersionKey(j) == VersionKey(i);
      VersionKeyInjective(i, j);
    }
  }

  /**
   * How many times the loop `for (i = 0; i < parseInt(STORAGE_VERSION); i++)`
   * runs: `i < NaN` is false, so a version without leading digits runs it
   * no times.
   */
  function CleanupBound(version: string): nat {
    match ParseInt(version)
    case None => 0
    case Some(n) => n
  }

  /** `if (storedFiles)`: a missing item and an empty string are both falsy. */
  predicate HasStoredFiles(items: map<string, string>, key: string) {
    key in items && items[key] != ""
  }

  /** The value `getInitialFiles` returns for the given storage contents. */
  function LoadedFiles(items: map<string, string>, settings: StorageSettings, parse: string -> Option<Json>, initialFiles: FilesObject): (files: Json)
    ensures !HasStoredFiles(items, settings.key) ==> files == ToJson(initialFiles)
    ensures files == ToJson(initialFiles) || (HasStoredFiles(items, settings.key) && parse(items[settings.key]) == Some(files))
  {
    if HasStoredFiles(items, settings.key) then
      match parse(items[settings.key])
      case Some(parsed) => parsed
      case None => ToJson(initialFiles)
    else ToJson(initialFiles)
  }

  /** The storage contents `getInitialFiles` leaves behind. */
  function ItemsAfterLoad(items: map<string, string>, settings: StorageSettings): (after: map<string, string>)
    ensures after.Keys <= items.Keys && forall k :: k in after ==> after[k] == items[k]
    ensures HasStoredFiles(items, settings.key) ==> after == items
  {
    if HasStoredFiles(items, settings.key) then items
    else items - VersionKeys(CleanupBound(settings.version))
  }

  method GetInitialFiles(storage: Storage, settings: StorageSettings, parse: string -> Option<Json>, initialFiles: FilesObject)
    returns (files: Json)
    modifies storage
    ensures files == LoadedFiles(old(storage.items), settings, parse, initialFiles)
    ensures storage.items == ItemsAfterLoad(old(storage.items), settings)
    ensures storage.full == old(storage.full)
  {
    var storedFiles := storage.GetItem(settings.key);
    if storedFiles.Some? && storedFiles.value != "" {
      var parsed := parse(storedFiles.value);
      if parsed.Some? {
        return parsed.value;
      } else {
        return ToJson(initialFiles);
      }
    }
    for i := 0 to CleanupBound(settings.version)
      invariant storage.items == old(storage.items) - VersionKeys(i)
      invariant storage.full == old(storage.full)
    {
      assert VersionKeys(i + 1) == VersionKeys(i) + {VersionKey(i)};
      storage.RemoveItem(VersionKey(i));
    }
    return ToJson(initialFiles);
  }

  /**
   * A stored value that parses is returned as it is, with no version check,
   * and storage is left alone; one that does not parse gives the sample
   * files, storage again untouched.
   */
  lemma LoadWithStoredValue(items: map<string, string>, settings: StorageSettings, parse: string -> Option<Json>, initialFiles: FilesObject)
    requires HasStoredFiles(items, settings.key)
    ensures ItemsAfterLoad(items, settings) == items
    ensures parse(items[settings.key]).Some? ==> LoadedFiles(items, settings, parse, initialFiles) == parse(items[settings.key]).value
    ensures parse(items[settings.key]).None? ==> LoadedFiles(items, settings, parse, initialFiles) == ToJson(initialFiles)
  {
  }

  /**
   * With nothing stored, the keys of versions `0 .. N-1` are removed, where
   * `N` is `parseInt(STORAGE_VERSION)`; version `N`'s key and every key that
   * is not a version key keep their values.
   */
  lemma LoadWithoutStoredValue(items: map<string, string>, settings: StorageSettings, k: string)
    requires !HasStoredFiles(items, settings.key)
    ensures var after := ItemsAfterLoad(items, settings);
      && (k in after <==> k in items && forall i: nat :: i < CleanupBound(settings.version) ==> k != VersionKey(i))
      && (k in after ==> after[k] == items[k])
    ensures VersionKey(CleanupBound(settings.version)) in items ==>
      VersionKey(CleanupBound(settings.version)) in ItemsAfterLoad(items, settings)
  {
    var n := CleanupBound(settings.version);
    if k in VersionKeys(n) {
      var i: nat :| i < n && VersionKey(i) == k;
    }
    VersionKeysExactly(n, n);
  }

  /**
   * What `saveFilesToStorage` writes comes back from `getInitialFiles` as the
   * whole `{ version, files }` wrapper, and converting that wrapper to nodes
   * throws: its `version` entry has no `file` property. Assumes, as for the
   * real `JSON.parse`/`JSON.stringify`, that parsing the text of an object
   * gives the object back and that the text is not empty.
   */
  lemma LoadAfterSave(items: map<string, string>, settings: StorageSettings, parse: string -> Option<Json>,
                      stringify: Json -> string, files: seq<FileNode>, initialFiles: FilesObject)
    requires var snapshot := Snapshot(settings.version, Converted(files));
      parse(stringify(snapshot)) == Some(snapshot) && stringify(snapshot) != ""
    ensures var snapshot := Snapshot(settings.version, Converted(files));
      var saved := items[settings.key := stringify(snapshot)];
      && LoadedFiles(saved, settings, parse, initialFiles) == snapshot
      && ItemsAfterLoad(saved, settings) == saved
      && ConvertFromWebContainerFormat(LoadedFiles(saved, settings, parse, initialFiles)).Err?
  {
    var snapshot := Snapshot(settings.version, Converted(files));
    assert MemberNode(snapshot.members[0]).Err?;
  }
}
