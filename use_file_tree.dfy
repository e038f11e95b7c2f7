/**
 * The file-tree query of the explorer and its success handler. Without a
 * sandbox the tree comes from storage; with one, the root listing is read and
 * every expanded folder, in the set's order, is merged into it.
 */
module UseFileTree {
  import opened Wrappers
  import opened Json
  import opened Paths
  import opened FileNodes
  import opened WebContainerFiles
  import opened FromWebContainer
  import opened LocalStorage
  import opened InitialFiles
  import opened FileTree
  import opened PlaygroundStore

  /**
   * The inner loop over the segments of one expanded folder: from the
   * top-level list, go into the children of the first folder for each
   * segment. `None` when a segment has no such folder, or one without
   * `children`, which makes the query return `undefined`.
   */
  method DescendLevels(tree: seq<FileNode>, pathParts: seq<string>) returns (path: Option<seq<nat>>, currentLevel: seq<FileNode>)
    ensures path == Descend(tree, pathParts)
    ensures path.Some? ==> ValidPath(tree, path.value) && currentLevel == LevelAt(tree, path.value)
  {
    var currentPath: seq<nat> := [];
    currentLevel := tree;
    for j := 0 to |pathParts|
      invariant Descend(tree, pathParts[..j]) == Some(currentPath)
      invariant ValidPath(tree, currentPath) && currentLevel == LevelAt(tree, currentPath)
    {
      DescendStep(tree, pathParts, j, currentPath);
      var found := FindFolder(currentLevel, pathParts[j]);
      if found.Some? && currentLevel[found.value].children.Some? {
        currentPath := currentPath + [found.value];
        currentLevel := currentLevel[found.value].children.value;
      } else {
        DescendFailureIsFinal(tree, pathParts, j + 1);
        return None, currentLevel;
      }
    }
    assert pathParts[..|pathParts|] == pathParts;
    path := Some(currentPath);
  }

  /**
   * The query with a sandbox. The result is `None` (the query resolves to
   * `undefined`) as soon as one expanded folder cannot be reached.
   */
  method LoadFileTree(fs: FileSystem, expandedFolders: seq<string>) returns (tree: Option<seq<FileNode>>)
    ensures tree == Merge(fs, GetAllFiles(fs, "/"), expandedFolders)
  {
    var rootFiles := GetAllFiles(fs, "/");
    var newFileTree := rootFiles;
    for i := 0 to |expandedFolders|
      invariant Merge(fs, rootFiles, expandedFolders[..i]) == Some(newFileTree)
    {
      MergeStep(fs, rootFiles, expandedFolders, i, newFileTree);
      var folder := expandedFolders[i];
      var folderFiles := GetAllFiles(fs, folder);
      var currentPath, currentLevel := DescendLevels(newFileTree, PathParts(folder));
      if currentPath.None? {
        MergeFailureIsFinal(fs, rootFiles, expandedFolders, i + 1);
        return None;
      }
      var folderInTree := FindNamed(currentLevel, folder);
      if folderInTree.Some? {
        newFileTree := SetChildren(newFileTree, currentPath.value, folderInTree.value, folderFiles);
      }
    }
    assert expandedFolders[..|expandedFolders|] == expandedFolders;
    tree := Some(newFileTree);
  }

  /** One more pass of the outer loop merges one more folder into the tree so far. */
  lemma MergeStep(fs: FileSystem, tree: seq<FileNode>, folders: seq<string>, i: nat, merged: seq<FileNode>)
    requires i < |folders| && Merge(fs, tree, folders[..i]) == Some(merged)
    ensures Merge(fs, tree, folders[..i + 1]) == MergeFolder(fs, merged, folders[i])
  {
    assert folders[..i + 1][..i] == folders[..i];
  }

  /** A resolved query value, or the exception the query rejects with. */
  function QueryResult(converted: Result<seq<FileNode>, JsError>): (r: Result<Option<seq<FileNode>>, JsError>)
    ensures r.Ok? <==> converted.Ok?
    ensures r.Ok? ==> r.value == Some(converted.value)
    ensures r.Err? ==> r.error == converted.error
  {
    match converted
    case Ok(nodes) => Ok(Some(nodes))
    case Err(e) => Err(e)
  }

  /**
   * The whole query. Without a sandbox it converts what `getInitialFiles`
   * returns (and the conversion may throw); with one it merges the expanded
   * folders and does not touch storage.
   */
  method FileTreeQuery(webContainer: Option<FileSystem>, expandedFolders: seq<string>, storage: Storage,
                       settings: StorageSettings, parse: string -> Option<Json>, initialFiles: FilesObject)
    returns (result: Result<Option<seq<FileNode>>, JsError>)
    modifies storage
    ensures webContainer.None? ==>
      && result == QueryResult(ConvertFromWebContainerFormat(LoadedFiles(old(storage.items), settings, parse, initialFiles)))
      && storage.items == ItemsAfterLoad(old(storage.items), settings)
    ensures webContainer.Some? ==>
      result == Ok(Merge(webContainer.value, GetAllFiles(webContainer.value, "/"), expandedFolders))
      && storage.items == old(storage.items)
    ensures storage.full == old(storage.full)
  {
    if webContainer.None? {
      var files := GetInitialFiles(storage, settings, parse, initialFiles);
      return QueryResult(ConvertFromWebContainerFormat(files));
    }
    var tree := LoadFileTree(webContainer.value, expandedFolders);
    return Ok(tree);
  }

  /**
   * `onSuccess`: when the query produced a non-empty tree and no file was
   * selected when the query was set up, the first top-level node becomes
   * the selected file; otherwise the store is left alone.
   */
  method OnSuccess(store: Store, selectedFile: Option<FileNode>, newFileTree: Option<seq<FileNode>>)
    modifies store
    ensures if newFileTree.Some? && |newFileTree.value| > 0 && selectedFile.None?
      then store.state == old(store.state).(selectedFile := Some(newFileTree.value[0]))
      else store.state == old(store.state)
  {
    if newFileTree.Some? && |newFileTree.value| > 0 && selectedFile.None? {
      store.SetSelectedFile(Some(newFileTree.value[0]));
    }
  }

  /**
   * Against a real root listing, the query's tree is the root listing itself
   * or nothing: merging never shows the contents of an expanded folder.
   */
  lemma QueryOnRootListing(fs: FileSystem, expandedFolders: seq<string>)
    requires WellFormedListing(fs, "/")
    ensures var root := GetAllFiles(fs, "/");
      Merge(fs, root, expandedFolders) ==
        if AllExpandable(root, expandedFolders) then Some(root) else None
  {
    RootListingIsFlat(fs);
    MergeOnFlat(fs, GetAllFiles(fs, "/"), expandedFolders);
  }

  /** Expanding top-level folders that exist leaves the tree exactly as listed. */
  lemma TopLevelFoldersLeaveTreeUnchanged(fs: FileSystem, expandedFolders: seq<string>)
    requires WellFormedListing(fs, "/")
    requires forall i :: 0 <= i < |expandedFolders| ==>
      |PathParts(expandedFolders[i])| == 1 && FindFolder(GetAllFiles(fs, "/"), PathParts(expandedFolders[i])[0]).Some?
    ensures Merge(fs, GetAllFiles(fs, "/"), expandedFolders) == Some(GetAllFiles(fs, "/"))
  {
    QueryOnRootListing(fs, expandedFolders);
    assert AllExpandable(GetAllFiles(fs, "/"), expandedFolders);
  }

  /** Expanding any folder two or more levels deep makes the query resolve to `undefined`. */
  lemma NestedFolderEndsQuery(fs: FileSystem, expandedFolders: seq<string>, i: int)
    requires WellFormedListing(fs, "/")
    requires 0 <= i < |expandedFolders| && |PathParts(expandedFolders[i])| >= 2
    ensures Merge(fs, GetAllFiles(fs, "/"), expandedFolders) == None
  {
    QueryOnRootListing(fs, expandedFolders);
    assert !Expandable(GetAllFiles(fs, "/"), expandedFolders[i]);
  }
}
