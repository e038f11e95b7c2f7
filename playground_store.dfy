/**
 * The playground's UI store (a zustand store): the selected file, the two
 * collapse flags, the panel sizes, the accumulated execution output and the
 * set of expanded folders. `set` replaces the store's state by a copy with
 * the given fields changed, so the store is one object whose `state` field
 * each action reassigns.
 */
module PlaygroundStore {
  import opened Wrappers
  import opened Sequences
  import opened FileNodes

  /**
   * The data fields of the store. `expandedFolders` is a JavaScript `Set`:
   * its members in insertion order, never twice.
   */
  datatype PlaygroundState = PlaygroundState(
    selectedFile: Option<FileNode>,
    isFileTreeCollapsed: bool,
    isResultCollapsed: bool,
    sidebarWidth: real,
    resultHeight: real,
    executionResult: string,
    expandedFolders: seq<string>)

  /** `set.delete(x)`: every other member keeps its place. */
  function Deleted(s: seq<string>, x: string): (r: seq<string>)
    ensures forall y :: y in r <==> y in s && y != x
    ensures |r| <= |s|
    ensures NoDuplicates(s) ==> NoDuplicates(r)
  {
    if s == [] then []
    else if s[0] == x then Deleted(s[1..], x)
    else
      var rest := Deleted(s[1..], x);
      assert NoDuplicates(s) ==> s[0] !in s[1..];
      assert forall i :: 0 < i < |[s[0]] + rest| ==> ([s[0]] + rest)[i] == rest[i - 1];
      [s[0]] + rest
  }

  /**
   * `toggleFolder`'s new set: a copy of the old one with `path` deleted when
   * it was a member and added at the end when it was not.
   */
  function Toggled(s: seq<string>, path: string): (r: seq<string>)
    ensures path in r <==> path !in s
    ensures forall other :: other != path ==> (other in r <==> other in s)
    ensures NoDuplicates(s) ==> NoDuplicates(r)
  {
    if path in s then Deleted(s, path) else s + [path]
  }

  /** Toggling a path twice gives back the same set of paths. */
  lemma ToggleTwice(s: seq<string>, path: string)
    ensures forall p :: p in Toggled(Toggled(s, path), path) <==> p in s
  {
  }

  /**
   * Toggling twice a path that is not expanded restores the sequence itself;
   * toggling twice one that is expanded moves it to the end.
   */
  lemma {:induction false} ToggleTwiceOrder(s: seq<string>, path: string)
    requires NoDuplicates(s)
    ensures path !in s ==> Toggled(Toggled(s, path), path) == s
    ensures path in s ==> Toggled(Toggled(s, path), path) == Deleted(s, path) + [path]
  {
    if path !in s {
      DeleteLast(s, path);
    }
  }

  /** Deleting the value that was just added at the end undoes the addition. */
  lemma {:induction false} DeleteLast(s: seq<string>, x: string)
    requires x !in s
    ensures Deleted(s + [x], x) == s
  {
    if s != [] {
      assert (s + [x])[1..] == s[1..] + [x];
      DeleteLast(s[1..], x);
    } else {
      assert Deleted([x][1..], x) == [];
    }
  }

  class Store {
    var state: PlaygroundState

    /** The initial state of the store. */
    constructor ()
      ensures state.selectedFile == None
      ensures !state.isFileTreeCollapsed && !state.isResultCollapsed
      ensures state.sidebarWidth == 280.0 && state.resultHeight == 200.0
      ensures state.executionResult == "" && state.expandedFolders == []
    {
      state := PlaygroundState(None, false, false, 280.0, 200.0, "", []);
    }

    method SetSelectedFile(file: Option<FileNode>)
      modifies this
      ensures state == old(state).(selectedFile := file)
    {
      state := state.(selectedFile := file);
    }

    method SetIsFileTreeCollapsed(collapsed: bool)
      modifies this
      ensures state == old(state).(isFileTreeCollapsed := collapsed)
    {
      state := state.(isFileTreeCollapsed := collapsed);
    }

    method SetIsResultCollapsed(collapsed: bool)
      modifies this
      ensures state == old(state).(isResultCollapsed := collapsed)
    {
      state := state.(isResultCollapsed := collapsed);
    }

    method SetSidebarWidth(width: real)
      modifies this
      ensures state == old(state).(sidebarWidth := width)
    {
      state := state.(sidebarWidth := width);
    }

    method SetResultHeight(height: real)
      modifies this
      ensures state == old(state).(resultHeight := height)
    {
      state := state.(resultHeight := height);
    }

    method SetExecutionResult(result: string)
      modifies this
      ensures state == old(state).(executionResult := result)
    {
      state := state.(executionResult := result);
    }

    /** Appends `result` to the output; the old output is kept as a prefix. */
    method AppendExecutionResult(result: string)
      modifies this
      ensures state == old(state).(executionResult := old(state).executionResult + result)
      ensures state.executionResult[..|old(state).executionResult|] == old(state).executionResult
      ensures state.executionResult[|old(state).executionResult|..] == result
    {
      state := state.(executionResult := state.executionResult + result);
    }

    /**
     * Adds `folderPath` to the expanded folders when it is not there and
     * removes it when it is; every other path and every other field is left
     * as it was, and the set still holds no path twice.
     */
    method ToggleFolder(folderPath: string)
      modifies this
      ensures state == old(state).(expandedFolders := Toggled(old(state).expandedFolders, folderPath))
      ensures folderPath in state.expandedFolders <==> folderPath !in old(state).expandedFolders
      ensures NoDuplicates(old(state).expandedFolders) ==> NoDuplicates(state.expandedFolders)
    {
      var newSet := state.expandedFolders;
      if folderPath in newSet {
        newSet := Deleted(newSet, folderPath);
      } else {
        newSet := newSet + [folderPath];
      }
      state := state.(expandedFolders := newSet);
    }
  }

  /**
   * Starting from a fresh store, any sequence of toggles leaves a set without
   * duplicates in which a path is expanded exactly when it was toggled an odd
   * number of times.
   */
  method ToggleFolders(paths: seq<string>) returns (expanded: seq<string>)
    ensures NoDuplicates(expanded)
    ensures forall p :: p in expanded <==> Count(paths, p) % 2 == 1
  {
    var store := new Store();
    for i := 0 to |paths|
      invariant NoDuplicates(store.state.expandedFolders)
      invariant forall p :: p in store.state.expandedFolders <==> Count(paths[..i], p) % 2 == 1
    {
      assert paths[..i + 1] == paths[..i] + [paths[i]];
      CountSnoc(paths[..i], paths[i]);
      store.ToggleFolder(paths[i]);
    }
    assert paths[..|paths|] == paths;
    expanded := store.state.expandedFolders;
  }
}
