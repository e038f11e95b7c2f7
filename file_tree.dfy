/**
 * The explorer tree that the file-tree query builds, and the merge of
 * expanded folders into it. The query's `find` calls return nodes shared with
 * the tree and it assigns `children` on them in place; here a node is
 * reached by its path of indices from the top-level list, and the assignment
 * is the tree with that one node's `children` replaced.
 */
module FileTree {
  import opened Wrappers
  import opened Paths
  import opened FileNodes

  /**
   * `path` leads from the top-level list through nodes that all have
   * `children`, each index inside the list it indexes.
   */
  predicate ValidPath(tree: seq<FileNode>, path: seq<nat>)
    decreases |path|, 0
  {
    path == [] ||
    (ValidPath(tree, path[..|path| - 1]) &&
     var level := LevelAt(tree, path[..|path| - 1]);
     path[|path| - 1] < |level| && level[path[|path| - 1]].children.Some?)
  }

  /** The list reached by following `path`: `currentLevel` in the query. */
  function LevelAt(tree: seq<FileNode>, path: seq<nat>): seq<FileNode>
    requires ValidPath(tree, path)
    decreases |path|, 1
  {
    if path == [] then tree
    else LevelAt(tree, path[..|path| - 1])[path[|path| - 1]].children.value
  }

  /** The fields other than `children` agree. */
  predicate SameEntry(a: FileNode, b: FileNode) {
    a.name == b.name && a.kind == b.kind && a.content == b.content
  }

  /** `node.name.endsWith(`/${part}`) && node.type === 'folder'`. */
  predicate IsFolderFor(node: FileNode, part: string) {
    EndsWith(node.name, "/" + part) && node.kind == Folder
  }

  /** `level.find(...)` for the folder of one path segment: the first match. */
  function FindFolder(level: seq<FileNode>, part: string): (r: Option<nat>)
    ensures r.Some? ==> r.value < |level| && IsFolderFor(level[r.value], part)
    ensures r.Some? ==> forall i :: 0 <= i < r.value ==> !IsFolderFor(level[i], part)
    ensures r.None? ==> forall i :: 0 <= i < |level| ==> !IsFolderFor(level[i], part)
  {
    if level == [] then None
    else if IsFolderFor(level[0], part) then Some(0)
    else
      match FindFolder(level[1..], part)
      case None => None
      case Some(i) => Some(i + 1)
  }

  /** `level.find(node => node.name === name)`: the first node with that name. */
  function FindNamed(level: seq<FileNode>, name: string): (r: Option<nat>)
    ensures r.Some? ==> r.value < |level| && level[r.value].name == name
    ensures r.Some? ==> forall i :: 0 <= i < r.value ==> level[i].name != name
    ensures r.None? ==> forall i :: 0 <= i < |level| ==> level[i].name != name
  {
    if level == [] then None
    else if level[0].name == name then Some(0)
    else
      match FindNamed(level[1..], name)
      case None => None
      case Some(i) => Some(i + 1)
  }

  /**
   * The inner loop over the segments of one expanded folder: at each level
   * it takes the first folder for the segment and goes into its children.
   * `None` is the early `return`: no such folder, or one without `children`.
   */
  function Descend(tree: seq<FileNode>, parts: seq<string>): (r: Option<seq<nat>>)
    ensures r.Some? ==> ValidPath(tree, r.value) && |r.value| == |parts|
    decreases |parts|
  {
    if parts == [] then Some([])
    else
      match Descend(tree, parts[..|parts| - 1])
      case None => None
      case Some(path) =>
        var level := LevelAt(tree, path);
        match FindFolder(level, parts[|parts| - 1])
        case None => None
        case Some(k) =>
          if level[k].children.Some? then
            assert (path + [k])[..|path|] == path;
            Some(path + [k])
          else None
  }

  /** One more segment: go into the first folder of that name, if it has children. */
  lemma DescendStep(tree: seq<FileNode>, parts: seq<string>, j: nat, path: seq<nat>)
    requires j < |parts| && Descend(tree, parts[..j]) == Some(path)
    ensures var level := LevelAt(tree, path);
      var found := FindFolder(level, parts[j]);
      if found.Some? && level[found.value].children.Some? then
        Descend(tree, parts[..j + 1]) == Some(path + [found.value])
        && ValidPath(tree, path + [found.value])
        && LevelAt(tree, path + [found.value]) == level[found.value].children.value
      else Descend(tree, parts[..j + 1]) == None
  {
    assert parts[..j + 1][..j] == parts[..j];
    assert (path + [0])[..|path|] == path;
  }

  /** Once a segment is not found, no longer path is found either. */
  lemma {:induction false} DescendFailureIsFinal(tree: seq<FileNode>, parts: seq<string>, j: nat)
    requires j <= |parts| && Descend(tree, parts[..j]) == None
    ensures Descend(tree, parts) == None
    decreases |parts| - j
  {
    if j == |parts| {
      assert parts[..j] == parts;
    } else {
      assert parts[..j + 1][..j] == parts[..j];
      DescendFailureIsFinal(tree, parts, j + 1);
    }
  }

  /** The tree with the list at `path` replaced by `newLevel`. */
  function ReplaceLevel(tree: seq<FileNode>, path: seq<nat>, newLevel: seq<FileNode>): (r: seq<FileNode>)
    requires ValidPath(tree, path)
    ensures ValidPath(r, path) && LevelAt(r, path) == newLevel
    ensures path != [] ==> |r| == |tree| && forall i :: 0 <= i < |tree| ==> SameEntry(r[i], tree[i])
    ensures path != [] ==> forall i :: 0 <= i < |tree| && i != path[0] ==> r[i] == tree[i]
    decreases |path|
  {
    if path == [] then newLevel
    else
      var init := path[..|path| - 1];
      var last := path[|path| - 1];
      var level := LevelAt(tree, init);
      var r := ReplaceLevel(tree, init, level[last := level[last].(children := Some(newLevel))]);
      assert init != [] ==> init[0] == path[0];
      r
  }

  /** Every prefix of a valid path is valid. */
  lemma {:induction false} ValidPathPrefix(tree: seq<FileNode>, path: seq<nat>, j: nat)
    requires ValidPath(tree, path) && j <= |path|
    ensures ValidPath(tree, path[..j])
    decreases |path|
  {
    if j < |path| {
      var init := path[..|path| - 1];
      assert init[..j] == path[..j];
      ValidPathPrefix(tree, init, j);
    } else {
      assert path[..j] == path;
    }
  }

  /** `b` is `a` with at most node `k` different. */
  predicate KeptExcept(a: seq<FileNode>, b: seq<FileNode>, k: nat) {
    |b| == |a| && forall i :: 0 <= i < |a| && i != k ==> b[i] == a[i]
  }

  /**
   * Off the path nothing changes: each list the path passes through keeps its
   * length and every node other than the one the path goes into.
   */
  predicate OffPathKept(tree: seq<FileNode>, r: seq<FileNode>, path: seq<nat>) {
    forall j :: 0 <= j < |path| && ValidPath(tree, path[..j]) && ValidPath(r, path[..j]) ==>
      KeptExcept(LevelAt(tree, path[..j]), LevelAt(r, path[..j]), path[j])
  }

  /** Replacing the list at `path` leaves every node off the path as it was. */
  lemma {:induction false} ReplaceLevelOffPath(tree: seq<FileNode>, path: seq<nat>, newLevel: seq<FileNode>)
    requires ValidPath(tree, path)
    ensures OffPathKept(tree, ReplaceLevel(tree, path, newLevel), path)
    decreases |path|
  {
    if path != [] {
      var init := path[..|path| - 1];
      var last := path[|path| - 1];
      var level := LevelAt(tree, init);
      var inner := level[last := level[last].(children := Some(newLevel))];
      var r := ReplaceLevel(tree, path, newLevel);
      assert r == ReplaceLevel(tree, init, inner);
      ReplaceLevelOffPath(tree, init, inner);
      forall j | 0 <= j < |path| && ValidPath(tree, path[..j]) && ValidPath(r, path[..j])
        ensures KeptExcept(LevelAt(tree, path[..j]), LevelAt(r, path[..j]), path[j])
      {
        if j < |init| {
          assert init[..j] == path[..j] && init[j] == path[j];
          assert KeptExcept(LevelAt(tree, init[..j]), LevelAt(r, init[..j]), init[j]);
        } else {
          assert path[..j] == init && path[j] == last;
          assert LevelAt(r, init) == inner;
        }
      }
    }
  }

  /**
   * `node.children = kids` on node `k` of the list at `path`: that node gets
   * the new children, every other node of that list stays as it was, every
   * node off the path at the levels above stays as it was, and the top-level
   * list keeps its length and every node's name, type and content.
   */
  function SetChildren(tree: seq<FileNode>, path: seq<nat>, k: nat, kids: seq<FileNode>): (r: seq<FileNode>)
    requires ValidPath(tree, path) && k < |LevelAt(tree, path)|
    ensures ValidPath(r, path) && |LevelAt(r, path)| == |LevelAt(tree, path)|
    ensures LevelAt(r, path)[k] == LevelAt(tree, path)[k].(children := Some(kids))
    ensures forall i :: 0 <= i < |LevelAt(tree, path)| && i != k ==> LevelAt(r, path)[i] == LevelAt(tree, path)[i]
    ensures |r| == |tree| && forall i :: 0 <= i < |tree| ==> SameEntry(r[i], tree[i])
    ensures path != [] ==> forall i :: 0 <= i < |tree| && i != path[0] ==> r[i] == tree[i]
    ensures OffPathKept(tree, r, path)
  {
    var level := LevelAt(tree, path);
    ReplaceLevelOffPath(tree, path, level[k := level[k].(children := Some(kids))]);
    ReplaceLevel(tree, path, level[k := level[k].(children := Some(kids))])
  }

  /**
   * One pass of the outer loop, for expanded folder `folder`: descend along
   * its segments, then give the node named `folder` in the list reached the
   * folder's listing as children. `None` when the descent fails; the tree
   * unchanged when no node there has that name.
   */
  function MergeFolder(fs: FileSystem, tree: seq<FileNode>, folder: string): (r: Option<seq<FileNode>>)
    ensures r.None? <==> Descend(tree, PathParts(folder)).None?
    ensures r.Some? ==> |r.value| == |tree| && forall i :: 0 <= i < |tree| ==> SameEntry(r.value[i], tree[i])
  {
    match Descend(tree, PathParts(folder))
    case None => None
    case Some(path) =>
      match FindNamed(LevelAt(tree, path), folder)
      case None => Some(tree)
      case Some(k) => Some(SetChildren(tree, path, k, GetAllFiles(fs, folder)))
  }

  /** The outer loop over the expanded folders, in order; `None` is final. */
  function Merge(fs: FileSystem, tree: seq<FileNode>, folders: seq<string>): (r: Option<seq<FileNode>>)
    ensures r.Some? ==> |r.value| == |tree| && forall i :: 0 <= i < |tree| ==> SameEntry(r.value[i], tree[i])
    decreases |folders|
  {
    if folders == [] then Some(tree)
    else
      match Merge(fs, tree, folders[..|folders| - 1])
      case None => None
      case Some(merged) => MergeFolder(fs, merged, folders[|folders| - 1])
  }

  /** A folder that cannot be reached ends the whole merge: later folders are not merged. */
  lemma {:induction false} MergeFailureIsFinal(fs: FileSystem, tree: seq<FileNode>, folders: seq<string>, i: nat)
    requires i <= |folders| && Merge(fs, tree, folders[..i]) == None
    ensures Merge(fs, tree, folders) == None
    decreases |folders| - i
  {
    if i == |folders| {
      assert folders[..i] == folders;
    } else {
      assert folders[..i + 1][..i] == folders[..i];
      MergeFailureIsFinal(fs, tree, folders, i + 1);
    }
  }

  /**
   * A list straight from `getAllFiles` of the root: each name has one
   * segment, and each folder has empty children.
   */
  predicate FlatListing(tree: seq<FileNode>) {
    forall i :: 0 <= i < |tree| ==>
      |PathParts(tree[i].name)| == 1 && (tree[i].kind == Folder ==> tree[i].children == Some([]))
  }

  /**
   * On such a list, the folders whose merge succeeds: the ones with no
   * segment, and the ones with a single segment for which a folder exists.
   */
  predicate Expandable(tree: seq<FileNode>, folder: string) {
    var parts := PathParts(folder);
    |parts| == 0 || (|parts| == 1 && FindFolder(tree, parts[0]).Some?)
  }

  predicate AllExpandable(tree: seq<FileNode>, folders: seq<string>) {
    forall i :: 0 <= i < |folders| ==> Expandable(tree, folders[i])
  }

  /**
   * Merging one folder into a flat list never changes it: the descent into
   * a one-segment folder lands in its empty children, where the folder
   * itself is not found; any second segment is not found there either, and
   * then the whole merge fails.
   */
  lemma MergeFolderOnFlat(fs: FileSystem, tree: seq<FileNode>, folder: string)
    requires FlatListing(tree)
    ensures MergeFolder(fs, tree, folder) == if Expandable(tree, folder) then Some(tree) else None
  {
    var parts := PathParts(folder);
    if |parts| == 0 {
      MergeFolderNoSegment(fs, tree, folder);
    } else {
      assert parts[..1] == [parts[0]];
      DescendOneOnFlat(tree, parts[0]);
      if FindFolder(tree, parts[0]).None? {
        DescendFailureIsFinal(tree, parts, 1);
      } else if |parts| == 1 {
        assert parts == [parts[0]];
      } else {
        DescendTwoOnFlat(tree, parts);
        DescendFailureIsFinal(tree, parts, 2);
      }
    }
  }

  /** A folder with no segment is looked up in the list itself, where no name has zero segments. */
  lemma MergeFolderNoSegment(fs: FileSystem, tree: seq<FileNode>, folder: string)
    requires FlatListing(tree) && PathParts(folder) == []
    ensures MergeFolder(fs, tree, folder) == Some(tree)
  {
    assert Descend(tree, PathParts(folder)) == Some([]);
    forall i | 0 <= i < |tree| ensures tree[i].name != folder {
      assert |PathParts(tree[i].name)| == 1;
    }
    assert FindNamed(LevelAt(tree, []), folder) == None;
  }

  /** On a flat list, the descent for one segment ends in empty children, or fails. */
  lemma DescendOneOnFlat(tree: seq<FileNode>, part: string)
    requires FlatListing(tree)
    ensures FindFolder(tree, part).None? ==> Descend(tree, [part]) == None
    ensures FindFolder(tree, part).Some? ==>
      var k := FindFolder(tree, part).value;
      Descend(tree, [part]) == Some([k]) && ValidPath(tree, [k]) && LevelAt(tree, [k]) == []
  {
    assert [part][..0] == [];
    var found := FindFolder(tree, part);
    if found.Some? {
      var k := found.value;
      assert [k][..0] == [];
    }
  }

  /** On a flat list, a second segment is never found. */
  lemma DescendTwoOnFlat(tree: seq<FileNode>, parts: seq<string>)
    requires FlatListing(tree) && |parts| >= 2 && FindFolder(tree, parts[0]).Some?
    ensures Descend(tree, parts[..2]) == None
  {
    assert parts[..2][..1] == [parts[0]];
    DescendOneOnFlat(tree, parts[0]);
  }

  lemma AllExpandableSnoc(tree: seq<FileNode>, folders: seq<string>)
    requires folders != []
    ensures AllExpandable(tree, folders) <==>
      AllExpandable(tree, folders[..|folders| - 1]) && Expandable(tree, folders[|folders| - 1])
  {
    var init := folders[..|folders| - 1];
    assert forall i :: 0 <= i < |init| ==> init[i] == folders[i];
  }

  /**
   * On a flat list the whole merge either leaves the list as it is, when
   * every expanded folder is expandable, or fails.
   */
  lemma {:induction false} MergeOnFlat(fs: FileSystem, tree: seq<FileNode>, folders: seq<string>)
    requires FlatListing(tree)
    ensures Merge(fs, tree, folders) == if AllExpandable(tree, folders) then Some(tree) else None
    decreases |folders|
  {
    if folders != [] {
      var init := folders[..|folders| - 1];
      var last := folders[|folders| - 1];
      MergeOnFlat(fs, tree, init);
      AllExpandableSnoc(tree, folders);
      if AllExpandable(tree, init) {
        MergeFolderOnFlat(fs, tree, last);
      }
    }
  }

  /** The root listing of a real filesystem is flat. */
  lemma RootListingIsFlat(fs: FileSystem)
    requires WellFormedListing(fs, "/")
    ensures FlatListing(GetAllFiles(fs, "/"))
  {
    var root := GetAllFiles(fs, "/");
    RootNamesHaveOneSegment(fs);
    forall i | 0 <= i < |root| ensures |PathParts(root[i].name)| == 1 {
      assert root[i] in root;
    }
  }
}
