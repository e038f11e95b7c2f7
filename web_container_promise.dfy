/**
 * `convertToWebContainerFormat`: flattens a node list into the files object,
 * walking only the given list and keeping file nodes.
 */
module WebContainerPromise {
  import opened Wrappers
  import opened FileNodes
  import opened WebContainerFiles

  /**
   * `file.content || ''`: a missing content is stored as "", and so is an
   * empty one, since `'' || ''` is `''`.
   */
  function ContentsOrEmpty(file: FileNode): (contents: string)
    ensures file.content.Some? ==> contents == file.content.value
    ensures file.content.None? ==> contents == ""
  {
    match file.content
    case None => ""
    case Some(text) => if text == "" then "" else text
  }

  /**
   * The object the `forEach` loop has built after visiting `files`: each file
   * node assigns `result[name] = { file: { contents: content || '' } }`.
   */
  function Converted(files: seq<FileNode>): (result: FilesObject)
    ensures |result| <= |files|
    decreases |files|
  {
    if files == [] then []
    else
      var file := files[|files| - 1];
      var result := Converted(files[..|files| - 1]);
      if file.kind == File then Put(result, file.name, ContentsOrEmpty(file)) else result
  }

  method ConvertToWebContainerFormat(files: seq<FileNode>) returns (result: FilesObject)
    ensures result == Converted(files)
  {
    result := [];
    for i := 0 to |files|
      invariant result == Converted(files[..i])
    {
      var file := files[i];
      assert files[..i + 1][..i] == files[..i];
      if file.kind == File {
        result := Put(result, file.name, ContentsOrEmpty(file));
      }
    }
    assert files[..|files|] == files;
  }

  /** One more node at the end: a file node is assigned, a folder changes nothing. */
  lemma ConvertedSnoc(files: seq<FileNode>, node: FileNode)
    ensures Converted(files + [node]) == if node.kind == File then Put(Converted(files), node.name, ContentsOrEmpty(node)) else Converted(files)
  {
    assert (files + [node])[..|files|] == files;
  }

  /** True when node `j` is a file node named `name`. */
  predicate IsFileNamed(files: seq<FileNode>, j: int, name: string) {
    0 <= j < |files| && files[j].kind == File && files[j].name == name
  }

  /** The object never has a key twice. */
  lemma {:induction false} ConvertedDistinct(files: seq<FileNode>)
    ensures DistinctKeys(Converted(files))
    decreases |files|
  {
    if files != [] {
      var file := files[|files| - 1];
      ConvertedDistinct(files[..|files| - 1]);
      if file.kind == File {
        PutKeepsKeysDistinct(Converted(files[..|files| - 1]), file.name, ContentsOrEmpty(file));
      }
    }
  }

  /** The keys are exactly the names of the file nodes of the list; folders give none. */
  lemma {:induction false} ConvertedKeys(files: seq<FileNode>, name: string)
    ensures name in Keys(Converted(files)) <==> exists j :: IsFileNamed(files, j, name)
    decreases |files|
  {
    if files != [] {
      var init := files[..|files| - 1];
      var last := files[|files| - 1];
      var before := Converted(init);
      ConvertedKeys(init, name);
      FileNamedSplit(files, init, name);
      if last.kind == File {
        PutKeys(before, last.name, ContentsOrEmpty(last));
        assert name in Keys(Converted(files)) <==> name in Keys(before) || name == last.name;
      } else {
        assert Converted(files) == before;
      }
    }
  }

  /** A file node named `name` is either among the first nodes or the last one. */
  lemma FileNamedSplit(files: seq<FileNode>, init: seq<FileNode>, name: string)
    requires files != [] && init == files[..|files| - 1]
    ensures (exists j :: IsFileNamed(files, j, name)) <==>
      (exists j :: IsFileNamed(init, j, name)) || IsFileNamed(files, |files| - 1, name)
  {
    if j :| IsFileNamed(files, j, name) {
      if j < |init| {
        assert IsFileNamed(init, j, name);
      }
    }
    if j :| IsFileNamed(init, j, name) {
      assert IsFileNamed(files, j, name);
    }
  }

  /** The position of the last file node named `name`, when there is one. */
  lemma LastFileNamed(files: seq<FileNode>, name: string) returns (j: int)
    requires exists k :: IsFileNamed(files, k, name)
    ensures IsFileNamed(files, j, name)
    ensures forall k :: j < k < |files| ==> !IsFileNamed(files, k, name)
  {
    j := |files| - 1;
    while !IsFileNamed(files, j, name)
      invariant 0 <= j < |files|
      invariant exists k :: 0 <= k <= j && IsFileNamed(files, k, name)
      invariant forall k :: j < k < |files| ==> !IsFileNamed(files, k, name)
      decreases j
    {
      j := j - 1;
    }
  }

  /** When names repeat, the contents of the last file node with that name win. */
  lemma {:induction false} ConvertedLastWins(files: seq<FileNode>, j: int)
    requires 0 <= j < |files| && files[j].kind == File
    requires forall k :: j < k < |files| ==> !IsFileNamed(files, k, files[j].name)
    ensures Get(Converted(files), files[j].name) == Some(ContentsOrEmpty(files[j]))
    decreases |files|
  {
    var init := files[..|files| - 1];
    if j < |files| - 1 {
      assert !IsFileNamed(files, |files| - 1, files[j].name);
      forall k | j < k < |init| ensures !IsFileNamed(init, k, files[j].name) {
        assert init[k] == files[k];
        assert !IsFileNamed(files, k, files[j].name);
      }
      assert init[j] == files[j];
      ConvertedLastWins(init, j);
    }
    var last := files[|files| - 1];
    if last.kind == File {
      PutSpec(Converted(init), last.name, ContentsOrEmpty(last));
    }
  }

  /**
   * Only the top-level list is walked: the result depends on each node's
   * name, type and content, never on its `children`.
   */
  lemma {:induction false} ConvertedIgnoresChildren(files: seq<FileNode>, others: seq<FileNode>)
    requires |files| == |others|
    requires forall i :: 0 <= i < |files| ==>
      files[i].name == others[i].name && files[i].kind == others[i].kind && files[i].content == others[i].content
    ensures Converted(files) == Converted(others)
    decreases |files|
  {
    if files != [] {
      ConvertedIgnoresChildren(files[..|files| - 1], others[..|others| - 1]);
    }
  }
}
