/**
 * The file nodes of the explorer and `getAllFiles`, which lists one directory
 * of the sandboxed filesystem. The filesystem is an oracle: `readdir` gives a
 * directory's entries in listing order, `readFile` a file's text.
 */
module FileNodes {
  import opened Wrappers
  import opened Paths

  datatype NodeType = File | Folder

  /**
   * A node of the explorer tree. `children` is JavaScript's optional
   * `children?: FileNode[]`: `None` when the property is absent. `content`
   * is `None` for a node read back from storage whose `file.contents` was
   * undefined or null; every node built from the filesystem has a string.
   */
  datatype FileNode = FileNode(name: string, kind: NodeType, content: Option<string>, children: Option<seq<FileNode>>)

  /** One entry of a `readdir(dir, { withFileTypes: true })` listing. */
  datatype DirEntry = DirEntry(name: string, isDirectory: bool)

  /** The sandboxed filesystem, as far as the file tree reads it. */
  datatype FileSystem = FileSystem(readdir: string -> seq<DirEntry>, readFile: string -> string)

  /** What a real directory listing looks like: entry names are non-empty and hold no slash. */
  predicate WellFormedListing(fs: FileSystem, dir: string) {
    forall e :: e in fs.readdir(dir) ==> e.name != [] && '/' !in e.name
  }

  /** The node name built for entry `entry` of directory `dir`. */
  function FullPath(dir: string, entry: string): (path: string)
    ensures !HasDoubleSlash(path)
  {
    CollapseSlashes(dir + "/" + entry)
  }

  /** The node built for one listing entry. */
  function EntryNode(fs: FileSystem, dir: string, e: DirEntry): FileNode {
    var fullPath := FullPath(dir, e.name);
    if e.isDirectory then FileNode(fullPath, Folder, Some(""), Some([]))
    else FileNode(fullPath, File, Some(fs.readFile(fullPath)), None)
  }

  /**
   * `getAllFiles(fs, dir)`: one node per entry of `dir`, in listing order.
   * Directories become empty folders (content "", children []); other entries
   * become files without children holding the text read at the same path.
   */
  function GetAllFiles(fs: FileSystem, dir: string): (nodes: seq<FileNode>)
    ensures |nodes| == |fs.readdir(dir)|
    ensures forall i :: 0 <= i < |nodes| ==>
      && nodes[i].name == FullPath(dir, fs.readdir(dir)[i].name)
      && (nodes[i].kind == Folder <==> fs.readdir(dir)[i].isDirectory)
      && (nodes[i].kind == Folder ==> nodes[i].content == Some("") && nodes[i].children == Some([]))
      && (nodes[i].kind == File ==> nodes[i].children.None? && nodes[i].content == Some(fs.readFile(nodes[i].name)))
  {
    var entries := fs.readdir(dir);
    seq(|entries|, i requires 0 <= i < |entries| => EntryNode(fs, dir, entries[i]))
  }

  /** No name that `getAllFiles` produces contains "//". */
  lemma NoDoubleSlashInNames(fs: FileSystem, dir: string)
    ensures forall n :: n in GetAllFiles(fs, dir) ==> !HasDoubleSlash(n.name)
  {
    var nodes := GetAllFiles(fs, dir);
    forall n | n in nodes ensures !HasDoubleSlash(n.name) {
      var i :| 0 <= i < |nodes| && nodes[i] == n;
    }
  }

  /**
   * The segments of a node name are those of the directory followed by the
   * entry's own: the collapse never merges or splits segments.
   */
  lemma {:induction false} FullPathParts(dir: string, entry: string)
    requires entry != [] && '/' !in entry
    ensures PathParts(FullPath(dir, entry)) == PathParts(dir) + [entry]
  {
    CollapseKeepsParts(dir + "/" + entry);
    assert dir + "/" + entry == dir + ("/" + entry);
    SplitThenName(dir, entry);
    NonEmptyAppend(Split(dir), [entry]);
    assert NonEmpty([entry]) == [entry];
  }

  /** Appending "/" and a slash-free name to `a` appends one piece to its split. */
  lemma {:induction false} SplitThenName(a: string, entry: string)
    requires '/' !in entry
    ensures Split(a + ("/" + entry)) == Split(a) + [entry]
  {
    var t := "/" + entry;
    assert t[1..] == entry;
    SplitNoSlash(entry);
    if a == [] {
      assert a + t == t;
    } else {
      assert (a + t)[1..] == a[1..] + t;
      assert (a + t)[0] == a[0];
      SplitThenName(a[1..], entry);
      var ra := Split(a[1..]);
      var rest := Split(a[1..] + t);
      assert rest == ra + [entry];
      if a[0] != '/' {
        assert rest[0] == ra[0];
        assert rest[1..] == ra[1..] + [entry];
      }
    }
  }

  /** The filter distributes over concatenation. */
  lemma {:induction false} NonEmptyAppend(a: seq<string>, b: seq<string>)
    ensures NonEmpty(a + b) == NonEmpty(a) + NonEmpty(b)
  {
    if a != [] {
      assert (a + b)[1..] == a[1..] + b;
      NonEmptyAppend(a[1..], b);
    } else {
      assert a + b == b;
    }
  }

  /** In the root listing every node is "/" followed by its entry name. */
  lemma RootNamesHaveOneSegment(fs: FileSystem)
    requires WellFormedListing(fs, "/")
    ensures forall n :: n in GetAllFiles(fs, "/") ==> |PathParts(n.name)| == 1
  {
    var nodes := GetAllFiles(fs, "/");
    forall n | n in nodes ensures |PathParts(n.name)| == 1 {
      var i :| 0 <= i < |nodes| && nodes[i] == n;
      var e := fs.readdir("/")[i];
      assert e in fs.readdir("/");
      FullPathParts("/", e.name);
      assert PathParts("/") == [] by {
        assert Split("/") == [[], []];
      }
    }
  }
}
