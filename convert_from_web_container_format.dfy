/**
 * `convertFromWebContainerFormat`: `Object.entries(files).map(([name, data]) =>
 * ({ name, type: 'file', content: data.file.contents }))`. It receives
 * whatever `getInitialFiles` returned, so its input is a JSON value, and the
 * property reads can throw.
 */
module FromWebContainer {
  import opened Wrappers
  import opened Json
  import opened FileNodes
  import opened WebContainerFiles
  import opened WebContainerPromise

  /**
   * The node built from one entry `[name, data]`. Reading `.file` of null
   * throws; of a string, number or boolean it gives undefined, and reading
   * `.contents` of an undefined or null `file` throws. A `file` without a
   * `contents` property, or a primitive `file`, gives undefined contents and
   * so a node without content, as does null contents. A present `contents`
   * that is a number, a boolean or an object is reported as an error here.
   */
  function MemberNode(m: Member): (r: Result<FileNode, JsError>)
    ensures r.Ok? <==> ReadsFileContents(m.value)
    ensures r.Ok? ==> r.value == FileNode(m.key, File, ContentsRead(m.value), None)
  {
    var file :- GetProperty(m.value, "file");
    if file.None? then Err(TypeError("Cannot read properties of undefined (reading 'contents')"))
    else
      var contents :- GetProperty(file.value, "contents");
      match contents
      case None => Ok(FileNode(m.key, File, None, None))
      case Some(JNull) => Ok(FileNode(m.key, File, None, None))
      case Some(JString(text)) => Ok(FileNode(m.key, File, Some(text), None))
      case Some(_) => Err(TypeError("contents of '" + m.key + "' is not a string"))
  }

  /** `file.contents` when `file` is an object that has it; `undefined` otherwise. */
  function ContentsProperty(file: Json): Option<Json> {
    if file.JObject? then Lookup(file.members, "contents") else None
  }

  /**
   * `data.file.contents` can be read and is a string, null or undefined:
   * `data` is an object whose `file` is present and not null.
   */
  predicate ReadsFileContents(data: Json) {
    && data.JObject?
    && var file := Lookup(data.members, "file");
    && file.Some? && file.value != JNull
    && var contents := ContentsProperty(file.value);
    && (contents.None? || contents.value == JNull || contents.value.JString?)
  }

  /** The content such a `data` gives: its string, or none. */
  function ContentsRead(data: Json): Option<string>
    requires ReadsFileContents(data)
  {
    match ContentsProperty(Lookup(data.members, "file").value)
    case Some(JString(text)) => Some(text)
    case _ => None
  }

  /** `entries.map(...)`: the nodes in entry order; the first throw ends the walk. */
  function MemberNodes(entries: seq<Member>): (r: Result<seq<FileNode>, JsError>)
    ensures r.Ok? ==> |r.value| == |entries|
    ensures r.Ok? ==> forall i :: 0 <= i < |entries| ==>
      r.value[i].name == entries[i].key && r.value[i].kind == File && r.value[i].children.None?
  {
    if entries == [] then Ok([])
    else
      var node :- MemberNode(entries[0]);
      var rest :- MemberNodes(entries[1..]);
      Ok([node] + rest)
  }

  /**
   * The whole conversion. `Object.entries(null)` throws; a string's entries
   * are its characters, which have no `file` property, so a non-empty string
   * throws; numbers and booleans have no entries. On an object the entries
   * come in the order of its members, which is the object's own key order
   * for the non-numeric keys this code produces.
   */
  function ConvertFromWebContainerFormat(files: Json): (r: Result<seq<FileNode>, JsError>)
    ensures files == JNull ==> r.Err?
    ensures r.Ok? ==> forall i :: 0 <= i < |r.value| ==> r.value[i].kind == File && r.value[i].children.None?
    ensures files.JObject? && r.Ok? ==> |r.value| == |files.members|
  {
    match files
    case JNull => Err(TypeError("Cannot convert undefined or null to object"))
    case JObject(members) => MemberNodes(members)
    case JString(text) =>
      if text == [] then Ok([]) else Err(TypeError("Cannot read properties of undefined (reading 'contents')"))
    case _ => Ok([])
  }

  /**
   * The model's conversion fails exactly on `null`, on a non-empty string,
   * and on an object with an entry whose `file.contents` cannot be read or
   * is neither a string, null nor undefined; when it succeeds on an object
   * there is one node per entry, in entry order.
   */
  lemma {:induction false} ConvertSucceeds(files: Json)
    ensures ConvertFromWebContainerFormat(files).Err? <==>
      || files == JNull
      || (files.JString? && files.str != [])
      || (files.JObject? && exists i :: 0 <= i < |files.members| && !ReadsFileContents(files.members[i].value))
    ensures files.JObject? && ConvertFromWebContainerFormat(files).Ok? ==>
      var nodes := ConvertFromWebContainerFormat(files).value;
      |nodes| == |files.members| && forall i :: 0 <= i < |nodes| ==> Ok(nodes[i]) == MemberNode(files.members[i])
  {
    if files.JObject? {
      MemberNodesSucceed(files.members);
    }
  }

  lemma {:induction false} MemberNodesSucceed(entries: seq<Member>)
    ensures MemberNodes(entries).Err? <==> exists i :: 0 <= i < |entries| && !ReadsFileContents(entries[i].value)
    ensures MemberNodes(entries).Ok? ==>
      var nodes := MemberNodes(entries).value;
      |nodes| == |entries| && forall i :: 0 <= i < |nodes| ==> Ok(nodes[i]) == MemberNode(entries[i])
  {
    if entries != [] {
      var rest := entries[1..];
      MemberNodesSucceed(rest);
      if !ReadsFileContents(entries[0].value) {
        assert MemberNodes(entries).Err?;
      } else if MemberNodes(rest).Err? {
        var i :| 0 <= i < |rest| && !ReadsFileContents(rest[i].value);
        assert entries[i + 1] == rest[i];
      } else {
        var nodes := MemberNodes(entries).value;
        assert nodes == [MemberNode(entries[0]).value] + MemberNodes(rest).value;
        forall i | 0 <= i < |entries| ensures ReadsFileContents(entries[i].value) {
          if i > 0 {
            assert entries[i] == rest[i - 1];
          }
        }
        forall i | 0 <= i < |nodes| ensures Ok(nodes[i]) == MemberNode(entries[i]) {
          if i > 0 {
            assert entries[i] == rest[i - 1];
          }
        }
      }
    }
  }

  /** The node that an entry of a well-formed files object becomes. */
  function NodeOf(entry: FileEntry): FileNode {
    FileNode(entry.path, File, Some(entry.contents), None)
  }

  /** The nodes of a whole files object, entry by entry. */
  function NodesOf(files: FilesObject): (nodes: seq<FileNode>)
    ensures |nodes| == |files|
    ensures forall i :: 0 <= i < |files| ==> nodes[i] == NodeOf(files[i])
  {
    if files == [] then [] else [NodeOf(files[0])] + NodesOf(files[1..])
  }

  /** The entries a list of file nodes stands for, node by node. */
  function EntriesOf(nodes: seq<FileNode>): (files: FilesObject)
    ensures |files| == |nodes|
    ensures forall i :: 0 <= i < |nodes| ==> files[i] == FileEntry(nodes[i].name, ContentsOrEmpty(nodes[i]))
    decreases |nodes|
  {
    if nodes == [] then []
    else
      var last := nodes[|nodes| - 1];
      EntriesOf(nodes[..|nodes| - 1]) + [FileEntry(last.name, ContentsOrEmpty(last))]
  }

  /**
   * On a files object the conversion succeeds with one file node per entry,
   * in entry order: name from the key, content from `file.contents`, and no
   * `children`.
   */
  lemma ConvertFromFilesObject(files: FilesObject)
    ensures ConvertFromWebContainerFormat(ToJson(files)).Ok?
    ensures var nodes := ConvertFromWebContainerFormat(ToJson(files)).value;
      && |nodes| == |files|
      && forall i :: 0 <= i < |files| ==>
           nodes[i].name == files[i].path && nodes[i].kind == File
           && nodes[i].content == Some(files[i].contents) && nodes[i].children.None?
  {
    MemberNodesOfFiles(files);
  }

  lemma {:induction false} MemberNodesOfFiles(files: FilesObject)
    ensures MemberNodes(ToJson(files).members) == Ok(NodesOf(files))
    decreases |files|
  {
    var members := ToJson(files).members;
    if files != [] {
      assert members[1..] == ToJson(files[1..]).members;
      MemberNodesOfFiles(files[1..]);
      assert MemberNode(members[0]) == Ok(NodeOf(files[0]));
    }
  }

  /** Flattening the nodes read from a files object gives that object back. */
  lemma ConvertRoundTrip(files: FilesObject)
    requires DistinctKeys(files)
    ensures var nodes := ConvertFromWebContainerFormat(ToJson(files));
      nodes.Ok? && Converted(nodes.value) == files
  {
    MemberNodesOfFiles(files);
    ConvertedOfNodes(files);
  }

  lemma ConvertedOfNodes(files: FilesObject)
    requires DistinctKeys(files)
    ensures Converted(NodesOf(files)) == files
  {
    var nodes := NodesOf(files);
    ConvertedOfFileNodes(nodes);
    assert EntriesOf(nodes) == files;
  }

  /** Assigning a new key appends it. */
  lemma {:induction false} PutNewKey(files: FilesObject, path: string, contents: string)
    requires path !in Keys(files)
    ensures Put(files, path, contents) == files + [FileEntry(path, contents)]
  {
    if files != [] {
      PutNewKey(files[1..], path, contents);
      assert [files[0]] + (files[1..] + [FileEntry(path, contents)]) == files + [FileEntry(path, contents)];
    }
  }

  /**
   * A list of distinct file nodes without children survives the trip through
   * the files object, except that a node without content comes back with "".
   */
  lemma NodesRoundTrip(nodes: seq<FileNode>)
    requires forall i :: 0 <= i < |nodes| ==> nodes[i].kind == File && nodes[i].children.None?
    requires forall i, j :: 0 <= i < j < |nodes| ==> nodes[i].name != nodes[j].name
    ensures var r := ConvertFromWebContainerFormat(ToJson(Converted(nodes)));
      && r.Ok? && |r.value| == |nodes|
      && forall i :: 0 <= i < |nodes| ==> r.value[i] == nodes[i].(content := Some(ContentsOrEmpty(nodes[i])))
    ensures (forall i :: 0 <= i < |nodes| ==> nodes[i].content.Some?) ==>
      ConvertFromWebContainerFormat(ToJson(Converted(nodes))) == Ok(nodes)
  {
    var entries := EntriesOf(nodes);
    ConvertedOfFileNodes(nodes);
    MemberNodesOfFiles(entries);
    NodesOfEntries(nodes);
    var back := NodesOf(entries);
    assert ConvertFromWebContainerFormat(ToJson(entries)) == Ok(back);
    if forall i :: 0 <= i < |nodes| ==> nodes[i].content.Some? {
      assert back == nodes;
    }
  }

  /** Reading back the entries of childless file nodes gives each node with its stored content. */
  lemma NodesOfEntries(nodes: seq<FileNode>)
    requires forall i :: 0 <= i < |nodes| ==> nodes[i].kind == File && nodes[i].children.None?
    ensures |NodesOf(EntriesOf(nodes))| == |nodes|
    ensures forall i :: 0 <= i < |nodes| ==>
      NodesOf(EntriesOf(nodes))[i] == nodes[i].(content := Some(ContentsOrEmpty(nodes[i])))
  {
    var entries := EntriesOf(nodes);
    forall i | 0 <= i < |nodes| ensures NodesOf(entries)[i] == nodes[i].(content := Some(ContentsOrEmpty(nodes[i]))) {
      assert entries[i] == FileEntry(nodes[i].name, ContentsOrEmpty(nodes[i]));
    }
  }


  lemma {:induction false} ConvertedOfFileNodes(nodes: seq<FileNode>)
    requires forall i :: 0 <= i < |nodes| ==> nodes[i].kind == File
    requires forall i, j :: 0 <= i < j < |nodes| ==> nodes[i].name != nodes[j].name
    ensures Converted(nodes) == EntriesOf(nodes)
    decreases |nodes|
  {
    if nodes != [] {
      var init := nodes[..|nodes| - 1];
      var last := nodes[|nodes| - 1];
      assert forall i :: 0 <= i < |init| ==> init[i] == nodes[i];
      ConvertedOfFileNodes(init);
      var entries := EntriesOf(init);
      forall i | 0 <= i < |entries| ensures Keys(entries)[i] != last.name {
        assert Keys(entries)[i] == init[i].name;
      }
      PutNewKey(entries, last.name, ContentsOrEmpty(last));
    }
  }
}
