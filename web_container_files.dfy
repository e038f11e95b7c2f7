/**
 * The flat file map `{ [path]: { file: { contents } } }` that the sandbox
 * mounts and that is persisted, as an ordered list of entries with distinct
 * paths. A JavaScript object lists its own string keys in insertion order,
 * and assigning to an existing key keeps its place, except that keys that
 * read as array indices ("1", "42") come first in numeric order, and that
 * assigning to `__proto__` creates no own key. The paths the playground
 * writes start with "/", so neither exception arises for them; the model
 * uses insertion order for every key.
 */
module WebContainerFiles {
  import opened Wrappers
  import opened Json

  datatype FileEntry = FileEntry(path: string, contents: string)

  type FilesObject = seq<FileEntry>

  /** `Object.keys(files)`. */
  function Keys(files: FilesObject): (keys: seq<string>)
    ensures |keys| == |files|
    ensures forall i :: 0 <= i < |files| ==> keys[i] == files[i].path
  {
    if files == [] then [] else [files[0].path] + Keys(files[1..])
  }

  /** An object never has the same own key twice. */
  predicate DistinctKeys(files: FilesObject) {
    forall i, j :: 0 <= i < j < |files| ==> files[i].path != files[j].path
  }

  /** `files[path]?.file.contents`. */
  function Get(files: FilesObject, path: string): (r: Option<string>)
    ensures r.Some? <==> path in Keys(files)
  {
    if files == [] then None
    else if files[0].path == path then Some(files[0].contents)
    else Get(files[1..], path)
  }

  /** `files[path] = { file: { contents } }`. */
  function Put(files: FilesObject, path: string, contents: string): (r: FilesObject)
    ensures |r| == if path in Keys(files) then |files| else |files| + 1
  {
    if files == [] then [FileEntry(path, contents)]
    else if files[0].path == path then [FileEntry(path, contents)] + files[1..]
    else [files[0]] + Put(files[1..], path, contents)
  }

  /**
   * After the assignment the key reads back the new contents and every other
   * key reads as before; a new key goes to the end, an existing key keeps its
   * place.
   */
  lemma PutSpec(files: FilesObject, path: string, contents: string)
    ensures Get(Put(files, path, contents), path) == Some(contents)
    ensures forall p :: p != path ==> Get(Put(files, path, contents), p) == Get(files, p)
    ensures Keys(Put(files, path, contents)) == if path in Keys(files) then Keys(files) else Keys(files) + [path]
  {
    PutReadsBack(files, path, contents);
    forall p | p != path ensures Get(Put(files, path, contents), p) == Get(files, p) {
      PutKeepsOthers(files, path, contents, p);
    }
    PutKeys(files, path, contents);
  }

  lemma {:induction false} PutReadsBack(files: FilesObject, path: string, contents: string)
    ensures Get(Put(files, path, contents), path) == Some(contents)
  {
    if files != [] && files[0].path != path {
      PutReadsBack(files[1..], path, contents);
      assert Put(files, path, contents)[1..] == Put(files[1..], path, contents);
    }
  }

  lemma {:induction false} PutKeepsOthers(files: FilesObject, path: string, contents: string, p: string)
    requires p != path
    ensures Get(Put(files, path, contents), p) == Get(files, p)
  {
    if files != [] && files[0].path != path {
      PutKeepsOthers(files[1..], path, contents, p);
      assert Put(files, path, contents)[1..] == Put(files[1..], path, contents);
    } else if files != [] {
      assert Put(files, path, contents)[1..] == files[1..];
    }
  }

  lemma {:induction false} PutKeys(files: FilesObject, path: string, contents: string)
    ensures Keys(Put(files, path, contents)) == if path in Keys(files) then Keys(files) else Keys(files) + [path]
  {
    if files != [] {
      var r := Put(files, path, contents);
      var tail := Keys(files[1..]);
      assert Keys(files) == [files[0].path] + tail;
      assert path in Keys(files) <==> path == files[0].path || path in tail;
      if files[0].path != path {
        PutKeys(files[1..], path, contents);
        assert r[1..] == Put(files[1..], path, contents);
        assert Keys(r) == [files[0].path] + Keys(r[1..]);
      } else {
        assert r[1..] == files[1..];
        assert Keys(r) == [path] + tail;
      }
    }
  }

  /** Assigning a key never makes it appear twice. */
  lemma PutKeepsKeysDistinct(files: FilesObject, path: string, contents: string)
    requires DistinctKeys(files)
    ensures DistinctKeys(Put(files, path, contents))
  {
    var r := Put(files, path, contents);
    PutSpec(files, path, contents);
    forall i, j | 0 <= i < j < |r| ensures r[i].path != r[j].path {
      assert Keys(r)[i] == r[i].path && Keys(r)[j] == r[j].path;
      assert j < |files| ==> Keys(files)[i] == files[i].path && Keys(files)[j] == files[j].path;
    }
  }

  /** In an object, each entry is what its own key reads. */
  lemma {:induction false} GetAt(files: FilesObject, i: int)
    requires DistinctKeys(files) && 0 <= i < |files|
    ensures Get(files, files[i].path) == Some(files[i].contents)
  {
    if i > 0 {
      assert files[0].path != files[i].path;
      assert files[1..][i - 1] == files[i];
      GetAt(files[1..], i - 1);
    }
  }

  /** The JSON form of one entry's value: `{ file: { contents } }`. */
  function FileJson(contents: string): Json {
    JObject([Member("file", JObject([Member("contents", JString(contents))]))])
  }

  /** The JSON value of the whole object. */
  function ToJson(files: FilesObject): (j: Json)
    ensures j.JObject? && |j.members| == |files|
    ensures forall i :: 0 <= i < |files| ==> j.members[i] == Member(files[i].path, FileJson(files[i].contents))
  {
    JObject(seq(|files|, i requires 0 <= i < |files| => Member(files[i].path, FileJson(files[i].contents))))
  }
}
