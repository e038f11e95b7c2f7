/**
 * Path strings as the file-tree code handles them: the slash collapse of
 * `getAllFiles` (the regular expression `/\/+/g` replaced by a single "/"),
 * and the segment split `path.split('/').filter(Boolean)` of `useFileTree`.
 */
module Paths {

  /** True when `s` holds two consecutive slashes somewhere. */
  predicate HasDoubleSlash(s: string) {
    exists i :: 0 <= i < |s| - 1 && s[i] == '/' && s[i + 1] == '/'
  }

  /** JavaScript's `s.endsWith(suffix)`. */
  predicate EndsWith(s: string, suffix: string) {
    |suffix| <= |s| && s[|s| - |suffix|..] == suffix
  }

  /**
   * `s.replace(/\/+/g, '/')`: every run of slashes becomes one slash.
   * A slash followed by another slash is dropped; the run keeps its last one.
   */
  function CollapseSlashes(s: string): (r: string)
    ensures |r| <= |s|
    ensures |s| > 0 ==> |r| > 0 && r[0] == s[0] && r[|r| - 1] == s[|s| - 1]
    ensures !HasDoubleSlash(r)
  {
    if |s| <= 1 then s
    else if s[0] == '/' && s[1] == '/' then CollapseSlashes(s[1..])
    else [s[0]] + CollapseSlashes(s[1..])
  }

  /** `s.split('/')`: the pieces between slashes, empty pieces included. */
  function Split(s: string): (pieces: seq<string>)
    ensures |pieces| >= 1
    ensures forall i :: 0 <= i < |pieces| ==> '/' !in pieces[i]
  {
    if s == [] then [[]]
    else
      var rest := Split(s[1..]);
      if s[0] == '/' then [[]] + rest
      else [[s[0]] + rest[0]] + rest[1..]
  }

  /** `pieces.filter(Boolean)`: the non-empty pieces, in order. */
  function NonEmpty(pieces: seq<string>): (r: seq<string>)
    ensures |r| <= |pieces|
    ensures forall i :: 0 <= i < |r| ==> r[i] != [] && r[i] in pieces
  {
    if pieces == [] then []
    else if pieces[0] == [] then NonEmpty(pieces[1..])
    else [pieces[0]] + NonEmpty(pieces[1..])
  }

  /** `path.split('/').filter(Boolean)`: the segments of a path. */
  function PathParts(path: string): (parts: seq<string>)
    ensures forall i :: 0 <= i < |parts| ==> parts[i] != [] && '/' !in parts[i]
  {
    NonEmpty(Split(path))
  }

  /** A string with no slash is a single piece. */
  lemma {:induction false} SplitNoSlash(s: string)
    requires '/' !in s
    ensures Split(s) == [s]
  {
    if s != [] {
      assert '/' !in s[1..] by {
        forall c | c in s[1..] ensures c != '/' { assert c in s; }
      }
      SplitNoSlash(s[1..]);
      assert [s[0]] + s[1..] == s;
    }
  }

  /** Segments of a slash-free, non-empty name: the name itself. */
  lemma PathPartsOfName(name: string)
    requires name != [] && '/' !in name
    ensures PathParts(name) == [name]
  {
    SplitNoSlash(name);
  }

  /** A leading slash adds only an empty piece, which the filter drops. */
  lemma PathPartsLeadingSlash(s: string)
    ensures PathParts("/" + s) == PathParts(s)
  {
    assert ("/" + s)[1..] == s;
  }

  /**
   * Collapsing slashes keeps the text before the first slash and the
   * segments: `split('/').filter(Boolean)` sees no difference.
   */
  lemma {:induction false} CollapseKeepsParts(s: string)
    ensures Split(CollapseSlashes(s))[0] == Split(s)[0]
    ensures PathParts(CollapseSlashes(s)) == PathParts(s)
  {
    if |s| <= 1 {
    } else if s[0] == '/' && s[1] == '/' {
      CollapseKeepsParts(s[1..]);
      PathPartsLeadingSlash(s[1..]);
      assert s == "/" + s[1..];
    } else if s[0] == '/' {
      CollapseKeepsParts(s[1..]);
      PathPartsLeadingSlash(s[1..]);
      PathPartsLeadingSlash(CollapseSlashes(s[1..]));
      assert s == "/" + s[1..];
    } else {
      var x := s[1..];
      var cx := CollapseSlashes(x);
      CollapseKeepsParts(x);
      assert CollapseSlashes(s) == [s[0]] + cx;
      assert ([s[0]] + cx)[1..] == cx;
      var head := [s[0]] + Split(x)[0];
      assert Split(s) == [head] + Split(x)[1..];
      assert Split([s[0]] + cx) == [head] + Split(cx)[1..];
      assert PathParts(s) == [head] + NonEmpty(Split(x)[1..]) by {
        assert ([head] + Split(x)[1..])[1..] == Split(x)[1..];
      }
      assert PathParts([s[0]] + cx) == [head] + NonEmpty(Split(cx)[1..]) by {
        assert ([head] + Split(cx)[1..])[1..] == Split(cx)[1..];
      }
      var first := if Split(x)[0] == [] then [] else [Split(x)[0]];
      assert NonEmpty(Split(x)) == first + NonEmpty(Split(x)[1..]);
      assert NonEmpty(Split(cx)) == first + NonEmpty(Split(cx)[1..]);
      assert NonEmpty(Split(cx)[1..]) == NonEmpty(Split(x)[1..]) by {
        assert (first + NonEmpty(Split(cx)[1..]))[|first|..] == NonEmpty(Split(cx)[1..]);
        assert (first + NonEmpty(Split(x)[1..]))[|first|..] == NonEmpty(Split(x)[1..]);
      }
    }
  }

  /** A string without a double slash is left as it is by the collapse. */
  lemma {:induction false} CollapseFixesClean(s: string)
    requires !HasDoubleSlash(s)
    ensures CollapseSlashes(s) == s
  {
    if |s| > 1 {
      assert !(s[0] == '/' && s[1] == '/');
      forall i | 0 <= i < |s| - 2
        ensures !(s[1..][i] == '/' && s[1..][i + 1] == '/')
      {
        assert s[1..][i] == s[i + 1] && s[1..][i + 1] == s[i + 2];
      }
      CollapseFixesClean(s[1..]);
      assert [s[0]] + s[1..] == s;
    }
  }

  /** Collapsing twice is collapsing once. */
  lemma CollapseIdempotent(s: string)
    ensures CollapseSlashes(CollapseSlashes(s)) == CollapseSlashes(s)
  {
    CollapseFixesClean(CollapseSlashes(s));
  }
}
