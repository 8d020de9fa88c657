/** src/utils/oss.ts: the entry record shown by the browser, the folder naming
    convention and the parent of a path. */
module Oss {
  import opened JsString

  datatype ObjectType = File | Folder

  /** One entry of a folder view (`OSSObject`): its name relative to the
      viewed path, its link, its modification time, its size and its type. */
  datatype OssObject = OssObject(
    name: string,
    url: string,
    lastModified: string,
    size: nat,
    kind: ObjectType)

  /** `isFolder(name)`: the bucket has no folders, only keys that end in `/`. */
  predicate IsFolder(name: string)
    ensures IsFolder(name) <==> |name| > 0 && name[|name| - 1] == '/'
  {
    EndsWith(name, "/")
  }

  /** `getParentPath(path)`: drop one trailing slash, split at `/`, pop the
      last segment and join the rest, with a slash after it. */
  function GetParentPath(path: string): string
  {
    if path == "" || path == "/" then ""
    else
      var parts := Split(RemoveTrailingSlash(path), '/');
      var kept := parts[..|parts| - 1];
      if |kept| > 0 then Join(kept, '/') + "/" else ""
  }

  /** The root and the bare separator have the empty parent. */
  lemma ParentOfRoot()
    ensures GetParentPath("") == ""
    ensures GetParentPath("/") == ""
  {
  }

  /** A parent path is either the empty path or a path ending in `/`. */
  lemma ParentPathIsFolderPath(path: string)
    ensures GetParentPath(path) == "" || EndsWith(GetParentPath(path), "/")
  {
  }

  /** The segments a non-root path splits into: the kept ones, a slash and
      the popped last segment spell the path without its trailing slash. */
  lemma SplitPopped(s: string)
    ensures var parts := Split(s, '/');
      |parts| >= 2 ==> s == Join(parts[..|parts| - 1], '/') + "/" + Last(parts)
  {
    var parts := Split(s, '/');
    if |parts| >= 2 {
      JoinSplit(s, '/');
      assert parts == parts[..|parts| - 1] + [Last(parts)];
      JoinAppend(parts[..|parts| - 1], Last(parts), '/');
    }
  }

  /** The parent of a path is a prefix of it, and strictly shorter unless the
      path is empty: walking up always terminates. */
  lemma ParentPathIsShorterPrefix(path: string)
    ensures StartsWith(path, GetParentPath(path))
    ensures path != "" ==> |GetParentPath(path)| < |path|
  {
    if path != "" && path != "/" {
      var s := RemoveTrailingSlash(path);
      var parts := Split(s, '/');
      SplitPopped(s);
      if |parts| >= 2 {
        var r := GetParentPath(path);
        assert s == r + Last(parts);
        assert s[..|r|] == r;
        if !EndsWith(path, "/") {
          assert s == path;
        }
      }
    }
  }

  /** The path reached after walking up `n` times. */
  function Ancestor(path: string, n: nat): string
    decreases n
  {
    if n == 0 then path else Ancestor(GetParentPath(path), n - 1)
  }

  /** Walking up from any path reaches the root in at most `|path|` steps,
      and stays there. */
  lemma {:induction false} AncestorReachesRoot(path: string, n: nat)
    requires n >= |path|
    ensures Ancestor(path, n) == ""
    decreases n
  {
    if n > 0 {
      ParentPathIsShorterPrefix(path);
      AncestorReachesRoot(GetParentPath(path), n - 1);
    }
  }

  /** The folder below `path` named `name`, `path + name + "/"`: the path both
      the file manager and the recycle bin open for a folder entry. */
  function ChildFolder(path: string, name: string): (r: string)
    ensures StartsWith(r, path) && IsFolder(r)
  {
    var r := path + name + "/";
    assert r[..|path|] == path;
    r
  }

  /** Opening a sub-folder and going back up returns to the folder: the parent
      of `p + name + "/"` is `p` for a folder path `p` and a one-segment name. */
  lemma ParentOfFolderChild(p: string, name: string)
    requires p == "" || EndsWith(p, "/")
    requires name != [] && '/' !in name
    ensures GetParentPath(p + name + "/") == p
  {
    var path := p + name + "/";
    assert path != "/" by { assert |path| >= 2; }
    assert RemoveTrailingSlash(path) == p + name;
    SplitWithoutSeparator(name, '/');
    if p == "" {
      assert p + name == name;
    } else {
      var q := p[..|p| - 1];
      assert p == q + "/";
      assert p + name == q + ['/'] + name;
      SplitAround(q, name, '/');
      var parts := Split(q, '/') + [name];
      assert parts[..|parts| - 1] == Split(q, '/');
      JoinSplit(q, '/');
    }
  }

  /** The same holds for a file directly inside the folder. */
  lemma ParentOfFileChild(p: string, name: string)
    requires p == "" || EndsWith(p, "/")
    requires name != [] && '/' !in name
    ensures GetParentPath(p + name) == p
  {
    var path := p + name;
    assert RemoveTrailingSlash(path) == path;
    SplitWithoutSeparator(name, '/');
    if p == "" {
      assert path == name;
      assert name != "/";
    } else {
      var q := p[..|p| - 1];
      assert p == q + "/";
      assert path == q + ['/'] + name;
      SplitAround(q, name, '/');
      var parts := Split(q, '/') + [name];
      assert parts[..|parts| - 1] == Split(q, '/');
      JoinSplit(q, '/');
    }
  }

  /** `ParentOfFolderChild` for a key given whole. */
  lemma ParentOfFolderKey(key: string, dir: string, name: string)
    requires dir == "" || EndsWith(dir, "/")
    requires name != "" && '/' !in name && key == dir + name + "/"
    ensures GetParentPath(key) == dir
  {
    ParentOfFolderChild(dir, name);
  }

  /** Worked cases of walking up. */
  lemma ParentPathExamples()
    ensures GetParentPath("a/b/") == "a/"
    ensures GetParentPath("a/") == ""
    ensures GetParentPath("a/b") == "a/"
    ensures GetParentPath("/a/") == "/"
  {
    ParentOfFolderKey("a/b/", "a/", "b");
    ParentOfFolderKey("a/", "", "a");
    ParentOfFileChild("a/", "b");
    assert "a/" + "b" == "a/b";
    ParentOfFolderKey("/a/", "/", "a");
  }
}
