/** src/store/fileStore.ts: the file browser's store. It turns one delimited
    listing into a single-level folder view, keeps the selection, and carries
    out soft-delete, folder creation, rename and move as `copy` followed by
    `delete` on the bucket. */
module FileStore {
  import opened Wrappers
  import opened JsString
  import opened Oss
  import opened RemoteStore
  import opened ConfigStore

  const ConfigMissingMessage: string := "OSS configuration missing"
  const FetchFailedMessage: string := "Failed to fetch files"

  /** `currentPath || rootPath`: the prefix actually listed and written to. */
  function EffectivePath(currentPath: string, rootPath: string): (r: string)
    ensures currentPath != "" ==> r == currentPath
    ensures currentPath == "" ==> r == rootPath
  {
    if currentPath != "" then currentPath else rootPath
  }

  // ---------------------------------------------------------------------
  // Listing projection
  // ---------------------------------------------------------------------

  /** The display name of a common prefix: the viewed path removed (first
      occurrence) and one trailing slash dropped. */
  function FolderName(prefix: string, path: string): string
  {
    RemoveTrailingSlash(ReplaceFirst(prefix, path, ""))
  }

  /** The folder entry for a display name. */
  function FolderEntry(name: string): OssObject
  {
    OssObject(name, "", "", 0, Folder)
  }

  /** The file entry for a listed object. */
  function FileEntry(obj: ListedObject, path: string): OssObject
  {
    OssObject(ReplaceFirst(obj.name, path, ""), obj.url, obj.lastModified, obj.size, File)
  }

  /** The folder entries of a run of common prefixes, in input order; a
      prefix whose display name is empty gives no entry. */
  function FolderEntries(prefixes: seq<string>, path: string): seq<OssObject>
    decreases |prefixes|
  {
    if prefixes == [] then []
    else
      var name := FolderName(prefixes[|prefixes| - 1], path);
      FolderEntries(prefixes[..|prefixes| - 1], path) + (if |name| > 0 then [FolderEntry(name)] else [])
  }

  /** The file entries of a run of listed objects, in input order; the object
      whose key is the viewed path itself (the folder marker) gives none. */
  function FileEntries(objects: seq<ListedObject>, path: string): seq<OssObject>
    decreases |objects|
  {
    if objects == [] then []
    else
      var obj := objects[|objects| - 1];
      FileEntries(objects[..|objects| - 1], path) + (if obj.name != path then [FileEntry(obj, path)] else [])
  }

  /** No folder entry comes after a file entry. */
  predicate FoldersFirst(entries: seq<OssObject>)
  {
    forall i, j :: 0 <= i < j < |entries| && entries[j].kind == Folder ==> entries[i].kind == Folder
  }

  /** The folder view of one listing response for the viewed `path`. */
  function Projection(listing: ListResult, path: string): seq<OssObject>
  {
    FolderEntries(listing.prefixes, path) + FileEntries(listing.objects, path)
  }

  /** Every folder entry is a folder of size 0 with a non-empty name, and
      there is at most one per prefix. */
  lemma {:induction false} FolderEntriesShape(prefixes: seq<string>, path: string)
    ensures |FolderEntries(prefixes, path)| <= |prefixes|
    ensures forall e :: e in FolderEntries(prefixes, path) ==> e.kind == Folder && e.size == 0 && |e.name| > 0
    decreases |prefixes|
  {
    if prefixes != [] {
      FolderEntriesShape(prefixes[..|prefixes| - 1], path);
    }
  }

  /** Every file entry is a file, and there is at most one per object. */
  lemma {:induction false} FileEntriesShape(objects: seq<ListedObject>, path: string)
    ensures |FileEntries(objects, path)| <= |objects|
    ensures forall e :: e in FileEntries(objects, path) ==> e.kind == File
    decreases |objects|
  {
    if objects != [] {
      FileEntriesShape(objects[..|objects| - 1], path);
    }
  }

  /** The view has at most one entry per prefix and object, and lists every
      folder before every file. */
  lemma ProjectionShape(listing: ListResult, path: string)
    ensures |Projection(listing, path)| <= |listing.prefixes| + |listing.objects|
    ensures FoldersFirst(Projection(listing, path))
  {
    var folders := FolderEntries(listing.prefixes, path);
    var files := FileEntries(listing.objects, path);
    FolderEntriesShape(listing.prefixes, path);
    FileEntriesShape(listing.objects, path);
    var r := folders + files;
    forall i, j | 0 <= i < j < |r| && r[j].kind == Folder
      ensures r[i].kind == Folder
    {
      if i < |folders| {
        assert r[i] in folders;
      } else {
        assert false;
      }
    }
  }

  /** The first loop inside `fetchFiles`: one folder entry per common prefix
      with a non-empty display name, in listing order. */
  method CollectFolderEntries(prefixes: seq<string>, path: string) returns (entries: seq<OssObject>)
    ensures entries == FolderEntries(prefixes, path)
  {
    entries := [];
    var i := 0;
    while i < |prefixes|
      invariant 0 <= i <= |prefixes|
      invariant entries == FolderEntries(prefixes[..i], path)
    {
      var name := FolderName(prefixes[i], path);
      if |name| > 0 {
        entries := entries + [FolderEntry(name)];
      }
      assert prefixes[..i + 1][..i] == prefixes[..i];
      i := i + 1;
    }
    assert prefixes[..i] == prefixes;
  }

  /** The second loop inside `fetchFiles`: one file entry per listed object
      other than the folder marker, in listing order. */
  method CollectFileEntries(objects: seq<ListedObject>, path: string) returns (entries: seq<OssObject>)
    ensures entries == FileEntries(objects, path)
  {
    entries := [];
    var j := 0;
    while j < |objects|
      invariant 0 <= j <= |objects|
      invariant entries == FileEntries(objects[..j], path)
    {
      var obj := objects[j];
      if obj.name != path {
        entries := entries + [FileEntry(obj, path)];
      }
      assert objects[..j + 1][..j] == objects[..j];
      j := j + 1;
    }
    assert objects[..j] == objects;
  }

  /** The entries `fetchFiles` stores for one listing response: the folder
      entries followed by the file entries. */
  method BuildListing(listing: ListResult, path: string) returns (entries: seq<OssObject>)
    ensures entries == Projection(listing, path)
  {
    var folders := CollectFolderEntries(listing.prefixes, path);
    var files := CollectFileEntries(listing.objects, path);
    entries := folders + files;
  }

  /** `e` is the folder entry the common prefix `prefix` gives. */
  predicate FolderEntryOf(prefix: string, path: string, e: OssObject)
  {
    |FolderName(prefix, path)| > 0 && e == FolderEntry(FolderName(prefix, path))
  }

  /** Every folder entry comes from a prefix with a non-empty display name. */
  lemma {:induction false} FolderEntriesSound(prefixes: seq<string>, path: string, e: OssObject)
    requires e in FolderEntries(prefixes, path)
    ensures exists i :: 0 <= i < |prefixes| && FolderEntryOf(prefixes[i], path, e)
    decreases |prefixes|
  {
    var n := |prefixes| - 1;
    var init := prefixes[..n];
    var name := FolderName(prefixes[n], path);
    if e in FolderEntries(init, path) {
      FolderEntriesSound(init, path, e);
      var i :| 0 <= i < |init| && FolderEntryOf(init[i], path, e);
      assert init[i] == prefixes[i];
    } else {
      assert |name| > 0 && e == FolderEntry(name);
      assert FolderEntryOf(prefixes[n], path, e);
    }
  }

  /** Every prefix with a non-empty display name gives a folder entry. */
  lemma {:induction false} FolderEntriesComplete(prefixes: seq<string>, path: string, i: nat)
    requires i < |prefixes| && |FolderName(prefixes[i], path)| > 0
    ensures FolderEntry(FolderName(prefixes[i], path)) in FolderEntries(prefixes, path)
    decreases |prefixes|
  {
    var n := |prefixes| - 1;
    var init := prefixes[..n];
    var last := FolderName(prefixes[n], path);
    var tail := if |last| > 0 then [FolderEntry(last)] else [];
    assert FolderEntries(prefixes, path) == FolderEntries(init, path) + tail;
    if i < n {
      assert init[i] == prefixes[i];
      FolderEntriesComplete(init, path, i);
    } else {
      assert i == n;
      assert tail == [FolderEntry(last)];
    }
  }

  /** Exactly the prefixes with a non-empty display name give a folder entry. */
  lemma FolderEntriesMembership(prefixes: seq<string>, path: string, e: OssObject)
    ensures e in FolderEntries(prefixes, path) <==>
      exists i :: 0 <= i < |prefixes| && FolderEntryOf(prefixes[i], path, e)
  {
    if e in FolderEntries(prefixes, path) {
      FolderEntriesSound(prefixes, path, e);
    }
    if exists i :: 0 <= i < |prefixes| && FolderEntryOf(prefixes[i], path, e) {
      var i :| 0 <= i < |prefixes| && FolderEntryOf(prefixes[i], path, e);
      FolderEntriesComplete(prefixes, path, i);
    }
  }

  /** `e` is the file entry the listed object `obj` gives. */
  predicate FileEntryOf(obj: ListedObject, path: string, e: OssObject)
  {
    obj.name != path && e == FileEntry(obj, path)
  }

  /** Every file entry comes from an object other than the folder marker. */
  lemma {:induction false} FileEntriesSound(objects: seq<ListedObject>, path: string, e: OssObject)
    requires e in FileEntries(objects, path)
    ensures exists i :: 0 <= i < |objects| && FileEntryOf(objects[i], path, e)
    decreases |objects|
  {
    var n := |objects| - 1;
    var init := objects[..n];
    if e in FileEntries(init, path) {
      FileEntriesSound(init, path, e);
      var i :| 0 <= i < |init| && FileEntryOf(init[i], path, e);
      assert init[i] == objects[i];
    } else {
      assert FileEntryOf(objects[n], path, e);
    }
  }

  /** Every object other than the folder marker gives a file entry. */
  lemma {:induction false} FileEntriesComplete(objects: seq<ListedObject>, path: string, i: int)
    requires 0 <= i < |objects| && objects[i].name != path
    ensures FileEntry(objects[i], path) in FileEntries(objects, path)
    decreases |objects|
  {
    var n := |objects| - 1;
    if i < n {
      var init := objects[..n];
      assert init[i] == objects[i];
      FileEntriesComplete(init, path, i);
    }
  }

  /** Exactly the objects other than the folder marker give a file entry. */
  lemma FileEntriesMembership(objects: seq<ListedObject>, path: string, e: OssObject)
    ensures e in FileEntries(objects, path) <==>
      exists i :: 0 <= i < |objects| && FileEntryOf(objects[i], path, e)
  {
    if e in FileEntries(objects, path) {
      FileEntriesSound(objects, path, e);
    }
    if exists i :: 0 <= i < |objects| && FileEntryOf(objects[i], path, e) {
      var i :| 0 <= i < |objects| && FileEntryOf(objects[i], path, e);
      FileEntriesComplete(objects, path, i);
    }
  }

  /** Folder entries keep the order of the prefixes they come from. */
  lemma {:induction false} FolderEntriesAppend(a: seq<string>, b: seq<string>, path: string)
    ensures FolderEntries(a + b, path) == FolderEntries(a, path) + FolderEntries(b, path)
    decreases |b|
  {
    if b == [] {
      assert a + b == a;
    } else {
      var b' := b[..|b| - 1];
      assert (a + b)[..|a + b| - 1] == a + b';
      assert (a + b)[|a + b| - 1] == b[|b| - 1];
      FolderEntriesAppend(a, b', path);
    }
  }

  /** File entries keep the order of the objects they come from. */
  lemma {:induction false} FileEntriesAppend(a: seq<ListedObject>, b: seq<ListedObject>, path: string)
    ensures FileEntries(a + b, path) == FileEntries(a, path) + FileEntries(b, path)
    decreases |b|
  {
    if b == [] {
      assert a + b == a;
    } else {
      var b' := b[..|b| - 1];
      assert (a + b)[..|a + b| - 1] == a + b';
      assert (a + b)[|a + b| - 1] == b[|b| - 1];
      FileEntriesAppend(a, b', path);
    }
  }

  /** A file entry's name put back after the viewed path gives the object's
      key, and only the folder marker would have an empty name. */
  lemma FileEntryKey(obj: ListedObject, path: string)
    requires StartsWith(obj.name, path)
    ensures path + FileEntry(obj, path).name == obj.name
    ensures FileEntry(obj, path).name == "" <==> obj.name == path
  {
    ReplaceFirstAtStart(obj.name, path, "");
    assert obj.name == path + obj.name[|path|..];
  }

  /** A folder entry's name put back between the viewed path and a slash
      gives the common prefix it came from. */
  lemma FolderEntryKey(prefix: string, path: string)
    requires StartsWith(prefix, path) && EndsWith(prefix, "/")
    requires |FolderName(prefix, path)| > 0
    ensures path + FolderName(prefix, path) + "/" == prefix
  {
    ReplaceFirstAtStart(prefix, path, "");
    var rest := prefix[|path|..];
    assert prefix == path + rest;
    assert EndsWith(rest, "/");
  }

  /** When the listing only reports keys under the viewed path, no entry of
      the view has an empty name: nothing in the view stands for the viewed
      folder itself. */
  lemma ProjectionHasNoEntryForViewedPath(listing: ListResult, path: string)
    requires forall i :: 0 <= i < |listing.objects| ==> StartsWith(listing.objects[i].name, path)
    ensures forall e :: e in Projection(listing, path) ==> |e.name| > 0
  {
    forall e | e in Projection(listing, path)
      ensures |e.name| > 0
    {
      if e in FolderEntries(listing.prefixes, path) {
        FolderEntriesShape(listing.prefixes, path);
      } else {
        FileEntriesMembership(listing.objects, path, e);
        var i :| 0 <= i < |listing.objects| && listing.objects[i].name != path && e == FileEntry(listing.objects[i], path);
        FileEntryKey(listing.objects[i], path);
      }
    }
  }

  /** The listing of `docs/` with two sub-folders and one file. */
  lemma ProjectionExample(url: string, time: string)
    ensures Projection(ListResult(["docs/a/", "docs/b/"], [ListedObject("docs/readme.txt", url, time, 12)]), "docs/")
      == [FolderEntry("a"), FolderEntry("b"), OssObject("readme.txt", url, time, 12, File)]
  {
    ReplaceFirstAtStart("docs/a/", "docs/", "");
    ReplaceFirstAtStart("docs/b/", "docs/", "");
    ReplaceFirstAtStart("docs/readme.txt", "docs/", "");
    assert FolderName("docs/a/", "docs/") == "a" by {
      assert "docs/a/"[|"docs/"|..] == "a/";
    }
    assert FolderName("docs/b/", "docs/") == "b" by {
      assert "docs/b/"[|"docs/"|..] == "b/";
    }
    assert "docs/readme.txt"[|"docs/"|..] == "readme.txt";
    var prefixes := ["docs/a/", "docs/b/"];
    assert prefixes[..1] == ["docs/a/"] && prefixes[..1][..0] == [];
    assert FolderEntries(prefixes, "docs/") == [FolderEntry("a"), FolderEntry("b")];
    var objects := [ListedObject("docs/readme.txt", url, time, 12)];
    assert objects[..0] == [] && |objects[0].name| != |"docs/"|;
    assert FileEntry(objects[0], "docs/").name == "readme.txt";
    assert FileEntries(objects, "docs/") == [OssObject("readme.txt", url, time, 12, File)];
  }

  // ---------------------------------------------------------------------
  // Key planners
  // ---------------------------------------------------------------------

  /** `x.replace('//', '/')`: only the first doubled slash is collapsed. */
  function CollapseFirstDoubleSlash(s: string): string
  {
    ReplaceFirst(s, "//", "/")
  }

  /** A key without a doubled slash is left as it is. */
  lemma CollapseWithoutDoubleSlash(s: string)
    requires !Includes(s, "//")
    ensures CollapseFirstDoubleSlash(s) == s
  {
  }

  /** A string without two adjacent slashes does not include `//`. */
  lemma NoDoubleSlash(s: string)
    requires forall i :: 0 <= i < |s| - 1 ==> !(s[i] == '/' && s[i + 1] == '/')
    ensures !Includes(s, "//")
  {
    forall j: nat
      ensures !OccursAt(s, "//", j)
    {
      if j + 2 <= |s| {
        assert s[j..j + 2][0] == s[j] && s[j..j + 2][1] == s[j + 1];
      }
    }
    IndexOfSpec(s, "//");
  }

  /** Where `deleteFiles` moves `key` in the trash. */
  function SoftDeleteDestination(key: string, rootPath: string, recyclePath: string): string
  {
    var moved :=
      if rootPath != "" && StartsWith(key, rootPath) then ReplaceFirst(key, rootPath, recyclePath)
      else recyclePath + key;
    CollapseFirstDoubleSlash(moved)
  }

  /** A key under the root keeps its path below the root, now below the trash
      root (the trash root passes through `replace`'s `$` patterns; one
      without `$` goes in as it is); any other key is put below the trash
      root whole. */
  lemma SoftDeleteDestinationSpec(key: string, rootPath: string, recyclePath: string)
    ensures rootPath != "" && StartsWith(key, rootPath) ==>
      SoftDeleteDestination(key, rootPath, recyclePath)
        == CollapseFirstDoubleSlash(Substitute(recyclePath, rootPath, "", key[|rootPath|..]) + key[|rootPath|..])
    ensures rootPath != "" && StartsWith(key, rootPath) && '$' !in recyclePath ==>
      SoftDeleteDestination(key, rootPath, recyclePath) == CollapseFirstDoubleSlash(recyclePath + key[|rootPath|..])
    ensures rootPath == "" || !StartsWith(key, rootPath) ==>
      SoftDeleteDestination(key, rootPath, recyclePath) == CollapseFirstDoubleSlash(recyclePath + key)
  {
    if rootPath != "" && StartsWith(key, rootPath) {
      ReplaceFirstAtStart(key, rootPath, recyclePath);
    }
  }

  /** A trash root `$$name` goes in as `$name` for every key under the
      root. */
  lemma DoubledDollarTrashRoot(key: string, rootPath: string, name: string)
    requires rootPath != "" && StartsWith(key, rootPath) && '$' !in name
    ensures SoftDeleteDestination(key, rootPath, "$$" + name)
      == CollapseFirstDoubleSlash("$" + name + key[|rootPath|..])
  {
    SoftDeleteDestinationSpec(key, rootPath, "$$" + name);
    SubstituteEscapedDollar(name, rootPath, "", key[|rootPath|..]);
  }

  /** Collapsing the first `//` never touches a leading run without `/`. */
  lemma CollapseKeepsSlashFreeStart(a: string, b: string)
    requires '/' !in a
    ensures StartsWith(CollapseFirstDoubleSlash(a + b), a)
  {
    var s := a + b;
    assert s[..|a|] == a;
    IndexOfSpec(s, "//");
    match IndexOf(s, "//")
    case None =>
    case Some(i) =>
      assert s[i..i + 2][0] == s[i];
      assert forall k :: 0 <= k < |a| ==> s[k] == a[k];
      assert i >= |a|;
      SubstituteLiteral("/", "//", s[..i], s[i + 2..]);
      assert (s[..i] + "/" + s[i + 2..])[..|a|] == s[..i][..|a|];
  }

  /** A trash root holding `$$` is rewritten by `replace`: with trash root
      `$$name` (say `$$t/`), every key under the root goes to a key starting
      `$name` (`$t/`), never below the trash root the recycle bin lists. */
  lemma DollarTrashRootMissesTrash(key: string, rootPath: string, name: string)
    requires rootPath != "" && StartsWith(key, rootPath)
    requires name != "" && '$' !in name && '/' !in name
    ensures StartsWith(SoftDeleteDestination(key, rootPath, "$$" + name + "/"), "$" + name)
    ensures !StartsWith(SoftDeleteDestination(key, rootPath, "$$" + name + "/"), "$$" + name + "/")
  {
    var rest := key[|rootPath|..];
    var d := SoftDeleteDestination(key, rootPath, "$$" + name + "/");
    assert "$$" + name + "/" == "$$" + (name + "/");
    DoubledDollarTrashRoot(key, rootPath, name + "/");
    assert "$" + (name + "/") + rest == ("$" + name) + ("/" + rest);
    CollapseKeepsSlashFreeStart("$" + name, "/" + rest);
    assert d[1] == name[0];
  }

  /** With the trash root equal to the root, a key under the root is
      "moved" onto itself: the copy is a no-op and the delete then removes
      the only copy of the object. */
  lemma SoftDeleteOntoItselfLosesObject(m: map<string, Content>, key: string, path: string)
    requires path != "" && StartsWith(key, path) && !Includes(key, "//") && '$' !in path
    requires key in m
    ensures SoftDeleteDestination(key, path, path) == key
    ensures key !in SoftDeleteAll(m, [key], path, path)
  {
    SoftDeleteDestinationSpec(key, path, path);
    assert path + key[|path|..] == key;
    assert [key][..0] == [];
  }

  /** The bucket after `deleteFiles` has copied and deleted every key in
      turn. */
  function SoftDeleteAll(m: map<string, Content>, keys: seq<string>, rootPath: string, recyclePath: string): map<string, Content>
    decreases |keys|
  {
    if keys == [] then m
    else
      var key := keys[|keys| - 1];
      CopyThenDelete(SoftDeleteAll(m, keys[..|keys| - 1], rootPath, recyclePath),
                     SoftDeleteDestination(key, rootPath, recyclePath), key)
  }

  /** Every key is still present when its turn comes, so no copy fails. */
  predicate AllCopied(m: map<string, Content>, keys: seq<string>, rootPath: string, recyclePath: string)
  {
    forall n :: 0 <= n < |keys| ==> keys[n] in SoftDeleteAll(m, keys[..n], rootPath, recyclePath)
  }

  /** A run in which every earlier key was copied, and whose last key is
      still present when its turn comes, copies every key. */
  lemma AllCopiedExtend(m: map<string, Content>, keys: seq<string>, rootPath: string, recyclePath: string)
    requires |keys| >= 1
    requires AllCopied(m, keys[..|keys| - 1], rootPath, recyclePath)
    requires keys[|keys| - 1] in SoftDeleteAll(m, keys[..|keys| - 1], rootPath, recyclePath)
    ensures AllCopied(m, keys, rootPath, recyclePath)
  {
    var init := keys[..|keys| - 1];
    forall n | 0 <= n < |keys|
      ensures keys[n] in SoftDeleteAll(m, keys[..n], rootPath, recyclePath)
    {
      if n < |init| {
        assert init[n] == keys[n] && init[..n] == keys[..n];
      }
    }
  }

  /** `n` is the first key whose copy fails. */
  predicate FirstMissing(m: map<string, Content>, keys: seq<string>, rootPath: string, recyclePath: string, n: int)
  {
    && 0 <= n < |keys|
    && keys[n] !in SoftDeleteAll(m, keys[..n], rootPath, recyclePath)
    && AllCopied(m, keys[..n], rootPath, recyclePath)
  }

  /** Soft-deleting a single present key whose trash key differs moves its
      content there and changes no other key. */
  lemma SoftDeleteOneKey(m: map<string, Content>, key: string, rootPath: string, recyclePath: string)
    requires key in m
    requires SoftDeleteDestination(key, rootPath, recyclePath) != key
    ensures var dest := SoftDeleteDestination(key, rootPath, recyclePath);
      var r := SoftDeleteAll(m, [key], rootPath, recyclePath);
      && dest in r && r[dest] == m[key] && key !in r
      && forall k :: k != dest && k != key ==> (k in r <==> k in m) && (k in r ==> r[k] == m[k])
  {
    assert [key][..0] == [];
  }

  /** The display name of the prefix `path + rest` is `rest` without its
      trailing slash. */
  lemma FolderNameBelow(path: string, rest: string)
    ensures FolderName(path + rest, path) == RemoveTrailingSlash(rest)
  {
    var prefix := path + rest;
    assert StartsWith(prefix, path) && prefix[|path|..] == rest;
    ReplaceFirstAtStart(prefix, path, "");
  }

  /** The key `createFolder` writes: an empty object named after the folder,
      with a trailing slash, below the effective path. */
  function FolderMarkerKey(effectivePath: string, folderName: string): string
  {
    effectivePath + folderName + "/"
  }

  /** The marker is a folder key, its parent is the folder it was created in,
      and a listing of that folder shows it under the chosen name. */
  lemma FolderMarkerKeyIsChild(effectivePath: string, folderName: string)
    requires effectivePath == "" || EndsWith(effectivePath, "/")
    requires folderName != "" && '/' !in folderName
    ensures IsFolder(FolderMarkerKey(effectivePath, folderName))
    ensures GetParentPath(FolderMarkerKey(effectivePath, folderName)) == effectivePath
    ensures FolderName(FolderMarkerKey(effectivePath, folderName), effectivePath) == folderName
  {
    var key := FolderMarkerKey(effectivePath, folderName);
    ParentOfFolderChild(effectivePath, folderName);
    assert key == effectivePath + (folderName + "/");
    FolderNameBelow(effectivePath, folderName + "/");
    assert RemoveTrailingSlash(folderName + "/") == folderName;
  }

  /** The key `renameFile` copies to: the old key's folder part (everything
      before its last slash), a slash and the new name, or just the new name
      when that folder part is empty. */
  function RenameTarget(oldKey: string, newName: string): string
  {
    var parts := Split(oldKey, '/');
    var folderPath := Join(parts[..|parts| - 1], '/');
    if folderPath != "" then folderPath + "/" + newName else newName
  }

  /** Renaming a key inside a folder keeps the folder. */
  lemma RenameTargetInFolder(dir: string, base: string, newName: string)
    requires dir != "" && '/' !in base
    ensures RenameTarget(dir + "/" + base, newName) == dir + "/" + newName
  {
    assert dir + "/" + base == dir + ['/'] + base;
    SplitAround(dir, base, '/');
    SplitWithoutSeparator(base, '/');
    var parts := Split(dir, '/') + [base];
    assert parts[..|parts| - 1] == Split(dir, '/');
    JoinSplit(dir, '/');
  }

  /** Renaming a key without a slash gives the new name alone. */
  lemma RenameTargetAtTop(oldKey: string, newName: string)
    requires '/' !in oldKey
    ensures RenameTarget(oldKey, newName) == newName
  {
    SplitWithoutSeparator(oldKey, '/');
  }

  /** `renameFile` has no same-key guard: renaming a file to its own name
      copies it onto itself and then deletes it. */
  lemma RenameToOwnNameLosesObject(m: map<string, Content>, dir: string, base: string)
    requires dir != "" && '/' !in base
    requires dir + "/" + base in m
    ensures RenameTarget(dir + "/" + base, base) == dir + "/" + base
    ensures dir + "/" + base !in CopyThenDelete(m, RenameTarget(dir + "/" + base, base), dir + "/" + base)
  {
    RenameTargetInFolder(dir, base, base);
  }

  /** The key `moveFile` copies to, or `None` when it does nothing: the last
      segment of the source key is empty (a folder key), or the destination
      folder already holds the source. */
  function MoveTarget(sourceKey: string, destinationPath: string): (r: Option<string>)
    ensures r.Some? ==> r.value != sourceKey && StartsWith(r.value, destinationPath)
    ensures r.Some? ==> var name := r.value[|destinationPath|..]; name != "" && '/' !in name
  {
    var parts := Split(sourceKey, '/');
    var fileName := Last(parts);
    if fileName == "" then None
    else
      var newKey := destinationPath + fileName;
      assert newKey[|destinationPath|..] == fileName;
      if newKey == sourceKey then None else Some(newKey)
  }

  /** A key ending in a slash has an empty last segment: it is never moved. */
  lemma MoveTargetOfFolderKey(sourceKey: string, destinationPath: string)
    requires EndsWith(sourceKey, "/")
    ensures MoveTarget(sourceKey, destinationPath) == None
  {
    var q := sourceKey[..|sourceKey| - 1];
    assert sourceKey == q + ['/'] + "";
    SplitAround(q, "", '/');
  }

  /** Moving a file into some folder puts it there under its own name; moving
      it into the folder it is already in does nothing. */
  lemma MoveTargetOfFile(dir: string, base: string, destinationPath: string)
    requires dir == "" || EndsWith(dir, "/")
    requires base != "" && '/' !in base
    ensures destinationPath == dir ==> MoveTarget(dir + base, destinationPath) == None
    ensures destinationPath != dir ==> MoveTarget(dir + base, destinationPath) == Some(destinationPath + base)
  {
    SplitWithoutSeparator(base, '/');
    if dir == "" {
      assert dir + base == base;
    } else {
      var q := dir[..|dir| - 1];
      assert dir + base == q + ['/'] + base;
      SplitAround(q, base, '/');
    }
    if destinationPath + base == dir + base {
      assert destinationPath == (dir + base)[..|dir + base| - |base|];
    }
  }

  // ---------------------------------------------------------------------
  // Selection
  // ---------------------------------------------------------------------

  /** `keys.filter(k => k !== key)` */
  function Without(keys: seq<string>, key: string): (r: seq<string>)
    ensures forall k :: k in r <==> k in keys && k != key
    ensures |r| <= |keys|
    decreases |keys|
  {
    if keys == [] then []
    else (if keys[0] != key then [keys[0]] else []) + Without(keys[1..], key)
  }

  /** The selection after `toggleSelection(key)`. */
  function Toggled(selected: seq<string>, key: string): (r: seq<string>)
    ensures key in r <==> key !in selected
    ensures forall k :: k != key ==> (k in r <==> k in selected)
  {
    if key in selected then Without(selected, key) else selected + [key]
  }

  predicate NoDuplicates(keys: seq<string>)
  {
    forall i, j :: 0 <= i < j < |keys| ==> keys[i] != keys[j]
  }

  lemma {:induction false} WithoutKeepsNoDuplicates(keys: seq<string>, key: string)
    requires NoDuplicates(keys)
    ensures NoDuplicates(Without(keys, key))
    decreases |keys|
  {
    if keys != [] {
      assert NoDuplicates(keys[1..]) by {
        forall i, j | 0 <= i < j < |keys[1..]| ensures keys[1..][i] != keys[1..][j] {
          assert keys[1..][i] == keys[i + 1] && keys[1..][j] == keys[j + 1];
        }
      }
      WithoutKeepsNoDuplicates(keys[1..], key);
      var rest := Without(keys[1..], key);
      if keys[0] != key {
        assert keys[0] !in keys[1..];
        assert keys[0] !in rest;
        var r := [keys[0]] + rest;
        forall i, j | 0 <= i < j < |r| ensures r[i] != r[j] {
          if i == 0 {
            assert r[j] == rest[j - 1];
          } else {
            assert r[i] == rest[i - 1] && r[j] == rest[j - 1];
          }
        }
      }
    }
  }

  /** Toggling never puts a key in the selection twice. */
  lemma ToggleKeepsNoDuplicates(selected: seq<string>, key: string)
    requires NoDuplicates(selected)
    ensures NoDuplicates(Toggled(selected, key))
  {
    if key in selected {
      WithoutKeepsNoDuplicates(selected, key);
    }
  }

  lemma {:induction false} WithoutAbsent(keys: seq<string>, key: string)
    requires key !in keys
    ensures Without(keys, key) == keys
    decreases |keys|
  {
    if keys != [] {
      WithoutAbsent(keys[1..], key);
      assert keys == [keys[0]] + keys[1..];
    }
  }

  lemma {:induction false} WithoutAppended(keys: seq<string>, key: string)
    ensures Without(keys + [key], key) == Without(keys, key)
    decreases |keys|
  {
    if keys == [] {
      assert Without([key], key) == [] + Without([], key);
    } else {
      assert (keys + [key])[1..] == keys[1..] + [key];
      WithoutAppended(keys[1..], key);
    }
  }

  /** Toggling an unselected key twice gives back exactly the selection. */
  lemma ToggleTwiceRestores(selected: seq<string>, key: string)
    requires key !in selected
    ensures Toggled(Toggled(selected, key), key) == selected
  {
    WithoutAppended(selected, key);
    WithoutAbsent(selected, key);
  }

  // ---------------------------------------------------------------------
  // The store
  // ---------------------------------------------------------------------

  /** The file browser's state (`useFileStore`). */
  class FileState {
    var currentPath: string
    var files: seq<OssObject>
    var isLoading: bool
    var error: Option<string>
    var selectedFiles: seq<string>
    var searchQuery: string

    constructor ()
      ensures currentPath == "" && files == [] && !isLoading && error == None
      ensures selectedFiles == [] && searchQuery == ""
    {
      currentPath := "";
      files := [];
      isLoading := false;
      error := None;
      selectedFiles := [];
      searchQuery := "";
    }

    /** `setCurrentPath(path)`: moving to another folder drops the selection.
        The listing it then requests is a separate `FetchFiles`. */
    method SetCurrentPath(path: string)
      modifies this`currentPath, this`selectedFiles
      ensures currentPath == path && selectedFiles == []
    {
      currentPath := path;
      selectedFiles := [];
    }

    /** `setSearchQuery(query)` */
    method SetSearchQuery(query: string)
      modifies this`searchQuery
      ensures searchQuery == query
    {
      searchQuery := query;
    }

    /** `toggleSelection(key)` */
    method ToggleSelection(key: string)
      modifies this`selectedFiles
      ensures selectedFiles == Toggled(old(selectedFiles), key)
    {
      if key in selectedFiles {
        selectedFiles := Without(selectedFiles, key);
      } else {
        selectedFiles := selectedFiles + [key];
      }
    }

    /** `clearSelection()` */
    method ClearSelection()
      modifies this`selectedFiles
      ensures selectedFiles == []
    {
      selectedFiles := [];
    }

    /** `fetchFiles()`: `response` is what the bucket answered to the listing
        of the effective path with delimiter `/` (a failure carries the
        error's message). */
    method FetchFiles(config: Option<OssConfig>, response: Result<ListResult, string>)
      modifies this`files, this`isLoading, this`error
      ensures config.None? ==>
        error == Some(ConfigMissingMessage) && files == old(files) && isLoading == old(isLoading)
      ensures config.Some? && response.Success? ==>
        && files == Projection(response.value, EffectivePath(currentPath, RootPathOf(config.value)))
        && !isLoading && error == None
      ensures config.Some? && response.Failure? ==>
        && files == old(files) && !isLoading
        && error == Some(if response.error != "" then response.error else FetchFailedMessage)
    {
      if config.None? {
        error := Some(ConfigMissingMessage);
        return;
      }
      var effectivePath := EffectivePath(currentPath, RootPathOf(config.value));
      isLoading, error := true, None;
      match response
      case Success(listing) =>
        var objects := BuildListing(listing, effectivePath);
        files, isLoading := objects, false;
      case Failure(message) =>
        isLoading := false;
        error := Some(if message != "" then message else FetchFailedMessage);
    }

    /** `deleteFiles(keys)`: moves each key to the trash by copy then delete,
        in order, stopping at the first failed copy. Only a run in which every
        key was moved clears the selection. */
    method DeleteFiles(keys: seq<string>, config: Option<OssConfig>, bucket: Bucket)
      modifies this`isLoading, this`selectedFiles, this`error, bucket
      ensures config.None? ==>
        && bucket.objects == old(bucket.objects) && isLoading == old(isLoading)
        && selectedFiles == old(selectedFiles) && error == old(error)
      ensures config.Some? ==> !isLoading
      ensures config.Some? ==>
        var root, recycle := RootPathOf(config.value), RecyclePathOf(config.value);
        AllCopied(old(bucket.objects), keys, root, recycle) ==>
          && bucket.objects == SoftDeleteAll(old(bucket.objects), keys, root, recycle)
          && selectedFiles == [] && error == old(error)
      ensures config.Some? ==>
        var root, recycle := RootPathOf(config.value), RecyclePathOf(config.value);
        !AllCopied(old(bucket.objects), keys, root, recycle) ==>
          && (exists n :: FirstMissing(old(bucket.objects), keys, root, recycle, n)
                && bucket.objects == SoftDeleteAll(old(bucket.objects), keys[..n], root, recycle))
          && selectedFiles == old(selectedFiles) && error == Some(NoSuchKeyMessage)
    {
      if config.None? {
        return;
      }
      var rootPath := RootPathOf(config.value);
      var recyclePath := RecyclePathOf(config.value);
      ghost var start := bucket.objects;
      isLoading := true;
      var i := 0;
      while i < |keys|
        invariant 0 <= i <= |keys|
        invariant bucket.objects == SoftDeleteAll(start, keys[..i], rootPath, recyclePath)
        invariant AllCopied(start, keys[..i], rootPath, recyclePath)
        invariant selectedFiles == old(selectedFiles) && error == old(error)
      {
        var key := keys[i];
        var destinationKey := SoftDeleteDestination(key, rootPath, recyclePath);
        assert keys[..i + 1][..i] == keys[..i];
        var copied := bucket.Copy(destinationKey, key);
        if !copied {
          isLoading := false;
          error := Some(NoSuchKeyMessage);
          assert FirstMissing(start, keys, rootPath, recyclePath, i);
          assert !AllCopied(start, keys, rootPath, recyclePath);
          return;
        }
        bucket.Delete(key);
        assert keys[..i + 1][i] == key;
        AllCopiedExtend(start, keys[..i + 1], rootPath, recyclePath);
        i := i + 1;
      }
      assert keys[..i] == keys;
      isLoading := false;
      selectedFiles := [];
    }

    /** `createFolder(folderName)`: writes an empty marker object. */
    method CreateFolder(folderName: string, config: Option<OssConfig>, bucket: Bucket)
      modifies bucket
      ensures config.None? ==> bucket.objects == old(bucket.objects)
      ensures config.Some? ==>
        bucket.objects == old(bucket.objects)[
          FolderMarkerKey(EffectivePath(currentPath, RootPathOf(config.value)), folderName) := []]
    {
      if config.None? {
        return;
      }
      var effectivePath := EffectivePath(currentPath, RootPathOf(config.value));
      bucket.Put(FolderMarkerKey(effectivePath, folderName), []);
    }

    /** `renameFile(oldKey, newName)`: copy to the renamed key, then delete
        the old one. A failed copy is recorded and rethrown (`thrown`). */
    method RenameFile(oldKey: string, newName: string, config: Option<OssConfig>, bucket: Bucket)
      returns (thrown: Option<string>)
      modifies this`isLoading, this`error, bucket
      ensures config.None? ==>
        && thrown.None? && bucket.objects == old(bucket.objects)
        && isLoading == old(isLoading) && error == old(error)
      ensures config.Some? ==>
        && bucket.objects == CopyThenDelete(old(bucket.objects), RenameTarget(oldKey, newName), oldKey)
        && !isLoading
        && (thrown.Some? <==> oldKey !in old(bucket.objects))
        && error == (if thrown.Some? then Some(NoSuchKeyMessage) else old(error))
    {
      thrown := None;
      if config.None? {
        return;
      }
      var newKey := RenameTarget(oldKey, newName);
      isLoading := true;
      var copied := bucket.Copy(newKey, oldKey);
      if !copied {
        isLoading, error := false, Some(NoSuchKeyMessage);
        thrown := Some(NoSuchKeyMessage);
        return;
      }
      bucket.Delete(oldKey);
      isLoading := false;
    }

    /** `moveFile(sourceKey, destinationPath)`: copy into the destination
        folder under the same last segment, then delete the source; nothing
        happens for a folder key or a move into the same folder. */
    method MoveFile(sourceKey: string, destinationPath: string, config: Option<OssConfig>, bucket: Bucket)
      returns (thrown: Option<string>)
      modifies this`isLoading, this`error, bucket
      ensures config.None? || MoveTarget(sourceKey, destinationPath).None? ==>
        && thrown.None? && bucket.objects == old(bucket.objects)
        && isLoading == old(isLoading) && error == old(error)
      ensures config.Some? && MoveTarget(sourceKey, destinationPath).Some? ==>
        && bucket.objects == CopyThenDelete(old(bucket.objects), MoveTarget(sourceKey, destinationPath).value, sourceKey)
        && !isLoading
        && (thrown.Some? <==> sourceKey !in old(bucket.objects))
        && error == (if thrown.Some? then Some(NoSuchKeyMessage) else old(error))
    {
      thrown := None;
      if config.None? {
        return;
      }
      var target := MoveTarget(sourceKey, destinationPath);
      if target.None? {
        return;
      }
      var newKey := target.value;
      isLoading := true;
      var copied := bucket.Copy(newKey, sourceKey);
      if !copied {
        isLoading, error := false, Some(NoSuchKeyMessage);
        thrown := Some(NoSuchKeyMessage);
        return;
      }
      bucket.Delete(sourceKey);
      isLoading := false;
    }
  }
}
