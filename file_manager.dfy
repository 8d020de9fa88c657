/** src/pages/FileManager.tsx: the browser page over the file store. It
    filters the current view by name, walks into folders and back up, sends
    `.txt` files to the reader, and downloads or soft-deletes the entry a
    swipe action names. */
module FileManager {
  import opened Wrappers
  import opened JsString
  import opened Oss
  import opened RemoteStore
  import opened ConfigStore
  import opened FileStore
  import opened Ui

  const ReaderOnlyTxtMessage: string := "Only .txt files are supported for reading"
  const DeletedMessage: string := "File deleted"
  const DownloadedMessage: string := "Downloaded to offline storage"
  const DownloadFailedPrefix: string := "Download failed: "

  // ---------------------------------------------------------------------
  // Name filter
  // ---------------------------------------------------------------------

  /** `name.toLowerCase().includes(query.toLowerCase())` */
  predicate Matches(name: string, query: string)
  {
    Includes(ToLowerCase(name), ToLowerCase(query))
  }

  /** `files.filter(f => Matches(f.name, searchQuery))` */
  function FilteredFiles(files: seq<OssObject>, query: string): seq<OssObject>
    decreases |files|
  {
    if files == [] then []
    else (if Matches(files[0].name, query) then [files[0]] else []) + FilteredFiles(files[1..], query)
  }

  /** `a` is `b` with some elements left out, the rest in their order. */
  predicate IsSubsequence(a: seq<OssObject>, b: seq<OssObject>)
    decreases |b|
  {
    if a == [] then true
    else if b == [] then false
    else if a[0] == b[0] then IsSubsequence(a[1..], b[1..])
    else IsSubsequence(a, b[1..])
  }

  /** One more element in front of `b` keeps `a` a subsequence. */
  lemma {:induction false} SubsequenceCons(a: seq<OssObject>, b: seq<OssObject>, x: OssObject)
    requires IsSubsequence(a, b)
    ensures IsSubsequence(a, [x] + b)
    decreases |b|, 1
  {
    if a != [] && a[0] == x {
      SubsequenceDropHead(a, b);
      assert ([x] + b)[1..] == b;
    } else if a != [] {
      assert ([x] + b)[1..] == b;
    }
  }

  /** Dropping the first element of a subsequence keeps it a subsequence. */
  lemma {:induction false} SubsequenceDropHead(a: seq<OssObject>, b: seq<OssObject>)
    requires a != [] && IsSubsequence(a, b)
    ensures IsSubsequence(a[1..], b)
    decreases |b|, 0
  {
    if a[0] == b[0] {
      SubsequenceCons(a[1..], b[1..], b[0]);
      assert [b[0]] + b[1..] == b;
    } else {
      SubsequenceDropHead(a, b[1..]);
      SubsequenceCons(a[1..], b[1..], b[0]);
      assert [b[0]] + b[1..] == b;
    }
  }

  /** The filtered view keeps the order of the view and adds nothing. */
  lemma {:induction false} FilteredIsSubsequence(files: seq<OssObject>, query: string)
    ensures IsSubsequence(FilteredFiles(files, query), files)
    decreases |files|
  {
    if files != [] {
      var rest := FilteredFiles(files[1..], query);
      FilteredIsSubsequence(files[1..], query);
      if Matches(files[0].name, query) {
        assert ([files[0]] + rest)[1..] == rest;
      } else {
        assert FilteredFiles(files, query) == rest;
        SubsequenceCons(rest, files[1..], files[0]);
        assert [files[0]] + files[1..] == files;
      }
    }
  }

  /** An entry is shown exactly when it is in the view and its name matches. */
  lemma {:induction false} FilteredFilesMembership(files: seq<OssObject>, query: string, f: OssObject)
    ensures f in FilteredFiles(files, query) <==> f in files && Matches(f.name, query)
    decreases |files|
  {
    if files != [] {
      FilteredFilesMembership(files[1..], query, f);
      assert files == [files[0]] + files[1..];
    }
  }

  /** An empty search box shows the whole view. */
  lemma {:induction false} FilterEmptyQueryKeepsAll(files: seq<OssObject>)
    ensures FilteredFiles(files, "") == files
    decreases |files|
  {
    if files != [] {
      IncludesEmpty(ToLowerCase(files[0].name));
      assert ToLowerCase("") == "";
      FilterEmptyQueryKeepsAll(files[1..]);
      assert files == [files[0]] + files[1..];
    }
  }

  /** Letter case plays no part in matching. */
  lemma MatchesIgnoresCase(name: string, query: string)
    ensures Matches(name, query) <==> Matches(ToLowerCase(name), ToLowerCase(query))
  {
    LowerCaseIdempotent(name);
    LowerCaseIdempotent(query);
  }

  lemma LowerCaseIdempotent(s: string)
    ensures ToLowerCase(ToLowerCase(s)) == ToLowerCase(s)
  {
    var once := ToLowerCase(s);
    forall i | 0 <= i < |s|
      ensures ToLowerCase(once)[i] == once[i]
    {
      assert !('A' <= once[i] <= 'Z');
    }
  }

  // ---------------------------------------------------------------------
  // Entry keys, as written
  // ---------------------------------------------------------------------

  /** The key the page forms for the entry `name` (reader, download,
      delete): `currentPath + name`. */
  function EntryKey(currentPath: string, name: string): (r: string)
    ensures StartsWith(r, currentPath) && r[|currentPath|..] == name
  {
    var r := currentPath + name;
    assert r[..|currentPath|] == currentPath;
    r
  }


  /** At the top level (`currentPath` empty) with a non-empty root path, the
      view lists the root path's contents, but `EntryKey` leaves the root
      path out: the listed object `data/a.txt` is shown as `a.txt` and
      addressed as `a.txt`. */
  lemma TopLevelKeyDropsRootPath(url: string, time: string)
    ensures var obj := ListedObject("data/a.txt", url, time, 1);
      var path := EffectivePath("", "data/");
      && path == "data/"
      && FileEntry(obj, path).name == "a.txt"
      && EntryKey("", FileEntry(obj, path).name) == "a.txt"
      && EntryKey("", FileEntry(obj, path).name) != obj.name
  {
    var obj := ListedObject("data/a.txt", url, time, 1);
    FileEntryKey(obj, "data/");
    assert "data/" + "a.txt" == "data/a.txt";
  }

  // ---------------------------------------------------------------------
  // Entry keys counted from the listed path: the correction of
  // `EntryKey`/`ChildFolder`, which the page handlers below do not
  // use (they keep the keys as written)
  // ---------------------------------------------------------------------

  /** The key of an entry counted from the path actually listed
      (`currentPath || rootPath`), as `fetchFiles` and `createFolder` count
      it. */
  function ListedKey(currentPath: string, rootPath: string, name: string): (r: string)
    ensures StartsWith(r, EffectivePath(currentPath, rootPath))
    ensures r[|EffectivePath(currentPath, rootPath)|..] == name
  {
    var path := EffectivePath(currentPath, rootPath);
    var r := path + name;
    assert r[..|path|] == path;
    r
  }

  /** The folder opened from a folder entry, counted from the listed path. */
  function ListedFolderTarget(currentPath: string, rootPath: string, folderName: string): (r: string)
    ensures IsFolder(r) && StartsWith(r, EffectivePath(currentPath, rootPath))
  {
    var path := EffectivePath(currentPath, rootPath);
    var r := path + folderName + "/";
    assert r[..|path|] == path;
    r
  }

  /** The listed key gives back the key of the object behind every file
      entry, at the top level too. */
  lemma ListedKeyIsObjectKey(currentPath: string, rootPath: string, obj: ListedObject)
    requires StartsWith(obj.name, EffectivePath(currentPath, rootPath))
    ensures ListedKey(currentPath, rootPath, FileEntry(obj, EffectivePath(currentPath, rootPath)).name) == obj.name
  {
    FileEntryKey(obj, EffectivePath(currentPath, rootPath));
  }

  /** The listed folder target is the common prefix behind the folder entry,
      so the next listing shows that folder's contents. */
  lemma ListedFolderTargetIsPrefix(currentPath: string, rootPath: string, prefix: string)
    requires StartsWith(prefix, EffectivePath(currentPath, rootPath)) && EndsWith(prefix, "/")
    requires |FolderName(prefix, EffectivePath(currentPath, rootPath))| > 0
    ensures ListedFolderTarget(currentPath, rootPath, FolderName(prefix, EffectivePath(currentPath, rootPath))) == prefix
  {
    FolderEntryKey(prefix, EffectivePath(currentPath, rootPath));
  }

  /** Below the top level, or without a root path, the two ways of counting
      agree. */
  lemma EntryKeyIsListedKey(currentPath: string, rootPath: string, name: string)
    requires currentPath != "" || rootPath == ""
    ensures EntryKey(currentPath, name) == ListedKey(currentPath, rootPath, name)
    ensures ChildFolder(currentPath, name) == ListedFolderTarget(currentPath, rootPath, name)
  {
  }

  /** Opening a folder and then pressing back returns to the folder the page
      was at. */
  lemma FolderClickThenBack(currentPath: string, folderName: string)
    requires currentPath == "" || EndsWith(currentPath, "/")
    requires folderName != "" && '/' !in folderName
    ensures GetParentPath(ChildFolder(currentPath, folderName)) == currentPath
  {
    ParentOfFolderChild(currentPath, folderName);
  }

  // ---------------------------------------------------------------------
  // Entry actions
  // ---------------------------------------------------------------------

  /** Where clicking the file entry `fileName` leads: the reader for a
      `.txt` name, otherwise a notice and no navigation. */
  function FileClick(currentPath: string, fileName: string): (r: (Route, Toast))
    ensures r.0.ReaderPage? <==> EndsWith(fileName, ".txt")
    ensures r.0.ReaderPage? ==> r.0.key == EntryKey(currentPath, fileName) && r.1 == NoToast
    ensures !r.0.ReaderPage? ==> r.0 == Stay && r.1 == Info(ReaderOnlyTxtMessage)
  {
    if EndsWith(fileName, ".txt") then (ReaderPage(EntryKey(currentPath, fileName)), NoToast)
    else (Stay, Info(ReaderOnlyTxtMessage))
  }

  datatype SwipeAction = DownloadAction | DeleteAction

  /** The swipe actions of an entry: download for files only, then delete. */
  function TrailingActions(isFolder: bool): (r: seq<SwipeAction>)
    ensures DownloadAction in r <==> !isFolder
    ensures DeleteAction in r && r[|r| - 1] == DeleteAction
  {
    if isFolder then [DeleteAction] else [DownloadAction, DeleteAction]
  }

  // ---------------------------------------------------------------------
  // Handlers
  // ---------------------------------------------------------------------

  /** The mount/update effect: without a configuration the page sends the
      user to the settings; otherwise it lists the current folder. */
  method Enter(store: FileState, config: Option<OssConfig>, response: Result<ListResult, string>)
    returns (route: Route)
    modifies store`files, store`isLoading, store`error
    ensures config.None? ==>
      && route == SettingsPage && store.files == old(store.files)
      && store.error == old(store.error) && store.isLoading == old(store.isLoading)
    ensures config.Some? ==> route == Stay && !store.isLoading
    ensures config.Some? && response.Success? ==>
      && store.files == Projection(response.value, EffectivePath(store.currentPath, RootPathOf(config.value)))
      && store.error == None
    ensures config.Some? && response.Failure? ==>
      && store.files == old(store.files)
      && store.error == Some(if response.error != "" then response.error else FetchFailedMessage)
  {
    if config.None? {
      return SettingsPage;
    }
    route := Stay;
    store.FetchFiles(config, response);
  }

  /** `handleFolderClick(folderName)` */
  method HandleFolderClick(store: FileState, folderName: string)
    modifies store`currentPath, store`selectedFiles
    ensures store.currentPath == ChildFolder(old(store.currentPath), folderName)
    ensures store.selectedFiles == []
  {
    store.SetCurrentPath(ChildFolder(store.currentPath, folderName));
  }

  /** `handleBack()` */
  method HandleBack(store: FileState)
    modifies store`currentPath, store`selectedFiles
    ensures store.currentPath == GetParentPath(old(store.currentPath))
    ensures store.selectedFiles == []
  {
    store.SetCurrentPath(GetParentPath(store.currentPath));
  }

  /** `handleDownload(fileName)`: fetch the entry's key and hand back the
      record to keep offline (key, name and content). */
  method HandleDownload(currentPath: string, fileName: string, config: Option<OssConfig>, bucket: Bucket)
    returns (toast: Toast, saved: Option<(string, string, Content)>)
    ensures config.None? ==> toast == NoToast && saved.None?
    ensures config.Some? ==>
      var key := EntryKey(currentPath, fileName);
      && (key in bucket.objects ==>
            saved == Some((key, fileName, bucket.objects[key])) && toast == SuccessToast(DownloadedMessage))
      && (key !in bucket.objects ==>
            saved.None? && toast == ErrorToast(DownloadFailedPrefix + NoSuchKeyMessage))
  {
    if config.None? {
      return NoToast, None;
    }
    var key := EntryKey(currentPath, fileName);
    var content := bucket.Get(key);
    if content.Some? {
      toast, saved := SuccessToast(DownloadedMessage), Some((key, fileName, content.value));
    } else {
      toast, saved := ErrorToast(DownloadFailedPrefix + NoSuchKeyMessage), None;
    }
  }

  /** `handleDelete(fileName)`: after the user confirms, soft-delete the one
      entry key. The store swallows a failed copy into its `error`, so the
      success notice is shown either way. */
  method HandleDelete(store: FileState, fileName: string, confirmed: bool, config: Option<OssConfig>, bucket: Bucket)
    returns (toast: Toast)
    modifies store`isLoading, store`selectedFiles, store`error, bucket
    ensures !confirmed || config.None? ==>
      && bucket.objects == old(bucket.objects) && store.selectedFiles == old(store.selectedFiles)
      && store.error == old(store.error) && store.isLoading == old(store.isLoading)
    ensures !confirmed ==> toast == NoToast
    ensures confirmed ==> toast == SuccessToast(DeletedMessage)
    ensures confirmed && config.Some? ==> !store.isLoading
    ensures confirmed && config.Some? ==>
      var root, recycle := RootPathOf(config.value), RecyclePathOf(config.value);
      var key := EntryKey(store.currentPath, fileName);
      && (key in old(bucket.objects) ==>
            && bucket.objects == SoftDeleteAll(old(bucket.objects), [key], root, recycle)
            && store.selectedFiles == [] && store.error == old(store.error))
      && (key !in old(bucket.objects) ==>
            && bucket.objects == old(bucket.objects) && store.selectedFiles == old(store.selectedFiles)
            && store.error == Some(NoSuchKeyMessage))
  {
    if !confirmed {
      return NoToast;
    }
    var key := EntryKey(store.currentPath, fileName);
    ghost var start := bucket.objects;
    if config.Some? {
      assert [key][..0] == [];
      assert AllCopied(start, [key], RootPathOf(config.value), RecyclePathOf(config.value))
        <==> key in start;
    }
    store.DeleteFiles([key], config, bucket);
    if config.Some? && key !in start {
      var root, recycle := RootPathOf(config.value), RecyclePathOf(config.value);
      ghost var n :| FirstMissing(start, [key], root, recycle, n);
      assert n == 0 && [key][..0] == [];
    }
    toast := SuccessToast(DeletedMessage);
  }
}
