/** src/pages/RecycleBin.tsx: the trash browser. It lists one level of the
    trash subtree with the same projection as the file browser, walks up and
    down inside the trash root only, restores an entry to where soft-delete
    took it from (copy, then delete) and deletes an entry for good. */
module RecycleBin {
  import opened Wrappers
  import opened JsString
  import opened Oss
  import opened RemoteStore
  import opened ConfigStore
  import opened FileStore
  import opened Ui

  const RestoredMessage: string := "File restored"
  const RestoreFailedPrefix: string := "Restore failed: "
  const DeletedMessage: string := "Permanently deleted"

  /** `ossConfig?.recyclePath || 'trash/'`: the folder the page starts in
      and never leaves. */
  function TrashRoot(config: Option<OssConfig>): (r: string)
    ensures r != ""
    ensures config.Some? ==> r == RecyclePathOf(config.value)
    ensures config.None? ==> r == DefaultRecyclePath
  {
    if config.Some? then RecyclePathOf(config.value) else DefaultRecyclePath
  }

  // ---------------------------------------------------------------------
  // Restore destination
  // ---------------------------------------------------------------------

  /** Where `onRestore` copies the trash key `fileKey` (shown as `name`): the
      trash root swapped for the root (first occurrence), or, for a key
      outside the trash, the name below the root; then the first doubled
      slash collapsed. */
  function RestoreDestination(fileKey: string, name: string, rootPath: string, recyclePath: string): string
  {
    var moved :=
      if StartsWith(fileKey, recyclePath) then ReplaceFirst(fileKey, recyclePath, rootPath)
      else rootPath + name;
    CollapseFirstDoubleSlash(moved)
  }

  /** A key under the trash root keeps its path below the trash root, now
      below the root (the root passes through `replace`'s `$` patterns; one
      without `$` goes in as it is); any other key is restored by its name
      alone. */
  lemma RestoreDestinationSpec(fileKey: string, name: string, rootPath: string, recyclePath: string)
    ensures StartsWith(fileKey, recyclePath) ==>
      RestoreDestination(fileKey, name, rootPath, recyclePath)
        == CollapseFirstDoubleSlash(Substitute(rootPath, recyclePath, "", fileKey[|recyclePath|..]) + fileKey[|recyclePath|..])
    ensures StartsWith(fileKey, recyclePath) && '$' !in rootPath ==>
      RestoreDestination(fileKey, name, rootPath, recyclePath) == CollapseFirstDoubleSlash(rootPath + fileKey[|recyclePath|..])
    ensures !StartsWith(fileKey, recyclePath) ==>
      RestoreDestination(fileKey, name, rootPath, recyclePath) == CollapseFirstDoubleSlash(rootPath + name)
  {
    if StartsWith(fileKey, recyclePath) {
      ReplaceFirstAtStart(fileKey, recyclePath, rootPath);
    }
  }

  /** Soft-deleting a key under the root and restoring the trash key it went
      to gives back the original key, provided no doubled slash is around
      for the collapse step to touch and neither path holds a `$` for
      `replace` to expand. */
  lemma SoftDeleteThenRestore(key: string, name: string, rootPath: string, recyclePath: string)
    requires rootPath == "" || StartsWith(key, rootPath)
    requires '$' !in rootPath && '$' !in recyclePath
    requires !Includes(key, "//")
    requires !Includes(recyclePath + key[|rootPath|..], "//")
    ensures SoftDeleteDestination(key, rootPath, recyclePath) == recyclePath + key[|rootPath|..]
    ensures RestoreDestination(SoftDeleteDestination(key, rootPath, recyclePath), name, rootPath, recyclePath) == key
  {
    var rest := key[|rootPath|..];
    SoftDeleteDestinationSpec(key, rootPath, recyclePath);
    if rootPath == "" {
      assert rest == key;
    }
    CollapseWithoutDoubleSlash(recyclePath + rest);
    var trashed := recyclePath + rest;
    assert StartsWith(trashed, recyclePath);
    RestoreDestinationSpec(trashed, name, rootPath, recyclePath);
    assert trashed[|recyclePath|..] == rest;
    assert rootPath + rest == key;
    CollapseWithoutDoubleSlash(key);
  }

  /** A trash key outside the trash root is put back directly below the
      root under its name. */
  lemma RestoreOutsideTrash(fileKey: string, name: string, rootPath: string, recyclePath: string)
    requires !StartsWith(fileKey, recyclePath)
    requires !Includes(rootPath + name, "//")
    ensures RestoreDestination(fileKey, name, rootPath, recyclePath) == rootPath + name
  {
    RestoreDestinationSpec(fileKey, name, rootPath, recyclePath);
    CollapseWithoutDoubleSlash(rootPath + name);
  }

  /** `data/sub/a.txt` goes to `trash/sub/a.txt` and comes back. */
  lemma RoundTripExample()
    ensures SoftDeleteDestination("data/sub/a.txt", "data/", "trash/") == "trash/sub/a.txt"
    ensures RestoreDestination("trash/sub/a.txt", "a.txt", "data/", "trash/") == "data/sub/a.txt"
  {
    RoundTripInstance("data/sub/a.txt", "data/", "trash/", "sub/a.txt", "trash/sub/a.txt");
  }

  /** The example's keys, as variables so that the string facts stay small. */
  lemma RoundTripInstance(key: string, rootPath: string, recyclePath: string, rest: string, moved: string)
    requires key == "data/sub/a.txt" && rootPath == "data/" && recyclePath == "trash/"
    requires rest == "sub/a.txt" && moved == "trash/sub/a.txt"
    ensures SoftDeleteDestination(key, rootPath, recyclePath) == moved
    ensures RestoreDestination(moved, "a.txt", rootPath, recyclePath) == key
  {
    assert recyclePath + rest == moved;
    assert StartsWith(key, rootPath) && key[|rootPath|..] == rest;
    NoDoubleSlash(key);
    NoDoubleSlash(recyclePath + rest);
    SoftDeleteThenRestore(key, "a.txt", rootPath, recyclePath);
  }

  // ---------------------------------------------------------------------
  // Navigation
  // ---------------------------------------------------------------------

  /** The folder `handleBack` moves to from `currentPath`, or `None` when it
      leaves the page for the settings (at the trash root): the parent,
      clamped to the trash root when the parent lies outside it. */
  function BackTarget(currentPath: string, root: string): (r: Option<string>)
    ensures r.None? <==> currentPath == root
    ensures root != "" && r.Some? ==> StartsWith(r.value, root)
  {
    if currentPath == root then None
    else
      var parent := GetParentPath(currentPath);
      if root != "" && !StartsWith(parent, root) && parent != root then Some(root)
      else Some(parent)
  }

  /** Inside the trash, going back moves to the parent folder unless that
      would leave the trash subtree. */
  lemma BackTargetIsParentInside(currentPath: string, root: string)
    requires currentPath != root && StartsWith(GetParentPath(currentPath), root)
    ensures BackTarget(currentPath, root) == Some(GetParentPath(currentPath))
  {
  }


  /** Opening a sub-folder of a trash folder and going back returns to that
      folder. */
  lemma FolderClickThenBack(currentPath: string, root: string, folderName: string)
    requires StartsWith(currentPath, root) && EndsWith(currentPath, "/")
    requires folderName != "" && '/' !in folderName
    ensures BackTarget(ChildFolder(currentPath, folderName), root) == Some(currentPath)
  {
    var next := ChildFolder(currentPath, folderName);
    assert |next| > |currentPath| >= |root|;
    ParentOfFolderChild(currentPath, folderName);
  }

  datatype Action = Restore | Delete

  // ---------------------------------------------------------------------
  // The page
  // ---------------------------------------------------------------------

  /** The page's state. */
  class RecycleBinPage {
    var currentPath: string
    var files: seq<OssObject>
    var isLoading: bool
    var error: Option<string>
    var confirmOpen: bool
    var actionType: Option<Action>
    var selectedFile: Option<OssObject>

    constructor ()
      ensures currentPath == "" && files == [] && !isLoading && error == None
      ensures !confirmOpen && actionType == None && selectedFile == None
    {
      currentPath := "";
      files := [];
      isLoading := false;
      error := None;
      confirmOpen := false;
      actionType := None;
      selectedFile := None;
    }

    /** The mount/update effect: without a configuration the page sends the
        user to the settings; on first run it moves to the trash root (the
        listing then follows as `FetchFiles` of the new path). */
    method Enter(config: Option<OssConfig>) returns (route: Route)
      modifies this`currentPath
      ensures config.None? ==> route == SettingsPage && currentPath == old(currentPath)
      ensures config.Some? ==> route == Stay
      ensures config.Some? && old(currentPath) == "" ==> currentPath == TrashRoot(config)
      ensures config.Some? && old(currentPath) != "" ==> currentPath == old(currentPath)
      ensures config.Some? ==> currentPath != ""
    {
      if config.None? {
        return SettingsPage;
      }
      route := Stay;
      if currentPath == "" {
        currentPath := TrashRoot(config);
      }
    }

    /** `fetchFiles(path)`: `response` is the bucket's answer to the listing
        of `path`; a failure carries the error's message. */
    method FetchFiles(config: Option<OssConfig>, path: string, response: Result<ListResult, string>)
      modifies this`files, this`isLoading, this`error
      ensures config.None? ==> files == old(files) && isLoading == old(isLoading) && error == old(error)
      ensures config.Some? ==> !isLoading
      ensures config.Some? && response.Success? ==>
        files == Projection(response.value, path) && error == None
      ensures config.Some? && response.Failure? ==>
        files == old(files) && error == Some(response.error)
    {
      if config.None? {
        return;
      }
      isLoading, error := true, None;
      if response.Success? {
        files := BuildListing(response.value, path);
      } else {
        error := Some(response.error);
      }
      isLoading := false;
    }

    /** `handleBack()` */
    method HandleBack(config: Option<OssConfig>) returns (route: Route)
      modifies this`currentPath
      ensures var target := BackTarget(old(currentPath), TrashRoot(config));
        && (target.None? ==> route == SettingsPage && currentPath == old(currentPath))
        && (target.Some? ==> route == Stay && currentPath == target.value)
      ensures route == Stay ==> StartsWith(currentPath, TrashRoot(config))
    {
      var root := TrashRoot(config);
      var target := BackTarget(currentPath, root);
      if target.None? {
        return SettingsPage;
      }
      route := Stay;
      currentPath := target.value;
    }

    /** `handleFolderClick(folderName)` */
    method HandleFolderClick(folderName: string)
      modifies this`currentPath
      ensures currentPath == ChildFolder(old(currentPath), folderName)
      ensures forall root :: StartsWith(old(currentPath), root) ==> StartsWith(currentPath, root)
    {
      currentPath := ChildFolder(currentPath, folderName);
    }

    /** A swipe action: remember the entry and the action, open the dialog. */
    method ChooseAction(file: OssObject, action: Action)
      modifies this`selectedFile, this`actionType, this`confirmOpen
      ensures selectedFile == Some(file) && actionType == Some(action) && confirmOpen
    {
      selectedFile, actionType, confirmOpen := Some(file), Some(action), true;
    }

    /** `onRestore()`: copy the entry's key (`currentPath + name`) to its
        restore destination, then delete it. A failed copy leaves the bucket
        as it was and reports the error. The refreshing listing that follows
        a success is a separate `FetchFiles`. */
    method OnRestore(config: Option<OssConfig>, bucket: Bucket) returns (toast: Toast)
      modifies this`isLoading, this`confirmOpen, bucket
      ensures selectedFile.None? || config.None? ==>
        && toast == NoToast && bucket.objects == old(bucket.objects)
        && isLoading == old(isLoading) && confirmOpen == old(confirmOpen)
      ensures selectedFile.Some? && config.Some? ==>
        var fileKey := currentPath + selectedFile.value.name;
        var dest := RestoreDestination(fileKey, selectedFile.value.name,
          RootPathOf(config.value), RecyclePathOf(config.value));
        && bucket.objects == CopyThenDelete(old(bucket.objects), dest, fileKey)
        && !confirmOpen
        && (fileKey in old(bucket.objects) ==> toast == SuccessToast(RestoredMessage) && isLoading)
        && (fileKey !in old(bucket.objects) ==>
              toast == ErrorToast(RestoreFailedPrefix + NoSuchKeyMessage) && !isLoading)
    {
      if selectedFile.None? || config.None? {
        return NoToast;
      }
      var name := selectedFile.value.name;
      var fileKey := currentPath + name;
      var dest := RestoreDestination(fileKey, name, RootPathOf(config.value), RecyclePathOf(config.value));
      isLoading := true;
      var copied := bucket.Copy(dest, fileKey);
      if copied {
        bucket.Delete(fileKey);
        toast := SuccessToast(RestoredMessage);
      } else {
        toast := ErrorToast(RestoreFailedPrefix + NoSuchKeyMessage);
        isLoading := false;
      }
      confirmOpen := false;
    }

    /** `onDelete()`: a single delete of the entry's key; nothing is copied. */
    method OnDelete(config: Option<OssConfig>, bucket: Bucket) returns (toast: Toast)
      modifies this`isLoading, this`confirmOpen, bucket
      ensures selectedFile.None? || config.None? ==>
        && toast == NoToast && bucket.objects == old(bucket.objects)
        && isLoading == old(isLoading) && confirmOpen == old(confirmOpen)
      ensures selectedFile.Some? && config.Some? ==>
        && bucket.objects == old(bucket.objects) - {currentPath + selectedFile.value.name}
        && toast == SuccessToast(DeletedMessage) && isLoading && !confirmOpen
    {
      if selectedFile.None? || config.None? {
        return NoToast;
      }
      isLoading := true;
      bucket.Delete(currentPath + selectedFile.value.name);
      toast := SuccessToast(DeletedMessage);
      confirmOpen := false;
    }
  }
}
