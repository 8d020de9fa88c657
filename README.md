# ali-oss-fms-plus: folders over a flat bucket, in Dafny

The file manager shows an Aliyun OSS bucket as a tree of folders, although the
bucket itself is a flat map from keys to contents. Folders are a naming
convention (a key ending in `/`), a folder view is one delimited listing of a
prefix turned into folder and file entries, and every mutation that looks like
a move (rename, move, soft-delete to the recycle bin, restore) is carried out
as `copy` followed by `delete`.

This project models that layer:

- `Wrappers`, `Ui`: option/result values, and the route and notice a page
  hands back to the browser shell.
- `JsString`: the JavaScript string operations the code is built from, with
  JavaScript's semantics. `replace` with a string pattern replaces only the
  first occurrence, an empty pattern matches at index 0, and the
  replacement's `$$`, `$&`, `` $` `` and `$'` patterns are expanded.
  `replace(/\/$/, '')` drops one trailing slash. `split`/`join` work on one
  separator character. `toLowerCase` changes ASCII letters only.
- `Oss` (`src/utils/oss.ts`): the folder entry record, `isFolder` and
  `getParentPath`.
- `RemoteStore`: the bucket as a class over a `map<string, seq<int>>` with
  `copy`, `delete`, `put` and `get`, and the shape of one listing response.
  `CopyThenDelete` gives the bucket after a copy followed by a delete.
- `ConfigStore` (`src/store/configStore.ts`): the saved configuration and
  the `rootPath || ''` and `recyclePath || 'trash/'` defaults.
- `FileStore` (`src/store/fileStore.ts`): the listing projection, written
  as two loops proved against `FolderEntries`/`FileEntries`. It also holds the
  planners for soft-delete, folder creation, rename and move keys, the
  selection list, and the store class whose methods change the bucket.
- `RecycleBin` (`src/pages/RecycleBin.tsx`): the restore destination, the
  soft-delete/restore round trip, back navigation clamped to the trash root,
  and the page class with restore and permanent delete.
- `FileManager` (`src/pages/FileManager.tsx`): the name filter, the `.txt`
  gate, the swipe actions, folder navigation and the download/delete
  handlers.
- `OssConfigPage` (`src/pages/OSSConfig.tsx`): the settings form, the
  required-field guard, the CORS classification of a failed test and the
  save state machine.

Network answers are parameters of the methods that would await them: a
listing response, the outcome of the test listing, and the bucket object.
A `copy` whose source key is missing, and a `get` of a missing key, fail
with the SDK's not-found message and change nothing. Those are the
failures of bucket calls the model follows through.

Three behaviours of the code are stated as lemmas or contracts, not hidden:

- Renaming a file to its own name copies it onto itself and then deletes it.
- A trash root equal to the root path makes soft-delete destroy the object.
- The file manager shows the notice "File deleted" even when the store
  reported a failed copy.

## Model

| member | source | states |
|---|---|---|
| `Oss.IsFolder` | src/utils/oss.ts:38-40 | a name is a folder exactly when it is non-empty and its last character is `/` |
| `Oss.ParentOfRoot` | src/utils/oss.ts:46 | the empty path and `/` both have the empty parent |
| `Oss.ParentPathIsFolderPath` | src/utils/oss.ts:45-50 | every parent path is empty or ends in `/` |
| `Oss.ParentPathIsShorterPrefix` | src/utils/oss.ts:45-50 | the parent is a prefix of the path and strictly shorter than any non-empty path |
| `Oss.AncestorReachesRoot` | src/utils/oss.ts:45-50 | walking up at least as many times as the path has characters from any path reaches the root |
| `Oss.ParentOfFolderChild` | src/utils/oss.ts:45-50 | the parent of `p + name + "/"` is `p` for a folder path `p` and a one-segment name |
| `Oss.ParentOfFileChild` | src/utils/oss.ts:45-50 | the parent of the file key `p + name` is `p` |
| `Oss.ParentPathExamples` | src/utils/oss.ts:45-50 | `a/b/` → `a/`, `a/` → the empty path, `a/b` → `a/`, `/a/` → `/` |
| `JsString.IndexOfFromSpec` | src/store/fileStore.ts:116 | `indexOf` from a position finds the first occurrence at or after it, and fails only when there is none |
| `JsString.SubstituteLiteral` | src/store/fileStore.ts:150 | a replacement string without `$` is inserted as it is |
| `JsString.SubstituteEscapedDollar` | src/store/fileStore.ts:150 | a replacement `$$name`, with no further `$`, inserts `$name` |
| `JsString.ReplaceFirstSpec` | src/store/fileStore.ts:116 | string `replace` rewrites only the first occurrence of the pattern, with the replacement's `$` patterns expanded, and leaves a string without one unchanged |
| `JsString.ReplaceFirstAtStart` | src/store/fileStore.ts:149-150 | a pattern the string starts with is replaced at the front only; a replacement without `$` goes in literally |
| `JsString.RemoveTrailingSlashSpec` | src/store/fileStore.ts:96 | dropping the trailing slash leaves a prefix, and putting the slash back restores the string |
| `JsString.JoinSplit` | src/utils/oss.ts:47-49 | joining the pieces of a split gives back the string |
| `JsString.SplitAround` | src/utils/oss.ts:47 | splitting at a separator splits the two sides independently |
| `JsString.ToLowerChar` | src/pages/FileManager.tsx:94 | an ASCII capital becomes the letter 32 code points later, its lower-case form; every other character is kept |
| `JsString.ToLowerCase` | src/pages/FileManager.tsx:94 | lower-casing keeps the length, maps each character by itself and leaves no ASCII capital |
| `RemoteStore.CopyThenDelete` | src/store/fileStore.ts:224-225 | after copy-then-delete with distinct keys the content sits at the destination, the source is gone and no other key changes; copying onto itself removes the object; a missing source changes nothing |
| `RemoteStore.MoveThereAndBack` | src/store/fileStore.ts:251-252 | moving an object to a free key and back leaves the bucket exactly as it was |
| `ConfigStore.OrElse` | src/store/fileStore.ts:137-138 | the JavaScript or-default keeps a present non-empty value and falls back otherwise |
| `ConfigStore.RecyclePathOf` | src/store/fileStore.ts:138 | the trash root is never empty and is `trash/` when none is configured |
| `ConfigStore.Store.constructor` | src/store/configStore.ts:42 | the store starts without a configuration |
| `ConfigStore.Store.SetOssConfig` | src/store/configStore.ts:44 | the configuration becomes the given one |
| `ConfigStore.Store.ClearConfig` | src/store/configStore.ts:58 | the configuration is removed |
| `FileStore.EffectivePath` | src/store/fileStore.ts:71-72 | the listed path is the current path, or the root path when the current path is empty |
| `FileStore.FolderEntriesShape` | src/store/fileStore.ts:93-107 | at most one folder entry per prefix; each is a folder of size 0 with a non-empty name |
| `FileStore.FileEntriesShape` | src/store/fileStore.ts:110-123 | at most one file entry per object; each is a file |
| `FileStore.ProjectionShape` | src/store/fileStore.ts:90-123 | the view has at most as many entries as prefixes and objects together and no folder after a file |
| `FileStore.CollectFolderEntries` | src/store/fileStore.ts:93-107 | the first push loop builds exactly `FolderEntries` of the prefixes |
| `FileStore.CollectFileEntries` | src/store/fileStore.ts:110-123 | the second push loop builds exactly `FileEntries` of the objects |
| `FileStore.BuildListing` | src/store/fileStore.ts:90-123 | the array `fetchFiles` builds is the projection: folder entries, then file entries |
| `FileStore.FolderEntriesSound` | src/store/fileStore.ts:94-105 | every folder entry comes from a prefix whose stripped name is non-empty |
| `FileStore.FolderEntriesComplete` | src/store/fileStore.ts:94-105 | every prefix whose stripped name is non-empty gives a folder entry |
| `FileStore.FolderEntriesMembership` | src/store/fileStore.ts:94-105 | an entry is a folder entry if and only if some prefix with a non-empty stripped name gives it |
| `FileStore.FileEntriesSound` | src/store/fileStore.ts:111-122 | every file entry comes from an object other than the folder marker |
| `FileStore.FileEntriesComplete` | src/store/fileStore.ts:111-122 | every object other than the folder marker gives a file entry |
| `FileStore.FileEntriesMembership` | src/store/fileStore.ts:111-122 | an entry is a file entry if and only if some object other than the folder marker gives it |
| `FileStore.FolderEntriesAppend` | src/store/fileStore.ts:94-105 | folder entries keep the order of the prefixes |
| `FileStore.FileEntriesAppend` | src/store/fileStore.ts:111-122 | file entries keep the order of the objects |
| `FileStore.FileEntryKey` | src/store/fileStore.ts:113-116 | the listed path followed by a file entry's name is the object's key, and the name is empty only for the folder marker |
| `FileStore.FolderEntryKey` | src/store/fileStore.ts:96 | the listed path, a folder entry's name and a slash spell the common prefix |
| `FileStore.ProjectionHasNoEntryForViewedPath` | src/store/fileStore.ts:97-113 | no entry of the view has an empty name when every listed key lies under the viewed path |
| `FileStore.ProjectionExample` | src/store/fileStore.ts:90-123 | the listing of `docs/` with `docs/a/`, `docs/b/` and `docs/readme.txt` shows `a`, `b`, `readme.txt` |
| `FileStore.CollapseWithoutDoubleSlash` | src/store/fileStore.ts:175 | the slash collapse leaves a key without `//` as it is |
| `FileStore.SoftDeleteDestinationSpec` | src/store/fileStore.ts:146-175 | a key under the root goes to the trash root (after `$` expansion, literal without `$`) plus its path below the root; any other key goes below the trash root whole; then the first `//` collapses |
| `FileStore.DoubledDollarTrashRoot` | src/store/fileStore.ts:149-150 | with trash root `$$name`, a key under the root goes to `$name` plus its path below the root |
| `FileStore.DollarTrashRootMissesTrash` | src/store/fileStore.ts:149-175 | with a trash root `$$name/` (such as `$$t/`), every key under the root lands on a key starting `$name`, never below the trash root |
| `FileStore.CollapseKeepsSlashFreeStart` | src/store/fileStore.ts:175 | collapsing the first `//` keeps a leading run without `/` in place |
| `FileStore.SoftDeleteOntoItselfLosesObject` | src/store/fileStore.ts:146-180 | with the trash root equal to the root, a soft-deleted key is copied onto itself and then removed |
| `FileStore.SoftDeleteOneKey` | src/store/fileStore.ts:178-180 | soft-deleting one present key moves its content to its trash key and changes no other key |
| `FileStore.AllCopiedExtend` | src/store/fileStore.ts:144-181 | a run whose earlier copies all succeeded and whose next key is still present has copied every key so far |
| `FileStore.FolderNameBelow` | src/store/fileStore.ts:96 | the display name of the prefix `path + rest` is `rest` without its trailing slash |
| `FileStore.FolderMarkerKeyIsChild` | src/store/fileStore.ts:201 | the marker written by `createFolder` is a folder key, its parent is the folder it was made in, and listing that folder shows it under the chosen name |
| `FileStore.RenameTargetInFolder` | src/store/fileStore.ts:216-219 | renaming `dir/base` gives `dir/newName` |
| `FileStore.RenameTargetAtTop` | src/store/fileStore.ts:216-219 | renaming a key without `/` gives the new name alone |
| `FileStore.RenameToOwnNameLosesObject` | src/store/fileStore.ts:216-225 | renaming a file to its own name copies it onto itself and deletes it |
| `FileStore.MoveTarget` | src/store/fileStore.ts:240-246 | a move target differs from the source and is the destination followed by one non-empty segment without `/` |
| `FileStore.MoveTargetOfFolderKey` | src/store/fileStore.ts:240-241 | a key ending in `/` is never moved |
| `FileStore.MoveTargetOfFile` | src/store/fileStore.ts:240-246 | a file moves to `destination + name`, and a move into its own folder does nothing |
| `FileStore.Without` | src/store/fileStore.ts:53 | the filtered selection holds exactly the other keys |
| `FileStore.Toggled` | src/store/fileStore.ts:50-57 | toggling flips the key's membership and keeps every other key's |
| `FileStore.WithoutKeepsNoDuplicates` | src/store/fileStore.ts:53 | filtering a duplicate-free selection keeps it duplicate-free |
| `FileStore.ToggleKeepsNoDuplicates` | src/store/fileStore.ts:50-57 | toggling never puts a key in the selection twice |
| `FileStore.WithoutAbsent` | src/store/fileStore.ts:53 | filtering out an absent key changes nothing |
| `FileStore.WithoutAppended` | src/store/fileStore.ts:53-55 | filtering out a just-appended key removes exactly that append |
| `FileStore.ToggleTwiceRestores` | src/store/fileStore.ts:50-57 | toggling an absent key twice restores the selection exactly |
| `FileStore.FileState.constructor` | src/store/fileStore.ts:26-32 | the store starts at the top level with nothing listed, selected or searched |
| `FileStore.FileState.SetCurrentPath` | src/store/fileStore.ts:34-37 | changing folder sets the path and clears the selection |
| `FileStore.FileState.SetSearchQuery` | src/store/fileStore.ts:39-48 | the query is stored and nothing else changes |
| `FileStore.FileState.ToggleSelection` | src/store/fileStore.ts:50-57 | the selection becomes `Toggled` of the old one |
| `FileStore.FileState.ClearSelection` | src/store/fileStore.ts:59 | the selection becomes empty |
| `FileStore.FileState.FetchFiles` | src/store/fileStore.ts:61-131 | no configuration: error `OSS configuration missing`, files untouched; success: files are the projection of the effective path; failure: the error's message or `Failed to fetch files` |
| `FileStore.FileState.DeleteFiles` | src/store/fileStore.ts:133-189 | keys are moved to the trash in order; a full run gives `SoftDeleteAll` and clears the selection; a failed copy stops at the first missing key with the earlier moves kept, the selection kept and the error set |
| `FileStore.FileState.CreateFolder` | src/store/fileStore.ts:191-207 | an empty marker object is written at the effective path plus the name plus `/` |
| `FileStore.FileState.RenameFile` | src/store/fileStore.ts:209-232 | the bucket becomes copy-then-delete to the rename target; a missing source is reported and rethrown |
| `FileStore.FileState.MoveFile` | src/store/fileStore.ts:234-259 | nothing happens without a move target; otherwise copy-then-delete to it, with a missing source reported and rethrown |
| `RecycleBin.TrashRoot` | src/pages/RecycleBin.tsx:32 | the trash root is the configured trash path, or `trash/`, and never empty |
| `RecycleBin.RestoreDestinationSpec` | src/pages/RecycleBin.tsx:119-128 | a key under the trash root is restored to the root (after `$` expansion, literal without `$`) plus its path below the trash root; any other to the root plus its name; then the first `//` collapses |
| `RecycleBin.SoftDeleteThenRestore` | src/pages/RecycleBin.tsx:113-128 | soft-deleting a key under the root and restoring its trash key gives back the key, when neither key nor trash key holds `//` and neither path holds `$` |
| `RecycleBin.RestoreOutsideTrash` | src/pages/RecycleBin.tsx:122-125 | a key outside the trash root is restored directly below the root under its name |
| `RecycleBin.RoundTripExample` | src/pages/RecycleBin.tsx:113-117 | `data/sub/a.txt` goes to `trash/sub/a.txt` and is restored to `data/sub/a.txt` |
| `RecycleBin.BackTarget` | src/pages/RecycleBin.tsx:88-100 | back exits the page exactly at the trash root; otherwise the new folder lies inside the trash root |
| `RecycleBin.BackTargetIsParentInside` | src/pages/RecycleBin.tsx:94-99 | back goes to the parent whenever the parent is inside the trash root |
| `RecycleBin.FolderClickThenBack` | src/pages/RecycleBin.tsx:88-104 | opening a sub-folder of a trash folder and going back returns to that folder |
| `RecycleBin.RecycleBinPage.constructor` | src/pages/RecycleBin.tsx:18-25 | the page starts with no path, no entries, no dialog and no selection |
| `RecycleBin.RecycleBinPage.Enter` | src/pages/RecycleBin.tsx:27-38 | without a configuration the page goes to the settings; on first run it moves to the trash root |
| `RecycleBin.RecycleBinPage.FetchFiles` | src/pages/RecycleBin.tsx:40-86 | success: the entries are the projection of the listed path; failure: the error's message is kept; loading ends either way |
| `RecycleBin.RecycleBinPage.HandleBack` | src/pages/RecycleBin.tsx:88-100 | the path becomes `BackTarget`, or the page goes to the settings; a path it stays at lies inside the trash root |
| `RecycleBin.RecycleBinPage.HandleFolderClick` | src/pages/RecycleBin.tsx:102-104 | the path moves one folder down and stays inside any root it was inside |
| `RecycleBin.RecycleBinPage.ChooseAction` | src/pages/RecycleBin.tsx:166-180 | the entry and the action are remembered and the dialog opens |
| `RecycleBin.RecycleBinPage.OnRestore` | src/pages/RecycleBin.tsx:106-143 | the bucket becomes copy-then-delete from `currentPath + name` to its restore destination; the notice says whether the copy failed; the dialog closes |
| `RecycleBin.RecycleBinPage.OnDelete` | src/pages/RecycleBin.tsx:145-161 | exactly the key `currentPath + name` is removed, with one delete and no copy; the dialog closes |
| `FileManager.FilteredIsSubsequence` | src/pages/FileManager.tsx:93-95 | the filtered view is a subsequence of the view |
| `FileManager.FilteredFilesMembership` | src/pages/FileManager.tsx:93-95 | an entry is shown if and only if it is in the view and its lower-cased name contains the lower-cased query |
| `FileManager.FilterEmptyQueryKeepsAll` | src/pages/FileManager.tsx:93-95 | an empty query shows every entry, in order |
| `FileManager.MatchesIgnoresCase` | src/pages/FileManager.tsx:94 | matching gives the same answer on lower-cased name and query |
| `FileManager.EntryKey` | src/pages/FileManager.tsx:60 | the page's key for an entry is the current path followed by the entry's name |
| `Oss.ChildFolder` | src/pages/FileManager.tsx:39-41 | the folder a page opens for a folder entry is a folder path below the current path (the recycle bin uses the same rule at src/pages/RecycleBin.tsx:102-104) |
| `FileManager.TopLevelKeyDropsRootPath` | src/pages/FileManager.tsx:60 | at the top level with root path `data/`, the object `data/a.txt` is addressed as `a.txt` |
| `FileManager.ListedKey` | src/pages/FileManager.tsx:60-88 | an entry's key counted from the listed path lies below that path and ends in the entry's name |
| `FileManager.ListedFolderTarget` | src/pages/FileManager.tsx:39-41 | the folder target counted from the listed path is a folder below that path |
| `FileManager.ListedKeyIsObjectKey` | src/pages/FileManager.tsx:60 | the listed key of every file entry is the key of the object behind it |
| `FileManager.ListedFolderTargetIsPrefix` | src/pages/FileManager.tsx:39-41 | the listed folder target of every folder entry is the common prefix behind it |
| `FileManager.EntryKeyIsListedKey` | src/pages/FileManager.tsx:39-41 | below the top level, or without a root path, both ways of forming keys agree |
| `FileManager.FolderClickThenBack` | src/pages/FileManager.tsx:39-56 | opening a folder below the current path and pressing back returns to the current path |
| `FileManager.FileClick` | src/pages/FileManager.tsx:43-51 | only a `.txt` name opens the reader, at `currentPath + fileName`; any other name only shows the notice |
| `FileManager.TrailingActions` | src/pages/FileManager.tsx:97-115 | download is offered exactly for files; delete is offered for every entry, last |
| `FileManager.Enter` | src/pages/FileManager.tsx:31-37 | without a configuration the page goes to the settings and the store is untouched; otherwise loading ends, a successful listing makes the view the projection of the listed path with no error, and a failed one keeps the view and records the failure's message or the generic one |
| `FileManager.HandleFolderClick` | src/pages/FileManager.tsx:39-41 | the path becomes `currentPath + folderName + "/"` and the selection is cleared |
| `FileManager.HandleBack` | src/pages/FileManager.tsx:53-56 | the path becomes its parent and the selection is cleared |
| `FileManager.HandleDownload` | src/pages/FileManager.tsx:58-84 | the key is `currentPath + fileName`; a present key hands back its content under that key and name with a success notice; a missing one gives the failure notice |
| `FileManager.HandleDelete` | src/pages/FileManager.tsx:86-91 | without confirmation or without a configuration nothing in the bucket or the store changes; after confirmation loading ends and the one key `currentPath + fileName` is soft-deleted with the selection cleared and the error kept, while a missing key changes nothing in the bucket, keeps the selection and sets the store's error; the notice is `File deleted` whenever confirmed |
| `OssConfigPage.WithField` | src/pages/OSSConfig.tsx:42-45 | a change sets the named field and leaves every other field as it was |
| `OssConfigPage.WithFieldTwice` | src/pages/OSSConfig.tsx:42-45 | a later change to the same field overrides an earlier one |
| `OssConfigPage.FormFromConfig` | src/pages/OSSConfig.tsx:29-40 | loading copies the credentials and the paths, with a missing path shown as empty |
| `OssConfigPage.FormRoundTrip` | src/pages/OSSConfig.tsx:29-59 | saving a form and loading it back gives the same form |
| `OssConfigPage.ConfigRoundTrip` | src/pages/OSSConfig.tsx:29-59 | loading a configuration and saving it again keeps the credentials, the root path and the trash root |
| `OssConfigPage.PathsNotRequired` | src/pages/OSSConfig.tsx:48 | the required-field check does not look at the two paths |
| `OssConfigPage.HttpErrorIsNotCors` | src/pages/OSSConfig.tsx:64 | an error with another name, a real status and neither marker in its message is not a CORS failure |
| `OssConfigPage.CorsMessageIsCors` | src/pages/OSSConfig.tsx:64 | a message containing `CORS` anywhere marks a CORS failure |
| `OssConfigPage.FailureToast` | src/pages/OSSConfig.tsx:64-69 | a CORS failure shows the CORS notice; any other shows `Connection failed: ` and the message |
| `OssConfigPage.ConfigPage.constructor` | src/pages/OSSConfig.tsx:17-27 | the form starts empty, not loading, without the CORS help |
| `OssConfigPage.ConfigPage.LoadSaved` | src/pages/OSSConfig.tsx:29-40 | a saved configuration fills the form; without one the form is kept |
| `OssConfigPage.ConfigPage.HandleChange` | src/pages/OSSConfig.tsx:42-45 | the form becomes `WithField` of the old form |
| `OssConfigPage.ConfigPage.HandleSave` | src/pages/OSSConfig.tsx:47-73 | a missing credential refuses with nothing stored and no test listing; a passing test stores the form and goes to the settings; a failing test stores nothing and shows the CORS help exactly for a CORS failure; loading ends after any test |

## Left out

- The `ali-oss` SDK client: the bucket is a map, and only a copy from a
  missing source and a get of a missing key fail. Network, permission and
  signature failures of `list`, `get`, `put`, `copy` and `delete` are not
  modelled. This is why a
  failed permanent delete ("Delete failed: ...") does not appear.
- How the bucket computes a listing (`prefix`, `delimiter`, `max-keys` 100,
  pagination): a listing response is an input to `FetchFiles`.
- Asynchrony: each awaited call is one step. The refreshing `fetchFiles`
  after `setCurrentPath`, `deleteFiles`, `createFolder`, `renameFile`,
  `moveFile`, a restore and a permanent delete is a separate `FetchFiles`
  call. The `refresh` flag and its cache key in `fetchFiles` do nothing in the
  code and are not modelled.
- `FileManager.HandleDownload`: the offline store (localforage), the
  `content-length` header, the download time and the UTF-8 conversion are
  left out. The method hands back key, name and raw content.
- `toast.loading`/`toast.dismiss`, confirm dialogs (a `confirmed` flag
  stands in), skeletons, the CORS help dialog's text, and
  `encodeURIComponent` in the reader route.
- `src/pages/Reader.tsx`, `src/utils/format.ts`, `src/utils/crypto.ts`,
  `src/utils/storage.ts`, `src/pages/Downloads.tsx`, the theme, routing and
  bottom navigation are not part of this model. They are encoding detection,
  floating-point and locale formatting, encryption, and UI.
- The encrypted persistence of the configuration store; `Store` holds only
  the value.
- `toLowerCase` beyond ASCII letters: no Unicode case mapping.
- `initOSSClient` and its `secure` flag: the client is left out, and the
  configuration's region, bucket and keys are carried but never interpreted.
- RecycleBin.SoftDeleteThenRestore: proved only for root and trash paths
  without `$`, because `replace` expands `$` patterns in the configured path
  it inserts, and then the round trip need not hold
  (`FileStore.DollarTrashRootMissesTrash` shows every trash key landing
  outside a `$$name/` trash root).
- FileStore.SoftDeleteOntoItselfLosesObject: stated for a path without `$`,
  where the trash key is the key itself; with `$` in the path the copy lands
  elsewhere.
- An error whose `message` is undefined (`err.message` on a non-Error
  throw): messages are strings.

## Findings

| source | as written | input that shows it | evidently intended | confidence | as-written member | corrected member |
|---|---|---|---|---|---|---|
| src/pages/FileManager.tsx:40, 46, 60, 88 | keys and folder targets are `currentPath + name`, while the view at the top level lists `currentPath \|\| rootPath` | root path `data/`, current path empty, object `data/a.txt`: shown as `a.txt`, then read, downloaded and deleted as `a.txt` | count keys from the listed path, as `fetchFiles` and `createFolder` do (`effectivePath + name`) | high; not executed | `FileManager.TopLevelKeyDropsRootPath` | `FileManager.ListedKeyIsObjectKey` |

The page handlers in `FileManager` keep the keys as written (`EntryKey`,
`ChildFolder`). The corrected keys are `ListedKey` and
`ListedFolderTarget`, with `ListedKeyIsObjectKey` and
`ListedFolderTargetIsPrefix` proved about them. `FileManager.EntryKeyIsListedKey`
shows that both agree everywhere except at the top level with a root path.
