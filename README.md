# File picker over a drive-like API: verified model of its list and cache logic

The repository is a React file picker. It lists the resources of a connected
Google Drive, lets the user select files and folders, and indexes or
de-indexes them against a remote knowledge-base backend. This project models
the parts of that code whose behaviour can be stated, and proves properties of
them in Dafny:

- **the view projection of the explorer hook** (`Projection`). The cached
  resource list is filtered by a case-insensitive substring match on the
  path. It is then split into folders and files, each named by its last path
  segment. An `id → indexed` table is folded from the filtered list.
  Breadcrumbs are built from the current path, and `navigateToPath` looks up
  the folder id.
- **the optimistic cache updates of the index and de-index mutations**
  (`ExplorerHook.FileExplorerHook`). The query cache is a map from query key
  to resource list. A mutation patches it before the remote call, then
  commits the server's answer on success or writes back the snapshot on
  error.
- **the file list** (`FileList`): the sort comparator (folders first, then
  by name or date in either direction), a sort that stands for
  `Array.prototype.sort`, and the status badge and menu action of each row.
- **the explorer component** (`FileExplorer`): select-all and per-item
  selection, the combined item list, the panel choice, and the per-item
  loading flags kept around index and de-index calls.
- **the picker** (`FilePicker`): the bulk index and de-index actions, as a
  state machine over the selection and the two busy flags.
- **the knowledge-base check of the API client** (`GoogleDrive`): the
  validity test in `deIndexResource` and the order of its requests.

Helper modules: `Wrappers` (Option, Result), `Seqs` (order-preserving
filter), `Types` (the records of `types/`), and `Text` (ASCII lower-casing,
`includes`, `split`/`join` and the last path segment).

Network answers, the results of `indexResource` and `deIndexResource`, and
the fate of `Promise.all` are parameters of the modelled operations. Calls to
the backend show up as a returned request list.

Where the code behaves differently from what its names and types suggest,
the model follows the code:

- The de-index mutation snapshots, patches and rolls back the cache key
  `['resources']`. It commits to `['resources', currentResourceId]`, which is
  the key of the listing on screen (hooks/use-file-explorer.ts:109-122,
  130-141, 148-152). So the optimistic "deindexing" status never reaches the
  screen. `DeIndexOnMutate` proves this: the listing on screen is unchanged.
- The de-index mutation calls `deIndexResource(knowledgeBaseId,
  resourcePath)`, but the function takes a single resource id
  (hooks/use-file-explorer.ts:107, lib/api/google-drive.ts:178). The
  knowledge-base id is therefore what the API looks up as a resource id.
  `DeIndexItem` states this: once the connection is found, its resource
  request is `GetResource(args.knowledgeBaseId)`.
- `deIndexResource` first looks up the connection (itself a GET), then
  fetches the resource, and checks its knowledge base only afterwards. An
  invalid knowledge base is therefore rejected after both GETs and before
  the DELETE, and a failed connection lookup ends the call before the
  resource GET (lib/api/google-drive.ts:63-88,178-199).
- Writing an undefined snapshot back is a no-op of the query client. If
  nothing was cached when a mutation started, the empty list created by the
  optimistic update therefore stays after an error.
- A row's de-index action passes the row's id string
  (components/file-picker/file-list.tsx:30,177) to `handleDeIndexItem`,
  which is written for a whole `FileItem`
  (components/file-picker/file-explorer.tsx:105-116,172). Reading `id`,
  `knowledge_base_id` and `path` off a string gives undefined. The loading
  flag that goes up and down is therefore the one of the key "undefined",
  so the row never shows "Processing". `deIndexItem` receives three undefined
  fields, so `deIndexResource(undefined)` runs and neither cache patch
  matches any entry. `FileExplorer.Received` models both what arrives and
  what the declaration expects; see the Findings table below.
- A row's check box does the same: it passes the row's id string
  (components/file-picker/file-list.tsx:33,107) to `handleSelectItem`, which
  is written for a whole `FileItem` (components/file-picker/file-explorer.tsx:84-94,174).
  The picker's selection is declared as `string[]`
  (components/file-picker/file-picker.tsx:11,38-40), but at run time it holds
  both kinds of entry: whole `FileItem`s from select-all and id strings from
  the check boxes. It is a sequence with duplicates allowed, not a set.
  Checking a row appends the string. Unchecking compares `selectedItem.id
  !== item.id`, where `item.id` is undefined: it drops every string entry and
  keeps every whole item, including the one with the row's id. FileList
  sees `selectedItems.map((item) => item.id)`
  (components/file-picker/file-explorer.tsx:173), in which string entries
  are undefined. So a row checked on its own never shows as selected, and
  after select-all unchecking a row leaves it selected.
  `FileExplorer.RowSelectionMissesRow` states both; see the Findings table.
- The bulk actions pass each selection entry on
  (components/file-picker/file-picker.tsx:54,83). `indexItem` compares the
  entry with `resource_id` through `===`: an id string from a check box
  matches its resource, a whole item matches none, so its optimistic patch
  and its commit change no entry (`IndexItem` with a None target).
  `deIndexItem` reads `knowledgeBaseId`, `resourcePath` and `resourceId` off
  the entry, and neither a string nor a `FileItem` has them, so every bulk
  de-index call works with three undefined fields and patches nothing.
- `app/page.tsx` imports `initializeGoogleDriveSession`, which
  `lib/api/google-drive.ts` does not define. app/page.tsx is not part of this
  model.

## Model

| member | source | states |
|---|---|---|
| `Text.IncludesIffOccurs` | hooks/use-file-explorer.ts:187-191 | the scanning `includes` holds exactly when the needle occurs at some offset of the string |
| `Text.Split` | hooks/use-file-explorer.ts:198 | `split('/')` yields at least one part, and no part contains the separator |
| `Text.JoinSplit` | hooks/use-file-explorer.ts:240-244 | joining the parts of a split gives back the original string |
| `Text.SplitJoin` | hooks/use-file-explorer.ts:240-244 | splitting a join of separator-free parts gives back the parts |
| `Text.LastSegmentIsSuffix` | hooks/use-file-explorer.ts:198 | a projected name holds no '/'; it is the suffix of the path after its last '/', or the whole path when there is none |
| `Projection.FilterResourcesSpec` | hooks/use-file-explorer.ts:187-191 | the filtered list holds exactly the resources whose lower-cased path contains the lower-cased query, each as many times as it is listed; an empty query keeps the list unchanged |
| `Projection.FilterResourcesAppend` | hooks/use-file-explorer.ts:187-191 | the filter keeps listing order: filtering a concatenation concatenates the filtered parts |
| `Projection.ProjectPartition` | hooks/use-file-explorer.ts:193-213 | the folder count plus the file count equals the length of the filtered list |
| `Projection.ProjectFolders` | hooks/use-file-explorer.ts:194-202 | the i-th folder is built from the i-th filtered directory, so there is one folder per directory in listing order; each is named by the last segment of its path and carries no mime type |
| `Projection.ProjectFiles` | hooks/use-file-explorer.ts:204-213 | the i-th file is built from the i-th filtered regular file, so there is one file per regular file in listing order; each is named by the last segment of its path and typed `application/octet-stream` |
| `Projection.IndexedTable` | hooks/use-file-explorer.ts:215-221 | `indexedItems` has a key for exactly the ids of the filtered resources |
| `Projection.IndexedTableLastWins` | hooks/use-file-explorer.ts:215-221 | an id maps to `status == "indexed"` of the last entry carrying it |
| `Projection.FindByPath` | hooks/use-file-explorer.ts:229-231 | `find` returns the first index whose path equals the argument, or none when no path equals it |
| `Projection.NavigationTarget` | hooks/use-file-explorer.ts:229-232 | the new folder id is present exactly when the first resource at the path has a non-empty id, and then it is the id of that first resource, not of a later one at the same path |
| `Projection.Breadcrumbs` | hooks/use-file-explorer.ts:238-248 | there is one crumb per non-empty '/'-segment of the current path, and the i-th crumb is named by the i-th such segment, for any path |
| `Projection.LastCrumbJoinsSegments` | hooks/use-file-explorer.ts:243-246 | for any path, the last crumb points at "/" followed by all non-empty segments joined by '/' |
| `Projection.BreadcrumbsChain` | hooks/use-file-explorer.ts:240-246 | crumb names are non-empty and slash-free; the first crumb's path is "/" plus its name; each later path is the previous path, "/", and its name |
| `Projection.RootHasNoBreadcrumbs` | hooks/use-file-explorer.ts:240-242 | the path "/" yields no crumbs |
| `Projection.NormalPathSegments` | hooks/use-file-explorer.ts:240-242 | for a normalised absolute path, the non-empty segments are exactly the segments it was built from |
| `Projection.LastCrumbIsPath` | hooks/use-file-explorer.ts:243-246 | the last crumb of a normalised absolute path points back at the path itself |
| `Projection.SplitOfNormalPath` | hooks/use-file-explorer.ts:240-241 | splitting "/" followed by slash-free segments joined by '/' gives one empty part and then exactly those segments |
| `Projection.BreadcrumbsTwoLevels` | hooks/use-file-explorer.ts:238-248 | for non-empty slash-free names a and b, "/a/b" yields exactly two crumbs: a at "/a" and b at "/a/b" |
| `ExplorerHook.Patch` | hooks/use-file-explorer.ts:56-60 | `map` with a `===` test changes only the entries whose id equals the target; length and order are kept; a target that is not an id changes nothing |
| `ExplorerHook.WithStatus` | hooks/use-file-explorer.ts:53-61 | entries with the id get the new status and keep every other field; every other entry is unchanged |
| `ExplorerHook.WithIndexResult` | hooks/use-file-explorer.ts:66-79 | entries with the id take the answer's knowledge base id and status and keep every other field; every other entry is unchanged |
| `ExplorerHook.IndexCommitOverridesOptimistic` | hooks/use-file-explorer.ts:53-79 | committing after the optimistic "indexing" patch gives the same list as committing to the original list |
| `ExplorerHook.PatchCommutesWithFilter` | hooks/use-file-explorer.ts:186-191 | a patch that keeps paths commutes with the search filter |
| `ExplorerHook.IndexedTableAfterPatch` | hooks/use-file-explorer.ts:215-221 | after a status patch, the patched id's indexed flag follows the new status, and every other id's flag is unchanged |
| `ExplorerHook.ProjectedFlagAfterPatch` | hooks/use-file-explorer.ts:186-221 | after a patch that keeps ids and paths and sets the indexed flag, a resource with the id that passes the search shows that flag in `indexedItems` |
| `ExplorerHook.IndexCommitShowsIndexed` | hooks/use-file-explorer.ts:66-79 | after an index commit that answers "indexed", a visible resource with the id shows as indexed |
| `ExplorerHook.DeIndexCommitShowsNotIndexed` | hooks/use-file-explorer.ts:130-141 | after the de-index commit, a visible resource with the id shows as not indexed |
| `ExplorerHook.IndexThenDeIndexRoundTrip` | hooks/use-file-explorer.ts:66-79 | a visible resource shows as indexed after an index commit that answers "indexed", and as not indexed after the following de-index commit |
| `ExplorerHook.FileExplorerHook.constructor` | hooks/use-file-explorer.ts:16-24 | the path starts at "/", there is no folder id, the query is empty, and the cache is empty |
| `ExplorerHook.FileExplorerHook.SetSearchQuery` | hooks/use-file-explorer.ts:24 | only the search query changes |
| `ExplorerHook.FileExplorerHook.NavigateToPath` | hooks/use-file-explorer.ts:226-235 | the current path becomes the argument; the folder id becomes the navigation target in the listing shown before the call |
| `ExplorerHook.FileExplorerHook.Restore` | hooks/use-file-explorer.ts:85-89 | writing back a snapshot restores that key; an absent snapshot leaves the cache unchanged |
| `ExplorerHook.FileExplorerHook.IndexOnMutate` | hooks/use-file-explorer.ts:44-64 | returns the listing's snapshot and marks the matching entries of the on-screen key as "indexing" |
| `ExplorerHook.FileExplorerHook.IndexOnSuccess` | hooks/use-file-explorer.ts:65-79 | applies the server's answer to the on-screen key |
| `ExplorerHook.FileExplorerHook.IndexItem` | hooks/use-file-explorer.ts:42-96 | on success the on-screen list equals the original list with the answer applied; on failure the cache equals its state before the mutation, apart from an empty list left at a key that was absent; a target that is not an id leaves the on-screen list unchanged |
| `ExplorerHook.FileExplorerHook.DeIndexOnMutate` | hooks/use-file-explorer.ts:108-125 | snapshots and patches `['resources']` to "deindexing"; the listing on screen does not change |
| `ExplorerHook.FileExplorerHook.DeIndexOnSuccess` | hooks/use-file-explorer.ts:126-141 | marks the matching entries of the on-screen key as "de-indexed" |
| `ExplorerHook.FileExplorerHook.DeIndexItem` | hooks/use-file-explorer.ts:98-159 | once the connection is found, the API is asked for the knowledge base id as a resource id; success means a found connection, a valid knowledge base and a successful DELETE; success writes both keys; failure restores `['resources']`; after a failure, or with an undefined resource id, the on-screen list is unchanged |
| `GoogleDrive.HasValidKnowledgeBase` | lib/api/google-drive.ts:192-194 | definition: a knowledge base id is usable exactly when it is present, non-empty and not the all-zero UUID; what the check means for the requests is stated by `DeIndexResource` |
| `GoogleDrive.DeIndexResource` | lib/api/google-drive.ts:178-211 | the connection lookup comes first; the resource GET is sent exactly when that lookup succeeded; without a connection, a fetched resource or a valid knowledge base, no DELETE is issued and the call fails; otherwise exactly one DELETE follows, for that knowledge base and the resource's path; success means the DELETE succeeded |
| `GoogleDrive.RemoveResource` | lib/api/google-drive.ts:213-215 | behaves exactly as `DeIndexResource` |
| `GoogleDrive.NilKnowledgeBaseRejected` | lib/api/google-drive.ts:194-199 | the all-zero UUID is rejected after the connection and resource GETs and before any DELETE |
| `FileList.Compare` | components/file-picker/file-list.tsx:52-68 | a folder and a file compare non-zero, negative exactly when the first is the folder, whatever the key and direction; same-kind items by date compare by timestamp in the chosen direction |
| `FileList.DescendingIsReversed` | components/file-picker/file-list.tsx:57-66 | among same-kind items, descending order compares the swapped arguments ascending |
| `FileList.CompareTotal` | components/file-picker/file-list.tsx:52-68 | when `localeCompare` is total, so is the comparator |
| `FileList.CompareTransitive` | components/file-picker/file-list.tsx:52-68 | when `localeCompare` is transitive, so is the comparator |
| `FileList.Insert` | components/file-picker/file-list.tsx:52 | inserting adds exactly that item: the result is the old multiset plus the item, one element longer |
| `FileList.InsertSorted` | components/file-picker/file-list.tsx:52-68 | inserting into a list sorted by the comparator keeps it sorted |
| `FileList.SortItems` | components/file-picker/file-list.tsx:52-68 | the sorted copy is a permutation of the items, and each item compares at most its successor |
| `FileList.FolderPrefix` | components/file-picker/file-list.tsx:53-55 | in a sorted list, every item before a folder is a folder |
| `FileList.FoldersBeforeFiles` | components/file-picker/file-list.tsx:53-55 | in a sorted list, every folder precedes every file, whatever the key and direction |
| `FileList.SortedPairwise` | components/file-picker/file-list.tsx:52-68 | with a transitive `localeCompare`, any earlier item compares at most any later one |
| `FileList.NamesAscending` | components/file-picker/file-list.tsx:57-60 | sorting by name ascending lists same-kind items in non-decreasing `localeCompare` order |
| `FileList.RowFor` | components/file-picker/file-list.tsx:139-191 | the badge is "Processing" exactly while loading; otherwise it is "Indexed" exactly when indexed, else "Not Indexed"; De-index is offered exactly for indexed items; the menu is disabled exactly while loading; the row is selected exactly when its id is among the selection's ids, in which an undefined id matches no row |
| `FileExplorer.SelectAllItems` | components/file-picker/file-explorer.tsx:68-82 | checked selects every file and then every folder, \|files\|+\|folders\| items; unchecked selects nothing |
| `FileExplorer.IdOf` | components/file-picker/file-explorer.tsx:88-92 | definition: `.id` of a selection entry is the item's id for a whole item and undefined for a string |
| `FileExplorer.ListedIds` | components/file-picker/file-explorer.tsx:173 | the ids FileList tests rows against: one per selection entry, in order, each read by `IdOf` |
| `FileExplorer.ListedIdsSeeWholeItems` | components/file-picker/file-explorer.tsx:173 | a row shows as selected exactly when a whole item with its id is selected; string entries never make a row selected |
| `FileExplorer.SelectItem` | components/file-picker/file-explorer.tsx:84-94 | checking appends what was received, without de-duplication; unchecking keeps each entry whose `.id` differs from the received value's `.id` exactly as often as it was selected, and drops every entry whose `.id` reads the same, so a received string drops every string entry |
| `FileExplorer.UncheckKeepsOrder` | components/file-picker/file-explorer.tsx:88-92 | unchecking keeps selection order: on a concatenation it concatenates what is kept of each part |
| `FileExplorer.UncheckKeepsOthers` | components/file-picker/file-explorer.tsx:87-92 | unchecking keeps every selected entry whose `.id` reads differently; if no entry's `.id` reads the same, the selection is unchanged |
| `FileExplorer.RowSelectionMissesRow` | components/file-picker/file-list.tsx:107 | as written, checking a row adds an undefined id and so does not change whether the row shows as selected; unchecking it keeps every whole item, so a row selected by select-all stays selected |
| `FileExplorer.ItemSelectionTogglesRow` | components/file-picker/file-explorer.tsx:84-94 | handed the whole item, checking makes the row show as selected and unchecking makes it show as unselected, whatever else is selected |
| `FileExplorer.AllItems` | components/file-picker/file-explorer.tsx:118-124 | the folders, then the files, \|folders\|+\|files\| items |
| `FileExplorer.SelectAllIsAllItems` | components/file-picker/file-explorer.tsx:71-77 | select-all picks the same multiset of items as are listed |
| `FileExplorer.PanelFor` | components/file-picker/file-explorer.tsx:144-179 | loading if loading; else error if there is an error; else empty if there are no items; else the list of the items |
| `FileExplorer.FileExplorerState.constructor` | components/file-picker/file-explorer.tsx:63-66 | select-all is off and no item is loading |
| `FileExplorer.FileExplorerState.HandleSelectAll` | components/file-picker/file-explorer.tsx:68-82 | records the check box and hands up the select-all list, each entry a whole item |
| `FileExplorer.FileExplorerState.HandleIndexItem` | components/file-picker/file-explorer.tsx:96-103 | the id's loading flag is true during the call and false after it, on success and on failure; other ids are untouched; the hook's cache changes as `IndexItem` says |
| `FileExplorer.LoadingKey` | components/file-picker/file-explorer.tsx:105-116 | definition: the flag key is the item's id when a whole item arrives, and "undefined" when a string arrives |
| `FileExplorer.DeIndexArgsOf` | components/file-picker/file-explorer.tsx:108-112 | definition: the arguments carry the item's knowledge base id, path and id when a whole item arrives, and are all undefined when a string arrives |
| `FileExplorer.RowDeIndexMissesRow` | components/file-picker/file-list.tsx:177 | as written, a row's de-index action never flags the row's own id, asks the API (once connected) about an undefined resource, and its status patch changes no entry |
| `FileExplorer.ItemDeIndexTargetsItem` | components/file-picker/file-explorer.tsx:105-116 | handed the whole item, the action flags the item's own row, and after the commit a visible resource with the item's id shows as not indexed |
| `FileExplorer.FileExplorerState.HandleDeIndexItem` | components/file-picker/file-explorer.tsx:105-116 | the flag of `LoadingKey` is true during the call and false after it; `DeIndexItem` is called with `DeIndexArgsOf` the value received; the requests are those of `DeIndexResource`; on success both cache keys are written as `DeIndexItem` says; on failure `['resources']` is restored; after a failure, or when a row id string arrives, the on-screen list is unchanged |
| `FilePicker.FilePicker.constructor` | components/file-picker/file-picker.tsx:11-13 | the selection is empty and both busy flags are off |
| `FilePicker.IndexTargetOf` | components/file-picker/file-picker.tsx:54 | an entry reaches a resource through `indexItem` exactly when it is an id string, and then that id is the target |
| `FilePicker.BulkTargets` | components/file-picker/file-picker.tsx:53-83 | a whole-item entry leaves every list unchanged when indexed; an id-string entry targets its id; a bulk de-index patch changes nothing |
| `FilePicker.FilePicker.HandleSelectItems` | components/file-picker/file-picker.tsx:38-40 | the selection becomes the handed-up list |
| `FilePicker.FilePicker.HandleIndexSelected` | components/file-picker/file-picker.tsx:42-69 | an empty selection makes no call and leaves the flag alone; otherwise there is one call per selected entry, targeting `IndexTargetOf` the entry, and the flag is up during the calls and down afterwards; the selection is cleared only when all calls succeed |
| `FilePicker.FilePicker.HandleDeIndexSelected` | components/file-picker/file-picker.tsx:71-98 | the same state machine over the de-index busy flag; every call's arguments are undefined |

## Left out

- HTTP: the axios calls, the token fetch, the self-invoking session initialiser, `getConnection`, `getRootResources`, `getFolderContents` and the body of `indexResource` (lib/api/google-drive.ts:12-176). Their answers enter the model only as success or failure parameters.
- `removeMutation` (hooks/use-file-explorer.ts:161-183): a remote call followed by a cache invalidation, with no local state to model.
- Query-client internals: `cancelQueries`, invalidation, refetching, and races between a mutation and a refetch. Each mutation runs atomically here, so the on-screen key cannot change between its steps.
- The `isPending` flags (hooks/use-file-explorer.ts:268-269) and the `sortBy`/`sortDirection` state setters. These setters are plain assignments; the sort settings enter `FileList` as parameters.
- Toasts, `console.log` and all rendering; sidebar, headers, breadcrumb component, and app/page.tsx.
- Date strings and `formatDistanceToNow`: timestamps are integers.
- `Text.Lower`: folds ASCII letters only, not full Unicode `toLowerCase`.
- `FileList.Compare`: `localeCompare` is a parameter, not real collation.
- `FileList.SortItems`: stands for the engine's sort by an insertion sort. It fixes the result only up to items that the comparator ranks equal, and it requires a total `localeCompare`.
- `FilePicker.FilePicker.HandleIndexSelected`: models the `Promise.all` fan-out as one all-or-nothing outcome. The calls and their targets are returned, not run against the hook; each call's effect on the cache is what `IndexItem` states for its target.
- `FilePicker.FilePicker.HandleDeIndexSelected`: same abstraction as bulk index; each call's effect is what `DeIndexItem` states for undefined arguments.
- `FileExplorer.FileExplorerState.HandleIndexItem`: states the flag value during the call through a ghost out-parameter, because the awaited call is atomic in the model.
- `FileExplorer.FileExplorerState.HandleDeIndexItem`: the same ghost out-parameter for the flag value during the call.

## Findings

| source | as written | input that shows it | evidently intended | confidence | as-written member | corrected member |
|---|---|---|---|---|---|---|
| components/file-picker/file-list.tsx:177, components/file-picker/file-explorer.tsx:105-116 | the row's de-index action hands `handleDeIndexItem` the id string, and the handler reads `.id`, `.knowledge_base_id` and `.path` off it | any row, e.g. id "r1": the flag of "undefined" is raised instead of "r1", the GET asks for an undefined resource, and no cached entry is patched | hand the handler the whole item, so that its own row shows "Processing" and the commit marks it "de-indexed" | high, not executed | `FileExplorer.RowDeIndexMissesRow` | `FileExplorer.ItemDeIndexTargetsItem` |
| components/file-picker/file-list.tsx:107, components/file-picker/file-explorer.tsx:84-94 | a row's check box hands `handleSelectItem` the id string; the handler appends it, or filters with `selectedItem.id !== item.id` where `item.id` is undefined | any row, e.g. id "r1": checking appends "r1", which FileList reads as undefined, so the row is not shown selected; after select-all, unchecking "r1" drops only string entries and the item "r1" stays selected | hand the handler the whole item, so that checking and unchecking toggle the row | high, not executed | `FileExplorer.RowSelectionMissesRow` | `FileExplorer.ItemSelectionTogglesRow` |
