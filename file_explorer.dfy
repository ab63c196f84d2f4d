/** components/file-picker/file-explorer.tsx: the selection lists handed up
    to the picker, the combined item list, which panel is shown, and the
    per-item loading flags kept around index and de-index calls. */
module FileExplorer {
  import opened Wrappers
  import opened Types
  import opened Seqs
  import opened GoogleDrive
  import opened Projection
  import opened ExplorerHook

  /** `handleSelectAll(checked)`'s list: every file, then every folder. */
  function SelectAllItems(checked: bool, files: seq<File>, folders: seq<Folder>): (r: seq<FileItem>)
    ensures !checked ==> r == []
    ensures checked ==> |r| == |files| + |folders|
    ensures checked ==> forall i :: 0 <= i < |files| ==> r[i] == FileItem(FileKind, files[i])
    ensures checked ==> forall i :: 0 <= i < |folders| ==> r[|files| + i] == FileItem(FolderKind, folders[i])
  {
    if checked then Tag(files, FileKind) + Tag(folders, FolderKind) else []
  }

  /** What a handler declared to take a `FileItem` actually receives, and
      so what the selection holds: FileList's check boxes and de-index action
      hand up the row's id string (`onSelectItem(item.id, …)`,
      `onDeIndexItem(item.id)`), while select-all hands up whole items. */
  datatype Received = RowId(id: string) | WholeItem(item: FileItem)

  /** `x.id`: the item's id, or undefined when `x` is a string. */
  function IdOf(x: Received): (id: Option<string>)
    ensures id.Some? <==> x.WholeItem?
    ensures x.WholeItem? ==> id.value == x.item.Id()
  {
    match x
    case RowId(_) => None
    case WholeItem(item) => Some(item.Id())
  }

  /** The entries select-all hands up: each item as a whole object. */
  function Whole(items: seq<FileItem>): (r: seq<Received>)
    ensures |r| == |items| && forall i :: 0 <= i < |items| ==> r[i] == WholeItem(items[i])
  {
    Map(items, (x: FileItem) => WholeItem(x))
  }

  /** `selectedItems.map((item) => item.id)`: the ids FileList tests its
      rows against; a string entry contributes undefined. */
  function ListedIds(selected: seq<Received>): (ids: seq<Option<string>>)
    ensures |ids| == |selected| && forall i :: 0 <= i < |selected| ==> ids[i] == IdOf(selected[i])
  {
    Map(selected, IdOf)
  }

  /** A row shows as selected exactly when a whole item with its id is
      selected; string entries are never seen. */
  lemma ListedIdsSeeWholeItems(selected: seq<Received>, id: string)
    ensures Some(id) in ListedIds(selected) <==> exists item :: WholeItem(item) in selected && item.Id() == id
  {
    var ids := ListedIds(selected);
    if Some(id) in ids {
      var k :| 0 <= k < |ids| && ids[k] == Some(id);
      assert WholeItem(selected[k].item) == selected[k];
    }
    if exists item :: WholeItem(item) in selected && item.Id() == id {
      var item :| WholeItem(item) in selected && item.Id() == id;
      var k :| 0 <= k < |selected| && selected[k] == WholeItem(item);
      assert ids[k] == Some(id);
    }
  }

  predicate HasOtherId(id: Option<string>, x: Received) { IdOf(x) != id }

  /** `handleSelectItem(item, checked)`'s list: checking appends what was
      received (duplicates are not filtered out); unchecking compares
      `selectedItem.id !== item.id`, dropping every entry whose id reads the
      same as the received value's and keeping each other entry as often as
      it was selected. */
  function SelectItem(selected: seq<Received>, received: Received, checked: bool): (r: seq<Received>)
    ensures checked ==> |r| == |selected| + 1 && r[..|selected|] == selected && r[|selected|] == received
    ensures !checked ==> |r| <= |selected| && forall x :: x in r ==> x in selected && IdOf(x) != IdOf(received)
    ensures !checked ==> forall x :: multiset(r)[x] == if IdOf(x) != IdOf(received) then multiset(selected)[x] else 0
  {
    if checked then selected + [received]
    else
      var keep := (x: Received) => HasOtherId(IdOf(received), x);
      FilterMultiset(selected, keep);
      Filter(selected, keep)
  }

  /** Unchecking keeps the selection order: unchecking from a concatenation
      concatenates what is kept of each part. */
  lemma UncheckKeepsOrder(a: seq<Received>, b: seq<Received>, received: Received)
    ensures SelectItem(a + b, received, false) == SelectItem(a, received, false) + SelectItem(b, received, false)
  {
    FilterAppend(a, b, (x: Received) => HasOtherId(IdOf(received), x));
  }

  /** Unchecking keeps every selected entry whose id reads differently, and
      removing from a selection with no entry of that id changes nothing. */
  lemma UncheckKeepsOthers(selected: seq<Received>, received: Received)
    ensures forall x :: x in selected && IdOf(x) != IdOf(received) ==> x in SelectItem(selected, received, false)
    ensures (forall x :: x in selected ==> IdOf(x) != IdOf(received)) ==> SelectItem(selected, received, false) == selected
  {
    var p := (x: Received) => HasOtherId(IdOf(received), x);
    forall x | x in selected && IdOf(x) != IdOf(received) ensures x in SelectItem(selected, received, false) {
      FilterMembership(selected, p, x);
    }
    if forall x :: x in selected ==> IdOf(x) != IdOf(received) {
      FilterKeepsAll(selected, p);
    }
  }

  /** As written, a row's check box hands up its id string: checking adds an
      entry FileList reads as undefined, so the row does not show as
      selected; unchecking drops the string entries only, so a whole item
      with the row's id (as select-all leaves) stays selected and the row
      still shows as selected. */
  lemma RowSelectionMissesRow(selected: seq<Received>, id: string)
    ensures ListedIds(SelectItem(selected, RowId(id), true)) == ListedIds(selected) + [None]
    ensures Some(id) in ListedIds(SelectItem(selected, RowId(id), true)) <==> Some(id) in ListedIds(selected)
    ensures forall item :: WholeItem(item) in selected ==> WholeItem(item) in SelectItem(selected, RowId(id), false)
    ensures Some(id) in ListedIds(selected) ==> Some(id) in ListedIds(SelectItem(selected, RowId(id), false))
  {
    var checked := SelectItem(selected, RowId(id), true);
    assert ListedIds(checked) == ListedIds(selected) + [None];
    UncheckKeepsOthers(selected, RowId(id));
    var unchecked := SelectItem(selected, RowId(id), false);
    if Some(id) in ListedIds(selected) {
      ListedIdsSeeWholeItems(selected, id);
      ListedIdsSeeWholeItems(unchecked, id);
    }
  }

  /** Handed the whole item, as its declaration intends, checking a row makes
      it show as selected and unchecking it makes it show as unselected,
      whatever else is selected. */
  lemma ItemSelectionTogglesRow(selected: seq<Received>, item: FileItem)
    ensures Some(item.Id()) in ListedIds(SelectItem(selected, WholeItem(item), true))
    ensures Some(item.Id()) !in ListedIds(SelectItem(selected, WholeItem(item), false))
  {
    var checked := SelectItem(selected, WholeItem(item), true);
    assert ListedIds(checked)[|selected|] == Some(item.Id());
    var unchecked := SelectItem(selected, WholeItem(item), false);
    ListedIdsSeeWholeItems(unchecked, item.Id());
  }

  /** `allItems`: the folders, then the files. */
  function AllItems(folders: seq<Folder>, files: seq<File>): (r: seq<FileItem>)
    ensures |r| == |folders| + |files|
    ensures forall i :: 0 <= i < |folders| ==> r[i] == FileItem(FolderKind, folders[i])
    ensures forall i :: 0 <= i < |files| ==> r[|folders| + i] == FileItem(FileKind, files[i])
  {
    Tag(folders, FolderKind) + Tag(files, FileKind)
  }

  /** Select-all picks the same items as are listed, only files first. */
  lemma SelectAllIsAllItems(files: seq<File>, folders: seq<Folder>)
    ensures multiset(SelectAllItems(true, files, folders)) == multiset(AllItems(folders, files))
  {
    var a := Tag(files, FileKind);
    var b := Tag(folders, FolderKind);
    assert SelectAllItems(true, files, folders) == a + b;
    assert AllItems(folders, files) == b + a;
  }

  datatype Panel = LoadingPanel | ErrorPanel | EmptyPanel | ListPanel(items: seq<FileItem>)

  /** The body of the explorer: loading first, then the error, then the
      empty-folder note, and the list only when none of those applies. */
  function PanelFor(isLoading: bool, hasError: bool, items: seq<FileItem>): (p: Panel)
    ensures p == LoadingPanel <==> isLoading
    ensures p == ErrorPanel <==> !isLoading && hasError
    ensures p == EmptyPanel <==> !isLoading && !hasError && items == []
    ensures p.ListPanel? ==> p.items == items && items != []
  {
    if isLoading then LoadingPanel
    else if hasError then ErrorPanel
    else if |items| == 0 then EmptyPanel
    else ListPanel(items)
  }

  /** A property read off a string is undefined, and undefined used as an
      object key is the key "undefined". */
  const UndefinedKey: string := "undefined"

  /** `item.id` as the key of `loadingItems`. */
  function LoadingKey(received: Received): (key: string)
    ensures received.WholeItem? ==> key == received.item.Id()
    ensures received.RowId? ==> key == UndefinedKey
  {
    match received
    case RowId(_) => UndefinedKey
    case WholeItem(item) => item.Id()
  }

  /** `{ knowledgeBaseId: item.knowledge_base_id, resourcePath: item.path,
      resourceId: item.id }`: every field is undefined when a string comes in. */
  function DeIndexArgsOf(received: Received): (args: DeIndexArgs)
    ensures received.WholeItem? ==>
              args == DeIndexArgs(received.item.entry.knowledgeBaseId, Some(received.item.entry.path), Some(received.item.Id()))
    ensures received.RowId? ==> args == DeIndexArgs(None, None, None)
  {
    match received
    case RowId(_) => DeIndexArgs(None, None, None)
    case WholeItem(item) => DeIndexArgs(item.entry.knowledgeBaseId, Some(item.entry.path), Some(item.Id()))
  }

  /** As written, a row's de-index action raises the loading flag of the key
      "undefined" rather than the row's, asks the API about an undefined
      resource, and its status patches match no cached entry. */
  lemma RowDeIndexMissesRow(rowId: string, resources: seq<Resource>, status: string, fetched: Option<Resource>, deleteSucceeds: bool)
    requires rowId != UndefinedKey
    ensures LoadingKey(RowId(rowId)) != rowId
    ensures DeIndexResource(DeIndexArgsOf(RowId(rowId)).knowledgeBaseId, true, fetched, deleteSucceeds).requests[1] == GetResource(None)
    ensures WithStatus(resources, DeIndexArgsOf(RowId(rowId)).resourceId, status) == resources
  {
  }

  /** Handed the whole item, as its declaration intends, the de-index action
      flags the item's own row, and after a successful commit a visible
      resource with the item's id shows as not indexed. */
  lemma ItemDeIndexTargetsItem(item: FileItem, resources: seq<Resource>, query: string)
    requires exists r :: r in resources && r.resourceId == item.Id() && Matches(query, r)
    ensures LoadingKey(WholeItem(item)) == item.Id()
    ensures var committed := WithStatus(resources, DeIndexArgsOf(WholeItem(item)).resourceId, DeIndexedStatus);
            item.Id() in Project(committed, query).indexedItems && !Project(committed, query).indexedItems[item.Id()]
  {
    DeIndexCommitShowsNotIndexed(resources, item.Id(), query);
  }

  /** The explorer component's own state. */
  class FileExplorerState {
    var selectAll: bool
    var loadingItems: map<string, bool>

    constructor ()
      ensures !selectAll && loadingItems == map[]
    {
      selectAll := false;
      loadingItems := map[];
    }

    /** `handleSelectAll(checked)`: records the check box and returns the list
        passed to `onSelectItems`. */
    method HandleSelectAll(checked: bool, files: seq<File>, folders: seq<Folder>) returns (handedUp: seq<Received>)
      modifies this`selectAll
      ensures selectAll == checked
      ensures handedUp == Whole(SelectAllItems(checked, files, folders))
    {
      selectAll := checked;
      handedUp := Whole(SelectAllItems(checked, files, folders));
    }

    /** `handleIndexItem(id)`: the flag is true while `indexItem` runs and
        false afterwards, whether the call succeeded or not; no other id's
        flag changes. FileList passes the row's id string, as declared. */
    method HandleIndexItem(id: string, hook: FileExplorerHook, response: Option<IndexResponse>)
      returns (ok: bool, ghost duringCall: map<string, bool>)
      modifies this`loadingItems, hook`cache
      ensures duringCall == old(loadingItems)[id := true]
      ensures loadingItems == old(loadingItems)[id := false]
      ensures ok <==> response.Some?
      ensures ok ==> hook.cache == old(hook.cache)[hook.CurrentKey() :=
                                     WithIndexResult(old(hook.Resources()), Some(id), response.value)]
      ensures !ok ==> hook.cache == old(hook.cache)[hook.CurrentKey() := old(hook.Resources())]
    {
      loadingItems := loadingItems[id := true];
      duringCall := loadingItems;
      ok := hook.IndexItem(Some(id), response);
      loadingItems := loadingItems[id := false];
    }

    /** `handleDeIndexItem(item)`: the same bookkeeping around `deIndexItem`,
        keyed by and called with what `DeIndexArgsOf` reads off the value
        received. */
    method HandleDeIndexItem(received: Received, hook: FileExplorerHook, connected: bool, fetched: Option<Resource>, deleteSucceeds: bool)
      returns (ok: bool, requests: seq<Request>, ghost duringCall: map<string, bool>)
      modifies this`loadingItems, hook`cache
      ensures duringCall == old(loadingItems)[LoadingKey(received) := true]
      ensures loadingItems == old(loadingItems)[LoadingKey(received) := false]
      ensures ok <==> connected && fetched.Some? && HasValidKnowledgeBase(fetched.value.knowledgeBaseId) && deleteSucceeds
      ensures requests == DeIndexResource(DeIndexArgsOf(received).knowledgeBaseId, connected, fetched, deleteSucceeds).requests
      ensures ok ==> hook.cache == old(hook.cache)
                      [AllResources := WithStatus(old(hook.CachedOrEmpty(AllResources)), DeIndexArgsOf(received).resourceId, DeindexingStatus)]
                      [hook.CurrentKey() := WithStatus(old(hook.Resources()), DeIndexArgsOf(received).resourceId, DeIndexedStatus)]
      ensures !ok ==> hook.cache == old(hook.cache)[AllResources := old(hook.CachedOrEmpty(AllResources))]
      ensures !ok || received.RowId? ==> hook.Resources() == old(hook.Resources())
    {
      var key := LoadingKey(received);
      loadingItems := loadingItems[key := true];
      duringCall := loadingItems;
      ok, requests := hook.DeIndexItem(DeIndexArgsOf(received), connected, fetched, deleteSucceeds);
      loadingItems := loadingItems[key := false];
    }
  }
}
