/** components/file-picker/file-picker.tsx: the picker's selection and the
    bulk index / de-index actions. The calls run through `Promise.all`, whose
    combined fate is the parameter `allSucceeded`. The selection is declared as
    `string[]`, but it holds what the explorer hands up: whole `FileItem`s from
    select-all and row id strings from the row check boxes. Each bulk call
    receives one such entry: `indexItem` compares it with `resource_id`
    through `===`, which holds only for an id string, and `deIndexItem` reads
    `knowledgeBaseId`, `resourcePath` and `resourceId` off it, which neither
    a string nor a `FileItem` has. */
module FilePicker {
  import opened Wrappers
  import opened Types
  import opened Seqs
  import opened ExplorerHook
  import opened FileExplorer

  /** Which branch a bulk action took. */
  datatype BulkOutcome = NothingSelected | AllSucceeded(count: nat) | SomeFailed

  /** The target `indexItem(entry)` patches and commits: the id itself for a
      string entry, and a value no `resource_id` is `===` to for an object. */
  function IndexTargetOf(entry: Received): (target: Option<string>)
    ensures target.Some? <==> entry.RowId?
    ensures entry.RowId? ==> target.value == entry.id
  {
    match entry
    case RowId(id) => Some(id)
    case WholeItem(_) => None
  }

  /** The arguments `deIndexItem(entry)` works with: none of the three fields
      exists on a string or on a `FileItem`. */
  const UndefinedDeIndexArgs := DeIndexArgs(None, None, None)

  /** Only the row-checked entries of a selection reach any resource when
      indexed in bulk; select-all entries leave every cached list as it was,
      and no bulk de-index call patches anything. */
  lemma BulkTargets(selection: seq<Received>, resources: seq<Resource>, response: IndexResponse, status: string)
    ensures forall i :: 0 <= i < |selection| && selection[i].WholeItem? ==>
              WithIndexResult(resources, IndexTargetOf(selection[i]), response) == resources
    ensures forall i :: 0 <= i < |selection| && selection[i].RowId? ==>
              IndexTargetOf(selection[i]) == Some(selection[i].id)
    ensures WithStatus(resources, UndefinedDeIndexArgs.resourceId, status) == resources
  {
  }

  class FilePicker {
    var selectedItems: seq<Received>
    var isIndexingBulk: bool
    var isDeIndexingBulk: bool

    constructor ()
      ensures selectedItems == [] && !isIndexingBulk && !isDeIndexingBulk
    {
      selectedItems := [];
      isIndexingBulk := false;
      isDeIndexingBulk := false;
    }

    /** `handleSelectItems`: the selection becomes what the explorer passed. */
    method HandleSelectItems(items: seq<Received>)
      modifies this`selectedItems
      ensures selectedItems == items
    {
      selectedItems := items;
    }

    /** `handleIndexSelected`. With nothing selected no call is made and no
        flag changes. Otherwise one `indexItem` call per selected entry, in
        order, with the busy flag up while they run; `targets` are what those
        calls patch. The selection is cleared only if every call succeeded,
        and the flag always comes down. */
    method HandleIndexSelected(allSucceeded: bool)
      returns (calls: seq<Received>, targets: seq<Option<string>>, busyWhileCalling: bool, outcome: BulkOutcome)
      modifies this`selectedItems, this`isIndexingBulk
      ensures old(selectedItems) == [] ==>
                calls == [] && outcome == NothingSelected && selectedItems == [] &&
                isIndexingBulk == old(isIndexingBulk)
      ensures old(selectedItems) != [] ==> calls == old(selectedItems) && busyWhileCalling && !isIndexingBulk
      ensures targets == Map(calls, IndexTargetOf)
      ensures old(selectedItems) != [] && allSucceeded ==>
                selectedItems == [] && outcome == AllSucceeded(|old(selectedItems)|)
      ensures old(selectedItems) != [] && !allSucceeded ==>
                selectedItems == old(selectedItems) && outcome == SomeFailed
    {
      if |selectedItems| == 0 {
        calls, targets, busyWhileCalling, outcome := [], [], isIndexingBulk, NothingSelected;
        return;
      }
      isIndexingBulk := true;
      calls := selectedItems;
      targets := Map(calls, IndexTargetOf);
      busyWhileCalling := isIndexingBulk;
      if allSucceeded {
        outcome := AllSucceeded(|selectedItems|);
        selectedItems := [];
      } else {
        outcome := SomeFailed;
      }
      isIndexingBulk := false;
    }

    /** `handleDeIndexSelected`: the same state machine over the de-index
        busy flag, one `deIndexItem` call per selected entry; every call's
        arguments are undefined. */
    method HandleDeIndexSelected(allSucceeded: bool)
      returns (calls: seq<Received>, args: seq<DeIndexArgs>, busyWhileCalling: bool, outcome: BulkOutcome)
      modifies this`selectedItems, this`isDeIndexingBulk
      ensures old(selectedItems) == [] ==>
                calls == [] && outcome == NothingSelected && selectedItems == [] &&
                isDeIndexingBulk == old(isDeIndexingBulk)
      ensures old(selectedItems) != [] ==> calls == old(selectedItems) && busyWhileCalling && !isDeIndexingBulk
      ensures |args| == |calls| && forall i :: 0 <= i < |args| ==> args[i] == UndefinedDeIndexArgs
      ensures old(selectedItems) != [] && allSucceeded ==>
                selectedItems == [] && outcome == AllSucceeded(|old(selectedItems)|)
      ensures old(selectedItems) != [] && !allSucceeded ==>
                selectedItems == old(selectedItems) && outcome == SomeFailed
    {
      if |selectedItems| == 0 {
        calls, args, busyWhileCalling, outcome := [], [], isDeIndexingBulk, NothingSelected;
        return;
      }
      isDeIndexingBulk := true;
      calls := selectedItems;
      args := Map(calls, (entry: Received) => UndefinedDeIndexArgs);
      busyWhileCalling := isDeIndexingBulk;
      if allSucceeded {
        outcome := AllSucceeded(|selectedItems|);
        selectedItems := [];
      } else {
        outcome := SomeFailed;
      }
      isDeIndexingBulk := false;
    }
  }
}
