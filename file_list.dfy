/** components/file-picker/file-list.tsx: the order in which the rows are
    shown and what each row's status badge and menu offer. `localeCompare` is
    a parameter: any comparator on names, assumed total where sorting needs it.
    `Array.prototype.sort` is modelled by an insertion sort, so the model pins
    down the order only up to items the comparator ranks equal. */
module FileList {
  import opened Wrappers
  import opened Types

  datatype SortKey = ByName | ByDate
  datatype SortDirection = Asc | Desc

  /** For any two names, at least one compares at most the other. */
  ghost predicate Total(localeCompare: (string, string) -> int) {
    forall x, y :: localeCompare(x, y) <= 0 || localeCompare(y, x) <= 0
  }

  ghost predicate Transitive(localeCompare: (string, string) -> int) {
    forall x, y, z :: localeCompare(x, y) <= 0 && localeCompare(y, z) <= 0 ==> localeCompare(x, z) <= 0
  }

  /** The comparator handed to `sort`. A folder and a file compare -1 or 1
      whatever the key and direction; same-kind items compare by name or by
      timestamp, in the chosen direction. */
  function Compare(a: FileItem, b: FileItem, sortBy: SortKey, direction: SortDirection,
                   localeCompare: (string, string) -> int): (c: int)
    ensures a.kind != b.kind ==> c != 0 && (c < 0 <==> a.kind == FolderKind)
    ensures a.kind == b.kind && sortBy == ByDate ==>
              (c <= 0 <==> if direction == Asc then a.entry.modifiedTime <= b.entry.modifiedTime
                           else b.entry.modifiedTime <= a.entry.modifiedTime)
  {
    if a.kind != b.kind then (if a.kind == FolderKind then -1 else 1)
    else match sortBy
      case ByName =>
        if direction == Asc then localeCompare(a.entry.name, b.entry.name)
        else localeCompare(b.entry.name, a.entry.name)
      case ByDate =>
        if direction == Asc then a.entry.modifiedTime - b.entry.modifiedTime
        else b.entry.modifiedTime - a.entry.modifiedTime
  }

  /** Among same-kind items, descending order is ascending order with the
      arguments swapped. */
  lemma DescendingIsReversed(a: FileItem, b: FileItem, sortBy: SortKey, localeCompare: (string, string) -> int)
    requires a.kind == b.kind
    ensures Compare(a, b, sortBy, Desc, localeCompare) == Compare(b, a, sortBy, Asc, localeCompare)
  {
  }

  lemma CompareTotal(a: FileItem, b: FileItem, sortBy: SortKey, direction: SortDirection,
                     localeCompare: (string, string) -> int)
    requires Total(localeCompare)
    ensures Compare(a, b, sortBy, direction, localeCompare) <= 0 || Compare(b, a, sortBy, direction, localeCompare) <= 0
  {
  }

  lemma CompareTransitive(a: FileItem, b: FileItem, c: FileItem, sortBy: SortKey, direction: SortDirection,
                          localeCompare: (string, string) -> int)
    requires Transitive(localeCompare)
    requires Compare(a, b, sortBy, direction, localeCompare) <= 0
    requires Compare(b, c, sortBy, direction, localeCompare) <= 0
    ensures Compare(a, c, sortBy, direction, localeCompare) <= 0
  {
    if a.kind == b.kind == c.kind && sortBy == ByName {
      if direction == Asc {
        assert localeCompare(a.entry.name, b.entry.name) <= 0 && localeCompare(b.entry.name, c.entry.name) <= 0;
      } else {
        assert localeCompare(c.entry.name, b.entry.name) <= 0 && localeCompare(b.entry.name, a.entry.name) <= 0;
      }
    }
  }

  /** Each item compares at most its successor. */
  ghost predicate Sorted(items: seq<FileItem>, sortBy: SortKey, direction: SortDirection,
                         localeCompare: (string, string) -> int)
  {
    forall i :: 0 <= i < |items| - 1 ==> Compare(items[i], items[i + 1], sortBy, direction, localeCompare) <= 0
  }

  lemma SortedTail(items: seq<FileItem>, sortBy: SortKey, direction: SortDirection,
                    localeCompare: (string, string) -> int)
    requires items != [] && Sorted(items, sortBy, direction, localeCompare)
    ensures Sorted(items[1..], sortBy, direction, localeCompare)
  {
    forall i | 0 <= i < |items| - 2
      ensures Compare(items[1..][i], items[1..][i + 1], sortBy, direction, localeCompare) <= 0
    {
      assert items[1..][i] == items[i + 1] && items[1..][i + 1] == items[i + 2];
    }
  }

  lemma SortedCons(x: FileItem, items: seq<FileItem>, sortBy: SortKey, direction: SortDirection,
                   localeCompare: (string, string) -> int)
    requires Sorted(items, sortBy, direction, localeCompare)
    requires items != [] ==> Compare(x, items[0], sortBy, direction, localeCompare) <= 0
    ensures Sorted([x] + items, sortBy, direction, localeCompare)
  {
    var r := [x] + items;
    forall i | 0 <= i < |r| - 1 ensures Compare(r[i], r[i + 1], sortBy, direction, localeCompare) <= 0 {
      if i > 0 {
        assert r[i] == items[i - 1] && r[i + 1] == items[i];
      }
    }
  }

  /** Inserts `x` before the first item it compares at most. */
  function Insert(x: FileItem, items: seq<FileItem>, sortBy: SortKey, direction: SortDirection,
                  localeCompare: (string, string) -> int): (r: seq<FileItem>)
    ensures multiset(r) == multiset(items) + multiset{x}
    ensures |r| == |items| + 1
    ensures r[0] == x || (|items| > 0 && r[0] == items[0])
  {
    if items == [] then [x]
    else if Compare(x, items[0], sortBy, direction, localeCompare) <= 0 then [x] + items
    else
      assert items == [items[0]] + items[1..];
      [items[0]] + Insert(x, items[1..], sortBy, direction, localeCompare)
  }

  /** Inserting into a sorted list keeps it sorted. */
  lemma {:induction false} InsertSorted(x: FileItem, items: seq<FileItem>, sortBy: SortKey, direction: SortDirection,
                                        localeCompare: (string, string) -> int)
    requires Total(localeCompare)
    requires Sorted(items, sortBy, direction, localeCompare)
    ensures Sorted(Insert(x, items, sortBy, direction, localeCompare), sortBy, direction, localeCompare)
  {
    if items == [] {
    } else if Compare(x, items[0], sortBy, direction, localeCompare) <= 0 {
      SortedCons(x, items, sortBy, direction, localeCompare);
    } else {
      CompareTotal(x, items[0], sortBy, direction, localeCompare);
      SortedTail(items, sortBy, direction, localeCompare);
      InsertSorted(x, items[1..], sortBy, direction, localeCompare);
      var rest := Insert(x, items[1..], sortBy, direction, localeCompare);
      assert items[1..] != [] ==> items[1..][0] == items[1];
      SortedCons(items[0], rest, sortBy, direction, localeCompare);
    }
  }

  /** `[...items].sort(comparator)`: a sorted rearrangement of a copy of the
      items (the argument, a value here, is never changed). */
  function SortItems(items: seq<FileItem>, sortBy: SortKey, direction: SortDirection,
                     localeCompare: (string, string) -> int): (r: seq<FileItem>)
    requires Total(localeCompare)
    ensures Sorted(r, sortBy, direction, localeCompare)
    ensures multiset(r) == multiset(items)
    ensures |r| == |items|
  {
    if items == [] then []
    else
      var rest := SortItems(items[1..], sortBy, direction, localeCompare);
      InsertSorted(items[0], rest, sortBy, direction, localeCompare);
      assert items == [items[0]] + items[1..];
      Insert(items[0], rest, sortBy, direction, localeCompare)
  }

  lemma {:induction false} FolderPrefix(items: seq<FileItem>, sortBy: SortKey, direction: SortDirection,
                                        localeCompare: (string, string) -> int, j: nat)
    requires Sorted(items, sortBy, direction, localeCompare)
    requires j < |items| && items[j].kind == FolderKind
    ensures forall i :: 0 <= i <= j ==> items[i].kind == FolderKind
  {
    if j > 0 {
      assert Compare(items[j - 1], items[j], sortBy, direction, localeCompare) <= 0;
      FolderPrefix(items, sortBy, direction, localeCompare, j - 1);
    }
  }

  /** In a sorted listing every folder comes before every file, whatever the
      key and direction. */
  lemma FoldersBeforeFiles(items: seq<FileItem>, sortBy: SortKey, direction: SortDirection,
                           localeCompare: (string, string) -> int)
    requires Sorted(items, sortBy, direction, localeCompare)
    ensures forall i, j :: 0 <= i < j < |items| && items[j].kind == FolderKind ==> items[i].kind == FolderKind
  {
    forall i, j | 0 <= i < j < |items| && items[j].kind == FolderKind ensures items[i].kind == FolderKind {
      FolderPrefix(items, sortBy, direction, localeCompare, j);
    }
  }

  lemma {:induction false} SortedPairwise(items: seq<FileItem>, sortBy: SortKey, direction: SortDirection,
                                          localeCompare: (string, string) -> int, i: nat, j: nat)
    requires Transitive(localeCompare)
    requires Sorted(items, sortBy, direction, localeCompare)
    requires i < j < |items|
    ensures Compare(items[i], items[j], sortBy, direction, localeCompare) <= 0
    decreases j - i
  {
    if i + 1 < j {
      SortedPairwise(items, sortBy, direction, localeCompare, i, j - 1);
      CompareTransitive(items[i], items[j - 1], items[j], sortBy, direction, localeCompare);
    }
  }

  /** Sorting by name ascending lists same-kind items in non-decreasing
      `localeCompare` order. */
  lemma NamesAscending(items: seq<FileItem>, localeCompare: (string, string) -> int)
    requires Total(localeCompare) && Transitive(localeCompare)
    ensures var sorted := SortItems(items, ByName, Asc, localeCompare);
            forall i, j :: 0 <= i < j < |sorted| && sorted[i].kind == sorted[j].kind ==>
              localeCompare(sorted[i].entry.name, sorted[j].entry.name) <= 0
  {
    var sorted := SortItems(items, ByName, Asc, localeCompare);
    forall i, j | 0 <= i < j < |sorted| && sorted[i].kind == sorted[j].kind
      ensures localeCompare(sorted[i].entry.name, sorted[j].entry.name) <= 0
    {
      SortedPairwise(sorted, ByName, Asc, localeCompare, i, j);
    }
  }

  datatype Badge = Processing | Indexed | NotIndexed
  datatype MenuAction = IndexAction | DeIndexAction

  /** What one table row shows. */
  datatype Row = Row(selected: bool, isFolder: bool, badge: Badge, action: MenuAction, menuDisabled: bool)

  /** `record[id]` read as a condition: a missing key is falsy. */
  predicate Flag(record: map<string, bool>, id: string) {
    id in record && record[id]
  }

  /** The row for one item: "Processing" while it is loading, otherwise
      "Indexed" or "Not Indexed"; De-index offered exactly for indexed items,
      Index otherwise; the menu disabled while loading. */
  function RowFor(item: FileItem, selectedIds: seq<Option<string>>, indexedItems: map<string, bool>,
                  loadingItems: map<string, bool>): (row: Row)
    ensures row.selected <==> Some(item.Id()) in selectedIds
    ensures row.isFolder <==> item.kind == FolderKind
    ensures row.badge == Processing <==> Flag(loadingItems, item.Id())
    ensures row.badge == Indexed <==> !Flag(loadingItems, item.Id()) && Flag(indexedItems, item.Id())
    ensures row.badge == NotIndexed <==> !Flag(loadingItems, item.Id()) && !Flag(indexedItems, item.Id())
    ensures row.action == DeIndexAction <==> Flag(indexedItems, item.Id())
    ensures row.menuDisabled <==> Flag(loadingItems, item.Id())
  {
    var isIndexed := Flag(indexedItems, item.Id());
    var isLoading := Flag(loadingItems, item.Id());
    Row(
      Some(item.Id()) in selectedIds,
      item.kind == FolderKind,
      if isLoading then Processing else if isIndexed then Indexed else NotIndexed,
      if isIndexed then DeIndexAction else IndexAction,
      isLoading)
  }
}
