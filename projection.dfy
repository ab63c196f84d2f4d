/** The derived view of hooks/use-file-explorer.ts: the search filter, the
    split into folders and files, the `indexedItems` table, the
    `navigateToPath` lookup and the breadcrumbs. All of it is recomputed from
    the cached resource list, the search query and the current path. */
module Projection {
  import opened Wrappers
  import opened Types
  import opened Seqs
  import opened Text

  const OctetStream: string := "application/octet-stream"
  const IndexedStatus: string := "indexed"

  /** Case-insensitive substring match of the query against the resource path. */
  predicate Matches(query: string, r: Resource) {
    Includes(Lower(r.path), Lower(query))
  }

  function FilterResources(resources: seq<Resource>, query: string): seq<Resource> {
    Filter(resources, r => Matches(query, r))
  }

  predicate IsDirectory(r: Resource) { r.inodeType == DirectoryNode }
  predicate IsFile(r: Resource) { r.inodeType == FileNode }

  function ToFolder(r: Resource): Folder {
    Entry(r.resourceId, LastSegment(r.path), r.path, r.knowledgeBaseId, r.modifiedAt, None)
  }

  function ToFile(r: Resource): File {
    Entry(r.resourceId, LastSegment(r.path), r.path, r.knowledgeBaseId, r.modifiedAt, Some(OctetStream))
  }

  /** `r.status === 'indexed'` */
  predicate IsIndexed(r: Resource) { r.status == Some(IndexedStatus) }

  /** The `reduce` that builds `indexedItems`: entries are folded in from the
      left, so a later entry overwrites an earlier one with the same id. */
  function IndexedTable(resources: seq<Resource>): (table: map<string, bool>)
    ensures table.Keys == set r | r in resources :: r.resourceId
  {
    if resources == [] then map[]
    else
      var last := resources[|resources| - 1];
      IndexedTable(resources[..|resources| - 1])[last.resourceId := IsIndexed(last)]
  }

  datatype View = View(folders: seq<Folder>, files: seq<File>, indexedItems: map<string, bool>)

  /** The `useMemo` projection of the resource list under a search query. */
  function Project(resources: seq<Resource>, query: string): View {
    var filtered := FilterResources(resources, query);
    var dirs := Filter(filtered, IsDirectory);
    var regular := Filter(filtered, IsFile);
    View(
      seq(|dirs|, i requires 0 <= i < |dirs| => ToFolder(dirs[i])),
      seq(|regular|, i requires 0 <= i < |regular| => ToFile(regular[i])),
      IndexedTable(filtered))
  }

  /** The filter keeps exactly the matching resources, each as often as it
      is listed, and an empty query keeps the whole list unchanged. */
  lemma FilterResourcesSpec(resources: seq<Resource>, query: string)
    ensures forall r :: r in FilterResources(resources, query) <==> r in resources && Matches(query, r)
    ensures forall r :: multiset(FilterResources(resources, query))[r] ==
                        if Matches(query, r) then multiset(resources)[r] else 0
    ensures query == "" ==> FilterResources(resources, query) == resources
  {
    FilterMultiset(resources, r => Matches(query, r));
    forall r ensures r in FilterResources(resources, query) <==> r in resources && Matches(query, r) {
      FilterMembership(resources, r' => Matches(query, r'), r);
    }
    if query == "" {
      forall r | r in resources ensures Matches(query, r) {
        IncludesEmpty(Lower(r.path));
      }
      FilterKeepsAll(resources, r => Matches(query, r));
    }
  }

  /** The filter keeps the listing order: filtering a concatenation
      concatenates the filtered parts. */
  lemma FilterResourcesAppend(a: seq<Resource>, b: seq<Resource>, query: string)
    ensures FilterResources(a + b, query) == FilterResources(a, query) + FilterResources(b, query)
  {
    FilterAppend(a, b, r => Matches(query, r));
  }

  /** Folders and files between them account for every filtered resource. */
  lemma ProjectPartition(resources: seq<Resource>, query: string)
    ensures |Project(resources, query).folders| + |Project(resources, query).files| ==
            |FilterResources(resources, query)|
  {
    FilterPartition(FilterResources(resources, query), IsDirectory, IsFile);
  }

  /** Folders are exactly the filtered directories, one per directory and in
      listing order, each named by the last segment of its path and carrying
      no mime type. */
  lemma ProjectFolders(resources: seq<Resource>, query: string)
    ensures var folders := Project(resources, query).folders;
            var filtered := FilterResources(resources, query);
            var dirs := Filter(filtered, IsDirectory);
            && |folders| == |dirs|
            && (forall i :: 0 <= i < |folders| ==> folders[i] == ToFolder(dirs[i]))
            && (forall r :: r in filtered && IsDirectory(r) ==> ToFolder(r) in folders)
            && (forall f :: f in folders ==> exists r :: r in filtered && IsDirectory(r) && f == ToFolder(r))
            && (forall f :: f in folders ==> f.name == LastSegment(f.path) && f.mimeType == None)
  {
    var folders := Project(resources, query).folders;
    var filtered := FilterResources(resources, query);
    var dirs := Filter(filtered, IsDirectory);
    assert |folders| == |dirs|;
    forall r | r in filtered && IsDirectory(r) ensures ToFolder(r) in folders {
      FilterMembership(filtered, IsDirectory, r);
      var i :| 0 <= i < |dirs| && dirs[i] == r;
      assert folders[i] == ToFolder(r);
    }
    forall f | f in folders ensures exists r :: r in filtered && IsDirectory(r) && f == ToFolder(r) {
      var i :| 0 <= i < |folders| && folders[i] == f;
      assert dirs[i] in dirs;
    }
  }

  /** Files are exactly the filtered regular files, one per file and in
      listing order, each named by the last segment of its path and typed
      `application/octet-stream`. */
  lemma ProjectFiles(resources: seq<Resource>, query: string)
    ensures var files := Project(resources, query).files;
            var filtered := FilterResources(resources, query);
            var regular := Filter(filtered, IsFile);
            && |files| == |regular|
            && (forall i :: 0 <= i < |files| ==> files[i] == ToFile(regular[i]))
            && (forall r :: r in filtered && IsFile(r) ==> ToFile(r) in files)
            && (forall f :: f in files ==> exists r :: r in filtered && IsFile(r) && f == ToFile(r))
            && (forall f :: f in files ==> f.name == LastSegment(f.path) && f.mimeType == Some(OctetStream))
  {
    var files := Project(resources, query).files;
    var filtered := FilterResources(resources, query);
    var regular := Filter(filtered, IsFile);
    assert |files| == |regular|;
    forall r | r in filtered && IsFile(r) ensures ToFile(r) in files {
      FilterMembership(filtered, IsFile, r);
      var i :| 0 <= i < |regular| && regular[i] == r;
      assert files[i] == ToFile(r);
    }
    forall f | f in files ensures exists r :: r in filtered && IsFile(r) && f == ToFile(r) {
      var i :| 0 <= i < |files| && files[i] == f;
      assert regular[i] in regular;
    }
  }

  /** An id is marked indexed according to the LAST filtered entry carrying it. */
  lemma {:induction false} IndexedTableLastWins(resources: seq<Resource>, i: nat)
    requires i < |resources|
    requires forall j :: i < j < |resources| ==> resources[j].resourceId != resources[i].resourceId
    ensures resources[i].resourceId in IndexedTable(resources)
    ensures IndexedTable(resources)[resources[i].resourceId] == IsIndexed(resources[i])
  {
    if i < |resources| - 1 {
      var init := resources[..|resources| - 1];
      IndexedTableLastWins(init, i);
    }
  }

  /** `resources.find(r => r.inode_path.path === path)`, as an index. */
  function FindByPath(resources: seq<Resource>, path: string): (found: Option<nat>)
    ensures found.Some? ==> found.value < |resources| && resources[found.value].path == path
    ensures found.Some? ==> forall j :: 0 <= j < found.value ==> resources[j].path != path
    ensures found.None? ==> forall j :: 0 <= j < |resources| ==> resources[j].path != path
  {
    if resources == [] then None
    else if resources[0].path == path then Some(0)
    else match FindByPath(resources[1..], path)
      case None => None
      case Some(k) => Some(k + 1)
  }

  /** `resource?.resource_id || null`: the id of the first resource at `path`,
      treating an empty id as absent. */
  function NavigationTarget(resources: seq<Resource>, path: string): (id: Option<string>)
    ensures id.Some? <==> exists i :: 0 <= i < |resources| && resources[i].path == path && resources[i].resourceId != "" &&
                                     forall j :: 0 <= j < i ==> resources[j].path != path
    ensures id.Some? ==> exists i :: 0 <= i < |resources| && resources[i].path == path && resources[i].resourceId == id.value &&
                                     forall j :: 0 <= j < i ==> resources[j].path != path
  {
    match FindByPath(resources, path)
    case None => None
    case Some(i) => if resources[i].resourceId == "" then None else Some(resources[i].resourceId)
  }

  datatype Crumb = Crumb(name: string, path: string)

  predicate NonEmpty(s: string) { s != "" }

  /** `path.split('/').filter(Boolean)` */
  function Segments(path: string): seq<string> {
    Filter(Split(path, '/'), NonEmpty)
  }

  /** One crumb per non-empty segment; the i-th points at "/" followed by the
      first i+1 segments joined by '/'. */
  function Breadcrumbs(currentPath: string): (crumbs: seq<Crumb>)
    ensures |crumbs| == |Segments(currentPath)|
    ensures forall i :: 0 <= i < |crumbs| ==> crumbs[i].name == Segments(currentPath)[i]
  {
    var segs := Segments(currentPath);
    seq(|segs|, i requires 0 <= i < |segs| => Crumb(segs[i], "/" + Join(segs[..i + 1], '/')))
  }

  /** Crumb names are non-empty and slash-free. */
  lemma CrumbNamesValid(currentPath: string)
    ensures var crumbs := Breadcrumbs(currentPath);
            forall i :: 0 <= i < |crumbs| ==> crumbs[i].name != "" && '/' !in crumbs[i].name
  {
    var segs := Segments(currentPath);
    var crumbs := Breadcrumbs(currentPath);
    forall i | 0 <= i < |crumbs| ensures crumbs[i].name != "" && '/' !in crumbs[i].name {
      assert segs[i] in segs;
      FilterMembership(Split(currentPath, '/'), NonEmpty, segs[i]);
    }
  }

  /** Each crumb's path extends the previous one by "/" and its name. */
  lemma CrumbPathsExtend(currentPath: string)
    ensures var crumbs := Breadcrumbs(currentPath);
            forall i :: 0 <= i < |crumbs| - 1 ==> crumbs[i + 1].path == crumbs[i].path + "/" + crumbs[i + 1].name
  {
    var segs := Segments(currentPath);
    var crumbs := Breadcrumbs(currentPath);
    forall i | 0 <= i < |crumbs| - 1
      ensures crumbs[i + 1].path == crumbs[i].path + "/" + crumbs[i + 1].name
    {
      var prefix := segs[..i + 2];
      assert prefix[..i + 1] == segs[..i + 1];
      assert Join(prefix, '/') == Join(segs[..i + 1], '/') + ['/'] + segs[i + 1];
    }
  }

  /** Crumb names are the non-empty, slash-free segments, the first crumb
      points at "/name", and each crumb's path extends the previous one by
      "/name". */
  lemma BreadcrumbsChain(currentPath: string)
    ensures var crumbs := Breadcrumbs(currentPath);
            && (forall i :: 0 <= i < |crumbs| ==> crumbs[i].name != "" && '/' !in crumbs[i].name)
            && (|crumbs| > 0 ==> crumbs[0].path == "/" + crumbs[0].name)
            && (forall i :: 0 <= i < |crumbs| - 1 ==> crumbs[i + 1].path == crumbs[i].path + "/" + crumbs[i + 1].name)
  {
    var segs := Segments(currentPath);
    CrumbNamesValid(currentPath);
    CrumbPathsExtend(currentPath);
    if |segs| > 0 {
      assert Join(segs[..1], '/') == segs[0];
    }
  }

  /** The root path "/" has no breadcrumbs. */
  lemma RootHasNoBreadcrumbs()
    ensures Breadcrumbs("/") == []
  {
    assert Split("/"[..0], '/') == [[]];
    assert Split("/", '/') == [[], []];
  }

  lemma {:induction false} JoinCons(head: string, rest: seq<string>, sep: char)
    requires |rest| >= 1
    ensures Join([head] + rest, sep) == head + [sep] + Join(rest, sep)
    decreases |rest|
  {
    var parts := [head] + rest;
    if |rest| > 1 {
      JoinCons(head, rest[..|rest| - 1], sep);
      assert parts[..|parts| - 1] == [head] + rest[..|rest| - 1];
    }
  }

  /** For a normalised absolute path the segments are recovered exactly. */
  lemma NormalPathSegments(segs: seq<string>)
    requires |segs| >= 1
    requires forall i :: 0 <= i < |segs| ==> segs[i] != "" && '/' !in segs[i]
    ensures Segments("/" + Join(segs, '/')) == segs
  {
    var parts: seq<string> := [[]] + segs;
    SplitOfNormalPath(segs);
    assert parts[0] == [] && parts[1..] == segs;
    assert Filter(parts, NonEmpty) == Filter(segs, NonEmpty);
    forall x | x in segs ensures NonEmpty(x) { }
    FilterKeepsAll(segs, NonEmpty);
  }

  lemma SlashFreeWithEmptyHead(segs: seq<string>)
    requires forall i :: 0 <= i < |segs| ==> '/' !in segs[i]
    ensures var parts: seq<string> := [[]] + segs;
            forall i :: 0 <= i < |parts| ==> '/' !in parts[i]
  {
    var parts: seq<string> := [[]] + segs;
    forall i | 0 <= i < |parts| ensures '/' !in parts[i] {
      if i > 0 { assert parts[i] == segs[i - 1]; }
    }
  }

  lemma SplitOfNormalPath(segs: seq<string>)
    requires |segs| >= 1
    requires forall i :: 0 <= i < |segs| ==> '/' !in segs[i]
    ensures Split("/" + Join(segs, '/'), '/') == [[]] + segs
  {
    var parts: seq<string> := [[]] + segs;
    var joined := Join(segs, '/');
    JoinCons([], segs, '/');
    assert [] + ['/'] + joined == "/" + joined;
    SlashFreeWithEmptyHead(segs);
    SplitJoin(parts, '/');
  }

  /** For any path, the last breadcrumb points at "/" followed by all the
      non-empty segments joined by '/'. */
  lemma LastCrumbJoinsSegments(currentPath: string)
    ensures var crumbs := Breadcrumbs(currentPath);
            |crumbs| > 0 ==> crumbs[|crumbs| - 1].path == "/" + Join(Segments(currentPath), '/')
  {
    var segs := Segments(currentPath);
    assert segs[..|segs|] == segs;
  }

  /** The last breadcrumb of a normalised absolute path navigates back to
      the path itself. */
  lemma LastCrumbIsPath(segs: seq<string>)
    requires |segs| >= 1
    requires forall i :: 0 <= i < |segs| ==> segs[i] != "" && '/' !in segs[i]
    ensures var crumbs := Breadcrumbs("/" + Join(segs, '/'));
            |crumbs| == |segs| && crumbs[|crumbs| - 1].path == "/" + Join(segs, '/')
  {
    NormalPathSegments(segs);
    LastCrumbJoinsSegments("/" + Join(segs, '/'));
  }

  /** A two-level path "/a/b" yields the crumbs a at "/a" and b at "/a/b". */
  lemma BreadcrumbsTwoLevels(a: string, b: string)
    requires a != "" && '/' !in a
    requires b != "" && '/' !in b
    ensures var crumbs := Breadcrumbs("/" + a + "/" + b);
            |crumbs| == 2 && crumbs[0] == Crumb(a, "/" + a) && crumbs[1] == Crumb(b, "/" + a + "/" + b)
  {
    var segs := [a, b];
    assert Join(segs, '/') == a + "/" + b by {
      assert segs[..1] == [a];
    }
    NormalPathSegments(segs);
    assert "/" + Join(segs, '/') == "/" + a + "/" + b;
    BreadcrumbsChain("/" + a + "/" + b);
  }

}
