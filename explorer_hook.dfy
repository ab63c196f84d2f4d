/** The state of hooks/use-file-explorer.ts: the current path and folder id,
    the search query, and the query cache that the index and de-index
    mutations patch optimistically, commit on success and roll back on error.
    The cache is a plain map from query key to resource list; cancellation,
    invalidation and refetching are not modelled. */
module ExplorerHook {
  import opened Wrappers
  import opened Types
  import opened Seqs
  import opened Text
  import opened Projection
  import opened GoogleDrive

  const IndexingStatus: string := "indexing"
  const DeindexingStatus: string := "deindexing"
  const DeIndexedStatus: string := "de-indexed"

  /** `['resources']` and `['resources', currentResourceId]` are distinct keys. */
  datatype QueryKey = AllResources | ResourcesOf(parent: Option<string>)

  /** The fields of the `indexResource` response the success handler reads. */
  datatype IndexResponse = IndexResponse(knowledgeBaseId: Option<string>, status: Option<string>)

  /** The argument of the de-index mutation. A field is None when the object
      passed in has no property of that name, so that reading it gives
      undefined. */
  datatype DeIndexArgs = DeIndexArgs(knowledgeBaseId: Option<string>, resourcePath: Option<string>, resourceId: Option<string>)

  /** `old.map(r => r.resource_id === target ? f(r) : r)`. The target is
      `Some(id)` for a string id and None for a value that no `resource_id`
      is strictly equal to (undefined, or an object passed where an id was
      expected). */
  function Patch(resources: seq<Resource>, target: Option<string>, f: Resource -> Resource): (r: seq<Resource>)
    ensures |r| == |resources|
    ensures forall i :: 0 <= i < |r| && Some(resources[i].resourceId) != target ==> r[i] == resources[i]
    ensures forall i :: 0 <= i < |r| && Some(resources[i].resourceId) == target ==> r[i] == f(resources[i])
    ensures target.None? ==> r == resources
  {
    Map(resources, (r: Resource) => if Some(r.resourceId) == target then f(r) else r)
  }

  /** The status patch of the optimistic updates and of the de-index commit:
      entries with the id get the new status and keep every other field; all
      other entries, the length and the order are unchanged. */
  function WithStatus(resources: seq<Resource>, target: Option<string>, status: string): (r: seq<Resource>)
    ensures |r| == |resources|
    ensures forall i :: 0 <= i < |r| && Some(resources[i].resourceId) != target ==> r[i] == resources[i]
    ensures forall i :: 0 <= i < |r| && Some(resources[i].resourceId) == target ==>
              r[i].status == Some(status) && r[i].(status := resources[i].status) == resources[i]
  {
    Patch(resources, target, (r: Resource) => r.(status := Some(status)))
  }

  /** The index commit: entries with the id take the knowledge base id and the
      status of the server's answer and keep every other field. */
  function WithIndexResult(resources: seq<Resource>, target: Option<string>, response: IndexResponse): (r: seq<Resource>)
    ensures |r| == |resources|
    ensures forall i :: 0 <= i < |r| && Some(resources[i].resourceId) != target ==> r[i] == resources[i]
    ensures forall i :: 0 <= i < |r| && Some(resources[i].resourceId) == target ==>
              && r[i].status == response.status && r[i].knowledgeBaseId == response.knowledgeBaseId
              && r[i].(status := resources[i].status, knowledgeBaseId := resources[i].knowledgeBaseId) == resources[i]
  {
    Patch(resources, target, (r: Resource) => r.(knowledgeBaseId := response.knowledgeBaseId, status := response.status))
  }

  /** The commit overwrites everything the optimistic patch wrote, so after a
      successful index the cached list is the original list with the answer
      applied. */
  lemma IndexCommitOverridesOptimistic(resources: seq<Resource>, target: Option<string>, response: IndexResponse)
    ensures WithIndexResult(WithStatus(resources, target, IndexingStatus), target, response) ==
            WithIndexResult(resources, target, response)
  {
  }

  /** A patch that keeps paths commutes with the search filter. */
  lemma {:induction false} PatchCommutesWithFilter(resources: seq<Resource>, target: Option<string>, f: Resource -> Resource, query: string)
    requires forall r :: f(r).path == r.path
    ensures FilterResources(Patch(resources, target, f), query) == Patch(FilterResources(resources, query), target, f)
  {
    var g := (r: Resource) => if Some(r.resourceId) == target then f(r) else r;
    forall r ensures Matches(query, g(r)) == Matches(query, r) {
      assert g(r).path == r.path;
    }
    FilterMap(resources, g, r => Matches(query, r));
  }

  /** A patch that keeps ids lists the same ids. */
  lemma PatchKeepsIds(resources: seq<Resource>, target: Option<string>, f: Resource -> Resource)
    requires forall r :: f(r).resourceId == r.resourceId
    ensures IndexedTable(Patch(resources, target, f)).Keys == IndexedTable(resources).Keys
  {
    var p := Patch(resources, target, f);
    var before := set r | r in resources :: r.resourceId;
    var after := set r | r in p :: r.resourceId;
    forall k | k in before ensures k in after {
      var i :| 0 <= i < |resources| && resources[i].resourceId == k;
      assert p[i] in p;
    }
    forall k | k in after ensures k in before {
      var i :| 0 <= i < |p| && p[i].resourceId == k;
      assert resources[i] in resources;
    }
  }

  /** After a patch that keeps ids and sets every matching entry's indexed
      flag to `flag`, the table maps `id` to `flag` (when `id` is listed) and
      every other id to what it mapped to before. */
  lemma {:induction false} IndexedTableAfterPatch(resources: seq<Resource>, id: string, f: Resource -> Resource, flag: bool)
    requires forall r :: f(r).resourceId == r.resourceId && IsIndexed(f(r)) == flag
    ensures IndexedTable(Patch(resources, Some(id), f)).Keys == IndexedTable(resources).Keys
    ensures forall k :: k in IndexedTable(resources) ==>
              IndexedTable(Patch(resources, Some(id), f))[k] == if k == id then flag else IndexedTable(resources)[k]
  {
    PatchKeepsIds(resources, Some(id), f);
    if resources != [] {
      var n := |resources| - 1;
      assert Patch(resources, Some(id), f)[..n] == Patch(resources[..n], Some(id), f);
      IndexedTableAfterPatch(resources[..n], id, f, flag);
    }
  }

  /** After a patch that keeps ids and paths and sets the indexed flag of
      the matching entries to `flag`, a resource with that id that passes the
      search filter shows that flag. */
  lemma ProjectedFlagAfterPatch(resources: seq<Resource>, id: string, f: Resource -> Resource, flag: bool, query: string)
    requires forall r :: f(r).resourceId == r.resourceId && f(r).path == r.path && IsIndexed(f(r)) == flag
    requires exists r :: r in resources && r.resourceId == id && Matches(query, r)
    ensures id in Project(Patch(resources, Some(id), f), query).indexedItems
    ensures Project(Patch(resources, Some(id), f), query).indexedItems[id] == flag
  {
    var r :| r in resources && r.resourceId == id && Matches(query, r);
    FilterResourcesSpec(resources, query);
    var filtered := FilterResources(resources, query);
    assert id in IndexedTable(filtered);
    PatchCommutesWithFilter(resources, Some(id), f, query);
    IndexedTableAfterPatch(filtered, id, f, flag);
  }

  /** After a successful index whose answer says "indexed", a visible
      resource with the id shows as indexed. */
  lemma IndexCommitShowsIndexed(resources: seq<Resource>, id: string, query: string, response: IndexResponse)
    requires exists r :: r in resources && r.resourceId == id && Matches(query, r)
    requires response.status == Some(IndexedStatus)
    ensures id in Project(WithIndexResult(resources, Some(id), response), query).indexedItems
    ensures Project(WithIndexResult(resources, Some(id), response), query).indexedItems[id]
  {
    var commit := (r: Resource) => r.(knowledgeBaseId := response.knowledgeBaseId, status := response.status);
    ProjectedFlagAfterPatch(resources, id, commit, true, query);
  }

  /** After the de-index commit, a visible resource with the id shows as not
      indexed. */
  lemma DeIndexCommitShowsNotIndexed(resources: seq<Resource>, id: string, query: string)
    requires exists r :: r in resources && r.resourceId == id && Matches(query, r)
    ensures id in Project(WithStatus(resources, Some(id), DeIndexedStatus), query).indexedItems
    ensures !Project(WithStatus(resources, Some(id), DeIndexedStatus), query).indexedItems[id]
  {
    var deindex := (r: Resource) => r.(status := Some(DeIndexedStatus));
    ProjectedFlagAfterPatch(resources, id, deindex, false, query);
  }

  /** The round trip of the explorer's indexed flags: after a successful index
      whose answer says "indexed", a visible resource shows as indexed; after
      the de-index commit that follows, it shows as not indexed. */
  lemma IndexThenDeIndexRoundTrip(resources: seq<Resource>, id: string, query: string, response: IndexResponse)
    requires exists r :: r in resources && r.resourceId == id && Matches(query, r)
    requires response.status == Some(IndexedStatus)
    ensures var indexed := WithIndexResult(resources, Some(id), response);
            && id in Project(indexed, query).indexedItems
            && Project(indexed, query).indexedItems[id]
            && id in Project(WithStatus(indexed, Some(id), DeIndexedStatus), query).indexedItems
            && !Project(WithStatus(indexed, Some(id), DeIndexedStatus), query).indexedItems[id]
  {
    IndexCommitShowsIndexed(resources, id, query, response);
    var indexed := WithIndexResult(resources, Some(id), response);
    var r :| r in resources && r.resourceId == id && Matches(query, r);
    var i :| 0 <= i < |resources| && resources[i] == r;
    assert indexed[i].path == r.path && indexed[i].resourceId == id;
    assert indexed[i] in indexed && Matches(query, indexed[i]);
    DeIndexCommitShowsNotIndexed(indexed, id, query);
  }

  /** The explorer hook's state. */
  class FileExplorerHook {
    var currentPath: string
    var currentResourceId: Option<string>
    var searchQuery: string
    var cache: map<QueryKey, seq<Resource>>

    constructor ()
      ensures currentPath == "/" && currentResourceId == None && searchQuery == "" && cache == map[]
    {
      currentPath := "/";
      currentResourceId := None;
      searchQuery := "";
      cache := map[];
    }

    /** The key of the listing on screen: `['resources', currentResourceId]`. */
    function CurrentKey(): QueryKey
      reads this
    {
      ResourcesOf(currentResourceId)
    }

    /** `queryClient.getQueryData(key)`: undefined when nothing is cached. */
    function Snapshot(key: QueryKey): Option<seq<Resource>>
      reads this
    {
      if key in cache then Some(cache[key]) else None
    }

    /** The list an updater `(old: Resource[] = []) => …` receives. */
    function CachedOrEmpty(key: QueryKey): seq<Resource>
      reads this
    {
      if key in cache then cache[key] else []
    }

    /** `data: resources = []` of the listing query. */
    function Resources(): seq<Resource>
      reads this
    {
      CachedOrEmpty(CurrentKey())
    }

    method SetSearchQuery(query: string)
      modifies this`searchQuery
      ensures searchQuery == query
    {
      searchQuery := query;
    }

    /** `navigateToPath(path)`: the folder id becomes that of the first
        listed resource at `path`, or null when there is none. */
    method NavigateToPath(path: string)
      modifies this`currentPath, this`currentResourceId
      ensures currentPath == path
      ensures currentResourceId == NavigationTarget(old(Resources()), path)
    {
      var resources := Resources();
      currentPath := path;
      currentResourceId := NavigationTarget(resources, path);
    }

    /** `setQueryData(key, previous)`: writing undefined leaves the cache as it is. */
    method Restore(key: QueryKey, previous: Option<seq<Resource>>)
      modifies this`cache
      ensures cache == if previous.Some? then old(cache)[key := previous.value] else old(cache)
    {
      if previous.Some? {
        cache := cache[key := previous.value];
      }
    }

    /** `indexMutation.onMutate`: snapshot the listing, then mark the
        matching entries as indexing. */
    method IndexOnMutate(target: Option<string>) returns (previous: Option<seq<Resource>>)
      modifies this`cache
      ensures previous == old(Snapshot(CurrentKey()))
      ensures cache == old(cache)[CurrentKey() := WithStatus(old(CachedOrEmpty(CurrentKey())), target, IndexingStatus)]
    {
      var key := CurrentKey();
      previous := Snapshot(key);
      cache := cache[key := WithStatus(CachedOrEmpty(key), target, IndexingStatus)];
    }

    /** `indexMutation.onSuccess`: apply the server's answer to the listing. */
    method IndexOnSuccess(target: Option<string>, response: IndexResponse)
      modifies this`cache
      ensures cache == old(cache)[CurrentKey() := WithIndexResult(old(CachedOrEmpty(CurrentKey())), target, response)]
    {
      var key := CurrentKey();
      cache := cache[key := WithIndexResult(CachedOrEmpty(key), target, response)];
    }

    /** `indexItem(target)`: the whole index mutation. `response` is what
        `indexResource` resolved to, None when it rejected. On success the
        listing holds the answer; on failure the listing is back to
        the snapshot, or to the empty list the optimistic update created when
        nothing was cached. A target that is not an id changes nothing on
        screen. */
    method IndexItem(target: Option<string>, response: Option<IndexResponse>) returns (ok: bool)
      modifies this`cache
      ensures ok <==> response.Some?
      ensures ok ==> cache == old(cache)[CurrentKey() := WithIndexResult(old(Resources()), target, response.value)]
      ensures !ok ==> cache == old(cache)[CurrentKey() := old(Resources())]
      ensures !ok && CurrentKey() in old(cache) ==> cache == old(cache)
      ensures target.None? ==> Resources() == old(Resources())
    {
      var previous := IndexOnMutate(target);
      if response.Some? {
        IndexCommitOverridesOptimistic(old(Resources()), target, response.value);
        IndexOnSuccess(target, response.value);
        ok := true;
      } else {
        Restore(CurrentKey(), previous);
        ok := false;
      }
    }

    /** `deIndexMutation.onMutate`: snapshots and patches the key
        `['resources']`, which is not the key of the listing on screen. */
    method DeIndexOnMutate(target: Option<string>) returns (previous: Option<seq<Resource>>)
      modifies this`cache
      ensures previous == old(Snapshot(AllResources))
      ensures cache == old(cache)[AllResources := WithStatus(old(CachedOrEmpty(AllResources)), target, DeindexingStatus)]
      ensures Resources() == old(Resources())
    {
      previous := Snapshot(AllResources);
      cache := cache[AllResources := WithStatus(CachedOrEmpty(AllResources), target, DeindexingStatus)];
    }

    /** `deIndexMutation.onSuccess`: commits to the listing on screen. */
    method DeIndexOnSuccess(target: Option<string>)
      modifies this`cache
      ensures cache == old(cache)[CurrentKey() := WithStatus(old(CachedOrEmpty(CurrentKey())), target, DeIndexedStatus)]
    {
      var key := CurrentKey();
      cache := cache[key := WithStatus(CachedOrEmpty(key), target, DeIndexedStatus)];
    }

    /** `deIndexItem(args)`: the whole de-index mutation. Its remote call is
        `deIndexResource(args.knowledgeBaseId)`, so the knowledge base id is
        what the API looks up as a resource id; `connected`, `fetched` and
        `deleteSucceeds` are the answers of the connection lookup, of the
        resource lookup and of the DELETE. On failure the listing on screen is
        as before. */
    method DeIndexItem(args: DeIndexArgs, connected: bool, fetched: Option<Resource>, deleteSucceeds: bool)
      returns (ok: bool, requests: seq<Request>)
      modifies this`cache
      ensures requests == DeIndexResource(args.knowledgeBaseId, connected, fetched, deleteSucceeds).requests
      ensures connected ==> requests[1] == GetResource(args.knowledgeBaseId)
      ensures ok <==> connected && fetched.Some? && HasValidKnowledgeBase(fetched.value.knowledgeBaseId) && deleteSucceeds
      ensures ok ==> cache == old(cache)
                      [AllResources := WithStatus(old(CachedOrEmpty(AllResources)), args.resourceId, DeindexingStatus)]
                      [CurrentKey() := WithStatus(old(Resources()), args.resourceId, DeIndexedStatus)]
      ensures !ok ==> cache == old(cache)[AllResources := old(CachedOrEmpty(AllResources))]
      ensures !ok || args.resourceId.None? ==> Resources() == old(Resources())
    {
      var previous := DeIndexOnMutate(args.resourceId);
      var run := DeIndexResource(args.knowledgeBaseId, connected, fetched, deleteSucceeds);
      requests := run.requests;
      if run.outcome.Success? {
        DeIndexOnSuccess(args.resourceId);
        ok := true;
      } else {
        Restore(AllResources, previous);
        ok := false;
      }
    }
  }
}
