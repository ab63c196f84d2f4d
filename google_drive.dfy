/** The modelled slice of lib/api/google-drive.ts: `deIndexResource`'s
    knowledge-base validity check and the order of the requests around it, and
    `removeResource`. The HTTP exchanges are not modelled; their answers are
    parameters: `connected` is whether the connection lookup
    (`getConnectionUrls`, itself a GET) succeeded, `fetched` the resource the
    resource GET returned (None when that GET failed), `deleteSucceeds` the
    DELETE's fate. */
module GoogleDrive {
  import opened Wrappers
  import opened Types

  /** The all-zero UUID the backend uses for "no knowledge base". */
  const NilKnowledgeBaseId: string := "00000000-0000-0000-0000-000000000000"

  /** The requests `deIndexResource` issues, in order. `GetConnections` is
      the connection list that yields the resources URL; `GetResource`
      carries the id exactly as the caller passed it, which may be absent. */
  datatype Request =
    | GetConnections
    | GetResource(resourceId: Option<string>)
    | DeleteFromKnowledgeBase(knowledgeBaseId: string, resourcePath: string)

  datatype ApiError = ConnectionFailed | FetchFailed | NoValidKnowledgeBase | DeleteFailed

  datatype Run = Run(requests: seq<Request>, outcome: Result<(), ApiError>)

  /** `!knowledgeBaseId || knowledgeBaseId === '0000…'` negated: a knowledge
      base id is usable when it is present, non-empty and not the nil UUID. */
  function HasValidKnowledgeBase(knowledgeBaseId: Option<string>): (ok: bool)
    ensures ok <==> knowledgeBaseId.Some? && knowledgeBaseId.value != "" && knowledgeBaseId.value != NilKnowledgeBaseId
  {
    match knowledgeBaseId
    case None => false
    case Some(id) => id != "" && id != NilKnowledgeBaseId
  }

  /** `deIndexResource(resourceId)`: look up the connection, fetch the
      resource, check its knowledge base, and only then delete it from that
      knowledge base. A failed connection lookup ends the call before the
      resource GET. */
  function DeIndexResource(resourceId: Option<string>, connected: bool, fetched: Option<Resource>, deleteSucceeds: bool): (run: Run)
    ensures |run.requests| >= 1 && run.requests[0] == GetConnections
    ensures !connected ==> run == Run([GetConnections], Failure(ConnectionFailed))
    ensures (exists i :: 0 <= i < |run.requests| && run.requests[i].GetResource?) <==> connected
    ensures connected ==> |run.requests| >= 2 && run.requests[1] == GetResource(resourceId)
    ensures connected && fetched.None? ==>
              run == Run([GetConnections, GetResource(resourceId)], Failure(FetchFailed))
    ensures connected && fetched.Some? && !HasValidKnowledgeBase(fetched.value.knowledgeBaseId) ==>
              run == Run([GetConnections, GetResource(resourceId)], Failure(NoValidKnowledgeBase))
    ensures (exists i :: 0 <= i < |run.requests| && run.requests[i].DeleteFromKnowledgeBase?) <==>
              connected && fetched.Some? && HasValidKnowledgeBase(fetched.value.knowledgeBaseId)
    ensures connected && fetched.Some? && HasValidKnowledgeBase(fetched.value.knowledgeBaseId) ==>
              run.requests == [GetConnections, GetResource(resourceId),
                               DeleteFromKnowledgeBase(fetched.value.knowledgeBaseId.value, fetched.value.path)]
    ensures run.outcome.Success? <==>
              connected && fetched.Some? && HasValidKnowledgeBase(fetched.value.knowledgeBaseId) && deleteSucceeds
  {
    if !connected then Run([GetConnections], Failure(ConnectionFailed))
    else
      var get := GetResource(resourceId);
      assert [GetConnections, get][1].GetResource?;
      match fetched
      case None => Run([GetConnections, get], Failure(FetchFailed))
      case Some(resource) =>
        if !HasValidKnowledgeBase(resource.knowledgeBaseId) then Run([GetConnections, get], Failure(NoValidKnowledgeBase))
        else
          var delete := DeleteFromKnowledgeBase(resource.knowledgeBaseId.value, resource.path);
          var run := Run([GetConnections, get, delete], if deleteSucceeds then Success(()) else Failure(DeleteFailed));
          assert run.requests[1].GetResource? && run.requests[2].DeleteFromKnowledgeBase?;
          run
  }

  /** `removeResource(resourceId)` only delegates to `deIndexResource`. */
  function RemoveResource(resourceId: Option<string>, connected: bool, fetched: Option<Resource>, deleteSucceeds: bool): (run: Run)
    ensures run == DeIndexResource(resourceId, connected, fetched, deleteSucceeds)
  {
    DeIndexResource(resourceId, connected, fetched, deleteSucceeds)
  }

  /** A resource whose knowledge base is the nil UUID is rejected without any
      DELETE being issued. */
  lemma NilKnowledgeBaseRejected(resourceId: Option<string>, resource: Resource, deleteSucceeds: bool)
    requires resource.knowledgeBaseId == Some(NilKnowledgeBaseId)
    ensures DeIndexResource(resourceId, true, Some(resource), deleteSucceeds) ==
            Run([GetConnections, GetResource(resourceId)], Failure(NoValidKnowledgeBase))
  {
  }
}
