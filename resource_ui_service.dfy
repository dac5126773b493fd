/** The Blazor client's view of the resources: a list of ResourceDto kept in step with the
    server by the hub handlers, reloaded on sign-in and cleared on sign-out. */
module ResourceUi {
  import opened Wrappers
  import opened Guids
  import opened ResourceDtos
  import opened NameOrder

  const NotAuthenticatedToCreate := "User is not authenticated to create resources."
  const NotAuthenticatedToUpdate := "User is not authenticated to update resources."
  const NotAuthenticatedToDelete := "User is not authenticated to delete resources."

  const StatusUnauthorized := 401

  /** The requests the client sends to the resources endpoint. */
  datatype ApiRequest =
    | GetResources
    | PostResource(create: CreateResourceDto)
    | PutResource(id: Guid, update: UpdateResourceDto)
    | DeleteResourceById(id: Guid)

  /** What `GetFromJsonAsync<List<ResourceDto>>` yields: a body (JSON `null` is None), an
      HttpRequestException for a non-success status, or any other exception. */
  datatype LoadResponse =
    | Loaded(body: Option<seq<ResourceDto>>)
    | HttpError(statusCode: Option<int>)
    | OtherError

  /** `List.FindIndex(r => r.Id == id)`: the first index holding the id, or -1. */
  function FindIndex(list: seq<ResourceDto>, id: Guid): (r: int)
    ensures -1 <= r < |list|
    ensures r == -1 <==> id !in IdsOf(list)
    ensures r >= 0 ==> list[r].id == id && forall j | 0 <= j < r :: list[j].id != id
  {
    if list == [] then -1
    else if list[0].id == id then 0
    else
      var k := FindIndex(list[1..], id);
      assert id in IdsOf(list) <==> id in IdsOf(list[1..]) by {
        if id in IdsOf(list) {
          var j :| 0 <= j < |list| && list[j].id == id;
          assert list[1..][j - 1] == list[j];
        }
        if id in IdsOf(list[1..]) {
          var j :| 0 <= j < |list[1..]| && list[1..][j].id == id;
          assert list[j + 1] == list[1..][j];
        }
      }
      if k == -1 then -1 else k + 1
  }

  /** `FirstOrDefault(r => r.Id == id)`: the entry at the first index holding the id, or null. */
  function FirstWithId(list: seq<ResourceDto>, id: Guid): (r: Option<ResourceDto>)
    ensures r.None? <==> FindIndex(list, id) == -1
    ensures r.Some? ==> r.value == list[FindIndex(list, id)]
  {
    if list == [] then None
    else if list[0].id == id then Some(list[0])
    else FirstWithId(list[1..], id)
  }

  /** `List.IndexOf(x)`: the first index holding x, or -1. */
  function IndexOf(list: seq<ResourceDto>, x: ResourceDto): (r: int)
    ensures -1 <= r < |list|
    ensures r == -1 <==> x !in list
    ensures r >= 0 ==> list[r] == x && forall j | 0 <= j < r :: list[j] != x
  {
    if list == [] then -1
    else if list[0] == x then 0
    else
      var k := IndexOf(list[1..], x);
      assert x in list <==> x in list[1..] by { assert list == [list[0]] + list[1..]; }
      if k == -1 then -1 else k + 1
  }

  /** The created-handler looks the entry up with FirstOrDefault and then asks IndexOf for its
      position; that position is the one FindIndex gives the update handler. */
  lemma IndexOfFirstWithId(list: seq<ResourceDto>, id: Guid)
    requires FirstWithId(list, id).Some?
    ensures IndexOf(list, FirstWithId(list, id).value) == FindIndex(list, id)
  {
    var i := FindIndex(list, id);
    var r := IndexOf(list, list[i]);
    assert list[r].id == id;
  }

  /** Replace the entry at the first index holding dto's id, or append dto when none does. */
  function Upserted(list: seq<ResourceDto>, dto: ResourceDto): (r: seq<ResourceDto>)
    ensures IdsOf(r) == IdsOf(list) + {dto.id}
    ensures DistinctIds(list) ==> DistinctIds(r)
    ensures dto in r
    ensures dto.id in IdsOf(list) ==> |r| == |list|
    ensures dto.id !in IdsOf(list) ==> r == list + [dto]
    ensures var i := FindIndex(list, dto.id); i >= 0 ==> r == list[i := dto]
    ensures var i := FindIndex(list, dto.id);
      multiset(r) == multiset(list) - (if i == -1 then multiset{} else multiset{list[i]}) + multiset{dto}
  {
    var i := FindIndex(list, dto.id);
    if i == -1 then
      IdsOfAppend(list, dto);
      list + [dto]
    else
      ReplacedKeepsIds(list, i, dto);
      assert list[i := dto][i] == dto;
      list[i := dto]
  }

  lemma ReplacedKeepsIds(list: seq<ResourceDto>, i: nat, dto: ResourceDto)
    requires i < |list| && list[i].id == dto.id
    ensures IdsOf(list[i := dto]) == IdsOf(list)
    ensures DistinctIds(list) ==> DistinctIds(list[i := dto])
  {
    var r := list[i := dto];
    forall y | y in IdsOf(list) ensures y in IdsOf(r) {
      var j :| 0 <= j < |list| && list[j].id == y;
      assert r[j].id == y;
    }
    forall y | y in IdsOf(r) ensures y in IdsOf(list) {
      var j :| 0 <= j < |r| && r[j].id == y;
      assert list[j].id == y;
    }
  }

  /** Remove the entry at the first index holding the id; an absent id changes nothing. */
  function Removed(list: seq<ResourceDto>, id: Guid): (r: seq<ResourceDto>)
    ensures id !in IdsOf(list) ==> r == list
    ensures id in IdsOf(list) ==> |r| == |list| - 1
    ensures var i := FindIndex(list, id); i >= 0 ==> r == list[..i] + list[i + 1..]
    ensures var i := FindIndex(list, id);
      i >= 0 ==> multiset(r) == multiset(list) - multiset{list[i]}
    ensures IdsOf(r) <= IdsOf(list)
    ensures DistinctIds(list) ==> DistinctIds(r) && IdsOf(r) == IdsOf(list) - {id}
  {
    var i := FindIndex(list, id);
    if i == -1 then list
    else
      var r := list[..i] + list[i + 1..];
      RemovedAtProperties(list, i, r);
      r
  }

  /** Removing an entry keeps the others in their order, so a list sorted by name stays
      sorted: the delete handler need not sort again. */
  lemma RemovedKeepsSorted(list: seq<ResourceDto>, id: Guid)
    requires SortedByName(list)
    ensures SortedByName(Removed(list, id))
  {
    var i := FindIndex(list, id);
    if i >= 0 {
      var r := Removed(list, id);
      forall a, b | 0 <= a < b < |r| ensures !Less(r[b].name, r[a].name) {
        var a', b' := if a < i then a else a + 1, if b < i then b else b + 1;
        assert r[a] == list[a'] && r[b] == list[b'];
      }
    }
  }

  lemma RemovedAtProperties(list: seq<ResourceDto>, i: nat, r: seq<ResourceDto>)
    requires i < |list| && r == list[..i] + list[i + 1..]
    ensures |r| == |list| - 1
    ensures multiset(r) == multiset(list) - multiset{list[i]}
    ensures IdsOf(r) <= IdsOf(list)
    ensures DistinctIds(list) ==> DistinctIds(r) && IdsOf(r) == IdsOf(list) - {list[i].id}
  {
    assert list == list[..i] + [list[i]] + list[i + 1..];
    RemovedAtIds(list, i);
    if DistinctIds(list) {
      RemovedAtDistinct(list, i);
    }
  }

  lemma RemovedAtIds(list: seq<ResourceDto>, i: nat)
    requires i < |list|
    ensures IdsOf(list[..i] + list[i + 1..]) <= IdsOf(list)
    ensures IdsOf(list) - {list[i].id} <= IdsOf(list[..i] + list[i + 1..])
  {
    var r := list[..i] + list[i + 1..];
    forall y | y in IdsOf(r) ensures y in IdsOf(list) {
      var j :| 0 <= j < |r| && r[j].id == y;
      var j' := if j < i then j else j + 1;
      assert r[j] == list[j'];
    }
    forall y | y in IdsOf(list) - {list[i].id} ensures y in IdsOf(r) {
      var j :| 0 <= j < |list| && list[j].id == y;
      if j < i { assert r[j] == list[j]; } else { assert r[j - 1] == list[j]; }
    }
  }

  lemma RemovedAtDistinct(list: seq<ResourceDto>, i: nat)
    requires i < |list| && DistinctIds(list)
    ensures DistinctIds(list[..i] + list[i + 1..])
    ensures list[i].id !in IdsOf(list[..i] + list[i + 1..])
  {
    var r := list[..i] + list[i + 1..];
    forall a, b | 0 <= a < b < |r| ensures r[a].id != r[b].id {
      var a', b' := if a < i then a else a + 1, if b < i then b else b + 1;
      assert r[a] == list[a'] && r[b] == list[b'];
    }
    forall j | 0 <= j < |r| ensures r[j].id != list[i].id {
      var j' := if j < i then j else j + 1;
      assert r[j] == list[j'];
    }
  }

  /** The list after the initial load: the loaded list sorted by name (JSON null loads as an
      empty list), an empty list after a 401, and the old list after any other failure. */
  function AfterLoad(list: seq<ResourceDto>, response: LoadResponse): (r: seq<ResourceDto>)
    ensures response.Loaded? && response.body.Some? ==>
      SortedByName(r) && multiset(r) == multiset(response.body.value)
    ensures response.Loaded? && response.body.None? ==> r == []
    ensures response == HttpError(Some(StatusUnauthorized)) ==> r == []
    ensures !response.Loaded? && response != HttpError(Some(StatusUnauthorized)) ==> r == list
  {
    match response
    case Loaded(body) => SortByName(if body.Some? then body.value else [])
    case HttpError(status) => if status == Some(StatusUnauthorized) then [] else list
    case OtherError => list
  }

  /** Whether the load raises ResourcesChanged: always after a load, after a 401 only when
      there was something to clear, never after another failure. */
  function LoadNotifies(list: seq<ResourceDto>, response: LoadResponse): bool
  {
    response.Loaded? || (response == HttpError(Some(StatusUnauthorized)) && |list| > 0)
  }

  /** The outcome of `EnsureSuccessStatusCode` on a response with the given status. */
  function StatusOutcome(statusCode: int): (t: TaskResult<()>)
    ensures t.Completed? <==> 200 <= statusCode <= 299
    ensures t.Faulted? ==> t.exception == HttpRequestException(statusCode)
  {
    if 200 <= statusCode <= 299 then Completed(()) else Faulted(HttpRequestException(statusCode))
  }

  class ResourceUiService {
    /** `_resources`: the cached list. */
    var resources: seq<ResourceDto>
    var isAuthenticated: bool
    /** `_currentTokenForSignalR`. */
    var currentToken: Option<string>
    /** Whether the hub connection exists and is not Disconnected. */
    var hubConnected: bool
    /** How many times ResourcesChanged has been raised. */
    var changeNotifications: nat
    /** The HTTP requests sent so far, in order. */
    var sentRequests: seq<ApiRequest>

    constructor()
      ensures resources == [] && !isAuthenticated && currentToken.None? && !hubConnected
      ensures changeNotifications == 0 && sentRequests == []
    {
      resources := [];
      isAuthenticated := false;
      currentToken := None;
      hubConnected := false;
      changeNotifications := 0;
      sentRequests := [];
    }

    /** The "ReceiveResourceCreated" handler. */
    method OnResourceCreated(resource: ResourceDto)
      modifies this`resources, this`changeNotifications
      ensures resources == SortByName(Upserted(old(resources), resource))
      ensures IdsOf(resources) == IdsOf(old(resources)) + {resource.id}
      ensures DistinctIds(old(resources)) ==> DistinctIds(resources)
      ensures SortedByName(resources)
      ensures changeNotifications == old(changeNotifications) + 1
    {
      var existing := FirstWithId(resources, resource.id);
      if existing.None? {
        resources := resources + [resource];
      } else {
        IndexOfFirstWithId(resources, resource.id);
        var i := IndexOf(resources, existing.value);
        resources := resources[i := resource];
      }
      resources := SortByName(resources);
      changeNotifications := changeNotifications + 1;
    }

    /** The "ReceiveResourceUpdate" handler. */
    method OnResourceUpdated(resource: ResourceDto)
      modifies this`resources, this`changeNotifications
      ensures resources == SortByName(Upserted(old(resources), resource))
      ensures IdsOf(resources) == IdsOf(old(resources)) + {resource.id}
      ensures DistinctIds(old(resources)) ==> DistinctIds(resources)
      ensures SortedByName(resources)
      ensures changeNotifications == old(changeNotifications) + 1
    {
      var index := FindIndex(resources, resource.id);
      if index != -1 {
        resources := resources[index := resource];
      } else {
        resources := resources + [resource];
      }
      resources := SortByName(resources);
      changeNotifications := changeNotifications + 1;
    }

    /** The "ReceiveResourceDeleted" handler: it notifies only when it removed something. */
    method OnResourceDeleted(resourceId: Guid)
      modifies this`resources, this`changeNotifications
      ensures resources == Removed(old(resources), resourceId)
      ensures resourceId !in IdsOf(old(resources)) ==>
        resources == old(resources) && changeNotifications == old(changeNotifications)
      ensures resourceId in IdsOf(old(resources)) ==> changeNotifications == old(changeNotifications) + 1
      ensures DistinctIds(old(resources)) ==>
        DistinctIds(resources) && IdsOf(resources) == IdsOf(old(resources)) - {resourceId}
      ensures SortedByName(old(resources)) ==> SortedByName(resources)
    {
      if SortedByName(resources) {
        RemovedKeepsSorted(resources, resourceId);
      }
      var resource := FirstWithId(resources, resourceId);
      if resource.Some? {
        IndexOfFirstWithId(resources, resourceId);
        var i := IndexOf(resources, resource.value);
        resources := resources[..i] + resources[i + 1..];
        changeNotifications := changeNotifications + 1;
      }
    }

    /** LoadInitialResourcesAsync. Signed out, it only clears a non-empty list. */
    method LoadInitialResources(response: LoadResponse)
      modifies this`resources, this`changeNotifications, this`sentRequests
      ensures !isAuthenticated ==> resources == [] && sentRequests == old(sentRequests)
      ensures !isAuthenticated ==>
        changeNotifications == old(changeNotifications) + (if |old(resources)| > 0 then 1 else 0)
      ensures isAuthenticated ==> sentRequests == old(sentRequests) + [GetResources]
      ensures isAuthenticated ==> resources == AfterLoad(old(resources), response)
      ensures isAuthenticated ==>
        changeNotifications == old(changeNotifications) + (if LoadNotifies(old(resources), response) then 1 else 0)
    {
      if !isAuthenticated {
        if |resources| > 0 {
          resources := [];
          changeNotifications := changeNotifications + 1;
        }
        return;
      }
      sentRequests := sentRequests + [GetResources];
      match response
      case Loaded(body) =>
        resources := if body.Some? then body.value else [];
        resources := SortByName(resources);
        changeNotifications := changeNotifications + 1;
      case HttpError(status) =>
        if status == Some(StatusUnauthorized) && |resources| > 0 {
          resources := [];
          changeNotifications := changeNotifications + 1;
        }
      case OtherError =>
    }

    /** InitializeAsync. `hubStarts` says whether StartAsync succeeds when a connection has to
        be built; when it fails the method returns before loading. */
    method Initialize(hubStarts: bool, response: LoadResponse)
      modifies this`resources, this`changeNotifications, this`sentRequests, this`hubConnected
      ensures !isAuthenticated ==> resources == old(resources) && sentRequests == old(sentRequests)
      ensures !isAuthenticated ==>
        changeNotifications == old(changeNotifications) && hubConnected == old(hubConnected)
      ensures isAuthenticated && !old(hubConnected) && !hubStarts ==>
        resources == old(resources) && sentRequests == old(sentRequests)
      ensures isAuthenticated && !old(hubConnected) && !hubStarts ==>
        changeNotifications == old(changeNotifications) && !hubConnected
      ensures isAuthenticated && (old(hubConnected) || hubStarts) ==> hubConnected
      ensures isAuthenticated && (old(hubConnected) || hubStarts) ==>
        resources == AfterLoad(old(resources), response) && sentRequests == old(sentRequests) + [GetResources]
      ensures isAuthenticated && (old(hubConnected) || hubStarts) ==>
        changeNotifications == old(changeNotifications) + (if LoadNotifies(old(resources), response) then 1 else 0)
    {
      if !isAuthenticated {
        return;
      }
      if !hubConnected {
        if !hubStarts {
          return;
        }
        hubConnected := true;
      }
      LoadInitialResources(response);
    }

    /** SetAuthenticationState. Nothing happens unless the flag or the token changed; signing
        in then initialises, signing out stops the hub and clears a non-empty list. */
    method SetAuthenticationState(authenticated: bool, token: Option<string>, hubStarts: bool, response: LoadResponse)
      modifies this
      ensures isAuthenticated == authenticated && currentToken == token
      ensures var changed := old(isAuthenticated) != authenticated || old(currentToken) != token;
        !changed ==> (resources == old(resources) && changeNotifications == old(changeNotifications)
          && sentRequests == old(sentRequests) && hubConnected == old(hubConnected))
      ensures var changed := old(isAuthenticated) != authenticated || old(currentToken) != token;
        changed && !authenticated ==> (resources == [] && !hubConnected && sentRequests == old(sentRequests)
          && changeNotifications == old(changeNotifications) + (if |old(resources)| > 0 then 1 else 0))
      ensures var changed := old(isAuthenticated) != authenticated || old(currentToken) != token;
        changed && authenticated && (old(hubConnected) || hubStarts) ==>
          (hubConnected && resources == AfterLoad(old(resources), response)
          && sentRequests == old(sentRequests) + [GetResources]
          && changeNotifications == old(changeNotifications) + (if LoadNotifies(old(resources), response) then 1 else 0))
      ensures var changed := old(isAuthenticated) != authenticated || old(currentToken) != token;
        changed && authenticated && !old(hubConnected) && !hubStarts ==>
          (!hubConnected && resources == old(resources) && sentRequests == old(sentRequests)
          && changeNotifications == old(changeNotifications))
    {
      var stateJustChanged := isAuthenticated != authenticated || currentToken != token;
      isAuthenticated := authenticated;
      currentToken := token;
      if stateJustChanged {
        if isAuthenticated {
          Initialize(hubStarts, response);
        } else {
          hubConnected := false;
          if |resources| > 0 {
            resources := [];
            changeNotifications := changeNotifications + 1;
          }
        }
      }
    }

    /** CreateResourceAsync: refused before sending when signed out; otherwise the POST is
        sent and a non-success status faults the task. */
    method CreateResource(dto: CreateResourceDto, statusCode: int) returns (t: TaskResult<()>)
      modifies this`sentRequests
      ensures !isAuthenticated ==>
        t == Faulted(InvalidOperationException(NotAuthenticatedToCreate)) && sentRequests == old(sentRequests)
      ensures isAuthenticated ==> t == StatusOutcome(statusCode) && sentRequests == old(sentRequests) + [PostResource(dto)]
    {
      if !isAuthenticated {
        return Faulted(InvalidOperationException(NotAuthenticatedToCreate));
      }
      sentRequests := sentRequests + [PostResource(dto)];
      t := StatusOutcome(statusCode);
    }

    /** UpdateResourceAsync: as CreateResource, with a PUT. */
    method UpdateResource(id: Guid, dto: UpdateResourceDto, statusCode: int) returns (t: TaskResult<()>)
      modifies this`sentRequests
      ensures !isAuthenticated ==>
        t == Faulted(InvalidOperationException(NotAuthenticatedToUpdate)) && sentRequests == old(sentRequests)
      ensures isAuthenticated ==> t == StatusOutcome(statusCode) && sentRequests == old(sentRequests) + [PutResource(id, dto)]
    {
      if !isAuthenticated {
        return Faulted(InvalidOperationException(NotAuthenticatedToUpdate));
      }
      sentRequests := sentRequests + [PutResource(id, dto)];
      t := StatusOutcome(statusCode);
    }

    /** DeleteResourceAsync: as CreateResource, with a DELETE. */
    method DeleteResource(id: Guid, statusCode: int) returns (t: TaskResult<()>)
      modifies this`sentRequests
      ensures !isAuthenticated ==>
        t == Faulted(InvalidOperationException(NotAuthenticatedToDelete)) && sentRequests == old(sentRequests)
      ensures isAuthenticated ==> t == StatusOutcome(statusCode) && sentRequests == old(sentRequests) + [DeleteResourceById(id)]
    {
      if !isAuthenticated {
        return Faulted(InvalidOperationException(NotAuthenticatedToDelete));
      }
      sentRequests := sentRequests + [DeleteResourceById(id)];
      t := StatusOutcome(statusCode);
    }
  }
}
