/** ResourcesController: the HTTP face of ResourceService. Each action checks the bound
    model, finds the caller's user id in the token's claims, calls the service and turns its
    result into an HTTP result. */
module ResourcesControllers {
  import opened Wrappers
  import opened Guids
  import opened Entities
  import opened ResourceDtos
  import opened ResourceServices
  import opened Mvc

  const UserIdClaimError := "User ID not found in token or is invalid."
  const AdminRole := "Admin"
  const GetResourceByIdAction := "GetResourceById"

  predicate IsUserIdClaim(c: Claim)
  {
    c.claimType == NameIdentifierClaimType || c.claimType == SubjectClaimType
  }

  /** The first claim of type NameIdentifier or "sub", if any. */
  function UserIdClaim(claims: seq<Claim>): (r: Option<Claim>)
    ensures r.None? <==> forall i | 0 <= i < |claims| :: !IsUserIdClaim(claims[i])
    ensures r.Some? ==> exists i | 0 <= i < |claims| ::
      claims[i] == r.value && IsUserIdClaim(claims[i]) && forall j | 0 <= j < i :: !IsUserIdClaim(claims[j])
  {
    if claims == [] then None
    else if IsUserIdClaim(claims[0]) then Some(claims[0])
    else
      var r := UserIdClaim(claims[1..]);
      assert r.Some? ==> exists i | 0 <= i < |claims| ::
        claims[i] == r.value && IsUserIdClaim(claims[i]) && forall j | 0 <= j < i :: !IsUserIdClaim(claims[j]) by {
        if r.Some? {
          var i :| 0 <= i < |claims[1..]| && claims[1..][i] == r.value && IsUserIdClaim(claims[1..][i])
            && forall j | 0 <= j < i :: !IsUserIdClaim(claims[1..][j]);
          assert claims[i + 1] == r.value;
          forall j | 0 <= j < i + 1 ensures !IsUserIdClaim(claims[j]) {
            if j > 0 { assert claims[j] == claims[1..][j - 1]; }
          }
        }
      }
      assert r.None? ==> forall i | 0 <= i < |claims| :: !IsUserIdClaim(claims[i]) by {
        if r.None? {
          forall i | 0 <= i < |claims| ensures !IsUserIdClaim(claims[i]) {
            if i > 0 { assert claims[i] == claims[1..][i - 1]; }
          }
        }
      }
      r
  }

  /** GetCurrentUserId: the Guid the first user-id claim holds; None where the action throws
      InvalidOperationException, because there is no such claim or its value is no Guid. */
  function CurrentUserId(claims: seq<Claim>): (r: Option<Guid>)
    ensures r.Some? <==> UserIdClaim(claims).Some? && Parse(UserIdClaim(claims).value.value).Some?
    ensures r.Some? ==> Parse(UserIdClaim(claims).value.value) == r
  {
    var claim := UserIdClaim(claims);
    if claim.None? then None else Parse(claim.value.value)
  }

  /** A token issued for a user carries its id formatted as text; that id is read back
      whatever claims follow it. */
  lemma CurrentUserIdOfIssuedClaim(claimType: string, userId: Guid, rest: seq<Claim>)
    requires claimType == NameIdentifierClaimType || claimType == SubjectClaimType
    ensures CurrentUserId([Claim(claimType, Format(userId))] + rest) == Some(userId)
  {
    var claims := [Claim(claimType, Format(userId))] + rest;
    assert claims[0] == Claim(claimType, Format(userId));
    ParseFormat(userId);
  }

  /** GetResourceById's result: NotFound exactly when the service finds nothing. */
  function GetByIdResponse(resource: Option<ResourceDto>): (r: ActionResult)
    ensures r == NotFound <==> resource.None?
    ensures resource.Some? ==> r == Ok(ResourceBody(resource.value))
  {
    if resource.None? then NotFound else Ok(ResourceBody(resource.value))
  }

  /** CreateResource's result: CreatedAtAction pointing at GetResourceById with the new id and
      DTO only when the service succeeded with data; otherwise BadRequest with its errors. */
  function CreateResponse(result: MutationResult): (r: ActionResult)
    ensures r.CreatedAtAction? <==> result.succeeded && result.data.Some?
    ensures r.CreatedAtAction? ==>
      r == CreatedAtAction(GetResourceByIdAction, result.data.value.id, ResourceBody(result.data.value))
    ensures !r.CreatedAtAction? ==> r == BadRequest(ErrorsBody(result.errors))
  {
    if !result.succeeded || result.data.None? then BadRequest(ErrorsBody(result.errors))
    else CreatedAtAction(GetResourceByIdAction, result.data.value.id, ResourceBody(result.data.value))
  }

  /** The body `Ok(result.Data)` carries: the DTO, or null. */
  function DataBody(data: Option<ResourceDto>): Body
  {
    if data.Some? then ResourceBody(data.value) else NullBody
  }

  /** UpdateResource's result: a failure is NotFound when its errors include the not-found
      message and BadRequest with the same errors otherwise; success is Ok with the data. */
  function UpdateResponse(result: MutationResult): (r: ActionResult)
    ensures r == NotFound <==> !result.succeeded && NotFoundError in result.errors
    ensures !result.succeeded && NotFoundError !in result.errors ==> r == BadRequest(ErrorsBody(result.errors))
    ensures result.succeeded ==> r == Ok(DataBody(result.data))
  {
    if !result.succeeded then
      if NotFoundError in result.errors then NotFound else BadRequest(ErrorsBody(result.errors))
    else Ok(DataBody(result.data))
  }

  /** DeleteResource's result: as UpdateResponse, with NoContent for success. */
  function DeleteResponse(result: DeletionResult): (r: ActionResult)
    ensures r == NotFound <==> !result.succeeded && NotFoundError in result.errors
    ensures !result.succeeded && NotFoundError !in result.errors ==> r == BadRequest(ErrorsBody(result.errors))
    ensures r == NoContent <==> result.succeeded
  {
    if !result.succeeded then
      if NotFoundError in result.errors then NotFound else BadRequest(ErrorsBody(result.errors))
    else NoContent
  }

  class ResourcesController {
    const service: ResourceService

    constructor (service: ResourceService)
      ensures this.service == service
    {
      this.service := service;
    }

    /** GET /Resources: Ok with every resource's projection, each once. */
    method GetAllResources() returns (r: ActionResult)
      requires service.Valid()
      ensures r.Ok? && r.body.ResourceListBody?
      ensures IdsOf(r.body.resources) == service.resources.Keys && DistinctIds(r.body.resources)
      ensures forall i | 0 <= i < |r.body.resources| ::
        var dto := r.body.resources[i];
        dto.id in service.resources && dto == ToResourceDto(service.resources[dto.id], service.usernames)
    {
      var resources := service.GetAllResources();
      return Ok(ResourceListBody(resources));
    }

    /** GET /Resources/{id}. */
    method GetResourceById(id: Guid) returns (r: ActionResult)
      ensures r == NotFound <==> id !in service.resources
      ensures id in service.resources ==> r == Ok(ResourceBody(ToResourceDto(service.resources[id], service.usernames)))
    {
      var resource := service.GetResourceById(id);
      return GetByIdResponse(resource);
    }

    /** POST /Resources. `modelValid` is ModelState.IsValid for the bound body. */
    method CreateResource(claims: seq<Claim>, dto: CreateResourceDto, modelValid: bool, newId: Guid,
                          createdAt: DateTime, lastUpdatedAt: DateTime, save: SaveOutcome, hub: HubOutcome)
      returns (t: TaskResult<ActionResult>)
      requires service.Valid() && newId !in service.resources && newId !in service.retired
      modifies service
      ensures service.Valid()
      ensures !modelValid ==> t == Completed(BadRequest(ModelStateBody)) && unchanged(service)
      ensures modelValid && CurrentUserId(claims).None? ==>
        t == Faulted(InvalidOperationException(UserIdClaimError)) && unchanged(service)
      ensures modelValid && CurrentUserId(claims).Some? && save != Saved ==>
        t == Completed(BadRequest(ErrorsBody([CreateError]))) && unchanged(service)
      ensures modelValid && CurrentUserId(claims).Some? && save == Saved ==>
        && service.resources.Keys == old(service.resources).Keys + {newId}
        && (forall id | id in old(service.resources) :: service.resources[id] == old(service.resources)[id])
        && service.resources[newId].createdById == CurrentUserId(claims)
        && var stored := ToResourceDto(service.resources[newId], service.usernames);
        && service.emissions == old(service.emissions) + Notifications(ResourceCreatedEvent, CreatedRoutingKey,
                                                                       ResourcePayload(stored), ResourcePayload(stored), hub)
        && t == if hub == Sent
                then Completed(CreatedAtAction(GetResourceByIdAction, newId,
                                               ResourceBody(ToResourceDto(service.resources[newId], service.usernames))))
                else Faulted(HubSendException)
    {
      if !modelValid {
        return Completed(BadRequest(ModelStateBody));
      }
      var userId := CurrentUserId(claims);
      if userId.None? {
        return Faulted(InvalidOperationException(UserIdClaimError));
      }
      var result := service.CreateResource(dto, userId.value, newId, createdAt, lastUpdatedAt, save, hub);
      if result.Faulted? {
        return Faulted(result.exception);
      }
      return Completed(CreateResponse(result.value));
    }

    /** PUT /Resources/{id}. The model is valid when the body meets UpdateResourceDto's
        bounds. */
    method UpdateResource(claims: seq<Claim>, id: Guid, dto: UpdateResourceDto, now: DateTime,
                          save: SaveOutcome, hub: HubOutcome)
      returns (t: TaskResult<ActionResult>)
      requires service.Valid()
      modifies service
      ensures service.Valid()
      ensures !UpdateResourceDtoValid(dto) ==> t == Completed(BadRequest(ModelStateBody)) && unchanged(service)
      ensures UpdateResourceDtoValid(dto) && CurrentUserId(claims).None? ==>
        t == Faulted(InvalidOperationException(UserIdClaimError)) && unchanged(service)
      ensures UpdateResourceDtoValid(dto) && CurrentUserId(claims).Some? ==>
        && (id !in old(service.resources) ==> t == Completed(NotFound) && unchanged(service))
        && var changes := id in old(service.resources)
                          && UpdateChangesRow(old(service.resources)[id], dto, CurrentUserId(claims).value, now);
        && (changes && save == ConcurrencyConflict ==>
              t == Completed(BadRequest(ErrorsBody([ConcurrencyError]))) && unchanged(service))
        && (changes && save == StorageFailure ==>
              t == Completed(BadRequest(ErrorsBody([UpdateError]))) && unchanged(service))
        && (id in old(service.resources) && (save == Saved || !changes) ==>
              && id in service.resources && ResourceValid(service.resources[id])
              && service.resources[id].lastUpdatedById == CurrentUserId(claims)
              && service.resources == old(service.resources)[id := service.resources[id]]
              && service.resources[id].(rowVersion := old(service.resources)[id].rowVersion)
                 == ApplyUpdate(old(service.resources)[id], dto, CurrentUserId(claims).value, now)
              && var stored := ToResourceDto(service.resources[id], service.usernames);
              && service.emissions == old(service.emissions)
                   + Notifications(ResourceUpdatedEvent, UpdatedRoutingKey(id), ResourcePayload(stored),
                                   ResourcePayload(stored), hub)
              && t == if hub == Sent
                      then Completed(Ok(ResourceBody(ToResourceDto(service.resources[id], service.usernames))))
                      else Faulted(HubSendException))
    {
      if !UpdateResourceDtoValid(dto) {
        return Completed(BadRequest(ModelStateBody));
      }
      var userId := CurrentUserId(claims);
      if userId.None? {
        return Faulted(InvalidOperationException(UserIdClaimError));
      }
      var result := service.UpdateResource(id, dto, userId.value, now, save, hub);
      if result.Faulted? {
        return Faulted(result.exception);
      }
      return Completed(UpdateResponse(result.value));
    }

    /** DELETE /Resources/{id}, which only callers in the Admin role reach. */
    method DeleteResource(claims: seq<Claim>, id: Guid, now: DateTime, save: SaveOutcome, hub: HubOutcome)
      returns (t: TaskResult<ActionResult>)
      requires IsInRole(claims, AdminRole)
      requires service.Valid()
      modifies service
      ensures service.Valid()
      ensures CurrentUserId(claims).None? ==>
        t == Faulted(InvalidOperationException(UserIdClaimError)) && unchanged(service)
      ensures CurrentUserId(claims).Some? ==>
        && (id !in old(service.resources) ==> t == Completed(NotFound) && unchanged(service))
        && (id in old(service.resources) && save != Saved ==>
              t == Completed(BadRequest(ErrorsBody([DeleteError]))) && unchanged(service))
        && (id in old(service.resources) && save == Saved ==>
              && service.resources == old(service.resources) - {id}
              && service.emissions == old(service.emissions)
                   + Notifications(ResourceDeletedEvent, DeletedRoutingKey(id), IdPayload(id),
                                   DeletionPayload(id, old(service.resources)[id].name, CurrentUserId(claims).value, now), hub)
              && t == if hub == Sent then Completed(NoContent) else Faulted(HubSendException))
    {
      var userId := CurrentUserId(claims);
      if userId.None? {
        return Faulted(InvalidOperationException(UserIdClaimError));
      }
      var result := service.DeleteResource(id, userId.value, now, save, hub);
      if result.Faulted? {
        return Faulted(result.exception);
      }
      return Completed(DeleteResponse(result.value));
    }
  }
}
