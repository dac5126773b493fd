/** ResourceService: the mutation pipeline. It owns the Resources table (a map from id to
    row), reads the Users table only to resolve user names, and appends every notification
    it hands out to a log: a SignalR broadcast to all clients, or a RabbitMQ publish. */
module ResourceServices {
  import opened Wrappers
  import opened Guids
  import opened Entities
  import opened ResourceDtos

  const ResourceExchangeName := "resource.events"

  const ResourceCreatedEvent := "ReceiveResourceCreated"
  const ResourceUpdatedEvent := "ReceiveResourceUpdate"
  const ResourceDeletedEvent := "ReceiveResourceDeleted"

  const NotFoundError := "Resource not found."
  const CreateError := "An error occurred while saving the resource."
  const ConcurrencyError := "The resource was modified by another user. Please refresh and try again."
  const UpdateError := "An error occurred while updating the resource."
  const DeleteError := "An error occurred while deleting the resource."

  const CreatedRoutingKey := "resource.created"

  function UpdatedRoutingKey(id: Guid): string
  {
    "resource.updated." + Format(id)
  }

  function DeletedRoutingKey(id: Guid): string
  {
    "resource.deleted." + Format(id)
  }

  /** A routing key names its event and, for updates and deletions, exactly one resource:
      consumers can filter on it. */
  lemma RoutingKeysIdentifyResource(a: Guid, b: Guid)
    ensures UpdatedRoutingKey(a) == UpdatedRoutingKey(b) ==> a == b
    ensures DeletedRoutingKey(a) == DeletedRoutingKey(b) ==> a == b
    ensures UpdatedRoutingKey(a) != DeletedRoutingKey(b)
    ensures UpdatedRoutingKey(a) != CreatedRoutingKey && DeletedRoutingKey(a) != CreatedRoutingKey
  {
    assert UpdatedRoutingKey(a)[9] == 'u' && DeletedRoutingKey(b)[9] == 'd';
    assert UpdatedRoutingKey(a)[17..] == Format(a) && UpdatedRoutingKey(b)[17..] == Format(b);
    assert DeletedRoutingKey(a)[17..] == Format(a) && DeletedRoutingKey(b)[17..] == Format(b);
    FormatInjective(a, b);
  }

  /** What a notification carries: the resource as the API shows it, a bare id (the
      deletion broadcast), or the anonymous deletion record published to the broker. */
  datatype Payload =
    | ResourcePayload(resource: ResourceDto)
    | IdPayload(id: Guid)
    | DeletionPayload(resourceId: Guid, name: string, deletedBy: Guid, deletedAt: DateTime)

  datatype Emission =
    | Broadcast(eventName: string, payload: Payload)
    | Publish(exchange: string, routingKey: string, payload: Payload)

  /** How the store's SaveChangesAsync ends: the rows are written, or it throws a
      DbUpdateConcurrencyException (the row's RowVersion no longer matches: another writer
      changed or removed it), or another DbUpdateException. */
  datatype SaveOutcome = Saved | ConcurrencyConflict | StorageFailure

  /** How the awaited SignalR SendAsync ends. */
  datatype HubOutcome = Sent | SendFailed

  datatype MutationResult = MutationResult(succeeded: bool, data: Option<ResourceDto>, errors: seq<string>)

  datatype DeletionResult = DeletionResult(succeeded: bool, errors: seq<string>)

  /** The notifications one committed mutation hands out: the broadcast, then, only if the
      broadcast did not throw, the publish on the resource exchange. */
  function Notifications(eventName: string, routingKey: string, broadcast: Payload, publish: Payload, hub: HubOutcome): seq<Emission>
  {
    [Broadcast(eventName, broadcast)] + if hub == Sent then [Publish(ResourceExchangeName, routingKey, publish)] else []
  }

  /** Whether Update's assignments change the tracked row. The change tracker sends an UPDATE
      only for a row with a modified property: when every assigned value equals the stored
      one, SaveChangesAsync has nothing to write, so it neither conflicts nor fails, and the
      row version stays. */
  predicate UpdateChangesRow(r: Resource, dto: UpdateResourceDto, userId: Guid, now: DateTime)
  {
    ApplyUpdate(r, dto, userId, now) != r
  }

  /** An update writes nothing exactly when the body repeats the row's four mutable fields,
      the caller is its last updater and the clock reads its last update time. */
  lemma UnchangedUpdateIff(r: Resource, dto: UpdateResourceDto, userId: Guid, now: DateTime)
    ensures !UpdateChangesRow(r, dto, userId, now) <==>
      && r.name == dto.name && r.description == dto.description && r.location == dto.location
      && r.resourceType == dto.resourceType && r.lastUpdatedAt == now && r.lastUpdatedById == Some(userId)
  {
  }

  /** The user name of an optional user reference (the navigation property's Username). */
  function UsernameOf(usernames: map<Guid, string>, id: Option<Guid>): (r: Option<string>)
    ensures r.Some? <==> id.Some? && id.value in usernames
    ensures r.Some? ==> r.value == usernames[id.value]
  {
    if id.Some? && id.value in usernames then Some(usernames[id.value]) else None
  }

  /** The ResourceDto projection of a row: every shown field copied, the creator and last
      updater resolved to their user names. */
  function ToResourceDto(r: Resource, usernames: map<Guid, string>): (dto: ResourceDto)
    ensures dto.id == r.id && dto.name == r.name && dto.description == r.description
    ensures dto.location == r.location && dto.resourceType == r.resourceType
    ensures dto.createdAt == r.createdAt && dto.lastUpdatedAt == r.lastUpdatedAt
    ensures dto.createdByUsername == UsernameOf(usernames, r.createdById)
    ensures dto.lastUpdatedByUsername == UsernameOf(usernames, r.lastUpdatedById)
  {
    ResourceDto(r.id, r.name, r.description, r.location, r.resourceType, r.createdAt, r.lastUpdatedAt,
                UsernameOf(usernames, r.createdById), UsernameOf(usernames, r.lastUpdatedById))
  }

  /** `list` holds the projection of each row whose id is in `done`, once each. */
  ghost predicate Enumerates(list: seq<ResourceDto>, done: set<Guid>, resources: map<Guid, Resource>,
                             usernames: map<Guid, string>)
  {
    && IdsOf(list) == done && |list| == |done|
    && (forall i | 0 <= i < |list| ::
          list[i].id in resources && list[i] == ToResourceDto(resources[list[i].id], usernames))
    && DistinctIds(list)
  }

  lemma EnumeratesNext(list: seq<ResourceDto>, done: set<Guid>, resources: map<Guid, Resource>,
                       usernames: map<Guid, string>, id: Guid)
    requires Enumerates(list, done, resources, usernames)
    requires id in resources && resources[id].id == id && id !in done
    ensures Enumerates(list + [ToResourceDto(resources[id], usernames)], done + {id}, resources, usernames)
  {
    var dto := ToResourceDto(resources[id], usernames);
    forall i | 0 <= i < |list| ensures list[i].id != id {
      assert list[i].id in IdsOf(list);
    }
    IdsOfAppend(list, dto);
  }

  class ResourceService {
    /** The Resources table, by primary key. */
    var resources: map<Guid, Resource>
    /** The Users table, as far as resolving a user's name needs it. */
    var usernames: map<Guid, string>
    /** Every notification handed to SignalR or RabbitMQ, oldest first. */
    var emissions: seq<Emission>
    /** The store's last issued row version. */
    var lastRowVersion: nat
    /** The ids of deleted resources. */
    ghost var retired: set<Guid>

    ghost predicate Valid()
      reads this
    {
      && (forall id | id in resources :: resources[id].id == id)
      && (forall id | id in resources ::
            resources[id].rowVersion.Some? && resources[id].rowVersion.value <= lastRowVersion)
      && resources.Keys !! retired
    }

    constructor (users: map<Guid, string>)
      ensures Valid()
      ensures resources == map[] && usernames == users && emissions == [] && retired == {}
    {
      resources := map[];
      usernames := users;
      emissions := [];
      lastRowVersion := 0;
      retired := {};
    }

    /** GetResourceByIdAsync: null exactly when no row has that id; otherwise the row's
        projection. */
    function GetResourceById(id: Guid): (r: Option<ResourceDto>)
      reads this
      ensures r.None? <==> id !in resources
      ensures r.Some? ==> r.value == ToResourceDto(resources[id], usernames)
    {
      if id in resources then Some(ToResourceDto(resources[id], usernames)) else None
    }

    /** GetAllResourcesAsync: the projection of every row, each exactly once, in the order
        the store lists them (which nothing fixes). */
    method GetAllResources() returns (list: seq<ResourceDto>)
      requires Valid()
      ensures |list| == |resources|
      ensures IdsOf(list) == resources.Keys
      ensures forall i | 0 <= i < |list| ::
        list[i].id in resources && list[i] == ToResourceDto(resources[list[i].id], usernames)
      ensures DistinctIds(list)
    {
      var pending := resources.Keys;
      ghost var done: set<Guid> := {};
      list := [];
      while pending != {}
        invariant done !! pending && done + pending == resources.Keys
        invariant Enumerates(list, done, resources, usernames)
        decreases pending
      {
        var id :| id in pending;
        EnumeratesNext(list, done, resources, usernames, id);
        list := list + [ToResourceDto(resources[id], usernames)];
        pending := pending - {id};
        done := done + {id};
      }
      assert |resources| == |resources.Keys|;
    }

    /** CreateResourceAsync. `newId` is the Guid.NewGuid() value, `createdAt` and
        `lastUpdatedAt` the two clock readings. On a failed save nothing changes. On a
        committed save the row is stored, read back, broadcast and published; the result
        does not depend on whether the broker accepts the message. */
    method CreateResource(dto: CreateResourceDto, userId: Guid, newId: Guid, createdAt: DateTime,
                          lastUpdatedAt: DateTime, save: SaveOutcome, hub: HubOutcome)
      returns (result: TaskResult<MutationResult>)
      requires Valid() && newId !in resources && newId !in retired
      modifies this
      ensures Valid() && usernames == old(usernames) && retired == old(retired)
      ensures save != Saved ==>
        && result == Completed(MutationResult(false, None, [CreateError]))
        && unchanged(this)
      ensures save == Saved ==>
        && resources.Keys == old(resources).Keys + {newId}
        && (forall id | id in old(resources) :: resources[id] == old(resources)[id])
        && resources[newId].id == newId
        && resources[newId].name == dto.name && resources[newId].description == dto.description
        && resources[newId].location == dto.location && resources[newId].resourceType == dto.resourceType
        && resources[newId].createdAt == createdAt && resources[newId].lastUpdatedAt == lastUpdatedAt
        && resources[newId].createdById == Some(userId) && resources[newId].lastUpdatedById == Some(userId)
        && resources[newId].rowVersion == Some(lastRowVersion) && lastRowVersion == old(lastRowVersion) + 1
        && var stored := ToResourceDto(resources[newId], usernames);
           && emissions == old(emissions) + Notifications(ResourceCreatedEvent, CreatedRoutingKey,
                                                         ResourcePayload(stored), ResourcePayload(stored), hub)
           && result == if hub == Sent then Completed(MutationResult(true, Some(stored), []))
                        else Faulted(HubSendException)
    {
      var resource := NewResource(newId, createdAt).(
        name := dto.name, description := dto.description, location := dto.location,
        resourceType := dto.resourceType, createdAt := createdAt, lastUpdatedAt := lastUpdatedAt,
        createdById := Some(userId), lastUpdatedById := Some(userId));
      if save != Saved {
        return Completed(MutationResult(false, None, [CreateError]));
      }
      lastRowVersion := lastRowVersion + 1;
      resources := resources[newId := resource.(rowVersion := Some(lastRowVersion))];
      var created := GetResourceById(resource.id);
      if created.Some? {
        emissions := emissions + [Broadcast(ResourceCreatedEvent, ResourcePayload(created.value))];
        if hub == SendFailed {
          return Faulted(HubSendException);
        }
        emissions := emissions + [Publish(ResourceExchangeName, CreatedRoutingKey, ResourcePayload(created.value))];
      }
      return Completed(MutationResult(true, created, []));
    }

    /** UpdateResourceAsync. An unknown id, a conflicting save and a failed save change
        nothing and notify nobody, each with its own message. A committed save overwrites the
        four mutable fields, the update time and the updater, gives the row a new row
        version, and notifies as Create does. An update whose assignments change nothing
        writes nothing: it cannot conflict or fail, the row and its version stay, and it still
        notifies. */
    method UpdateResource(id: Guid, dto: UpdateResourceDto, userId: Guid, now: DateTime,
                          save: SaveOutcome, hub: HubOutcome)
      returns (result: TaskResult<MutationResult>)
      requires Valid()
      modifies this
      ensures Valid() && usernames == old(usernames) && retired == old(retired)
      ensures id !in old(resources) ==>
        result == Completed(MutationResult(false, None, [NotFoundError])) && unchanged(this)
      ensures id in old(resources) && UpdateChangesRow(old(resources)[id], dto, userId, now)
              && save == ConcurrencyConflict ==>
        result == Completed(MutationResult(false, None, [ConcurrencyError])) && unchanged(this)
      ensures id in old(resources) && UpdateChangesRow(old(resources)[id], dto, userId, now)
              && save == StorageFailure ==>
        result == Completed(MutationResult(false, None, [UpdateError])) && unchanged(this)
      ensures id in old(resources) && UpdateChangesRow(old(resources)[id], dto, userId, now) && save == Saved ==>
        && resources == old(resources)[id := ApplyUpdate(old(resources)[id], dto, userId, now).(
                                                rowVersion := Some(lastRowVersion))]
        && lastRowVersion == old(lastRowVersion) + 1
        && resources[id].rowVersion != old(resources)[id].rowVersion
      ensures id in old(resources) && !UpdateChangesRow(old(resources)[id], dto, userId, now) ==>
        resources == old(resources) && lastRowVersion == old(lastRowVersion)
      ensures id in old(resources) && (save == Saved || !UpdateChangesRow(old(resources)[id], dto, userId, now)) ==>
        && id in resources
        && resources[id].(rowVersion := old(resources)[id].rowVersion) == ApplyUpdate(old(resources)[id], dto, userId, now)
        && (UpdateResourceDtoValid(dto) ==> ResourceValid(resources[id]))
        && var stored := ToResourceDto(resources[id], usernames);
           && emissions == old(emissions) + Notifications(ResourceUpdatedEvent, UpdatedRoutingKey(id),
                                                         ResourcePayload(stored), ResourcePayload(stored), hub)
           && result == if hub == Sent then Completed(MutationResult(true, Some(stored), []))
                        else Faulted(HubSendException)
    {
      if id !in resources {
        return Completed(MutationResult(false, None, [NotFoundError]));
      }
      var resource := ApplyUpdate(resources[id], dto, userId, now);
      if resource != resources[id] {
        if save == ConcurrencyConflict {
          return Completed(MutationResult(false, None, [ConcurrencyError]));
        } else if save == StorageFailure {
          return Completed(MutationResult(false, None, [UpdateError]));
        }
        lastRowVersion := lastRowVersion + 1;
        resources := resources[id := resource.(rowVersion := Some(lastRowVersion))];
      }
      var updated := GetResourceById(resource.id);
      if updated.Some? {
        emissions := emissions + [Broadcast(ResourceUpdatedEvent, ResourcePayload(updated.value))];
        if hub == SendFailed {
          return Faulted(HubSendException);
        }
        emissions := emissions + [Publish(ResourceExchangeName, UpdatedRoutingKey(resource.id),
                                          ResourcePayload(updated.value))];
      }
      return Completed(MutationResult(true, updated, []));
    }

    /** DeleteResourceAsync. An unknown id or a failed save changes nothing and notifies
        nobody. A committed save removes the row for good, broadcasts the bare id and
        publishes the id, the name the row had, the deleting user and the time. */
    method DeleteResource(id: Guid, userId: Guid, now: DateTime, save: SaveOutcome, hub: HubOutcome)
      returns (result: TaskResult<DeletionResult>)
      requires Valid()
      modifies this
      ensures Valid() && usernames == old(usernames) && lastRowVersion == old(lastRowVersion)
      ensures id !in old(resources) ==>
        result == Completed(DeletionResult(false, [NotFoundError])) && unchanged(this)
      ensures id in old(resources) && save != Saved ==>
        result == Completed(DeletionResult(false, [DeleteError])) && unchanged(this)
      ensures id in old(resources) && save == Saved ==>
        && resources == old(resources) - {id} && retired == old(retired) + {id}
        && emissions == old(emissions) + Notifications(ResourceDeletedEvent, DeletedRoutingKey(id), IdPayload(id),
                                                       DeletionPayload(id, old(resources)[id].name, userId, now), hub)
        && result == if hub == Sent then Completed(DeletionResult(true, [])) else Faulted(HubSendException)
    {
      if id !in resources {
        return Completed(DeletionResult(false, [NotFoundError]));
      }
      var resource := resources[id];
      var resourceIdForMessage, resourceNameForMessage := resource.id, resource.name;
      if save != Saved {
        return Completed(DeletionResult(false, [DeleteError]));
      }
      resources := resources - {id};
      retired := retired + {id};
      emissions := emissions + [Broadcast(ResourceDeletedEvent, IdPayload(id))];
      if hub == SendFailed {
        return Faulted(HubSendException);
      }
      emissions := emissions + [Publish(ResourceExchangeName, DeletedRoutingKey(resourceIdForMessage),
                                        DeletionPayload(resourceIdForMessage, resourceNameForMessage, userId, now))];
      return Completed(DeletionResult(true, []));
    }
  }
}
