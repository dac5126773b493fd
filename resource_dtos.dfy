/** The request and response bodies of the resource endpoints. */
module ResourceDtos {
  import opened Wrappers
  import opened Guids
  import opened DataAnnotations
  import opened Entities

  /** The creation intent, with the fields ResourceService.CreateResourceAsync reads. */
  datatype CreateResourceDto = CreateResourceDto(
    name: string,
    description: Option<string>,
    location: Option<string>,
    resourceType: ResourceType)

  /** The update intent: the mutable fields of a Resource. */
  datatype UpdateResourceDto = UpdateResourceDto(
    name: string,
    description: Option<string>,
    location: Option<string>,
    resourceType: ResourceType)

  /** The bounds UpdateResourceDto's attributes declare. */
  predicate UpdateResourceDtoValid(dto: UpdateResourceDto)
  {
    && Required(Some(dto.name)) && StringLength(Some(dto.name), 200)
    && StringLength(dto.description, 1000)
    && StringLength(dto.location, 100)
  }

  /** `new UpdateResourceDto()`: empty name, no description or location, type Other. It is
      not a valid request body. */
  function DefaultUpdateResourceDto(): (dto: UpdateResourceDto)
    ensures dto.resourceType == Other && dto.description.None? && dto.location.None?
    ensures !UpdateResourceDtoValid(dto)
  {
    UpdateResourceDto("", None, None, Other)
  }

  /** The view of a Resource the API returns and broadcasts. */
  datatype ResourceDto = ResourceDto(
    id: Guid,
    name: string,
    description: Option<string>,
    location: Option<string>,
    resourceType: ResourceType,
    createdAt: DateTime,
    lastUpdatedAt: DateTime,
    createdByUsername: Option<string>,
    lastUpdatedByUsername: Option<string>)

  /** Update's field assignments: the four mutable fields from the request, the update time
      and the updater; everything else as it was. */
  function ApplyUpdate(r: Resource, dto: UpdateResourceDto, userId: Guid, now: DateTime): (r': Resource)
    ensures r'.name == dto.name && r'.description == dto.description
    ensures r'.location == dto.location && r'.resourceType == dto.resourceType
    ensures r'.id == r.id && r'.createdAt == r.createdAt && r'.createdById == r.createdById
    ensures r'.rowVersion == r.rowVersion
    ensures r'.lastUpdatedAt == now && r'.lastUpdatedById == Some(userId)
    ensures UpdateResourceDtoValid(dto) ==> ResourceValid(r')
  {
    r.(name := dto.name, description := dto.description, location := dto.location,
       resourceType := dto.resourceType, lastUpdatedAt := now, lastUpdatedById := Some(userId))
  }

  /** The request bounds are the entity bounds: applying an update body yields a row within
      the entity's bounds exactly when the body is within its own. */
  lemma UpdateBoundsAreEntityBounds(r: Resource, dto: UpdateResourceDto, userId: Guid, now: DateTime)
    ensures UpdateResourceDtoValid(dto) <==> ResourceValid(ApplyUpdate(r, dto, userId, now))
  {
  }

  /** The ids a list of resources holds. */
  function IdsOf(list: seq<ResourceDto>): set<Guid>
  {
    set i | 0 <= i < |list| :: list[i].id
  }

  /** No two entries of the list share an id. */
  predicate DistinctIds(list: seq<ResourceDto>)
  {
    forall i, j | 0 <= i < j < |list| :: list[i].id != list[j].id
  }

  lemma IdsOfAppend(list: seq<ResourceDto>, dto: ResourceDto)
    ensures IdsOf(list + [dto]) == IdsOf(list) + {dto.id}
  {
    var l' := list + [dto];
    assert l'[|list|].id == dto.id;
    forall x | x in IdsOf(list) ensures x in IdsOf(l') {
      var i :| 0 <= i < |list| && list[i].id == x;
      assert l'[i].id == x;
    }
  }
}
