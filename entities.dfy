/** The persisted entities: Resource with its ResourceType, and the User and Role rows the
    authentication service reads and writes. */
module Entities {
  import opened Wrappers
  import opened Guids
  import opened DataAnnotations

  /** DateTime.UtcNow readings, in ticks. The clock is always passed in. */
  type DateTime = int

  datatype ResourceType = Laptop | Peripheral | Cable | Document | Software | Hardware | Tool | Other

  /** The integer a ResourceType is stored and serialised as. */
  function TypeOrdinal(t: ResourceType): (n: nat)
    ensures n < 8
  {
    match t
    case Laptop => 0
    case Peripheral => 1
    case Cable => 2
    case Document => 3
    case Software => 4
    case Hardware => 5
    case Tool => 6
    case Other => 7
  }

  /** The ResourceType an integer names, if any: the enumeration is closed, with exactly
      the eight values 0 to 7, each naming one member. */
  function TypeFromOrdinal(n: int): (r: Option<ResourceType>)
    ensures r.Some? <==> 0 <= n < 8
    ensures r.Some? ==> TypeOrdinal(r.value) == n
    ensures forall t: ResourceType :: TypeOrdinal(t) == n ==> r == Some(t)
  {
    match n
    case 0 => Some(Laptop)
    case 1 => Some(Peripheral)
    case 2 => Some(Cable)
    case 3 => Some(Document)
    case 4 => Some(Software)
    case 5 => Some(Hardware)
    case 6 => Some(Tool)
    case 7 => Some(Other)
    case _ => None
  }

  const NameMaxLength: nat := 200
  const DescriptionMaxLength: nat := 1000
  const LocationMaxLength: nat := 100

  /** A row of the Resources table. `rowVersion` is the [Timestamp] column: null until the
      store first writes the row, and from then on maintained by the store alone. */
  datatype Resource = Resource(
    id: Guid,
    name: string,
    description: Option<string>,
    location: Option<string>,
    resourceType: ResourceType,
    createdAt: DateTime,
    lastUpdatedAt: DateTime,
    createdById: Option<Guid>,
    lastUpdatedById: Option<Guid>,
    rowVersion: Option<nat>)

  /** The bounds the Resource entity's attributes declare. */
  predicate ResourceValid(r: Resource)
  {
    && Required(Some(r.name)) && StringLength(Some(r.name), NameMaxLength)
    && StringLength(r.description, DescriptionMaxLength)
    && StringLength(r.location, LocationMaxLength)
  }

  /** `new Resource()`: the property initialisers alone. `id` is the Guid.NewGuid() value and
      `now` the DateTime.UtcNow reading. The two timestamp initialisers each read the clock;
      one reading stands for both here, because every caller assigns both timestamps
      explicitly afterwards. */
  function NewResource(id: Guid, now: DateTime): (r: Resource)
    ensures r.id == id && r.resourceType == Other
    ensures r.createdById.None? && r.lastUpdatedById.None? && r.rowVersion.None?
    ensures !ResourceValid(r)
  {
    Resource(id, "", None, None, Other, now, now, None, None, None)
  }

  /** The stored password hash. BCrypt is not modelled: a hash records the salt it was made
      with and the password it was made from. */
  datatype PasswordHash = BCryptHash(salt: nat, password: string)

  datatype Role = Role(id: int, name: string)

  datatype User = User(
    id: Guid,
    username: string,
    email: string,
    passwordHash: PasswordHash,
    createdAt: DateTime,
    lastLoginAt: Option<DateTime>,
    roleId: int)
}
