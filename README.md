# Resource Management System — a verified Dafny model

This project models the core of an ASP.NET resource-management application. It also proves properties of that model.

- **Resources** are things such as laptops, cables and documents. They live in one table.
- **ResourceService** is the write path. It creates, updates and deletes resource rows. After each committed write it tells two audiences: live viewers through a SignalR broadcast, and other services through a publish on the RabbitMQ exchange `resource.events`.
- **ResourcesController** and **AuthController** turn the service results into HTTP results.
- **ResourceUIService** is the Blazor client's cached list. Its three hub handlers keep the list in step with the broadcasts. It is reloaded when the user signs in and cleared when they sign out.
- **AuthService** registers users and signs them in.
- The request bodies and the Resource entity carry DataAnnotations bounds. The model states them as validity predicates.

Each source file becomes one Dafny module, written in the same form as the source:

| file | module | form |
|---|---|---|
| `Guid` text form | `Guids` (`guids.dfy`) | functions and lemmas |
| DataAnnotations attributes | `DataAnnotations` (`data_annotations.dfy`) | predicates |
| `Resource.cs`, `User.cs`, `Role.cs` | `Entities` (`entities.dfy`) | datatypes and a validity predicate |
| `UpdateResourceDto.cs`, `ResourceDto.cs` | `ResourceDtos` (`resource_dtos.dfy`) | datatypes and a validity predicate |
| `UserRegisterDto.cs`, `UserLoginDto.cs` | `UserDtos` (`user_dtos.dfy`) | datatypes and validity predicates |
| `ResourceService.cs` | `ResourceServices` (`resource_service.dfy`) | a class: store map, emission log, row-version counter |
| `OrderBy(r => r.Name)` | `NameOrder` (`name_order.dfy`) | a stable insertion sort as a function |
| `ResourceUiService.cs` | `ResourceUi` (`resource_ui_service.dfy`) | a class with the list, the auth flag and the token as fields |
| MVC results and claims | `Mvc` (`mvc.dfy`) | datatypes |
| `ResourcesController.cs` | `ResourcesControllers` (`resources_controller.dfy`) | pure mapping functions, plus action methods that call the service object |
| `AuthService.cs` | `AuthServices` (`auth_service.dfy`) | a class over the Users and Roles tables, proved against pure outcome functions |
| `AuthController.cs` | `AuthControllers` (`auth_controller.dfy`) | pure mapping functions, plus action methods |

Some inputs are outside the program's logic. Each one is a parameter of the operation that uses it:

- the clock readings;
- `Guid.NewGuid()`, with a precondition that the value is fresh;
- the outcome of `SaveChangesAsync`: `Saved`, `ConcurrencyConflict` or `StorageFailure`;
- the outcome of SignalR `SendAsync`: `Sent` or `SendFailed`;
- the BCrypt salt, the JWT token and its expiry;
- whether the hub connection starts;
- the HTTP status or body the client receives.

The emission log records every call the service makes to SignalR and to RabbitMQ, in order.

## Model

| member | source | states |
|---|---|---|
| Guids.Format | ResourceManagementSystem.API/Services/AuthService.cs:79 | `Guid.ToString()` gives 36 characters with hyphens at positions 8, 13, 18 and 23 |
| Guids.Parse | ResourceManagementSystem.API/Controllers/ResourcesController.cs:27 | `Guid.TryParse` of the plain hyphenated form: it succeeds iff the string has the 8-4-4-4-12 shape and its 32 other characters are hex digits of either case; the Guid holds those digits' values |
| Guids.ParseFormat | ResourceManagementSystem.API/Controllers/ResourcesController.cs:27 | parsing the printed form of a Guid gives the same Guid back |
| Guids.FormatInjective | ResourceManagementSystem.API/Services/ResourceService.cs:134 | distinct Guids print differently |
| DataAnnotations.IsWhiteSpace | ResourceManagementSystem.Core/DTO/User/UserRegisterDto.cs:7 | the characters `char.IsWhiteSpace` accepts, which `[Required]` trims |
| DataAnnotations.Required | ResourceManagementSystem.Core/DTO/User/UserRegisterDto.cs:7 | `[Required]` on a string: not null and not empty or white space only |
| DataAnnotations.StringLength | ResourceManagementSystem.Core/DTO/User/UserRegisterDto.cs:8 | `[StringLength(max, MinimumLength = min)]`: null passes, otherwise the length lies within the bounds |
| DataAnnotations.IndexOf | ResourceManagementSystem.Core/DTO/User/UserRegisterDto.cs:12 | the first position of a character, or -1 exactly when it is absent |
| DataAnnotations.LastIndexOf | ResourceManagementSystem.Core/DTO/User/UserRegisterDto.cs:12 | the last position of a character, or -1 exactly when it is absent |
| DataAnnotations.EmailAddress | ResourceManagementSystem.Core/DTO/User/UserRegisterDto.cs:12 | `[EmailAddress]`: null passes; otherwise the first '@' is neither first nor last and is also the last '@' |
| DataAnnotations.EmailAddressIff | ResourceManagementSystem.Core/DTO/User/UserRegisterDto.cs:12 | `[EmailAddress]` accepts exactly the strings with one '@' that is neither first nor last |
| Entities.TypeOrdinal | ResourceManagementSystem.Core/Entities/Resource.cs:7-17 | each of the eight ResourceType values has an ordinal below 8 |
| Entities.TypeFromOrdinal | ResourceManagementSystem.Core/Entities/Resource.cs:7-17 | ResourceType is closed: an integer names a member iff it lies in 0..7, and it names exactly one |
| Entities.ResourceValid | ResourceManagementSystem.Core/Entities/Resource.cs:24-32 | the entity bounds: Name required and at most 200 characters, Description at most 1000, Location at most 100 |
| Entities.NewResource | ResourceManagementSystem.Core/Entities/Resource.cs:22-37 | a new Resource has the given fresh id, type Other, no creator, updater or row version, and an empty name that fails the entity bounds |
| ResourceDtos.UpdateResourceDtoValid | ResourceManagementSystem.Core/DTO/Resource/UpdateResourceDto.cs:8-16 | the update body's bounds: Name required and at most 200 characters, Description at most 1000, Location at most 100 |
| ResourceDtos.DefaultUpdateResourceDto | ResourceManagementSystem.Core/DTO/Resource/UpdateResourceDto.cs:8-18 | a default update body has type Other and no description or location, and it is invalid because the name is empty |
| ResourceDtos.ApplyUpdate | ResourceManagementSystem.API/Services/ResourceService.cs:120-125 | an update writes the body's Name, Description, Location and Type, sets LastUpdatedAt to now and LastUpdatedById to the caller, and keeps id, CreatedAt, CreatedById and RowVersion; a valid body gives a row within the entity bounds |
| ResourceDtos.UpdateBoundsAreEntityBounds | ResourceManagementSystem.Core/DTO/Resource/UpdateResourceDto.cs:8-16 | the updated row is within the entity bounds iff the update body is within its own bounds |
| UserDtos.UserRegisterDtoValid | ResourceManagementSystem.Core/DTO/User/UserRegisterDto.cs:7-18 | the registration body's attribute bounds on Username, Email and Password |
| UserDtos.UserLoginDtoValid | ResourceManagementSystem.Core/DTO/User/UserLoginDto.cs:7-11 | the login body's bounds: Email required and an email address, Password required |
| UserDtos.UserRegisterDtoValidIff | ResourceManagementSystem.Core/DTO/User/UserRegisterDto.cs:7-18 | valid registration: user name 3 to 100 characters and not blank; email at most 255 characters with exactly one inner '@'; password 6 to 100 characters and not blank |
| UserDtos.ShortUsernameInvalid | ResourceManagementSystem.Core/DTO/User/UserRegisterDto.cs:8 | a user name shorter than 3 characters makes the registration body invalid |
| ResourceServices.RoutingKeysIdentifyResource | ResourceManagementSystem.API/Services/ResourceService.cs:134 | update and delete routing keys name exactly one resource, and no two event kinds share a key |
| ResourceServices.Notifications | ResourceManagementSystem.API/Services/ResourceService.cs:99-100 | one committed mutation emits the broadcast and then, only if it did not throw, the publish on `resource.events` |
| ResourceServices.UsernameOf | ResourceManagementSystem.API/Services/ResourceService.cs:73-74 | a user name is present iff the reference is set and resolves to a user, and it is that user's name |
| ResourceServices.ToResourceDto | ResourceManagementSystem.API/Services/ResourceService.cs:64-75 | the projection copies Id, Name, Description, Location, Type, CreatedAt and LastUpdatedAt, and resolves the creator's and updater's names |
| ResourceServices.ResourceService.constructor | ResourceManagementSystem.API/Services/ResourceService.cs:23-28 | the service starts with no resources, an empty emission log and the invariant established |
| ResourceServices.ResourceService.GetResourceById | ResourceManagementSystem.API/Services/ResourceService.cs:52-76 | null exactly when no row has the id; otherwise the row's projection |
| ResourceServices.ResourceService.GetAllResources | ResourceManagementSystem.API/Services/ResourceService.cs:30-50 | the projection of every row, each exactly once: the ids are the store's keys and no id repeats |
| ResourceServices.ResourceService.CreateResource | ResourceManagementSystem.API/Services/ResourceService.cs:78-108 | a failed save stores and emits nothing and returns the save error; a committed save stores a row built from the body with creator = updater = caller and a new row version, then broadcasts `ReceiveResourceCreated` and publishes `resource.created` with the stored projection |
| ResourceServices.ResourceService.UpdateResource | ResourceManagementSystem.API/Services/ResourceService.cs:111-147 | an unknown id, a concurrency conflict and a storage failure each return their own message and change nothing; a committed save that changes the row changes only its mutable fields, update time, updater and a new row version; an update that changes nothing leaves the store and its versions as they were and cannot fail; either way it then broadcasts and publishes `resource.updated.<id>` |
| ResourceServices.UpdateChangesRow | ResourceManagementSystem.API/Services/ResourceService.cs:120-129 | whether the assignments modify the tracked row, which decides whether SaveChangesAsync writes anything |
| ResourceServices.UnchangedUpdateIff | ResourceManagementSystem.API/Services/ResourceService.cs:120-125 | an update writes nothing iff the body repeats the four mutable fields, the caller is the last updater and the clock reads the last update time |
| ResourceServices.ResourceService.DeleteResource | ResourceManagementSystem.API/Services/ResourceService.cs:149-174 | an unknown id or a failed save changes nothing; a committed delete removes the row for good, broadcasts the bare id and publishes `resource.deleted.<id>` with the id, the old name, the deleting user and the time |
| NameOrder.LessIrreflexive | ResourceManagementSystem.UI.Web/Services/ResourceUiService.cs:86 | no name sorts before itself |
| NameOrder.LessTransitive | ResourceManagementSystem.UI.Web/Services/ResourceUiService.cs:86 | the ordinal name order is transitive |
| NameOrder.LessTotal | ResourceManagementSystem.UI.Web/Services/ResourceUiService.cs:86 | any two distinct names are ordered one way or the other |
| NameOrder.InsertPosition | ResourceManagementSystem.UI.Web/Services/ResourceUiService.cs:86 | a stable insert goes after every equal or smaller name and before the first larger one |
| NameOrder.Insert | ResourceManagementSystem.UI.Web/Services/ResourceUiService.cs:86 | inserting into a sorted list keeps it sorted, adds exactly that entry, adds it after entries with the same name, and adds its id |
| NameOrder.SortByName | ResourceManagementSystem.UI.Web/Services/ResourceUiService.cs:86 | `OrderBy(Name)` gives a sorted permutation; entries with equal names keep their order; the id set is kept, and distinct ids stay distinct |
| NameOrder.SortSorted | ResourceManagementSystem.UI.Web/Services/ResourceUiService.cs:101 | sorting a list that is already sorted by name leaves it unchanged |
| ResourceUi.FindIndex | ResourceManagementSystem.UI.Web/Services/ResourceUiService.cs:92 | `FindIndex` gives the first index holding the id, or -1 exactly when the id is absent |
| ResourceUi.FirstWithId | ResourceManagementSystem.UI.Web/Services/ResourceUiService.cs:83 | `FirstOrDefault` gives the entry at FindIndex's position, or null exactly when FindIndex finds nothing |
| ResourceUi.IndexOf | ResourceManagementSystem.UI.Web/Services/ResourceUiService.cs:85 | `IndexOf` gives the first index holding the entry, or -1 exactly when it is absent |
| ResourceUi.IndexOfFirstWithId | ResourceManagementSystem.UI.Web/Services/ResourceUiService.cs:83-85 | the created handler's FirstOrDefault-then-IndexOf lands on the same index as the update handler's FindIndex |
| ResourceUi.Upserted | ResourceManagementSystem.UI.Web/Services/ResourceUiService.cs:83-85 | replace-or-append: the entry takes the place of the first entry with its id, every other entry keeping its position, or is appended when the id is absent; the id set becomes old ∪ {id}; distinct ids stay distinct |
| ResourceUi.Removed | ResourceManagementSystem.UI.Web/Services/ResourceUiService.cs:107-110 | an unknown id leaves the list unchanged; otherwise exactly the first entry with the id is gone and the others keep their order; with distinct ids the id set becomes old \ {id} |
| ResourceUi.RemovedKeepsSorted | ResourceManagementSystem.UI.Web/Services/ResourceUiService.cs:105-113 | removing an entry from a list sorted by name leaves it sorted, so the delete handler needs no re-sort |
| ResourceUi.AfterLoad | ResourceManagementSystem.UI.Web/Services/ResourceUiService.cs:145-162 | a loaded list replaces the cache, sorted by name as a permutation; a null body gives an empty list; a 401 clears the cache; other errors keep it |
| ResourceUi.LoadNotifies | ResourceManagementSystem.UI.Web/Services/ResourceUiService.cs:145-162 | the load raises ResourcesChanged after every load, after a 401 only when there was something to clear, and never after another failure |
| ResourceUi.StatusOutcome | ResourceManagementSystem.UI.Web/Services/ResourceUiService.cs:169 | `EnsureSuccessStatusCode` completes iff the status is 2xx, and otherwise faults with that status |
| ResourceUi.ResourceUiService.constructor | ResourceManagementSystem.UI.Web/Services/ResourceUiService.cs:17-31 | the client starts signed out, with an empty list, no token and no hub connection |
| ResourceUi.ResourceUiService.OnResourceCreated | ResourceManagementSystem.UI.Web/Services/ResourceUiService.cs:81-88 | the list becomes the replace-or-append result sorted by name; the id set is old ∪ {id}; distinct ids are kept; one notification |
| ResourceUi.ResourceUiService.OnResourceUpdated | ResourceManagementSystem.UI.Web/Services/ResourceUiService.cs:90-103 | the list becomes the replace-or-append result sorted by name; the id set is old ∪ {id}; distinct ids are kept; one notification |
| ResourceUi.ResourceUiService.OnResourceDeleted | ResourceManagementSystem.UI.Web/Services/ResourceUiService.cs:105-113 | the first entry with the id is removed with one notification; an unknown id changes nothing and notifies nobody; with distinct ids the id set is old \ {id}; a list sorted by name stays sorted |
| ResourceUi.ResourceUiService.LoadInitialResources | ResourceManagementSystem.UI.Web/Services/ResourceUiService.cs:131-163 | signed out, it only clears a non-empty list; signed in, it sends one GET and applies the load outcome |
| ResourceUi.ResourceUiService.Initialize | ResourceManagementSystem.UI.Web/Services/ResourceUiService.cs:61-127 | nothing happens when signed out; it returns before loading if a needed hub start fails; otherwise the hub is connected and the list is loaded |
| ResourceUi.ResourceUiService.SetAuthenticationState | ResourceManagementSystem.UI.Web/Services/ResourceUiService.cs:33-59 | it always stores the flag and the token; nothing else happens unless one of them changed; then signing out stops the hub and clears a non-empty list (notifying iff it was non-empty), and signing in initialises: a failed hub start changes and notifies nothing, otherwise the list loads and notifies as LoadNotifies says |
| ResourceUi.ResourceUiService.CreateResource | ResourceManagementSystem.UI.Web/Services/ResourceUiService.cs:165-170 | signed out, it throws InvalidOperationException and sends nothing; signed in, it sends the POST and succeeds iff the status is 2xx |
| ResourceUi.ResourceUiService.UpdateResource | ResourceManagementSystem.UI.Web/Services/ResourceUiService.cs:172-177 | signed out, it throws and sends nothing; signed in, it sends the PUT and succeeds iff the status is 2xx |
| ResourceUi.ResourceUiService.DeleteResource | ResourceManagementSystem.UI.Web/Services/ResourceUiService.cs:179-184 | signed out, it throws and sends nothing; signed in, it sends the DELETE and succeeds iff the status is 2xx |
| Mvc.IsInRole | ResourceManagementSystem.API/Controllers/ResourcesController.cs:88 | the caller holds a role claim naming the role |
| Mvc.StatusCode | ResourceManagementSystem.API/Controllers/ResourcesController.cs:34-100 | the status each result kind is sent with; 2xx iff Ok, CreatedAtAction or NoContent |
| ResourcesControllers.UserIdClaim | ResourceManagementSystem.API/Controllers/ResourcesController.cs:26 | gives the first NameIdentifier or "sub" claim, and none exactly when no claim has either type |
| ResourcesControllers.CurrentUserId | ResourceManagementSystem.API/Controllers/ResourcesController.cs:24-32 | the user id is that claim's value parsed as a Guid; it is absent (and the action throws) iff there is no such claim or the value does not parse |
| ResourcesControllers.CurrentUserIdOfIssuedClaim | ResourceManagementSystem.API/Controllers/ResourcesController.cs:26-27 | a leading id claim holding a printed Guid gives that Guid back |
| ResourcesControllers.GetByIdResponse | ResourceManagementSystem.API/Controllers/ResourcesController.cs:45-49 | NotFound iff the service returns null; otherwise Ok with the DTO |
| ResourcesControllers.CreateResponse | ResourceManagementSystem.API/Controllers/ResourcesController.cs:62-66 | CreatedAtAction(GetResourceById, id) with the DTO iff the result succeeded with data; otherwise BadRequest with the service's errors unchanged |
| ResourcesControllers.UpdateResponse | ResourceManagementSystem.API/Controllers/ResourcesController.cs:79-84 | NotFound iff a failure lists "Resource not found."; other failures give BadRequest with the same errors; success gives Ok with the data |
| ResourcesControllers.DeleteResponse | ResourceManagementSystem.API/Controllers/ResourcesController.cs:94-99 | NotFound iff a failure lists "Resource not found."; other failures give BadRequest with the same errors; NoContent iff the delete succeeded |
| ResourcesControllers.ResourcesController.constructor | ResourceManagementSystem.API/Controllers/ResourcesController.cs:19-22 | the controller holds the given service |
| ResourcesControllers.ResourcesController.GetAllResources | ResourceManagementSystem.API/Controllers/ResourcesController.cs:34-39 | Ok with every row's projection, each id once |
| ResourcesControllers.ResourcesController.GetResourceById | ResourceManagementSystem.API/Controllers/ResourcesController.cs:41-50 | NotFound iff the id is not stored; otherwise Ok with the row's projection |
| ResourcesControllers.ResourcesController.CreateResource | ResourceManagementSystem.API/Controllers/ResourcesController.cs:52-67 | an invalid model gives BadRequest and never reaches the service; a missing or bad user id throws before the service; a failed save gives BadRequest with the save error and changes nothing; a committed save adds only the new row, with the caller as creator, emits the creation notifications and gives CreatedAtAction for the new id |
| ResourcesControllers.ResourcesController.UpdateResource | ResourceManagementSystem.API/Controllers/ResourcesController.cs:69-85 | an invalid body (such as an empty name) gives BadRequest without calling the service; an unknown id gives NotFound; a conflict or a storage failure on an update that changes the row gives BadRequest with its message and changes nothing; success changes only that row as ApplyUpdate says, emits the update notifications and gives Ok with the updated row |
| ResourcesControllers.ResourcesController.DeleteResource | ResourceManagementSystem.API/Controllers/ResourcesController.cs:87-100 | callers in the Admin role only; an unknown id gives NotFound; a failed save gives BadRequest and changes nothing; success removes only that row, emits the deletion notifications and gives NoContent |
| AuthServices.Verify | ResourceManagementSystem.API/Services/AuthService.cs:68 | `BCrypt.Verify`: the password matches the one the hash was made from |
| AuthServices.VerifyHashPassword | ResourceManagementSystem.API/Services/AuthService.cs:68 | a hash accepts exactly the password it was made from, whatever its salt |
| AuthServices.SeededRolesHaveDefault | ResourceManagementSystem.API/Data/DbContext.cs:40-43 | the seeded roles Admin (1) and User (2) have unique names, and the default role "User" is found among them, so registration with the default role never fails for want of a role |
| AuthServices.FindRole | ResourceManagementSystem.API/Services/AuthService.cs:41 | gives a stored role with that name, and none exactly when no role has that name |
| AuthServices.UserWithEmail | ResourceManagementSystem.API/Services/AuthService.cs:65-66 | gives the first user with that email, and none exactly when the email is not taken |
| AuthServices.LoginOutcome | ResourceManagementSystem.API/Services/AuthService.cs:63-90 | success iff the email's user exists and the password verifies; an unknown email and a wrong password give the same error and change nothing; success stamps only that user's LastLoginAt and returns their id, name and email; unique indexes are kept |
| AuthServices.RegisterOutcome | ResourceManagementSystem.API/Services/AuthService.cs:29-61 | the checks run in order (user name, then email, then role), and each failure leaves the users unchanged with its own message |
| AuthServices.RegisterSignsIn | ResourceManagementSystem.API/Services/AuthService.cs:47-60 | registration that passes its checks adds exactly one user (name, email, the role's id, a password hash), signs them in and answers with their data |
| AuthServices.RegisterKeepsUsersUnique | ResourceManagementSystem.API/Services/AuthService.cs:31-39 | registration keeps ids, user names and emails unique across users |
| AuthServices.AuthService.constructor | ResourceManagementSystem.API/Services/AuthService.cs:23-27 | the service starts with no users and the given roles |
| AuthServices.AuthService.Login | ResourceManagementSystem.API/Services/AuthService.cs:63-90 | answers and updates the users as LoginOutcome says, and keeps the unique indexes |
| AuthServices.AuthService.Register | ResourceManagementSystem.API/Services/AuthService.cs:29-61 | answers and updates the users as RegisterOutcome says, and keeps the unique indexes |
| AuthControllers.RegisterResponse | ResourceManagementSystem.API/Controllers/AuthController.cs:29-34 | Ok with the response iff the service succeeded with data; otherwise BadRequest with its errors |
| AuthControllers.LoginResponse | ResourceManagementSystem.API/Controllers/AuthController.cs:47-52 | Ok with the response iff the service succeeded with data; otherwise Unauthorized with its errors |
| AuthControllers.RegisteredUserCanLogIn | ResourceManagementSystem.API/Services/AuthService.cs:59-60 | a new registration answers Ok with the new user's id, name and email, and a later login with the same credentials answers Ok for that user |
| AuthControllers.SecondRegistrationRejected | ResourceManagementSystem.API/Services/AuthService.cs:31-34 | registering the same body twice: the second attempt gives BadRequest "Username already exists." and changes nothing |
| AuthControllers.AuthController.constructor | ResourceManagementSystem.API/Controllers/AuthController.cs:14-17 | the controller holds the given service |
| AuthControllers.AuthController.Register | ResourceManagementSystem.API/Controllers/AuthController.cs:19-35 | an invalid body gives BadRequest and never reaches the service; otherwise it registers with the default role "User" and maps the answer |
| AuthControllers.AuthController.Login | ResourceManagementSystem.API/Controllers/AuthController.cs:37-53 | an invalid body gives BadRequest and never reaches the service; otherwise it signs in and maps the answer |

## Notes on the code

- **A failed SignalR broadcast is not swallowed.** Only `DbUpdateException` is caught around the awaited `SendAsync` (ResourceService.cs:99, 133, 165). A failed `SendAsync` therefore faults the service call after the commit, and no publish follows. The model returns `Faulted(HubSendException)` in that case. The emission log then holds the broadcast attempt and no publish.
- **Update has no caller-supplied version stamp.** Update re-reads the row by id (ResourceService.cs:113). The only concurrency branch is the store's own conflict (`ConcurrencyConflict`). The model stamps each written row with a fresh row version, but it does not claim "no lost updates" for stale clients.
- **An update that changes nothing writes nothing.** Update assigns six properties (ResourceService.cs:120-125) and calls `SaveChangesAsync` with no explicit `Update()`. When every assigned value equals the stored one, the change tracker sends no UPDATE. The save then cannot conflict or fail, and the `[Timestamp]` row version stays. The update is still broadcast and published.
- **Create reads the clock twice.** `CreatedAt` and `LastUpdatedAt` come from two readings (ResourceService.cs:86-87). The model takes both as parameters (`createdAt`, `lastUpdatedAt`) and promises nothing about how they compare.

## Left out

- EF Core internals (change tracking, `Include` loading, the SQL store) are left out. The Resources table is a map, and the Users table is a map from id to user name.
- Database concurrency and atomicity are left out. Calls are sequential.
- Because calls are sequential, the re-read after a save always finds the row. The null branches of Create and Update (ResourceService.cs:97, 131) are in the code, but no sequential run reaches them.
- In the code, a concurrency conflict in Create and Delete raises a `DbUpdateConcurrencyException`. That is a `DbUpdateException`, so both operations map it to their generic save error. The model does the same.
- SignalR transport and hub connection building are left out: a broadcast is an entry in the emission log. The automatic reconnect is not modelled.
- RabbitMQ is left out: a publish is an entry in the emission log. The producer never throws, so a publish is total.
- Clocks, `Guid.NewGuid()`, BCrypt salts, JWT issuing and HTTP responses are parameters.
- `GenerateJwtToken` is not modelled. The token and its expiry come in as parameters.
- BCrypt's 72-byte password truncation is not modelled. A hash records its salt and password, and `Verify` compares passwords.
- AuthService.Register: a storage failure while saving the new user, or while stamping the sign-in, is not modelled. Those saves always succeed in the model.
- AuthService.Register: the unique indexes compare with the database collation, which is usually case-insensitive. The model compares strings exactly.
- Logout is not modelled. It does not appear in the service or controller implementations.
- Guids.Parse accepts only the plain hyphenated 36-character form, in either case. `Guid.TryParse` also accepts the N, B, P and X forms and surrounding white space. It also rejects the '+' and '0x'/'0X' component prefixes that `Guid.TryParse`'s hyphenated-form fallback accepts, counted inside each component's length (for example "+2345678-1234-1234-1234-123456789012"). So ResourcesControllers.CurrentUserId reports a missing id for such claim values, where the action would go on. Tokens the service issues always carry the plain printed form (ResourcesControllers.CurrentUserIdOfIssuedClaim).
- NameOrder.SortByName compares names ordinally, by character code. .NET's `OrderBy` on strings uses the current culture's comparer.
- String lengths in the bounds count Dafny characters, not UTF-16 code units. Surrogate pairs are not modelled.
- ModelState binding errors (a malformed JSON body) are left out. ResourcesControllers.ResourcesController.CreateResource takes `modelValid` as a parameter, because the CreateResourceDto class is not part of this model. Update, Register and Login compute validity from the body's bounds.
- `ResourceDto` is a class with reference equality. The model compares values. `IndexOf` and `Remove` after `FirstOrDefault` still land on the first entry with the id, as ResourceUi.IndexOfFirstWithId shows.
- The client's `ResourcesChanged` event is a counter of notifications. Its subscribers are not modelled.
- `GetResources()` and `DisposeAsync` in the client are field reads and transport cleanup, and are not modelled.
- Console logging is not modelled.
- Entities.TypeFromOrdinal: a C# enum variable can hold an integer outside 0..7, for example one bound from JSON. The closed ResourceType datatype cannot hold such a value, so the model has no resource with an undefined type.
- The Role entity's bounds and the User entity's bounds are not modelled. Only the users table's uniqueness is an invariant.
