/** AuthService: registration and sign-in over the Users and Roles tables. Password hashing
    and token issuing are outside the model: a hash is symbolic and the token, its expiry
    and the clock readings are parameters. */
module AuthServices {
  import opened Wrappers
  import opened Guids
  import opened Entities
  import opened UserDtos

  const UsernameTakenError := "Username already exists."
  const EmailTakenError := "Email already in use."
  const InvalidCredentialsError := "Invalid email or password."
  const DefaultRoleName := "User"

  function RoleNotFoundError(roleName: string): string
  {
    "Role '" + roleName + "' not found."
  }

  /** The roles the database is seeded with. */
  const SeededRoles := [Role(1, "Admin"), Role(2, "User")]

  datatype AuthResult = AuthResult(succeeded: bool, data: Option<AuthResponseDto>, errors: seq<string>)

  function Failure(error: string): AuthResult
  {
    AuthResult(false, None, [error])
  }

  /** BCrypt.HashPassword with the salt it draws. */
  function HashPassword(salt: nat, password: string): PasswordHash
  {
    BCryptHash(salt, password)
  }

  /** BCrypt.Verify: the hash was made from this password, whatever its salt. */
  predicate Verify(password: string, hash: PasswordHash)
  {
    hash.password == password
  }

  /** A hash accepts exactly the password it was made from, whatever salt it drew. */
  lemma VerifyHashPassword(salt: nat, password: string, attempt: string)
    ensures Verify(attempt, HashPassword(salt, password)) <==> attempt == password
  {
  }

  predicate UsernameTaken(users: seq<User>, username: string)
  {
    exists i | 0 <= i < |users| :: users[i].username == username
  }

  predicate EmailTaken(users: seq<User>, email: string)
  {
    exists i | 0 <= i < |users| :: users[i].email == email
  }

  predicate IdTaken(users: seq<User>, id: Guid)
  {
    exists i | 0 <= i < |users| :: users[i].id == id
  }

  /** The Users table's key and unique indexes: no two users share an id, a user name or an
      email address. */
  predicate UsersUnique(users: seq<User>)
  {
    forall i, j | 0 <= i < j < |users| ::
      users[i].id != users[j].id && users[i].username != users[j].username && users[i].email != users[j].email
  }

  /** The Roles table's unique index on Name. */
  predicate RoleNamesUnique(roles: seq<Role>)
  {
    forall i, j | 0 <= i < j < |roles| :: roles[i].name != roles[j].name
  }

  /** `Roles.FirstOrDefault(r => r.Name == name)`. */
  function FindRole(roles: seq<Role>, name: string): (r: Option<Role>)
    ensures r.None? <==> forall i | 0 <= i < |roles| :: roles[i].name != name
    ensures r.Some? ==> r.value in roles && r.value.name == name
  {
    if roles == [] then None
    else if roles[0].name == name then Some(roles[0])
    else
      var r := FindRole(roles[1..], name);
      assert r.None? ==> forall i | 0 <= i < |roles| :: roles[i].name != name by {
        if r.None? {
          forall i | 0 <= i < |roles| ensures roles[i].name != name {
            if i > 0 { assert roles[i] == roles[1..][i - 1]; }
          }
        }
      }
      r
  }

  /** `Users.FirstOrDefault(u => u.Email == email)`, as an index. */
  /** The seeded roles serve registration: their names are unique and the default role is
      among them, so a registration with the default role never fails for want of a role. */
  lemma SeededRolesHaveDefault()
    ensures RoleNamesUnique(SeededRoles)
    ensures FindRole(SeededRoles, DefaultRoleName) == Some(Role(2, DefaultRoleName))
  {
    assert SeededRoles[1..][0] == Role(2, DefaultRoleName);
  }

  function UserWithEmail(users: seq<User>, email: string): (r: Option<nat>)
    ensures r.None? <==> !EmailTaken(users, email)
    ensures r.Some? ==> r.value < |users| && users[r.value].email == email
    ensures r.Some? ==> forall j | 0 <= j < r.value :: users[j].email != email
  {
    if users == [] then None
    else if users[0].email == email then Some(0)
    else
      var r := UserWithEmail(users[1..], email);
      assert EmailTaken(users, email) ==> EmailTaken(users[1..], email) by {
        if EmailTaken(users, email) {
          var i :| 0 <= i < |users| && users[i].email == email;
          assert users[1..][i - 1] == users[i];
        }
      }
      assert EmailTaken(users[1..], email) ==> EmailTaken(users, email) by {
        if EmailTaken(users[1..], email) {
          var i :| 0 <= i < |users[1..]| && users[1..][i].email == email;
          assert users[i + 1] == users[1..][i];
        }
      }
      if r.None? then None else Some(r.value + 1)
  }

  /** What LoginAsync answers and the Users table it leaves. Unknown email and wrong password
      are told apart by nothing: both fail with the same message and change nothing. A
      success stamps the user's last sign-in and answers with its id, name and email. */
  function LoginOutcome(users: seq<User>, dto: UserLoginDto, token: string, expiresAt: DateTime,
                        now: DateTime): (out: (AuthResult, seq<User>))
    ensures var i := UserWithEmail(users, dto.email);
      out.0.succeeded <==> i.Some? && Verify(dto.password, users[i.value].passwordHash)
    ensures !out.0.succeeded ==> out == (Failure(InvalidCredentialsError), users)
    ensures out.0.succeeded ==>
      var i := UserWithEmail(users, dto.email).value;
      && out.0 == AuthResult(true, Some(AuthResponseDto(Format(users[i].id), users[i].username, users[i].email,
                                                         token, expiresAt)), [])
      && |out.1| == |users| && out.1[i].lastLoginAt == Some(now)
      && (forall j | 0 <= j < |users| && j != i :: out.1[j] == users[j])
      && out.1[i] == users[i].(lastLoginAt := Some(now))
    ensures UsersUnique(users) ==> UsersUnique(out.1)
  {
    var i := UserWithEmail(users, dto.email);
    if i.None? || !Verify(dto.password, users[i.value].passwordHash) then
      (Failure(InvalidCredentialsError), users)
    else
      var user := users[i.value];
      var response := AuthResponseDto(Format(user.id), user.username, user.email, token, expiresAt);
      var users' := users[i.value := user.(lastLoginAt := Some(now))];
      assert forall j | 0 <= j < |users| ::
        (users'[j].id, users'[j].username, users'[j].email) == (users[j].id, users[j].username, users[j].email);
      (AuthResult(true, Some(response), []), users')
  }

  /** The user RegisterAsync inserts, before it signs in. */
  function NewUser(dto: UserRegisterDto, id: Guid, salt: nat, createdAt: DateTime, roleId: int): User
  {
    User(id, dto.username, dto.email, HashPassword(salt, dto.password), createdAt, None, roleId)
  }

  /** What RegisterAsync answers and the Users table it leaves: the checks in order (user
      name, then email, then role), each failure changing nothing; then the new user is
      inserted and signed in with the same email and password. */
  function RegisterOutcome(users: seq<User>, roles: seq<Role>, dto: UserRegisterDto, roleName: string,
                           newId: Guid, salt: nat, createdAt: DateTime, token: string,
                           expiresAt: DateTime, loginAt: DateTime): (out: (AuthResult, seq<User>))
    ensures UsernameTaken(users, dto.username) ==> out == (Failure(UsernameTakenError), users)
    ensures !UsernameTaken(users, dto.username) && EmailTaken(users, dto.email) ==>
      out == (Failure(EmailTakenError), users)
    ensures !UsernameTaken(users, dto.username) && !EmailTaken(users, dto.email) && FindRole(roles, roleName).None? ==>
      out == (Failure(RoleNotFoundError(roleName)), users)
  {
    if UsernameTaken(users, dto.username) then (Failure(UsernameTakenError), users)
    else if EmailTaken(users, dto.email) then (Failure(EmailTakenError), users)
    else
      var role := FindRole(roles, roleName);
      if role.None? then (Failure(RoleNotFoundError(roleName)), users)
      else
        LoginOutcome(users + [NewUser(dto, newId, salt, createdAt, role.value.id)],
                     UserLoginDto(dto.email, dto.password), token, expiresAt, loginAt)
  }

  /** Registration that passes its checks always signs the new user in: exactly one user is
      added, with the requested name and email, the role's id and a hash of the password,
      and the answer is that user's. */
  lemma RegisterSignsIn(users: seq<User>, roles: seq<Role>, dto: UserRegisterDto, roleName: string,
                        newId: Guid, salt: nat, createdAt: DateTime, token: string,
                        expiresAt: DateTime, loginAt: DateTime)
    requires !UsernameTaken(users, dto.username) && !EmailTaken(users, dto.email)
    requires FindRole(roles, roleName).Some?
    ensures var out := RegisterOutcome(users, roles, dto, roleName, newId, salt, createdAt, token, expiresAt, loginAt);
      && out.0 == AuthResult(true, Some(AuthResponseDto(Format(newId), dto.username, dto.email, token, expiresAt)), [])
      && out.1 == users + [NewUser(dto, newId, salt, createdAt, FindRole(roles, roleName).value.id).(lastLoginAt := Some(loginAt))]
  {
    var u := NewUser(dto, newId, salt, createdAt, FindRole(roles, roleName).value.id);
    var users' := users + [u];
    assert users'[|users|] == u;
    assert forall j | 0 <= j < |users| :: users'[j] == users[j];
    assert UserWithEmail(users', dto.email) == Some(|users|);
    var out := LoginOutcome(users', UserLoginDto(dto.email, dto.password), token, expiresAt, loginAt);
    assert out.1 == users + [u.(lastLoginAt := Some(loginAt))];
  }

  /** Registration keeps the unique indexes satisfied, as long as the new id is fresh. */
  lemma RegisterKeepsUsersUnique(users: seq<User>, roles: seq<Role>, dto: UserRegisterDto, roleName: string,
                                 newId: Guid, salt: nat, createdAt: DateTime, token: string,
                                 expiresAt: DateTime, loginAt: DateTime)
    requires UsersUnique(users) && !IdTaken(users, newId)
    ensures UsersUnique(RegisterOutcome(users, roles, dto, roleName, newId, salt, createdAt, token, expiresAt, loginAt).1)
  {
    if !UsernameTaken(users, dto.username) && !EmailTaken(users, dto.email) && FindRole(roles, roleName).Some? {
      var u := NewUser(dto, newId, salt, createdAt, FindRole(roles, roleName).value.id);
      var users' := users + [u];
      forall i, j | 0 <= i < j < |users'|
        ensures users'[i].id != users'[j].id && users'[i].username != users'[j].username && users'[i].email != users'[j].email
      {
        assert users'[i] == users[i];
        if j == |users| {
          assert users'[j] == u;
        } else {
          assert users'[j] == users[j];
        }
      }
    }
  }

  class AuthService {
    /** The Users table. */
    var users: seq<User>
    /** The Roles table. */
    const roles: seq<Role>

    ghost predicate Valid()
      reads this
    {
      UsersUnique(users) && RoleNamesUnique(roles)
    }

    constructor (roles: seq<Role>)
      requires RoleNamesUnique(roles)
      ensures Valid() && users == [] && this.roles == roles
    {
      users := [];
      this.roles := roles;
    }

    /** LoginAsync. `token` and `expiresAt` are what the token issuer returns, `now` the clock
        reading stored as the last sign-in. */
    method Login(dto: UserLoginDto, token: string, expiresAt: DateTime, now: DateTime) returns (result: AuthResult)
      modifies this`users
      ensures (result, users) == LoginOutcome(old(users), dto, token, expiresAt, now)
      ensures old(Valid()) ==> Valid()
    {
      var index := UserWithEmail(users, dto.email);
      if index.None? || !Verify(dto.password, users[index.value].passwordHash) {
        return Failure(InvalidCredentialsError);
      }
      var user := users[index.value];
      var response := AuthResponseDto(Format(user.id), user.username, user.email, token, expiresAt);
      users := users[index.value := user.(lastLoginAt := Some(now))];
      return AuthResult(true, Some(response), []);
    }

    /** RegisterAsync. `newId` is the new user's Guid.NewGuid() value, `salt` the salt BCrypt
        draws, `createdAt` and `loginAt` the clock readings; the rest is the sign-in's. */
    method Register(dto: UserRegisterDto, roleName: string, newId: Guid, salt: nat, createdAt: DateTime,
                    token: string, expiresAt: DateTime, loginAt: DateTime) returns (result: AuthResult)
      requires Valid() && !IdTaken(users, newId)
      modifies this`users
      ensures Valid()
      ensures (result, users) == RegisterOutcome(old(users), roles, dto, roleName, newId, salt, createdAt,
                                                 token, expiresAt, loginAt)
    {
      RegisterKeepsUsersUnique(users, roles, dto, roleName, newId, salt, createdAt, token, expiresAt, loginAt);
      if UsernameTaken(users, dto.username) {
        return Failure(UsernameTakenError);
      }
      if EmailTaken(users, dto.email) {
        return Failure(EmailTakenError);
      }
      var role := FindRole(roles, roleName);
      if role.None? {
        return Failure(RoleNotFoundError(roleName));
      }
      users := users + [NewUser(dto, newId, salt, createdAt, role.value.id)];
      result := Login(UserLoginDto(dto.email, dto.password), token, expiresAt, loginAt);
    }
  }
}
