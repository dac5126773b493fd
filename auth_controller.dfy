/** AuthController: the register and login endpoints. Each checks the bound model, calls
    AuthService and turns its answer into an HTTP result. */
module AuthControllers {
  import opened Wrappers
  import opened Guids
  import opened Entities
  import opened UserDtos
  import opened AuthServices
  import opened Mvc

  /** Register's result for a service answer: Ok with the response only for a success with
      data, BadRequest with the service's errors otherwise. */
  function RegisterResponse(result: AuthResult): (r: ActionResult)
    ensures r.Ok? <==> result.succeeded && result.data.Some?
    ensures r.Ok? ==> r == Ok(AuthBody(result.data.value))
    ensures !r.Ok? ==> r == BadRequest(ErrorsBody(result.errors))
  {
    if !result.succeeded || result.data.None? then BadRequest(ErrorsBody(result.errors))
    else Ok(AuthBody(result.data.value))
  }

  /** Login's result: as RegisterResponse, with Unauthorized in place of BadRequest. */
  function LoginResponse(result: AuthResult): (r: ActionResult)
    ensures r.Ok? <==> result.succeeded && result.data.Some?
    ensures r.Ok? ==> r == Ok(AuthBody(result.data.value))
    ensures !r.Ok? ==> r == Unauthorized(ErrorsBody(result.errors))
  {
    if !result.succeeded || result.data.None? then Unauthorized(ErrorsBody(result.errors))
    else Ok(AuthBody(result.data.value))
  }

  /** A user who has just registered can sign in with the same email and password: the
      login endpoint answers 200 with that user's id, name and email. */
  lemma RegisteredUserCanLogIn(users: seq<User>, roles: seq<Role>, dto: UserRegisterDto, newId: Guid, salt: nat,
                               createdAt: DateTime, token: string, expiresAt: DateTime, loginAt: DateTime,
                               token': string, expiresAt': DateTime, now: DateTime)
    requires !UsernameTaken(users, dto.username) && !EmailTaken(users, dto.email)
    requires FindRole(roles, DefaultRoleName).Some?
    ensures var registered := RegisterOutcome(users, roles, dto, DefaultRoleName, newId, salt, createdAt,
                                              token, expiresAt, loginAt);
      && RegisterResponse(registered.0) == Ok(AuthBody(AuthResponseDto(Format(newId), dto.username, dto.email, token, expiresAt)))
      && LoginResponse(LoginOutcome(registered.1, UserLoginDto(dto.email, dto.password), token', expiresAt', now).0)
         == Ok(AuthBody(AuthResponseDto(Format(newId), dto.username, dto.email, token', expiresAt')))
  {
    RegisterSignsIn(users, roles, dto, DefaultRoleName, newId, salt, createdAt, token, expiresAt, loginAt);
    var registered := RegisterOutcome(users, roles, dto, DefaultRoleName, newId, salt, createdAt, token, expiresAt, loginAt);
    assert registered.1[|users|].email == dto.email;
    assert forall j | 0 <= j < |users| :: registered.1[j] == users[j];
    assert UserWithEmail(registered.1, dto.email) == Some(|users|);
  }

  /** Registering the same body twice: the second attempt is refused as a 400 naming the
      taken user name, and leaves the users as the first left them. */
  lemma SecondRegistrationRejected(users: seq<User>, roles: seq<Role>, dto: UserRegisterDto, newId: Guid,
                                   newId': Guid, salt: nat, salt': nat, createdAt: DateTime, token: string,
                                   expiresAt: DateTime, loginAt: DateTime)
    requires !UsernameTaken(users, dto.username) && !EmailTaken(users, dto.email)
    requires FindRole(roles, DefaultRoleName).Some?
    ensures var first := RegisterOutcome(users, roles, dto, DefaultRoleName, newId, salt, createdAt,
                                         token, expiresAt, loginAt);
      var second := RegisterOutcome(first.1, roles, dto, DefaultRoleName, newId', salt', createdAt,
                                    token, expiresAt, loginAt);
      && second.1 == first.1
      && RegisterResponse(second.0) == BadRequest(ErrorsBody([UsernameTakenError]))
  {
    RegisterSignsIn(users, roles, dto, DefaultRoleName, newId, salt, createdAt, token, expiresAt, loginAt);
    var first := RegisterOutcome(users, roles, dto, DefaultRoleName, newId, salt, createdAt, token, expiresAt, loginAt);
    assert first.1[|users|].username == dto.username;
  }

  class AuthController {
    const service: AuthService

    constructor (service: AuthService)
      ensures this.service == service
    {
      this.service := service;
    }

    /** POST /Auth/Register, always with the default role. The model is valid when the body
        meets UserRegisterDto's bounds; an invalid one never reaches the service. */
    method Register(dto: UserRegisterDto, newId: Guid, salt: nat, createdAt: DateTime, token: string,
                    expiresAt: DateTime, loginAt: DateTime) returns (r: ActionResult)
      requires service.Valid() && !IdTaken(service.users, newId)
      modifies service
      ensures service.Valid()
      ensures !UserRegisterDtoValid(dto) ==> r == BadRequest(ModelStateBody) && unchanged(service)
      ensures UserRegisterDtoValid(dto) ==>
        var out := RegisterOutcome(old(service.users), service.roles, dto, DefaultRoleName, newId, salt,
                                   createdAt, token, expiresAt, loginAt);
        r == RegisterResponse(out.0) && service.users == out.1
    {
      if !UserRegisterDtoValid(dto) {
        return BadRequest(ModelStateBody);
      }
      var result := service.Register(dto, DefaultRoleName, newId, salt, createdAt, token, expiresAt, loginAt);
      return RegisterResponse(result);
    }

    /** POST /Auth/Login. */
    method Login(dto: UserLoginDto, token: string, expiresAt: DateTime, now: DateTime) returns (r: ActionResult)
      requires service.Valid()
      modifies service
      ensures service.Valid()
      ensures !UserLoginDtoValid(dto) ==> r == BadRequest(ModelStateBody) && unchanged(service)
      ensures UserLoginDtoValid(dto) ==>
        var out := LoginOutcome(old(service.users), dto, token, expiresAt, now);
        r == LoginResponse(out.0) && service.users == out.1
    {
      if !UserLoginDtoValid(dto) {
        return BadRequest(ModelStateBody);
      }
      var result := service.Login(dto, token, expiresAt, now);
      return LoginResponse(result);
    }
  }
}
