/** The slice of ASP.NET Core MVC the controllers use: the caller's claims and the action
    results they return. */
module Mvc {
  import opened Guids
  import opened ResourceDtos
  import opened UserDtos

  /** A claim of the authenticated principal. */
  datatype Claim = Claim(claimType: string, value: string)

  /** ClaimTypes.NameIdentifier. */
  const NameIdentifierClaimType := "http://schemas.xmlsoap.org/ws/2005/05/identity/claims/nameidentifier"
  /** JwtRegisteredClaimNames.Sub, as a token issued by the authentication service carries it. */
  const SubjectClaimType := "sub"
  /** ClaimTypes.Role. */
  const RoleClaimType := "http://schemas.microsoft.com/ws/2008/06/identity/claims/role"

  /** `User.IsInRole(role)`: some role claim names the role. */
  predicate IsInRole(claims: seq<Claim>, role: string)
  {
    exists i | 0 <= i < |claims| :: claims[i] == Claim(RoleClaimType, role)
  }

  /** The body an action result carries. */
  datatype Body =
    | ResourceBody(resource: ResourceDto)
    | ResourceListBody(resources: seq<ResourceDto>)
    | NullBody
    | ModelStateBody
    | ErrorsBody(errors: seq<string>)
    | AuthBody(auth: AuthResponseDto)

  datatype ActionResult =
    | Ok(body: Body)
    | CreatedAtAction(actionName: string, routeId: Guid, body: Body)
    | BadRequest(body: Body)
    | Unauthorized(body: Body)
    | NotFound
    | NoContent

  /** The HTTP status each kind of result is sent with. */
  function StatusCode(r: ActionResult): (code: int)
    ensures 200 <= code < 300 <==> r.Ok? || r.CreatedAtAction? || r.NoContent?
  {
    match r
    case Ok(_) => 200
    case CreatedAtAction(_, _, _) => 201
    case NoContent => 204
    case BadRequest(_) => 400
    case Unauthorized(_) => 401
    case NotFound => 404
  }
}
