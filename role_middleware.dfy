/**
 * The role guards placed in front of handlers: `checkRole(roles)` and its two
 * instances `isAgent` and `isAdmin`, and `isSameUser`, which lets a user reach
 * only their own resources unless they are an administrator.
 *
 * A guard either answers the request itself or passes it on to the handler;
 * the `Outcome` type makes the two exclusive.
 */
module RoleMiddleware {
  import opened Common
  import opened JsText

  /** What a guard does with a request: answer it, or call `next()`. */
  datatype Outcome = Respond(response: Response) | Next

  const NOT_AUTHENTICATED := Response(401, "User not authenticated")
  const NOT_AUTHORIZED := Response(403, "User not authorized for this action")
  const NOT_OWN_RESOURCE := Response(403, "Not authorized to access this resource")

  /** `checkRole(roles)` applied to a request whose `req.user` is user. */
  function CheckRole(roles: seq<string>, user: Option<Claims>): (r: Outcome)
    ensures r == Respond(NOT_AUTHENTICATED) <==> user.None?
    ensures r == Respond(NOT_AUTHORIZED) <==> user.Some? && user.value.role !in roles
    ensures r == Next <==> user.Some? && user.value.role in roles
  {
    if user.None? then Respond(NOT_AUTHENTICATED)
    else if user.value.role !in roles then Respond(NOT_AUTHORIZED)
    else Next
  }

  const AGENT_ROLES: seq<string> := [AGENT, ADMIN]
  const ADMIN_ROLES: seq<string> := [ADMIN]

  /** `isAgent`: agents and administrators get through. */
  function IsAgent(user: Option<Claims>): (r: Outcome)
    ensures r == Respond(NOT_AUTHENTICATED) <==> user.None?
    ensures r == Next <==> user.Some? && (user.value.role == AGENT || user.value.role == ADMIN)
  {
    CheckRole(AGENT_ROLES, user)
  }

  /** `isAdmin`: only administrators get through. */
  function IsAdmin(user: Option<Claims>): (r: Outcome)
    ensures r == Respond(NOT_AUTHENTICATED) <==> user.None?
    ensures r == Next <==> user.Some? && user.value.role == ADMIN
  {
    CheckRole(ADMIN_ROLES, user)
  }

  /** isAgent admits exactly the roles "agent" and "admin"; isAdmin exactly "admin". */
  lemma GuardsAdmit(user: Claims)
    ensures IsAgent(Some(user)) == Next <==> user.role == AGENT || user.role == ADMIN
    ensures IsAdmin(Some(user)) == Next <==> user.role == ADMIN
  {
  }

  /** Whoever isAdmin admits, isAgent admits too. */
  lemma AdminIsAgent(user: Option<Claims>)
    requires IsAdmin(user) == Next
    ensures IsAgent(user) == Next
  {
  }

  /**
   * `isSameUser`: the requested id is `parseInt(params.id || params.userId)`,
   * each parameter a path segment (absent is `undefined`).
   */
  function IsSameUser(user: Option<Claims>, idParam: Option<string>, userIdParam: Option<string>): (r: Outcome)
    ensures r == Respond(NOT_AUTHENTICATED) <==> user.None?
    ensures user.Some? && user.value.role == ADMIN ==> r == Next
    ensures user.Some? && user.value.role != ADMIN ==>
      (r == Next <==> RequestedUser(idParam, userIdParam) == Int(user.value.id))
    ensures r == Next || r == Respond(NOT_AUTHENTICATED) || r == Respond(NOT_OWN_RESOURCE)
  {
    var requested := RequestedUser(idParam, userIdParam);
    if user.None? then Respond(NOT_AUTHENTICATED)
    else if user.value.role == ADMIN then Next
    else if Int(user.value.id) != requested then Respond(NOT_OWN_RESOURCE)
    else Next
  }

  /** `parseInt(params.id || params.userId)`; `parseInt(undefined)` is NaN. */
  function RequestedUser(idParam: Option<string>, userIdParam: Option<string>): (r: Value)
    ensures r.Int? || r.NaN?
    ensures TruthyStr(idParam) ==> r == ParseInt(idParam.value)
  {
    if TruthyStr(idParam) then ParseInt(idParam.value)
    else if userIdParam.Some? then ParseInt(userIdParam.value)
    else NaN
  }

  /** A non-admin user reaches the resource whose id is written in decimal as their own id. */
  lemma OwnResourceAdmitted(user: Claims)
    requires user.role != ADMIN
    ensures IsSameUser(Some(user), Some(DecimalString(user.id)), None) == Next
  {
    ParseIntOfDecimalString(user.id);
    assert DecimalString(user.id) != "";
  }

  /** Without either parameter, only an administrator gets through. */
  lemma NoParameterOnlyAdmin(user: Claims)
    ensures IsSameUser(Some(user), None, None) == Next <==> user.role == ADMIN
  {
  }
}
