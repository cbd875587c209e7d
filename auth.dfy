/** The API's authentication helpers: finding the caller from the JWT identity
    (`get_current_user`) and the `require_roles` decorator. The JWT itself is
    verified by the framework; here its identity claim is an input. */
module Auth {
  import opened Values
  import opened Text
  import opened Models

  /** `get_current_user`: no user for a missing or empty identity or one that
      `int(...)` rejects; otherwise the user stored under that id, if any. */
  function GetCurrentUser(identity: Option<string>, users: map<int, Usuario>): (u: Option<Usuario>)
    ensures identity.None? || identity == Some("") ==> u.None?
    ensures identity.Some? && ParseInt(identity.value).None? ==> u.None?
    ensures u.Some? <==> (identity.Some? && ParseInt(identity.value).Some?
                          && ParseInt(identity.value).value in users)
    ensures u.Some? ==> u.value == users[ParseInt(identity.value).value]
  {
    match identity
    case None => None
    case Some(s) =>
      if s == "" then None
      else match ParseInt(s)
        case None => None
        case Some(id) => if id in users then Some(users[id]) else None
  }

  /** The identity the login endpoint puts in the token, `str(user_id)`, leads
      back to that user. */
  lemma CurrentUserOfLoginIdentity(users: map<int, Usuario>, id: nat)
    requires id in users
    ensures GetCurrentUser(Some(DecimalString(id)), users) == Some(users[id])
  {
    ParseIntDecimalString(id);
  }

  /** What the `require_roles` wrapper does in place of the view function. */
  datatype Guarded<R> =
    | Ran(result: R)
    | Refused(code: int, message: string, requiredRoles: seq<string>)

  /** `require_roles(*allowed)(fn)(*args)`: 401 without a current user, 403
      (listing the allowed roles) when the user's role is not allowed, and
      otherwise the result of `fn` on the very same arguments. */
  function RequireRoles<A, R>(allowed: seq<string>, fn: A -> R,
                              identity: Option<string>, users: map<int, Usuario>, args: A): (r: Guarded<R>)
    ensures var user := GetCurrentUser(identity, users);
            && (user.None? ==> r == Refused(401, "Usuario no autenticado", []))
            && (user.Some? && user.value.role !in allowed ==> r == Refused(403, "No autorizado", allowed))
            && (r.Ran? <==> user.Some? && user.value.role in allowed)
            && (r.Ran? ==> r.result == fn(args))
  {
    match GetCurrentUser(identity, users)
    case None => Refused(401, "Usuario no autenticado", [])
    case Some(user) =>
      if user.role !in allowed then Refused(403, "No autorizado", allowed)
      else Ran(fn(args))
  }
}
