/** The administrator's dashboard (`AdminDashboard.jsx`): who counts as an
    administrator, where others are sent, the appointment statistics, the ten
    latest appointments and the date-time text. */
module AdminDashboard {
  import opened Values
  import opened Text
  import opened Ordering
  import opened Store
  import opened AppointmentRows

  /** The decoded token claims: `token ? parseJwt(token) : null`, where the JWT
      payload decoder `parseJwt` gives `null` for a token it cannot read (a
      value without `split` is one). */
  function Claims(token: Value, parseJwt: string -> Value): (claims: Value)
    ensures !JsTruthy(token) ==> claims == Null
  {
    if JsTruthy(token) && token.Str? then parseJwt(token.s) else Null
  }

  /** `claims?.sub ? (claims?.role || store.role) : store.role`. */
  function DashboardRole(claims: Value, store: StoreState): (role: Value)
    ensures !JsTruthy(OptProp(claims, "sub")) ==> role == store.role
    ensures JsTruthy(OptProp(claims, "sub")) && JsTruthy(OptProp(claims, "role")) ==> role == OptProp(claims, "role")
    ensures JsTruthy(OptProp(claims, "sub")) && !JsTruthy(OptProp(claims, "role")) ==> role == store.role
  {
    if JsTruthy(OptProp(claims, "sub")) then JsOr(OptProp(claims, "role"), store.role) else store.role
  }

  /** `store.is_admin`: the store has no such field, so it reads `undefined`. */
  function StoreIsAdmin(store: StoreState): Value
  {
    Undefined
  }

  /** `Boolean(claims?.is_admin) || role === "admin" || store.is_admin === true`. */
  predicate IsAdmin(claims: Value, store: StoreState)
  {
    || JsTruthy(OptProp(claims, "is_admin"))
    || DashboardRole(claims, store) == Str("admin")
    || StoreIsAdmin(store) == Bool(true)
  }

  /** The third test never holds: the page's administrators are those whose
      claims say so or whose role is "admin". */
  lemma IsAdminFromClaimsOrRole(claims: Value, store: StoreState)
    ensures IsAdmin(claims, store) <==>
              JsTruthy(OptProp(claims, "is_admin")) || DashboardRole(claims, store) == Str("admin")
  {
  }

  /** Without a token (or one without a subject) only the store's role counts. */
  lemma WithoutClaimsStoreRoleDecides(token: Value, parseJwt: string -> Value, store: StoreState)
    requires !JsTruthy(token)
    ensures IsAdmin(Claims(token, parseJwt), store) <==> store.role == Str("admin")
  {
  }

  /** The effect that guards the page: to the login page without a token, to the
      plain dashboard for a non-administrator; `None` when the page stays (and
      loads its data). */
  function Redirect(token: Value, isAdmin: bool): (to: Option<string>)
    ensures to.None? <==> JsTruthy(token) && isAdmin
    ensures !JsTruthy(token) ==> to == Some("/login")
  {
    if !JsTruthy(token) then Some("/login")
    else if !isAdmin then Some("/dashboard")
    else None
  }

  /** A user who logged out (token "") is sent to the login page whatever the
      role the store still holds. */
  lemma LoggedOutGoesToLogin(store: StoreState, parseJwt: string -> Value)
    requires store.token == Str("")
    ensures Redirect(store.token, IsAdmin(Claims(store.token, parseJwt), store)) == Some("/login")
  {
  }

  datatype Stats = Stats(total: nat, pendientes: nat, confirmadas: nat, completadas: nat, canceladas: nat)

  /** `stats`: the number of appointments and of those with each status (the
      length of the rows filtered by that exact status, `CountStatus`). */
  function ComputeStats(rows: seq<Row>): (s: Stats)
    ensures s.total == |rows|
    ensures s.pendientes == CountStatus(rows, "pendiente") && s.confirmadas == CountStatus(rows, "confirmada")
    ensures s.completadas == CountStatus(rows, "completada") && s.canceladas == CountStatus(rows, "cancelada")
    ensures s.pendientes <= s.total && s.confirmadas <= s.total
    ensures s.completadas <= s.total && s.canceladas <= s.total
    ensures s.pendientes + s.confirmadas + s.completadas + s.canceladas <= s.total
  {
    FourCountsBounded(rows);
    Stats(|rows|, CountStatus(rows, "pendiente"), CountStatus(rows, "confirmada"),
          CountStatus(rows, "completada"), CountStatus(rows, "cancelada"))
  }

  /** `lastAppointments`: a sorted copy, newest `appointment_date` first (`date`
      is the date parser), cut to ten. */
  function LastAppointments(rows: seq<Row>, date: Row -> int): (r: seq<Row>)
    ensures |r| == if |rows| <= 10 then |rows| else 10
    ensures SortedDesc(r, date)
    ensures multiset(r) <= multiset(rows)
    ensures forall x, y :: x in multiset(rows) - multiset(r) && y in r ==> date(x) <= date(y)
  {
    Newest(rows, 10, date)
  }

  /** `formatDateTime` here: "-" for a falsy value, otherwise the date-time text
      of `String(dt)`. */
  function FormatDateTime(dt: Value): (r: string)
    ensures !JsTruthy(dt) ==> r == "-"
    ensures dt.Str? && dt.s != "" ==> r == DateTimeText(dt.s)
  {
    if !JsTruthy(dt) then "-" else DateTimeText(JsString(dt))
  }
}
