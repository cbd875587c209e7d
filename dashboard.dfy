/** The per-role dashboard (`Dashboard.jsx`): the role and token it works with,
    its title, its two status counts, the client's Cancel rule, the counterpart
    column and the date-time text. */
module Dashboard {
  import opened Values
  import opened Store
  import opened AppointmentRows

  /** `store.token || localStorage.getItem("access_token")`; `getItem` gives
      `null` when nothing is stored. */
  function DashboardToken(store: StoreState, storedToken: Option<string>): (token: Value)
    ensures JsTruthy(store.token) ==> token == store.token
    ensures !JsTruthy(store.token) && storedToken.None? ==> token == Null
    ensures !JsTruthy(store.token) && storedToken.Some? ==> token == Str(storedToken.value)
  {
    JsOr(store.token, match storedToken case None => Null case Some(t) => Str(t))
  }

  /** `store.role || JSON.parse(localStorage.getItem("role") || "null")`; the
      parse runs only for a falsy store role, and `None` stands for the
      SyntaxError it throws. */
  function DashboardRole(store: StoreState, storedRole: Option<string>,
                         parse: string -> Option<Value>): (role: Option<Value>)
    ensures JsTruthy(store.role) ==> role == Some(store.role)
    ensures !JsTruthy(store.role) ==> role == StoredJson(storedRole, parse)
    ensures role.None? <==> !JsTruthy(store.role) && storedRole.Some? && storedRole.value != ""
                            && parse(storedRole.value).None?
  {
    if JsTruthy(store.role) then Some(store.role) else StoredJson(storedRole, parse)
  }

  /** As written, a dashboard rendered without a role in the store (after a
      reload) throws on the role name the login page stored; stored as JSON,
      the role is read back. */
  lemma StoredRoleOnReload(store: StoreState, role: string, parse: string -> Option<Value>)
    requires JsonParser(parse)
    requires !JsTruthy(store.role)
    requires role in {"cliente", "barbero", "admin"}
    ensures DashboardRole(store, Some(RoleItemAsWritten(Str(role))), parse).None?
    ensures DashboardRole(store, Some(RoleItemIntended(Str(role))), parse) == Some(Str(role))
  {
    assert BareWordStart(role[0]);
    RoleNamesArePlain(role);
  }

  /** `titleByRole`. */
  function TitleByRole(role: Value): (title: string)
    ensures role == Str("admin") ==> title == "Dashboard Admin"
    ensures role == Str("barbero") ==> title == "Dashboard Barbero"
    ensures role != Str("admin") && role != Str("barbero") ==> title == "Dashboard Cliente"
  {
    if role == Str("admin") then "Dashboard Admin"
    else if role == Str("barbero") then "Dashboard Barbero"
    else "Dashboard Cliente"
  }

  /** The three stat cards: total, pending and confirmed. */
  datatype Cards = Cards(total: nat, pendientes: nat, confirmadas: nat)

  /** The pending and confirmed cards show the length of the rows filtered by
      that exact status (`CountStatus`). */
  function StatCards(rows: seq<Row>): (c: Cards)
    ensures c.total == |rows|
    ensures c.pendientes == CountStatus(rows, "pendiente") && c.confirmadas == CountStatus(rows, "confirmada")
    ensures c.pendientes <= c.total && c.confirmadas <= c.total
    ensures c.pendientes + c.confirmadas <= c.total
  {
    TwoCountsBounded(rows, "pendiente", "confirmada");
    Cards(|rows|, CountStatus(rows, "pendiente"), CountStatus(rows, "confirmada"))
  }

  /** The client's Cancel button is shown only to a "cliente" and disabled while
      the page loads or once the appointment is cancelled or completed. */
  predicate CancelShown(role: Value)
  {
    role == Str("cliente")
  }

  predicate CancelDisabled(loading: bool, a: Row)
  {
    loading || HasStatus(a, "cancelada") || HasStatus(a, "completada")
  }

  /** Cancel can be pressed exactly on a pending or confirmed appointment, or one
      with a status outside the four, while nothing loads. */
  lemma CancelEnabledWhen(loading: bool, a: Row)
    ensures !CancelDisabled(loading, a) <==>
              !loading && !HasStatus(a, "cancelada") && !HasStatus(a, "completada")
    ensures HasStatus(a, "pendiente") || HasStatus(a, "confirmada") ==> (!CancelDisabled(loading, a) <==> !loading)
  {
  }

  /** The counterpart column: for a barber the client's name (nested, then
      flat, then "-"), for everyone else the barber's. */
  function Counterpart(role: Value, a: Row): (name: Value)
    ensures JsTruthy(name)
  {
    if role == Str("barbero") then
      JsOr(JsOr(OptProp(Member(a, "client"), "name"), Member(a, "client_name")), Str("-"))
    else
      JsOr(JsOr(OptProp(Member(a, "barber"), "name"), Member(a, "barber_name")), Str("-"))
  }

  /** A barber's view reads only the client fields of a row, and any other view
      only the barber fields. */
  lemma CounterpartReadsOneSide(role: Value, a: Row, b: Row)
    requires role == Str("barbero") ==> Member(a, "client") == Member(b, "client")
                                        && Member(a, "client_name") == Member(b, "client_name")
    requires role != Str("barbero") ==> Member(a, "barber") == Member(b, "barber")
                                        && Member(a, "barber_name") == Member(b, "barber_name")
    ensures Counterpart(role, a) == Counterpart(role, b)
  {
  }

  /** In both columns the nested name wins when it is there, the flat name
      comes next, and "-" only when neither name is. */
  lemma CounterpartFallbacks(a: Row)
    ensures var n := OptProp(Member(a, "client"), "name");
            JsTruthy(n) ==> Counterpart(Str("barbero"), a) == n
    ensures var n := OptProp(Member(a, "client"), "name");
            !JsTruthy(n) && !JsTruthy(Member(a, "client_name")) ==> Counterpart(Str("barbero"), a) == Str("-")
    ensures var n := OptProp(Member(a, "client"), "name");
            !JsTruthy(n) && JsTruthy(Member(a, "client_name")) ==> Counterpart(Str("barbero"), a) == Member(a, "client_name")
    ensures forall role :: role != Str("barbero") ==>
              var n := OptProp(Member(a, "barber"), "name");
              && (JsTruthy(n) ==> Counterpart(role, a) == n)
              && (!JsTruthy(n) && JsTruthy(Member(a, "barber_name")) ==> Counterpart(role, a) == Member(a, "barber_name"))
              && (!JsTruthy(n) && !JsTruthy(Member(a, "barber_name")) ==> Counterpart(role, a) == Str("-"))
  {
  }

  /** `formatDateTime` here calls `dt.replace` on the value itself: "-" for a
      falsy value, the date-time text of a string, and `None` (a `TypeError`)
      for any other value. */
  function FormatDateTime(dt: Value): (r: Option<string>)
    ensures !JsTruthy(dt) ==> r == Some("-")
    ensures dt.Str? && dt.s != "" ==> r == Some(DateTimeText(dt.s))
    ensures r.None? <==> JsTruthy(dt) && !dt.Str?
  {
    if !JsTruthy(dt) then Some("-")
    else if dt.Str? then Some(DateTimeText(dt.s))
    else None
  }
}
