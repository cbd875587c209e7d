/** The decision logic of the Flask endpoints: required-field checks, the
    appointment status matrix, appointment, user and service creation, and the
    per-role appointment listing. Each endpoint's decision is a function of the
    request and the stored tables; `Database` performs the resulting writes. */
module Routes {
  import opened Values
  import opened Text
  import opened Models
  import opened Ordering
  import opened Auth

  /** An HTTP reply: a code with the returned data, or a code with a message and
      the names that go with it (missing fields for a 400, allowed roles for a 403). */
  datatype Reply<T> =
    | Done(code: int, data: T)
    | Fail(code: int, message: string, names: seq<string>)

  /** `a` can be obtained from `b` by deleting elements. */
  predicate Subsequence<T(==)>(a: seq<T>, b: seq<T>)
    decreases |b|
  {
    if a == [] then true
    else if b == [] then false
    else if a[0] == b[0] then Subsequence(a[1..], b[1..])
    else Subsequence(a, b[1..])
  }

  lemma {:induction false} SubsequenceOfTail<T>(a: seq<T>, b: seq<T>)
    requires b != [] && Subsequence(a, b[1..])
    ensures Subsequence(a, b)
    decreases |b|, |a|
  {
    if a != [] && a[0] == b[0] {
      SubsequenceDropHead(a, b[1..]);
    }
  }

  lemma {:induction false} SubsequenceDropHead<T>(a: seq<T>, c: seq<T>)
    requires a != [] && Subsequence(a, c)
    ensures Subsequence(a[1..], c)
    decreases |c|, |a|
  {
    if a[0] == c[0] {
      if c[1..] != [] || a[1..] == [] {
        if a[1..] != [] { SubsequenceOfTail(a[1..], c); }
      }
    } else {
      SubsequenceDropHead(a, c[1..]);
      if a[1..] != [] { SubsequenceOfTail(a[1..], c); }
    }
  }

  /** `validate_required(data, fields)`: the required fields whose value is
      absent or falsy, in the order they were asked for. */
  function ValidateRequired(data: map<string, Value>, fields: seq<string>): (missing: seq<string>)
    ensures forall f :: f in missing <==> f in fields && !PyTruthy(Get(data, f))
    ensures Subsequence(missing, fields)
    ensures missing == [] <==> forall f :: f in fields ==> PyTruthy(Get(data, f))
  {
    if fields == [] then []
    else
      var rest := ValidateRequired(data, fields[1..]);
      assert forall f :: f in fields <==> f == fields[0] || f in fields[1..];
      if PyTruthy(Get(data, fields[0])) then
        SubsequenceOfTail(rest, fields);
        rest
      else
        assert ([fields[0]] + rest)[1..] == rest;
        [fields[0]] + rest
  }

  /** Required fields of `add_usuario_cliente`. */
  const ClienteRequired: seq<string> := ["name", "email", "phone", "address", "password"]

  /** Required fields of `add_usuario_barber_admin` as written: the adjacent
      literals `"specialties" "photo_url"` join into one name. */
  const BarberAdminRequired: seq<string> :=
    ["name", "email", "phone", "address", "password", "bio", "specialtiesphoto_url"]

  /** The list the barber/admin form evidently means: two separate fields. */
  const IntendedBarberAdminRequired: seq<string> :=
    ["name", "email", "phone", "address", "password", "bio", "specialties", "photo_url"]

  /** The keyword arguments the `Usuario` constructor accepts. */
  const UsuarioAttributes: set<string> := {
    "user_id", "name", "email", "password", "role", "is_active", "is_admin", "phone",
    "address", "created_at", "photo_url", "bio", "specialties",
    "appointments_as_client", "appointments_as_barber"
  }

  /** Python's `int(v)` on a JSON value; `None` where it raises. */
  function PyInt(v: Value): (r: Option<int>)
    ensures v.Num? ==> r == Some(v.n)
    ensures v.Null? || v.Arr? || v.Obj? ==> r.None?
  {
    match v
    case Num(n) => Some(n)
    case Bool(b) => Some(if b then 1 else 0)
    case Str(s) => ParseInt(s)
    case _ => None
  }

  /** An id sent as text is read as Python reads it, white space and all:
      `int(" 5")` is 5, so such a request names the stored row 5. */
  lemma PyIntOfPaddedText(before: string, id: nat, after: string)
    requires AllPySpace(before) && AllPySpace(after)
    ensures PyInt(Str(before + DecimalString(id) + after)) == Some(id)
  {
    var s := before + DecimalString(id) + after;
    ParseIntPadded(before, id, after, false);
    assert before + "" == before;
    assert ParseInt(s) == Some(id);
  }

  function Lookup<K, V>(m: map<K, V>, k: K): (r: Option<V>)
    ensures r.Some? <==> k in m
    ensures r.Some? ==> r.value == m[k]
  {
    if k in m then Some(m[k]) else None
  }

  // ---------------------------------------------------------------------------
  // PUT /appointments/<id>/status

  /** The status a request body asks for: `data.get("status")` among the four names. */
  function RequestedStatus(body: map<string, Value>): (r: Option<Status>)
    ensures r.Some? <==> Get(body, "status").Str? && StatusOf(Get(body, "status").s).Some?
  {
    match Get(body, "status")
    case Str(s) => StatusOf(s)
    case _ => None
  }

  /** Who may set which status: an admin any status, a barber any status on
      their own appointments, a client only "cancelada" on their own. */
  predicate MayWriteStatus(u: Usuario, a: Appointment, st: Status)
  {
    (u.role == "admin")
    || (u.role == "barbero" && a.barberId == u.userId)
    || (u.role == "cliente" && a.clientId == u.userId && st == Cancelada)
  }

  /** `update_appointment_status`: 401 without a caller, then 404 for a missing
      appointment, then 400 for a status outside the four, then the role matrix
      (403); on success the new status. */
  function DecideStatusUpdate(user: Option<Usuario>, appt: Option<Appointment>,
                              body: map<string, Value>): (r: Reply<Status>)
    ensures user.None? ==> r.Fail? && r.code == 401
    ensures user.Some? && appt.None? ==> r.Fail? && r.code == 404
    ensures user.Some? && appt.Some? && RequestedStatus(body).None? ==> r.Fail? && r.code == 400
    ensures r.Done? <==> user.Some? && appt.Some? && RequestedStatus(body).Some?
                         && MayWriteStatus(user.value, appt.value, RequestedStatus(body).value)
    ensures r.Done? ==> r.code == 200 && r.data == RequestedStatus(body).value
    ensures r.Fail? && user.Some? && appt.Some? && RequestedStatus(body).Some? ==> r.code == 403
  {
    match user
    case None => Fail(401, "Token inválido", [])
    case Some(u) =>
      match appt
      case None => Fail(404, "Cita no existe", [])
      case Some(a) =>
        match RequestedStatus(body)
        case None => Fail(400, "status inválido", [])
        case Some(st) =>
          if u.role == "admin" then Done(200, st)
          else if u.role == "barbero" then
            if a.barberId != u.userId then Fail(403, "No autorizado", []) else Done(200, st)
          else if u.role == "cliente" then
            if a.clientId != u.userId then Fail(403, "No autorizado", [])
            else if st != Cancelada then Fail(403, "El cliente solo puede cancelar", [])
            else Done(200, st)
          else Fail(403, "No autorizado", [])
  }

  /** The server itself imposes no order on statuses: an admin may move any
      appointment from any status to any status. */
  lemma AdminMaySetAnyStatus(admin: Usuario, a: Appointment, st: Status)
    requires admin.role == "admin"
    ensures DecideStatusUpdate(Some(admin), Some(a), map["status" := Str(StatusName(st))]) == Done(200, st)
  {
    assert RequestedStatus(map["status" := Str(StatusName(st))]) == Some(st);
  }

  /** A client can only ever cancel, and only their own appointment. */
  lemma ClientMayOnlyCancelOwn(u: Usuario, a: Appointment, body: map<string, Value>)
    requires u.role == "cliente"
    ensures DecideStatusUpdate(Some(u), Some(a), body).Done?
            <==> a.clientId == u.userId && RequestedStatus(body) == Some(Cancelada)
  {
  }

  /** The table after the write `appt.status = new_status`: only that one
      appointment's status changes. */
  function WithStatus(appts: map<int, Appointment>, id: int, st: Status): (r: map<int, Appointment>)
    requires id in appts
    ensures r.Keys == appts.Keys
    ensures r[id].status == st && r[id] == appts[id].(status := st)
    ensures forall k :: k in appts && k != id ==> r[k] == appts[k]
  {
    appts[id := appts[id].(status := st)]
  }

  // ---------------------------------------------------------------------------
  // POST /appointments

  const BarberRoles: set<string> := {"barbero", "admin"}

  /** The barber check of `create_appointment`: the id names a stored user whose
      role is barbero or admin. */
  predicate IsBookableBarber(users: map<int, Usuario>, id: int)
  {
    id in users && users[id].role in BarberRoles
  }

  /** A client's request that names a barber, a service and a date. */
  predicate CompleteClientRequest(user: Option<Usuario>, body: map<string, Value>)
  {
    && user.Some? && user.value.role == "cliente"
    && PyTruthy(Get(body, "barber_id")) && PyTruthy(Get(body, "service_id"))
    && PyTruthy(Get(body, "appointment_date"))
  }

  /** `datetime.fromisoformat(appointment_date)`; a value that is not a string
      is rejected like an unreadable one. */
  function RequestedDate(body: map<string, Value>, parseDate: string -> Option<int>): Option<int>
  {
    var date := Get(body, "appointment_date");
    if date.Str? then parseDate(date.s) else None
  }

  /** `create_appointment`: 401 without a caller, 403 unless the caller is a
      client, 400 when barber_id, service_id or appointment_date is missing or
      falsy, a 500 when `int(...)` raises, 400 for an unknown or non-barber
      barber, an unknown service or a date the ISO parser rejects; otherwise a
      new, pending appointment of the caller. `parseDate` is the ISO-8601 parser. */
  function DecideCreateAppointment(user: Option<Usuario>, body: map<string, Value>,
                                   users: map<int, Usuario>, services: map<int, Service>,
                                   parseDate: string -> Option<int>, newId: int): (r: Reply<Appointment>)
    ensures user.None? ==> r.Fail? && r.code == 401
    ensures user.Some? && user.value.role != "cliente" ==> r.Fail? && r.code == 403
    ensures user.Some? && user.value.role == "cliente"
            && (!PyTruthy(Get(body, "barber_id")) || !PyTruthy(Get(body, "service_id"))
                || !PyTruthy(Get(body, "appointment_date")))
            ==> r == Fail(400, "barber_id, service_id, appointment_date son requeridos", [])
    ensures r.Done? ==> (user.Some? && user.value.role == "cliente"
                        && r.code == 201
                        && r.data.appointmentId == newId
                        && r.data.clientId == user.value.userId
                        && r.data.status == Pendiente
                        && PyInt(Get(body, "barber_id")).Some?
                        && IsBookableBarber(users, PyInt(Get(body, "barber_id")).value)
                        && r.data.barberId == users[PyInt(Get(body, "barber_id")).value].userId
                        && PyInt(Get(body, "service_id")).Some?
                        && PyInt(Get(body, "service_id")).value in services
                        && r.data.serviceId == services[PyInt(Get(body, "service_id")).value].serviceId
                        && Get(body, "appointment_date").Str?
                        && parseDate(Get(body, "appointment_date").s) == Some(r.data.appointmentDate))
  {
    match user
    case None => Fail(401, "Token inválido", [])
    case Some(u) =>
      if u.role != "cliente" then Fail(403, "Solo clientes pueden crear citas", [])
      else
        var barberId, serviceId, date := Get(body, "barber_id"), Get(body, "service_id"), Get(body, "appointment_date");
        if !PyTruthy(barberId) || !PyTruthy(serviceId) || !PyTruthy(date) then
          Fail(400, "barber_id, service_id, appointment_date son requeridos", [])
        else match PyInt(barberId)
          case None => Fail(500, "Internal Server Error", [])
          case Some(bid) =>
            if !IsBookableBarber(users, bid) then Fail(400, "Barbero inválido", [])
            else match PyInt(serviceId)
              case None => Fail(500, "Internal Server Error", [])
              case Some(sid) =>
                if sid !in services then Fail(400, "Servicio inválido", [])
                else
                  match RequestedDate(body, parseDate)
                  case None => Fail(400, "appointment_date debe ser ISO8601 válido", [])
                  case Some(dt) =>
                    Done(201, Appointment(newId, u.userId, users[bid].userId, services[sid].serviceId,
                                          dt, Pendiente, Null))
  }

  /** The replies of `create_appointment` once a client has named a barber, a
      service and a date: 500 when an id is not an integer, 400 for a barber
      id that is not bookable, an unknown service or an unreadable date, and a
      new appointment when every check passes. */
  lemma CreateAppointmentOutcomes(user: Option<Usuario>, body: map<string, Value>,
                                  users: map<int, Usuario>, services: map<int, Service>,
                                  parseDate: string -> Option<int>, newId: int)
    requires CompleteClientRequest(user, body)
    ensures var r := DecideCreateAppointment(user, body, users, services, parseDate, newId);
            && (PyInt(Get(body, "barber_id")).None? ==> r == Fail(500, "Internal Server Error", []))
            && (PyInt(Get(body, "barber_id")).Some? && !IsBookableBarber(users, PyInt(Get(body, "barber_id")).value)
                ==> r == Fail(400, "Barbero inválido", []))
            && (PyInt(Get(body, "barber_id")).Some? && IsBookableBarber(users, PyInt(Get(body, "barber_id")).value)
                ==> match PyInt(Get(body, "service_id"))
                    case None => r == Fail(500, "Internal Server Error", [])
                    case Some(sid) =>
                      && (sid !in services ==> r == Fail(400, "Servicio inválido", []))
                      && (sid in services && RequestedDate(body, parseDate).None?
                          ==> r == Fail(400, "appointment_date debe ser ISO8601 válido", []))
                      && (sid in services && RequestedDate(body, parseDate).Some? ==> r.Done?))
  {
  }

  // ---------------------------------------------------------------------------
  // GET /barbers

  /** `list_barbers`: the stored users whose role is barbero or admin. */
  function ListBarbers(users: map<int, Usuario>): (r: map<int, Usuario>)
    ensures forall k :: k in r <==> IsBookableBarber(users, k)
    ensures forall k :: k in r ==> k in users && r[k] == users[k]
  {
    map k | k in users && users[k].role in BarberRoles :: users[k]
  }

  /** The barbers the booking page lists are exactly those `create_appointment`
      accepts. */
  lemma ListedBarbersAreBookable(users: map<int, Usuario>, id: int)
    ensures id in ListBarbers(users) <==> IsBookableBarber(users, id)
  {
  }

  // ---------------------------------------------------------------------------
  // GET /appointments/mine

  lemma NonEmptyHasMember(s: set<int>)
    requires s != {}
    ensures exists x :: x in s
  {
    if forall x :: x !in s {
      assert false;
    }
  }

  ghost function MinOf(s: set<int>): (m: int)
    requires s != {}
    ensures m in s && forall y :: y in s ==> m <= y
  {
    NonEmptyHasMember(s);
    var x :| x in s;
    var rest := s - {x};
    assert forall y :: y in s ==> y == x || y in rest;
    if rest == {} then x
    else
      var r := MinOf(rest);
      if x < r then x else r
  }

  /** The ids of a table in ascending order. */
  ghost function IdsAscending(ids: set<int>): (r: seq<int>)
    ensures forall k :: k in r <==> k in ids
    ensures forall i, j :: 0 <= i < j < |r| ==> r[i] < r[j]
    decreases ids
  {
    if ids == {} then []
    else
      var m := MinOf(ids);
      [m] + IdsAscending(ids - {m})
  }

  /** Every row of a table records the id it is stored under, as the
      database's invariant keeps them. */
  predicate KeyedById(appts: map<int, Appointment>)
  {
    forall k :: k in appts ==> appts[k].appointmentId == k
  }

  /** The rows of a table, in id order: each stored row once. */
  ghost function Rows(appts: map<int, Appointment>): (r: seq<Appointment>)
    ensures forall a :: a in r <==> exists k :: k in appts && appts[k] == a
    ensures KeyedById(appts) ==> forall a :: multiset(r)[a] == if a in r then 1 else 0
  {
    var ids := IdsAscending(appts.Keys);
    var r := seq(|ids|, i requires 0 <= i < |ids| => appts[ids[i]]);
    RowsOfIds(appts, ids, r);
    RowsOnce(appts, ids, r);
    r
  }

  lemma RowsOnce(appts: map<int, Appointment>, ids: seq<int>, r: seq<Appointment>)
    requires forall i, j :: 0 <= i < j < |ids| ==> ids[i] < ids[j]
    requires |r| == |ids| && forall i :: 0 <= i < |ids| ==> ids[i] in appts && r[i] == appts[ids[i]]
    ensures KeyedById(appts) ==> forall a :: multiset(r)[a] == if a in r then 1 else 0
  {
    if KeyedById(appts) {
      forall i, j | 0 <= i < j < |r| ensures r[i] != r[j] {
        assert r[i].appointmentId == ids[i] && r[j].appointmentId == ids[j];
      }
      OnceEach(r);
    }
  }

  /** A sequence without repeated elements holds each of them once. */
  lemma {:induction false} OnceEach(s: seq<Appointment>)
    requires forall i, j :: 0 <= i < j < |s| ==> s[i] != s[j]
    ensures forall a :: multiset(s)[a] == if a in s then 1 else 0
  {
    if s != [] {
      var tail := s[1..];
      forall i, j | 0 <= i < j < |tail| ensures tail[i] != tail[j] {
        assert tail[i] == s[i + 1] && tail[j] == s[j + 1];
      }
      OnceEach(tail);
      assert s == [s[0]] + tail;
      assert s[0] !in tail by {
        forall k | 0 <= k < |tail| ensures tail[k] != s[0] {
          assert tail[k] == s[k + 1];
        }
      }
      assert multiset(s) == multiset{s[0]} + multiset(tail);
      forall a ensures multiset(s)[a] == if a in s then 1 else 0 {
        assert a in s <==> a == s[0] || a in tail;
      }
    }
  }

  lemma RowsOfIds(appts: map<int, Appointment>, ids: seq<int>, r: seq<Appointment>)
    requires forall k :: k in ids <==> k in appts
    requires |r| == |ids| && forall i :: 0 <= i < |ids| ==> ids[i] in appts && r[i] == appts[ids[i]]
    ensures forall a :: a in r <==> exists k :: k in appts && appts[k] == a
  {
    forall a | a in r ensures exists k :: k in appts && appts[k] == a {
      var i :| 0 <= i < |r| && r[i] == a;
      var k := ids[i];
      assert k in appts && appts[k] == a;
    }
    forall a | exists k :: k in appts && appts[k] == a ensures a in r {
      var k :| k in appts && appts[k] == a;
      var i :| 0 <= i < |ids| && ids[i] == k;
      assert r[i] == a;
    }
  }

  /** Whether an appointment is listed for a user: clients see those they booked,
      barbers and admins those where they are the barber. */
  predicate ListedFor(u: Usuario, a: Appointment)
  {
    if u.role == "cliente" then a.clientId == u.userId else a.barberId == u.userId
  }

  function Matching(rows: seq<Appointment>, u: Usuario): (r: seq<Appointment>)
    ensures forall a :: a in r <==> a in rows && ListedFor(u, a)
    ensures forall a :: multiset(r)[a] == if ListedFor(u, a) then multiset(rows)[a] else 0
  {
    if rows == [] then []
    else
      var rest := Matching(rows[1..], u);
      assert rows == [rows[0]] + rows[1..];
      assert forall a :: a in rows <==> a == rows[0] || a in rows[1..];
      if ListedFor(u, rows[0]) then [rows[0]] + rest else rest
  }

  /** The appointments listed for `u`, newest first. */
  ghost function Listed(u: Usuario, appts: map<int, Appointment>): (r: seq<Appointment>)
    ensures SortedDesc(r, AppointmentDate)
    ensures forall a :: a in r <==> a in appts.Values && ListedFor(u, a)
    ensures KeyedById(appts) ==> forall a :: multiset(r)[a] == if a in appts.Values && ListedFor(u, a) then 1 else 0
  {
    var rows := Matching(Rows(appts), u);
    var r := SortDesc(rows, AppointmentDate);
    assert forall a :: a in r <==> a in rows by {
      forall a ensures a in r <==> a in rows {
        assert a in r <==> a in multiset(r);
        assert a in rows <==> a in multiset(rows);
      }
    }
    r
  }

  /** `my_appointments`: 401 without a caller; a client's own bookings or a
      barber's or admin's assigned appointments, newest first; 400 for any other
      role. */
  ghost function MyAppointments(user: Option<Usuario>, appts: map<int, Appointment>): (r: Reply<seq<Appointment>>)
    ensures user.None? ==> r.Fail? && r.code == 401
    ensures user.Some? && user.value.role !in {"cliente", "barbero", "admin"}
            ==> r == Fail(400, "Rol no soportado", [])
    ensures r.Done? ==> (user.Some? && r.code == 200
                        && SortedDesc(r.data, AppointmentDate)
                        && (forall a :: a in r.data <==> (a in appts.Values && ListedFor(user.value, a)))
                        && (KeyedById(appts) ==>
                              forall a :: multiset(r.data)[a] == if a in appts.Values && ListedFor(user.value, a) then 1 else 0))
    ensures user.Some? && user.value.role in {"cliente", "barbero", "admin"} ==> r.Done?
  {
    match user
    case None => Fail(401, "Token inválido", [])
    case Some(u) =>
      if u.role == "cliente" || u.role == "barbero" || u.role == "admin" then
        Done(200, Listed(u, appts))
      else Fail(400, "Rol no soportado", [])
  }

  // ---------------------------------------------------------------------------
  // POST /admin/users

  const UserRoles: set<string> := {"cliente", "barbero", "admin"}

  /** The role requested: `data.get("role", "cliente")`, kept only if it is one
      of the three role names. */
  function RequestedRole(body: map<string, Value>): Value
  {
    GetOr(body, "role", Str("cliente"))
  }

  predicate EmailTaken(users: map<int, Usuario>, email: Value)
  {
    exists k :: k in users && users[k].email == email
  }

  /** The body of `admin_create_user` (behind `require_roles("admin")`): 400
      unless name, email and password are all truthy, then 400 for a role
      outside the three, then 409 for an email already in use; then the hash,
      which raises outside any `try` (500) when the password is not a string;
      otherwise an active user with the given fields and the hashed password.
      `hash` is bcrypt's `generate_password_hash` on the text of a password. */
  function DecideAdminCreateUser(body: map<string, Value>, users: map<int, Usuario>,
                                 hash: string -> string, newId: int): (r: Reply<Usuario>)
    ensures !PyTruthy(Get(body, "name")) || !PyTruthy(Get(body, "email")) || !PyTruthy(Get(body, "password"))
            ==> r == Fail(400, "name, email y password son requeridos", [])
    ensures PyTruthy(Get(body, "name")) && PyTruthy(Get(body, "email")) && PyTruthy(Get(body, "password"))
            && !(RequestedRole(body).Str? && RequestedRole(body).s in UserRoles)
            ==> r == Fail(400, "role inválido (cliente, barbero, admin)", [])
    ensures r.Fail? && r.code == 409 <==>
            && PyTruthy(Get(body, "name")) && PyTruthy(Get(body, "email")) && PyTruthy(Get(body, "password"))
            && RequestedRole(body).Str? && RequestedRole(body).s in UserRoles
            && EmailTaken(users, Get(body, "email"))
    ensures PyTruthy(Get(body, "name")) && PyTruthy(Get(body, "email")) && PyTruthy(Get(body, "password"))
            && RequestedRole(body).Str? && RequestedRole(body).s in UserRoles
            && !EmailTaken(users, Get(body, "email")) && !Get(body, "password").Str?
            ==> r == Fail(500, "Internal Server Error", [])
    ensures r.Done? ==> (r.code == 201 && r.data.userId == newId && r.data.isActive
                        && r.data.role in UserRoles && r.data.role == RequestedRole(body).s
                        && ("role" !in body ==> r.data.role == "cliente")
                        && r.data.name == Get(body, "name") && r.data.email == Get(body, "email")
                        && Get(body, "password").Str? && r.data.password == hash(Get(body, "password").s)
                        && r.data.phone == Get(body, "phone") && r.data.address == Get(body, "address")
                        && !EmailTaken(users, r.data.email))
    ensures PyTruthy(Get(body, "name")) && PyTruthy(Get(body, "email")) && PyTruthy(Get(body, "password"))
            && RequestedRole(body).Str? && RequestedRole(body).s in UserRoles
            && !EmailTaken(users, Get(body, "email")) && Get(body, "password").Str?
            ==> r.Done?
  {
    var name, email, password := Get(body, "name"), Get(body, "email"), Get(body, "password");
    var role := RequestedRole(body);
    if !PyTruthy(name) || !PyTruthy(email) || !PyTruthy(password) then
      Fail(400, "name, email y password son requeridos", [])
    else if !(role.Str? && role.s in UserRoles) then
      Fail(400, "role inválido (cliente, barbero, admin)", [])
    else if EmailTaken(users, email) then
      Fail(409, "Ya existe un usuario con email: " + (if email.Str? then email.s else ""), [])
    else if !password.Str? then Fail(500, "Internal Server Error", [])
    else
      Done(201, Usuario(newId, name, email, hash(password.s), role.s, true, Null,
                        Get(body, "phone"), Get(body, "address"), Null, Null, Null))
  }

  // ---------------------------------------------------------------------------
  // POST /services

  /** The body of `create_service` (behind `require_roles("admin")`): 400 unless
      the name is truthy and a price is given; the duration defaults to 30 when
      the key is absent, and a value `int(...)` rejects raises (500). */
  function DecideCreateService(body: map<string, Value>, newId: int): (r: Reply<Service>)
    ensures !PyTruthy(Get(body, "name")) || Get(body, "price") == Null
            ==> r == Fail(400, "name y price son requeridos", [])
    ensures r.Done? <==> PyTruthy(Get(body, "name")) && Get(body, "price") != Null
                         && PyInt(GetOr(body, "duration_minutes", Num(30))).Some?
    ensures r.Done? ==> (r.code == 201 && r.data.serviceId == newId
                        && r.data.name == Get(body, "name") && r.data.price == Get(body, "price")
                        && Some(r.data.durationMinutes) == PyInt(GetOr(body, "duration_minutes", Num(30)))
                        && ("duration_minutes" !in body ==> r.data.durationMinutes == 30))
  {
    var name, price := Get(body, "name"), Get(body, "price");
    var duration := GetOr(body, "duration_minutes", Num(30));
    if !PyTruthy(name) || price == Null then Fail(400, "name y price son requeridos", [])
    else match PyInt(duration)
      case None => Fail(500, "Internal Server Error", [])
      case Some(d) => Done(201, Service(newId, name, price, d))
  }

  /** A service created with the duration given as padded text stores the
      number `int` reads from it, as in `{"duration_minutes": " 45"}`. */
  lemma CreateServiceReadsDurationText(body: map<string, Value>, before: string, minutes: nat,
                                       after: string, newId: int)
    requires PyTruthy(Get(body, "name")) && Get(body, "price") != Null
    requires AllPySpace(before) && AllPySpace(after)
    requires "duration_minutes" in body && body["duration_minutes"] == Str(before + DecimalString(minutes) + after)
    ensures var r := DecideCreateService(body, newId);
            r.Done? && r.data.durationMinutes == minutes
  {
    PyIntOfPaddedText(before, minutes, after);
  }

  /** The stored duration for `"duration_minutes": " 45"` is 45. */
  lemma CreateServiceSpacedDuration(body: map<string, Value>, newId: int)
    requires PyTruthy(Get(body, "name")) && Get(body, "price") != Null
    requires "duration_minutes" in body && body["duration_minutes"] == Str(" 45")
    ensures var r := DecideCreateService(body, newId);
            r.Done? && r.data.durationMinutes == 45
  {
    assert DecimalString(45) == "45" by {
      assert DecimalString(4) == "4";
    }
    CreateServiceReadsDurationText(body, " ", 45, "", newId);
  }

  // ---------------------------------------------------------------------------
  // POST /usuario/cliente and POST /usuario/barber/admin

  /** The user `Usuario(**clean_data)` builds: the given columns, the column
      defaults (role "cliente", active) for the rest. */
  function NewUsuario(newId: int, clean: map<string, Value>, passwordHash: string): Usuario
  {
    Usuario(newId, GetOr(clean, "name", Null), GetOr(clean, "email", Null), passwordHash,
            "cliente", true, Null, GetOr(clean, "phone", Null), GetOr(clean, "address", Null),
            GetOr(clean, "photo_url", Null), GetOr(clean, "bio", Null), GetOr(clean, "specialties", Null))
  }

  /** `clean_data`: the required fields the body has, with their values. */
  function CleanData(data: map<string, Value>, required: seq<string>): (clean: map<string, Value>)
    ensures forall f :: f in clean <==> f in required && f in data
    ensures forall f :: f in clean ==> clean[f] == data[f]
  {
    map f | f in required && f in data :: data[f]
  }

  /** The two registration endpoints, as written: 400 for an empty body, 400
      listing the missing fields; then, inside the `try`, a duplicate email
      evaluates `Usuario.serialize()` on the class, which raises and is answered
      500, and so does a password that is not a string, which the hash rejects,
      and a keyword `Usuario` has no attribute for; otherwise 201. */
  function DecideRegister(body: Option<map<string, Value>>, required: seq<string>,
                          users: map<int, Usuario>, hash: string -> string, newId: int): (r: Reply<Usuario>)
    ensures body.None? || body == Some(map[]) ==> r == Fail(400, "No hay datos Verifique", [])
    ensures body.Some? && body.value != map[] && ValidateRequired(body.value, required) != []
            ==> r == Fail(400, "faltan campos requeridos", ValidateRequired(body.value, required))
    ensures r.Done? ==> (body.Some? && ValidateRequired(body.value, required) == []
                        && !EmailTaken(users, Get(body.value, "email"))
                        && (forall f :: f in required ==> f in UsuarioAttributes)
                        && r.code == 201 && r.data.userId == newId && r.data.role == "cliente"
                        && r.data.isActive
                        && Get(body.value, "password").Str?
                        && r.data.password == hash(Get(body.value, "password").s))
    ensures body.Some? && body.value != map[] && ValidateRequired(body.value, required) == []
            && EmailTaken(users, Get(body.value, "email"))
            ==> r == Fail(500, "Error en el servidor", [])
    ensures body.Some? && body.value != map[] && ValidateRequired(body.value, required) == []
            && !Get(body.value, "password").Str?
            ==> r == Fail(500, "Error en el servidor", [])
  {
    if body.None? || body.value == map[] then Fail(400, "No hay datos Verifique", [])
    else
      var data := body.value;
      var missing := ValidateRequired(data, required);
      if missing != [] then Fail(400, "faltan campos requeridos", missing)
      else
        var clean := CleanData(data, required);
        if EmailTaken(users, Get(data, "email")) then Fail(500, "Error en el servidor", [])
        else if !Get(data, "password").Str? then Fail(500, "Error en el servidor", [])
        else if exists f :: f in clean && f !in UsuarioAttributes then Fail(500, "Error en el servidor", [])
        else
          assert forall f :: f in required ==> f in data;
          Done(201, NewUsuario(newId, clean, hash(Get(data, "password").s)))
  }

  /** A complete body with a fresh email and only known fields creates the user
      built from `clean_data` when the password is a string, and is answered 500
      when it is not. */
  lemma RegisterComplete(data: map<string, Value>, required: seq<string>, users: map<int, Usuario>,
                         hash: string -> string, newId: int)
    requires data != map[] && ValidateRequired(data, required) == []
    requires !EmailTaken(users, Get(data, "email"))
    requires forall f :: f in required ==> f in UsuarioAttributes
    ensures Get(data, "password").Str? ==>
              DecideRegister(Some(data), required, users, hash, newId)
              == Done(201, NewUsuario(newId, CleanData(data, required), hash(Get(data, "password").s)))
    ensures !Get(data, "password").Str? ==>
              DecideRegister(Some(data), required, users, hash, newId) == Fail(500, "Error en el servidor", [])
  {
  }

  /** As written, the barber/admin registration can never create a user: either
      the joined field "specialtiesphoto_url" is reported missing or, when sent,
      it is not a `Usuario` attribute and the constructor raises. */
  lemma BarberAdminNeverCreates(body: Option<map<string, Value>>, users: map<int, Usuario>,
                                hash: string -> string, newId: int)
    ensures !DecideRegister(body, BarberAdminRequired, users, hash, newId).Done?
  {
    var joined := "specialtiesphoto_url";
    assert joined in BarberAdminRequired && joined !in UsuarioAttributes;
    if body.Some? && body.value != map[] && ValidateRequired(body.value, BarberAdminRequired) == [] {
      assert joined in CleanData(body.value, BarberAdminRequired);
    }
  }

  /** With the two fields separated, a complete body with a fresh email and a
      string password creates the user, carrying the specialties and the photo
      URL; any other password is answered 500. */
  lemma IntendedBarberAdminCreates(data: map<string, Value>, users: map<int, Usuario>,
                                   hash: string -> string, newId: int)
    requires forall f :: f in IntendedBarberAdminRequired ==> f in data && PyTruthy(data[f])
    requires !EmailTaken(users, data["email"])
    ensures "password" in data
    ensures !data["password"].Str? ==>
              DecideRegister(Some(data), IntendedBarberAdminRequired, users, hash, newId)
              == Fail(500, "Error en el servidor", [])
    ensures var r := DecideRegister(Some(data), IntendedBarberAdminRequired, users, hash, newId);
            data["password"].Str? ==>
            && r.Done? && r.code == 201
            && r.data.specialties == data["specialties"] && r.data.photoUrl == data["photo_url"]
            && r.data.bio == data["bio"] && r.data.email == data["email"]
  {
    var required := IntendedBarberAdminRequired;
    assert "password" in required && "email" in required && "bio" in required && "specialties" in required && "photo_url" in required;
    RegisterComplete(data, required, users, hash, newId);
  }

  // ---------------------------------------------------------------------------
  // The stored tables and the endpoint writes

  class Database {
    var users: map<int, Usuario>
    var services: map<int, Service>
    var appointments: map<int, Appointment>
    var nextUserId: int
    var nextServiceId: int
    var nextAppointmentId: int

    /** Every row is stored under its own id, and ids below the next free one. */
    ghost predicate Valid()
      reads this
    {
      && (forall k :: k in users ==> users[k].userId == k && k < nextUserId)
      && (forall k :: k in services ==> services[k].serviceId == k && k < nextServiceId)
      && (forall k :: k in appointments ==> appointments[k].appointmentId == k && k < nextAppointmentId)
    }

    constructor ()
      ensures Valid()
      ensures users == map[] && services == map[] && appointments == map[]
    {
      users, services, appointments := map[], map[], map[];
      nextUserId, nextServiceId, nextAppointmentId := 1, 1, 1;
    }

    /** In a valid database `my_appointments` lists each matching stored
        appointment exactly once. */
    lemma ListsEachRowOnce(user: Usuario)
      requires Valid()
      ensures forall a :: multiset(Listed(user, appointments))[a]
                          == if a in appointments.Values && ListedFor(user, a) then 1 else 0
    {
      assert KeyedById(appointments);
    }

    /** PUT /appointments/<id>/status: decide, then write the one status. */
    method UpdateAppointmentStatus(identity: Option<string>, appointmentId: int, body: map<string, Value>)
      returns (r: Reply<Status>)
      requires Valid()
      modifies this
      ensures Valid()
      ensures r == DecideStatusUpdate(GetCurrentUser(identity, old(users)),
                                      Lookup(old(appointments), appointmentId), body)
      ensures appointments == if r.Done? then WithStatus(old(appointments), appointmentId, r.data)
                              else old(appointments)
      ensures users == old(users) && services == old(services)
      ensures nextUserId == old(nextUserId) && nextServiceId == old(nextServiceId)
      ensures nextAppointmentId == old(nextAppointmentId)
    {
      var user := GetCurrentUser(identity, users);
      r := DecideStatusUpdate(user, Lookup(appointments, appointmentId), body);
      if r.Done? {
        appointments := WithStatus(appointments, appointmentId, r.data);
      }
    }

    /** POST /appointments: decide, then insert the new row under a fresh id. */
    method CreateAppointment(identity: Option<string>, body: map<string, Value>,
                             parseDate: string -> Option<int>)
      returns (r: Reply<Appointment>)
      requires Valid()
      modifies this
      ensures Valid()
      ensures r == DecideCreateAppointment(GetCurrentUser(identity, old(users)), body, old(users),
                                           old(services), parseDate, old(nextAppointmentId))
      ensures appointments == if r.Done? then old(appointments)[old(nextAppointmentId) := r.data]
                              else old(appointments)
      ensures old(nextAppointmentId) !in old(appointments)
      ensures users == old(users) && services == old(services)
    {
      var id := nextAppointmentId;
      r := DecideCreateAppointment(GetCurrentUser(identity, users), body, users, services, parseDate, id);
      if r.Done? {
        appointments := appointments[id := r.data];
        nextAppointmentId := id + 1;
      }
    }

    /** POST /admin/users behind `require_roles("admin")`. */
    method AdminCreateUser(identity: Option<string>, body: map<string, Value>, hash: string -> string)
      returns (r: Guarded<Reply<Usuario>>)
      requires Valid()
      modifies this
      ensures Valid()
      ensures var us, id := old(users), old(nextUserId);
              r == RequireRoles(["admin"], b => DecideAdminCreateUser(b, us, hash, id), identity, us, body)
      ensures users == if r.Ran? && r.result.Done? then old(users)[old(nextUserId) := r.result.data]
                       else old(users)
      ensures services == old(services) && appointments == old(appointments)
    {
      var us, id := users, nextUserId;
      r := RequireRoles(["admin"], b => DecideAdminCreateUser(b, us, hash, id), identity, us, body);
      if r.Ran? && r.result.Done? {
        users := users[id := r.result.data];
        nextUserId := id + 1;
      }
    }

    /** POST /services behind `require_roles("admin")`. */
    method CreateService(identity: Option<string>, body: map<string, Value>)
      returns (r: Guarded<Reply<Service>>)
      requires Valid()
      modifies this
      ensures Valid()
      ensures var id := old(nextServiceId);
              r == RequireRoles(["admin"], b => DecideCreateService(b, id), identity, old(users), body)
      ensures services == if r.Ran? && r.result.Done? then old(services)[old(nextServiceId) := r.result.data]
                          else old(services)
      ensures users == old(users) && appointments == old(appointments)
    {
      var id := nextServiceId;
      r := RequireRoles(["admin"], b => DecideCreateService(b, id), identity, users, body);
      if r.Ran? && r.result.Done? {
        services := services[id := r.result.data];
        nextServiceId := id + 1;
      }
    }

    /** POST /usuario/cliente (`required` the client list) and POST
        /usuario/barber/admin (`required` the barber/admin list as written). */
    method Register(body: Option<map<string, Value>>, required: seq<string>, hash: string -> string)
      returns (r: Reply<Usuario>)
      requires Valid()
      modifies this
      ensures Valid()
      ensures r == DecideRegister(body, required, old(users), hash, old(nextUserId))
      ensures users == if r.Done? then old(users)[old(nextUserId) := r.data] else old(users)
      ensures services == old(services) && appointments == old(appointments)
    {
      var id := nextUserId;
      r := DecideRegister(body, required, users, hash, id);
      if r.Done? {
        users := users[id := r.data];
        nextUserId := id + 1;
      }
    }
  }
}
