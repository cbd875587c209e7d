/** The records the API stores (`Usuario`, `Service`, `Appointment`) and the two
    enumerations of the schema: user roles and appointment statuses. */
module Models {
  import opened Values

  /** `ROLE_ENUM`: cliente, barbero, admin. */
  datatype Role = Cliente | Barbero | Admin

  /** `STATUS_ENUM`: pendiente, confirmada, cancelada, completada. */
  datatype Status = Pendiente | Confirmada | Cancelada | Completada

  function RoleName(r: Role): string
  {
    match r
    case Cliente => "cliente"
    case Barbero => "barbero"
    case Admin => "admin"
  }

  /** The role a stored role string stands for, if any. */
  function RoleOf(s: string): (r: Option<Role>)
    ensures forall x :: r == Some(x) <==> s == RoleName(x)
  {
    if s == "cliente" then Some(Cliente)
    else if s == "barbero" then Some(Barbero)
    else if s == "admin" then Some(Admin)
    else None
  }

  function StatusName(st: Status): string
  {
    match st
    case Pendiente => "pendiente"
    case Confirmada => "confirmada"
    case Cancelada => "cancelada"
    case Completada => "completada"
  }

  /** The status a string names, if any: the test `new_status in (...)`. */
  function StatusOf(s: string): (r: Option<Status>)
    ensures forall x :: r == Some(x) <==> s == StatusName(x)
  {
    if s == "pendiente" then Some(Pendiente)
    else if s == "confirmada" then Some(Confirmada)
    else if s == "cancelada" then Some(Cancelada)
    else if s == "completada" then Some(Completada)
    else None
  }

  /** A row of `usuarios`. Text columns keep the JSON value they were given;
      `role` is the stored string (the column is a non-native enum). */
  datatype Usuario = Usuario(
    userId: int,
    name: Value,
    email: Value,
    password: string,
    role: string,
    isActive: bool,
    isAdmin: Value,
    phone: Value,
    address: Value,
    photoUrl: Value,
    bio: Value,
    specialties: Value)

  /** A row of `services`. */
  datatype Service = Service(serviceId: int, name: Value, price: Value, durationMinutes: int)

  /** A row of `appointments`; the date is an ordered key. */
  datatype Appointment = Appointment(
    appointmentId: int,
    clientId: int,
    barberId: int,
    serviceId: int,
    appointmentDate: int,
    status: Status,
    notes: Value)

  function AppointmentDate(a: Appointment): int
  {
    a.appointmentDate
  }
}
