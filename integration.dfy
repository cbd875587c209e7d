/** How the client pages and the API fit together: what a booking or a sign-up
    sends is what the endpoint accepts, the status buttons against the server's
    matrix, and a booked date-time as the dashboards show it. */
module Integration {
  import opened Values
  import opened Text
  import opened Models
  import opened Routes
  import opened Booking
  import opened SignUp
  import opened MyAppointmentsPage
  import opened AppointmentRows
  import opened Store
  import AdminDashboard
  import Dashboard

  // ---------------------------------------------------------------------------
  // Booking -> POST /appointments

  /** A booking the page sends, for a numeric barber id naming a barber and a
      numeric service id naming a service, whose date-time the ISO parser
      accepts, creates exactly that pending appointment of the calling client. */
  lemma BookingCreatesAppointment(f: BookingForm, u: Usuario, users: map<int, Usuario>,
                                  services: map<int, Service>, parseDate: string -> Option<int>,
                                  newId: int, barber: int, service: int, date: int)
    requires Submit(f).Send? && u.role == "cliente"
    requires JsNumber(f.barberId) == Some(barber) && barber != 0 && IsBookableBarber(users, barber)
    requires JsNumber(Str(f.serviceId)) == Some(service) && service != 0 && service in services
    requires parseDate(IsoString(f)) == Some(date)
    ensures DecideCreateAppointment(Some(u), Submit(f).body, users, services, parseDate, newId)
            == Done(201, Appointment(newId, u.userId, users[barber].userId, services[service].serviceId,
                                     date, Pendiente, Null))
  {
    var body := Submit(f).body;
    assert Get(body, "barber_id") == Num(barber);
    assert Get(body, "service_id") == Num(service);
    assert Get(body, "appointment_date") == Str(IsoString(f));
    assert IsoString(f) != "";
  }

  /** The page never sends an empty date-time: the server's presence check can
      only fail on an id that `Number` reads as 0 or NaN. */
  lemma BookingPresenceCheck(f: BookingForm)
    requires Submit(f).Send?
    ensures var body := Submit(f).body;
            && PyTruthy(Get(body, "appointment_date"))
            && (PyTruthy(Get(body, "barber_id")) <==> JsNumber(f.barberId).Some? && JsNumber(f.barberId).value != 0)
  {
    assert IsoString(f) != "";
  }

  /** A booked slot reads back on the dashboards as the chosen date and time. */
  lemma BookedDateTimeShown(f: BookingForm)
    requires |f.date| == 10 && 'T' !in f.date && |f.time| == 5
    ensures AdminDashboard.FormatDateTime(Str(IsoString(f))) == f.date + " " + f.time
    ensures Dashboard.FormatDateTime(Str(IsoString(f))) == Some(f.date + " " + f.time)
  {
    DateTimeTextOfIso(f.date, f.time, ":00");
    assert IsoString(f) == f.date + "T" + f.time + ":00";
  }

  /** The two dashboards' `formatDateTime` agree on strings and on falsy
      values; only the plain dashboard throws, on a truthy non-string. */
  lemma FormatDateTimeVersions(dt: Value)
    ensures dt.Str? || !JsTruthy(dt) ==> Dashboard.FormatDateTime(dt) == Some(AdminDashboard.FormatDateTime(dt))
    ensures JsTruthy(dt) && !dt.Str? ==> Dashboard.FormatDateTime(dt).None?
  {
  }

  // ---------------------------------------------------------------------------
  // Sign-up -> POST /usuario/cliente

  /** The sign-up request body as the API reads it. */
  function SignUpJson(b: Body): (data: map<string, Value>)
    ensures data.Keys == {"name", "email", "phone", "address", "password"}
  {
    map["name" := Str(b.name), "email" := Str(b.email), "phone" := Str(b.phone),
        "address" := Str(b.address), "password" := Str(b.password)]
  }

  /** A sign-up form that passes its own checks has every field the client
      registration endpoint requires, and with an email not yet in use it
      registers a client with the hashed password. */
  lemma AcceptedSignUpRegisters(f: SignUp.Form, users: map<int, Usuario>, hash: string -> string, newId: int)
    requires SignUp.Validate(f).None?
    requires !EmailTaken(users, Str(Trim(f.email)))
    ensures var data := SignUpJson(RequestBody(f));
            && ValidateRequired(data, ClienteRequired) == []
            && DecideRegister(Some(data), ClienteRequired, users, hash, newId).Done?
            && DecideRegister(Some(data), ClienteRequired, users, hash, newId).data.role == "cliente"
            && DecideRegister(Some(data), ClienteRequired, users, hash, newId).data.password == hash(f.password)
  {
    var b := RequestBody(f);
    assert b.name != "" && b.email != "" && b.phone != "" && b.address != "" && b.password != "" by {
      assert Utf16Length(b.name) >= 2 && Utf16Length(b.phone) >= 7;
      assert Utf16Length(b.address) >= 4 && Utf16Length(b.password) >= 6;
    }
    var data := SignUpJson(b);
    assert forall k :: k in ClienteRequired ==> PyTruthy(Get(data, k));
    assert Get(data, "email") == Str(Trim(f.email));
    assert data != map[] by { assert "name" in data; }
    assert Get(data, "password") == Str(f.password);
    RegisterComplete(data, ClienteRequired, users, hash, newId);
  }

  // ---------------------------------------------------------------------------
  // Status buttons -> PUT /appointments/<id>/status

  /** What the buttons of a row read of a serialised appointment. */
  function StatusRow(a: Appointment): (r: Row)
    ensures Member(r, "status") == Str(StatusName(a.status))
  {
    map["appointment_id" := Num(a.appointmentId), "status" := Str(StatusName(a.status))]
  }

  /** Every status change the buttons offer is one the server grants the
      appointment's own barber. */
  lemma OfferedGrantedToOwnBarber(busyId: Value, a: Appointment, u: Usuario, target: string)
    requires u.role == "barbero" && a.barberId == u.userId
    requires Offers(busyId, StatusRow(a), target)
    ensures DecideStatusUpdate(Some(u), Some(a), map["status" := Str(target)]) == Done(200, StatusOf(target).value)
  {
    assert target in {"cancelada", "confirmada", "completada"};
  }

  /** The lifecycle lives only in the page: the server lets a client cancel
      their own completed appointment, which offers no button. */
  lemma ServerCancelsWhatPageLocks(busyId: Value, a: Appointment, u: Usuario)
    requires u.role == "cliente" && a.clientId == u.userId && a.status == Completada
    ensures DecideStatusUpdate(Some(u), Some(a), map["status" := Str("cancelada")]) == Done(200, Cancelada)
    ensures !Offers(busyId, StatusRow(a), "cancelada")
  {
  }

  /** For a client, Confirm and Complete are refused by the server even when the
      page enables them; only Cancel goes through. */
  lemma ClientButtonsAgainstServer(busyId: Value, a: Appointment, u: Usuario, target: string)
    requires u.role == "cliente" && a.clientId == u.userId
    requires Offers(busyId, StatusRow(a), target)
    ensures DecideStatusUpdate(Some(u), Some(a), map["status" := Str(target)]).Done? <==> target == "cancelada"
  {
    assert target in {"cancelada", "confirmada", "completada"};
  }

  // ---------------------------------------------------------------------------
  // Store -> dashboards

  /** After `logout` the administrator's dashboard sends the user to the login
      page, although the role stays in the store. */
  lemma LogoutLeadsToLogin(s: StoreState, parseJwt: string -> Value)
    ensures var t := Reduce(s, Logout).value;
            && t.role == s.role
            && AdminDashboard.Redirect(t.token, AdminDashboard.IsAdmin(AdminDashboard.Claims(t.token, parseJwt), t))
               == Some("/login")
  {
    LogoutResets(s, Undefined);
  }
}
