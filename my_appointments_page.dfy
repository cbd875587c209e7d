/** The "my appointments" page (`MyAppointments.jsx`): its badge table, the
    enable rules of the Cancel, Confirm and Complete buttons, which carry the only
    ordering of statuses in the system, and the busy-row protocol of
    `updateStatus`. */
module MyAppointmentsPage {
  import opened Values
  import opened AppointmentRows

  /** `badgeClass`. */
  function BadgeClass(status: Value): (cls: string)
    ensures status == Str("confirmada") ==> cls == "text-bg-success"
    ensures status == Str("pendiente") ==> cls == "text-bg-warning"
    ensures status == Str("cancelada") ==> cls == "text-bg-secondary"
    ensures status == Str("completada") ==> cls == "text-bg-dark"
    ensures cls == "text-bg-light" <==>
              status !in {Str("confirmada"), Str("pendiente"), Str("cancelada"), Str("completada")}
  {
    if status == Str("confirmada") then "text-bg-success"
    else if status == Str("pendiente") then "text-bg-warning"
    else if status == Str("cancelada") then "text-bg-secondary"
    else if status == Str("completada") then "text-bg-dark"
    else "text-bg-light"
  }

  /** The four statuses get four different classes. */
  lemma BadgeClassDistinct(s: string, t: string)
    requires s in {"pendiente", "confirmada", "completada", "cancelada"}
    requires t in {"pendiente", "confirmada", "completada", "cancelada"}
    ensures BadgeClass(Str(s)) == BadgeClass(Str(t)) <==> s == t
  {
  }

  /** `busyId === a.appointment_id`. */
  predicate Busy(busyId: Value, a: Row)
  {
    busyId == Member(a, "appointment_id")
  }

  predicate CancelDisabled(busyId: Value, a: Row)
  {
    Busy(busyId, a) || HasStatus(a, "cancelada") || HasStatus(a, "completada")
  }

  predicate ConfirmDisabled(busyId: Value, a: Row)
  {
    Busy(busyId, a) || !HasStatus(a, "pendiente")
  }

  predicate CompleteDisabled(busyId: Value, a: Row)
  {
    Busy(busyId, a) || !HasStatus(a, "confirmada")
  }

  /** Clicking an enabled button of row `a` asks for status `target`. */
  predicate Offers(busyId: Value, a: Row, target: string)
  {
    || (target == "cancelada" && !CancelDisabled(busyId, a))
    || (target == "confirmada" && !ConfirmDisabled(busyId, a))
    || (target == "completada" && !CompleteDisabled(busyId, a))
  }

  /** The lifecycle the buttons impose: on a row that is not busy, pendiente may
      go to confirmada, confirmada to completada, and anything but cancelada and
      completada to cancelada; nothing else is offered, and nothing at all on a
      busy row. */
  lemma ButtonsFollowLifecycle(busyId: Value, a: Row, target: string)
    ensures Offers(busyId, a, target) <==>
              && !Busy(busyId, a)
              && (|| (target == "confirmada" && HasStatus(a, "pendiente"))
                  || (target == "completada" && HasStatus(a, "confirmada"))
                  || (target == "cancelada" && !HasStatus(a, "cancelada") && !HasStatus(a, "completada")))
  {
  }

  /** A finished appointment (cancelled or completed) offers no button. */
  lemma FinishedOffersNothing(busyId: Value, a: Row, target: string)
    requires HasStatus(a, "cancelada") || HasStatus(a, "completada")
    ensures !Offers(busyId, a, target)
  {
  }

  /** At most one of Confirm and Complete is ever enabled. */
  lemma ConfirmAndCompleteExclusive(busyId: Value, a: Row)
    ensures ConfirmDisabled(busyId, a) || CompleteDisabled(busyId, a)
  {
  }

  /** The page state `updateStatus` writes: the busy row and the message. */
  datatype Ui = Ui(busyId: Value, msg: Value)

  /** How the request of `updateStatus` ends: the fetch or the JSON read throws,
      the server answers with a non-2xx code and a message, or it accepts. */
  datatype Outcome = NetworkError | Refused(message: Value) | Accepted

  /** The successive page states `updateStatus(id, ...)` writes, one per
      setter call: the message is cleared, the row marked busy, then the
      outcome's message written and the busy mark removed (twice after a refusal:
      before the `return` and in `finally`). */
  function UpdateStatusRun(ui: Ui, id: Value, outcome: Outcome): (states: seq<Ui>)
    ensures |states| >= 3
    ensures states[0] == ui.(msg := Str("")) && states[1] == Ui(id, Str(""))
    ensures states[|states| - 1].busyId == Null
    ensures forall i :: 1 <= i < |states| ==> states[i].busyId == id || states[i].busyId == Null
    ensures outcome.NetworkError? ==> states[|states| - 1].msg == Str("Error de red")
    ensures outcome.Refused? ==> states[|states| - 1].msg == JsOr(outcome.message, Str("No se pudo actualizar"))
    ensures outcome.Accepted? ==> states[|states| - 1].msg == Str("")
  {
    var start := [ui.(msg := Str("")), Ui(id, Str(""))];
    match outcome
    case NetworkError => start + [Ui(id, Str("Error de red")), Ui(Null, Str("Error de red"))]
    case Refused(m) =>
      var text := JsOr(m, Str("No se pudo actualizar"));
      start + [Ui(id, text), Ui(Null, text), Ui(Null, text)]
    case Accepted => start + [Ui(Null, Str(""))]
  }

  /** While a row's request runs, none of that row's buttons can be pressed
      again; once it ends, the row is free. */
  lemma BusyRowIsLocked(ui: Ui, a: Row, outcome: Outcome)
    ensures var states := UpdateStatusRun(ui, Member(a, "appointment_id"), outcome);
            && (forall target :: !Offers(states[1].busyId, a, target))
            && (Member(a, "appointment_id") != Null ==> !Busy(states[|states| - 1].busyId, a))
  {
  }
}
