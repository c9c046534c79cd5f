/**
 * A patient books a doctor at a date and time: fail-fast checks, then an
 * insert into the appointment ledger; and the rule for who may change an
 * appointment's status.
 */
module Booking {
  import opened Optional
  import opened Replies
  import opened Clock
  import opened Models
  import opened SlotResolver

  /** A BOOKED appointment of the doctor at (date, time); other statuses are not looked at. */
  predicate DoctorHasBooked(appts: seq<Appointment>, doctor: DoctorId, date: Date, time: Minute)
  {
    exists a | a in appts :: a.doctor == doctor && a.date == date && a.time == time && IsBooked(a)
  }

  /** A BOOKED appointment of the patient at (date, time). */
  predicate PatientHasBooked(appts: seq<Appointment>, patient: PatientId, date: Date, time: Minute)
  {
    exists a | a in appts :: a.patient == patient && a.date == date && a.time == time && IsBooked(a)
  }

  /** The reply to a booking request and the ledger afterwards. */
  datatype Outcome = Outcome(reply: Reply, ledger: seq<Appointment>)

  /**
   * The booking request. `doctors` are the doctors on record; `patient` is the
   * caller's patient profile, if any; `firstId` is the ledger's next primary key.
   */
  function BookOutcome(appts: seq<Appointment>, firstId: nat, doctors: set<DoctorId>, patient: Option<PatientId>,
                       doctor: DoctorId, date: DateInput, time: string, reason: Option<string>, now: Now): Outcome
  {
    if !date.Parsed? then Outcome(ServerError, appts)
    else match ParseTime(time)
      case None => Outcome(ServerError, appts)
      case Some(t) =>
        if doctor !in doctors then Outcome(NotFound("Doctor not found"), appts)
        // the handler parses the same two fields again inside a try
        else if ParseTime(time).None? then Outcome(BadRequest("Invalid date or time format"), appts)
        else if Before(date.date, t, now) then Outcome(BadRequest("Cannot book appointments in the past"), appts)
        else if DoctorHasBooked(appts, doctor, date.date, t) then Outcome(BadRequest("Slot already booked"), appts)
        else if patient.None? then Outcome(ServerError, appts)
        else if PatientHasBooked(appts, patient.value, date.date, t) then
          Outcome(BadRequest("You already have an appointment at this time"), appts)
        else if !Admissible(appts, patient.value, doctor, date.date, t) then Outcome(ServerError, appts)
        else Outcome(Created("Appointment booked"),
                     appts + [NewAppointment(firstId, patient.value, doctor, date.date, t, Some(Booked), reason)])
  }

  /**
   * A booking either is created, adding exactly one BOOKED appointment with the
   * requested doctor, patient, date and time at the end of the ledger, or
   * leaves the ledger untouched.
   */
  lemma BookAddsOneOrNothing(appts: seq<Appointment>, firstId: nat, doctors: set<DoctorId>, patient: Option<PatientId>,
                             doctor: DoctorId, date: DateInput, time: string, reason: Option<string>, now: Now)
    ensures var o := BookOutcome(appts, firstId, doctors, patient, doctor, date, time, reason, now);
      && (o.reply.Created? ==>
            && patient.Some? && date.Parsed? && ParseTime(time).Some? && doctor in doctors
            && o.ledger == appts + [Appointment(firstId, patient.value, doctor, date.date, ParseTime(time).value, Some(Booked), reason)])
      && (!o.reply.Created? ==> o.ledger == appts)
  {
  }

  /** Every reachable ledger keeps both uniqueness constraints. */
  lemma BookKeepsUnique(appts: seq<Appointment>, firstId: nat, doctors: set<DoctorId>, patient: Option<PatientId>,
                        doctor: DoctorId, date: DateInput, time: string, reason: Option<string>, now: Now)
    requires Unique(appts)
    ensures Unique(BookOutcome(appts, firstId, doctors, patient, doctor, date, time, reason, now).ledger)
  {
    var o := BookOutcome(appts, firstId, doctors, patient, doctor, date, time, reason, now);
    if o.reply.Created? {
      var t := ParseTime(time).value;
      AdmissibleKeepsUnique(appts, NewAppointment(firstId, patient.value, doctor, date.date, t, Some(Booked), reason));
    }
  }

  /**
   * A well-formed request for a known doctor at a time strictly before the
   * clock is refused as past, whatever the ledger holds.
   */
  lemma PastIsRejected(appts: seq<Appointment>, firstId: nat, doctors: set<DoctorId>, patient: Option<PatientId>,
                       doctor: DoctorId, day: Date, time: string, reason: Option<string>, now: Now)
    requires doctor in doctors && ParseTime(time).Some? && Before(day, ParseTime(time).value, now)
    ensures BookOutcome(appts, firstId, doctors, patient, doctor, Parsed(day), time, reason, now).reply
      == BadRequest("Cannot book appointments in the past")
  {
  }

  /**
   * The past check is strict: on a clock that reads exactly the requested
   * minute with no seconds, the request on an empty ledger is booked.
   */
  lemma BookingAtNowAccepted(doctor: DoctorId, patient: PatientId, now: Now)
    requires now.micros == 0
    ensures BookOutcome([], 0, {doctor}, Some(patient), doctor, Parsed(now.date), Format(now.minute), None, now).reply.Created?
  {
    ParseFormat(now.minute);
  }

  /** One second into the requested minute, the same request is refused as past. */
  lemma BookingInsideCurrentMinuteRejected(doctor: DoctorId, patient: PatientId, now: Now)
    requires now.micros > 0
    ensures BookOutcome([], 0, {doctor}, Some(patient), doctor, Parsed(now.date), Format(now.minute), None, now).reply
      == BadRequest("Cannot book appointments in the past")
  {
    ParseFormat(now.minute);
  }

  /**
   * The checks run in order and the first that fails decides the reply: a
   * malformed date or time fails with an uncaught error before the doctor is
   * looked up, an unknown doctor wins over a past time, a past time over a
   * doctor conflict, and a doctor conflict over a patient conflict.
   */
  lemma BookCheckOrder(appts: seq<Appointment>, firstId: nat, doctors: set<DoctorId>, patient: PatientId,
                       doctor: DoctorId, day: Date, time: string, reason: Option<string>, now: Now)
    ensures ParseTime(time).None? ==>
      BookOutcome(appts, firstId, doctors, Some(patient), doctor, Parsed(day), time, reason, now).reply == ServerError
    ensures ParseTime(time).Some? && doctor !in doctors ==>
      BookOutcome(appts, firstId, doctors, Some(patient), doctor, Parsed(day), time, reason, now).reply == NotFound("Doctor not found")
    ensures (ParseTime(time).Some? && doctor in doctors && !Before(day, ParseTime(time).value, now)
             && DoctorHasBooked(appts, doctor, day, ParseTime(time).value)) ==>
      BookOutcome(appts, firstId, doctors, Some(patient), doctor, Parsed(day), time, reason, now).reply == BadRequest("Slot already booked")
    ensures (ParseTime(time).Some? && doctor in doctors && !Before(day, ParseTime(time).value, now)
             && !DoctorHasBooked(appts, doctor, day, ParseTime(time).value)
             && PatientHasBooked(appts, patient, day, ParseTime(time).value)) ==>
      BookOutcome(appts, firstId, doctors, Some(patient), doctor, Parsed(day), time, reason, now).reply
        == BadRequest("You already have an appointment at this time")
  {
  }

  /**
   * The format check inside the handler's `try` can never answer: it re-parses
   * the date and time that the unguarded parses before it already accepted.
   */
  lemma NoFormatRejection(appts: seq<Appointment>, firstId: nat, doctors: set<DoctorId>, patient: Option<PatientId>,
                          doctor: DoctorId, date: DateInput, time: string, reason: Option<string>, now: Now)
    ensures BookOutcome(appts, firstId, doctors, patient, doctor, date, time, reason, now).reply
      != BadRequest("Invalid date or time format")
  {
  }

  /**
   * Two bookings of one doctor's time in a row: once the first is created, the
   * second, from any patient, is refused as a doctor conflict.
   */
  lemma SecondBookingRefused(appts: seq<Appointment>, firstId: nat, doctors: set<DoctorId>, p1: PatientId, p2: PatientId,
                             doctor: DoctorId, day: Date, time: string, r1: Option<string>, r2: Option<string>, now: Now)
    requires BookOutcome(appts, firstId, doctors, Some(p1), doctor, Parsed(day), time, r1, now).reply.Created?
    ensures var after := BookOutcome(appts, firstId, doctors, Some(p1), doctor, Parsed(day), time, r1, now).ledger;
      BookOutcome(after, firstId + 1, doctors, Some(p2), doctor, Parsed(day), time, r2, now).reply
        == BadRequest("Slot already booked")
  {
    var after := BookOutcome(appts, firstId, doctors, Some(p1), doctor, Parsed(day), time, r1, now).ledger;
    var t := ParseTime(time).value;
    assert after[|after| - 1] in after;
    assert DoctorHasBooked(after, doctor, day, t);
  }

  /** Under the doctor constraint, a row is the only one of its doctor at its date and time. */
  lemma OnlyRowAt(appts: seq<Appointment>, a: Appointment)
    requires Unique(appts) && a in appts
    ensures forall b :: b in appts && b.doctor == a.doctor && b.date == a.date && b.time == a.time ==> b == a
  {
    var k :| 0 <= k < |appts| && appts[k] == a;
    forall b | b in appts && b.doctor == a.doctor && b.date == a.date && b.time == a.time
      ensures b == a
    {
      var j :| 0 <= j < |appts| && appts[j] == b;
    }
  }

  /**
   * A cancelled or NULL-status appointment leaves its time shown as available,
   * yet a booking of that time by any patient with no BOOKED appointment at it,
   * the one who held it included, passes every check and then fails at commit:
   * the ledger's constraints cover every status while the checks look only at
   * BOOKED.
   */
  lemma FreedTimeShownButNotBookable(slots: seq<Slot>, appts: seq<Appointment>, firstId: nat, doctors: set<DoctorId>, old_: Appointment,
                                     patient: PatientId, time: string, now: Now)
    requires Unique(appts) && old_ in appts && !Active(old_) && old_.doctor in doctors
    requires !PatientHasBooked(appts, patient, old_.date, old_.time)
    requires ParseTime(time) == Some(old_.time) && !Before(old_.date, old_.time, now)
    ensures forall e :: e in Resolved(slots, appts, old_.doctor, old_.date, now) && e.time == old_.time ==> e.available
    ensures BookOutcome(appts, firstId, doctors, Some(patient), old_.doctor, Parsed(old_.date), time, None, now)
      == Outcome(ServerError, appts)
  {
    OnlyRowAt(appts, old_);
    forall e | e in Resolved(slots, appts, old_.doctor, old_.date, now) && e.time == old_.time
      ensures e.available
    {
      ResolvedAvailability(slots, appts, old_.doctor, old_.date, now, e);
    }
    assert !DoctorHasBooked(appts, old_.doctor, old_.date, old_.time);
    assert !Admissible(appts, patient, old_.doctor, old_.date, old_.time);
  }

  /**
   * A COMPLETED appointment makes its time unavailable in the listing, but a
   * booking of that time by any patient with no BOOKED appointment at it
   * passes the checks and reaches a commit that fails.
   */
  lemma CompletedTimeBlocksOnlyAtCommit(slots: seq<Slot>, appts: seq<Appointment>, firstId: nat, doctors: set<DoctorId>, done: Appointment,
                                        patient: PatientId, time: string, now: Now)
    requires Unique(appts) && done in appts && done.status == Some(Completed) && done.doctor in doctors
    requires !PatientHasBooked(appts, patient, done.date, done.time)
    requires ParseTime(time) == Some(done.time) && !Before(done.date, done.time, now)
    ensures forall e :: e in Resolved(slots, appts, done.doctor, done.date, now) && e.time == done.time ==> !e.available
    ensures BookOutcome(appts, firstId, doctors, Some(patient), done.doctor, Parsed(done.date), time, None, now)
      == Outcome(ServerError, appts)
  {
    OnlyRowAt(appts, done);
    forall e | e in Resolved(slots, appts, done.doctor, done.date, now) && e.time == done.time
      ensures !e.available
    {
      ResolvedAvailability(slots, appts, done.doctor, done.date, now, e);
    }
    assert !DoctorHasBooked(appts, done.doctor, done.date, done.time);
    assert !Admissible(appts, patient, done.doctor, done.date, done.time);
  }

  /** The booking request against the ledger. Booking does not touch the availability table. */
  method Book(ledger: AppointmentLedger, doctors: set<DoctorId>, patient: Option<PatientId>,
              doctor: DoctorId, date: DateInput, time: string, reason: Option<string>, now: Now)
    returns (reply: Reply)
    requires ledger.Valid()
    modifies ledger
    ensures ledger.Valid()
    ensures var o := BookOutcome(old(ledger.appointments), old(ledger.nextId), doctors, patient, doctor, date, time, reason, now);
      reply == o.reply && ledger.appointments == o.ledger
    ensures ledger.nextId == old(ledger.nextId) + (if reply.Created? then 1 else 0)
  {
    if !date.Parsed? {
      return ServerError;
    }
    var parsed := ParseTime(time);
    if parsed.None? {
      return ServerError;
    }
    var day, t := date.date, parsed.value;
    if doctor !in doctors {
      return NotFound("Doctor not found");
    }
    if Before(day, t, now) {
      return BadRequest("Cannot book appointments in the past");
    }
    if DoctorHasBooked(ledger.appointments, doctor, day, t) {
      return BadRequest("Slot already booked");
    }
    if patient.None? {
      return ServerError;
    }
    if PatientHasBooked(ledger.appointments, patient.value, day, t) {
      return BadRequest("You already have an appointment at this time");
    }
    var committed, _ := ledger.Insert(patient.value, doctor, day, t, Some(Booked), reason);
    if committed {
      reply := Created("Appointment booked");
    } else {
      reply := ServerError;
    }
  }

  /** The request body's `status` key: absent, JSON null, or a string. */
  datatype StatusField = Missing | Null | Text(value: string)

  /** What a status-update request does to the appointment; `Assign(None)` stores NULL. */
  datatype StatusChange = Refuse(msg: string) | Assign(status: Option<string>) | Leave

  /**
   * Who may change an appointment's status: a patient only their own, and
   * only to CANCELLED; a doctor or an admin to whatever value is sent; any
   * other role changes nothing. `requested` is the request's status field.
   */
  function StatusRule(role: string, isOwner: bool, requested: StatusField): StatusChange
  {
    if role == "PATIENT" then
      if !isOwner then Refuse("Unauthorized")
      else if requested == Text(Cancelled) then Assign(Some(Cancelled))
      else Refuse("Patients can only cancel appointments")
    else if role == "DOCTOR" || role == "ADMIN" then
      match requested
      case Missing => Leave
      case Null => Assign(None)
      case Text(v) => Assign(Some(v))
    else Leave
  }

  /** A patient can set no status but CANCELLED, and only on their own appointment. */
  lemma PatientOnlyCancels(isOwner: bool, requested: StatusField)
    ensures StatusRule("PATIENT", isOwner, requested).Assign? <==> isOwner && requested == Text(Cancelled)
    ensures StatusRule("PATIENT", isOwner, requested).Assign? ==> StatusRule("PATIENT", isOwner, requested).status == Some(Cancelled)
  {
  }

  /**
   * Doctors and admins set any status they send, including ones the ledger
   * does not document and NULL; without a status key nothing changes.
   */
  lemma StaffSetsAnyStatus(role: string, isOwner: bool, status: string)
    requires role == "DOCTOR" || role == "ADMIN"
    ensures StatusRule(role, isOwner, Text(status)) == Assign(Some(status))
    ensures StatusRule(role, isOwner, Null) == Assign(None)
    ensures StatusRule(role, isOwner, Missing) == Leave
  {
  }

  /**
   * Cancelling the one appointment at a doctor's (date, time), or setting its
   * status to NULL, frees that time: by the doctor constraint no other
   * appointment can hold it.
   */
  lemma CancelFreesTime(appts: seq<Appointment>, k: nat, status: Option<string>)
    requires Unique(appts) && k < |appts|
    requires status == Some(Cancelled) || status == None
    ensures var a := appts[k];
      !Occupied(appts[k := a.(status := status)], a.doctor, a.date, a.time)
  {
    var a := appts[k];
    var s := appts[k := a.(status := status)];
    forall j | 0 <= j < |s|
      ensures !(s[j].doctor == a.doctor && s[j].date == a.date && s[j].time == a.time && Active(s[j]))
    {
      if j < k {
        assert !Clash(appts[j], appts[k]);
      } else if k < j {
        assert !Clash(appts[k], appts[j]);
      }
    }
  }

  /**
   * The status-update request on the appointment with primary key `id`.
   * `owners` maps a patient profile to its user account.
   */
  method UpdateStatus(ledger: AppointmentLedger, id: nat, role: string, caller: UserId,
                      owners: map<PatientId, UserId>, requested: StatusField)
    returns (reply: Reply)
    requires ledger.Valid()
    modifies ledger
    ensures ledger.Valid() && ledger.nextId == old(ledger.nextId)
    ensures IndexOf(old(ledger.appointments), id).None? ==>
      reply == NotFoundPage && ledger.appointments == old(ledger.appointments)
    ensures IndexOf(old(ledger.appointments), id).Some? ==>
      var k := IndexOf(old(ledger.appointments), id).value;
      var a := old(ledger.appointments)[k];
      if role == "PATIENT" && a.patient !in owners then
        reply == ServerError && ledger.appointments == old(ledger.appointments)
      else
        match StatusRule(role, a.patient in owners && owners[a.patient] == caller, requested)
        case Refuse(msg) => reply == Forbidden(msg) && ledger.appointments == old(ledger.appointments)
        case Leave => reply == Ok("Appointment updated") && ledger.appointments == old(ledger.appointments)
        case Assign(status) =>
          reply == Ok("Appointment updated") && ledger.appointments == old(ledger.appointments)[k := a.(status := status)]
  {
    var k := IndexOf(ledger.appointments, id);
    if k.None? {
      return NotFoundPage;
    }
    var a := ledger.appointments[k.value];
    if role == "PATIENT" && a.patient !in owners {
      return ServerError;
    }
    var change := StatusRule(role, a.patient in owners && owners[a.patient] == caller, requested);
    match change
    case Refuse(msg) =>
      reply := Forbidden(msg);
    case Leave =>
      reply := Ok("Appointment updated");
    case Assign(status) =>
      var found := ledger.SetStatus(id, status);
      reply := Ok("Appointment updated");
  }
}
