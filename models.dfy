/**
 * The two tables the scheduling core works on: a doctor's declared
 * availability slots and the appointment ledger, with the ledger's two
 * uniqueness constraints.
 */
module Models {
  import opened Optional
  import opened Clock

  type DoctorId = int
  type PatientId = int
  type UserId = int

  /** The status values the ledger documents; the column itself accepts any text. */
  const Booked := "BOOKED"
  const Completed := "COMPLETED"
  const Cancelled := "CANCELLED"

  /**
   * A row of the availability table. `isBooked` is the integer column that
   * the source treats as a flag (nonzero means booked). Nothing makes
   * (doctor, date, slotFrom) unique.
   */
  datatype Slot = Slot(id: nat, doctor: DoctorId, date: Date, slotFrom: Minute, slotTo: Minute, isBooked: int)

  /**
   * A row of the appointment ledger. The status column is nullable text:
   * `None` is SQL NULL, which a status update can store.
   */
  datatype Appointment = Appointment(
    id: nat, patient: PatientId, doctor: DoctorId, date: Date, time: Minute,
    status: Option<string>, reason: Option<string>)

  /**
   * The row passes the SQL filter `status != 'CANCELLED'`: under SQL's
   * three-valued logic a NULL status does not pass it.
   */
  predicate Active(a: Appointment)
  {
    a.status.Some? && a.status.value != Cancelled
  }

  /** The row matches `filter_by(status='BOOKED')`. */
  predicate IsBooked(a: Appointment)
  {
    a.status == Some(Booked)
  }

  /** A new availability row: the booked flag takes its column default, 0. */
  function NewSlot(id: nat, doctor: DoctorId, date: Date, slotFrom: Minute, slotTo: Minute): Slot
  {
    Slot(id, doctor, date, slotFrom, slotTo, 0)
  }

  /** A new ledger row; a status left unset takes its column default. */
  function NewAppointment(id: nat, patient: PatientId, doctor: DoctorId, date: Date, time: Minute,
                          status: Option<string>, reason: Option<string>): Appointment
  {
    Appointment(id, patient, doctor, date, time, Some(if status.Some? then status.value else Booked), reason)
  }

  /** The start times of the declared slots of one doctor on one date, in table order. */
  function StartTimes(slots: seq<Slot>, doctor: DoctorId, date: Date): (r: seq<Minute>)
    ensures |r| <= |slots|
    ensures forall t :: t in r <==> exists s :: s in slots && s.doctor == doctor && s.date == date && s.slotFrom == t
  {
    if slots == [] then []
    else
      var last := slots[|slots| - 1];
      assert slots == slots[..|slots| - 1] + [last];
      StartTimes(slots[..|slots| - 1], doctor, date)
        + (if last.doctor == doctor && last.date == date then [last.slotFrom] else [])
  }

  /** How many of the doctor's slots on the date start at `t`. */
  function SlotsAt(slots: seq<Slot>, doctor: DoctorId, date: Date, t: Minute): nat
  {
    if slots == [] then 0
    else
      var last := slots[|slots| - 1];
      SlotsAt(slots[..|slots| - 1], doctor, date, t) + (if last.doctor == doctor && last.date == date && last.slotFrom == t then 1 else 0)
  }

  /** Counts over a concatenation of tables add up. */
  lemma {:induction false} SlotsAtAppend(a: seq<Slot>, b: seq<Slot>, doctor: DoctorId, date: Date, t: Minute)
    ensures SlotsAt(a + b, doctor, date, t) == SlotsAt(a, doctor, date, t) + SlotsAt(b, doctor, date, t)
  {
    if b == [] {
      assert a + b == a;
    } else {
      var pre := b[..|b| - 1];
      SlotsAtAppend(a, pre, doctor, date, t);
      assert (a + b)[..|a + b| - 1] == a + pre;
    }
  }

  /** A time at which the doctor has no slot on the date is counted zero times. */
  lemma {:induction false} SlotsAtNone(slots: seq<Slot>, doctor: DoctorId, date: Date, t: Minute)
    requires t !in StartTimes(slots, doctor, date)
    ensures SlotsAt(slots, doctor, date, t) == 0
  {
    if slots != [] {
      var pre := slots[..|slots| - 1];
      assert t !in StartTimes(pre, doctor, date);
      SlotsAtNone(pre, doctor, date, t);
    }
  }

  /** `StartTimes` lists each of the doctor's slots on the date once: a time occurs once per slot starting at it. */
  lemma {:induction false} SlotsAtStartTimes(slots: seq<Slot>, doctor: DoctorId, date: Date, t: Minute)
    ensures multiset(StartTimes(slots, doctor, date))[t] == SlotsAt(slots, doctor, date, t)
  {
    if slots != [] {
      var pre := slots[..|slots| - 1];
      SlotsAtStartTimes(pre, doctor, date, t);
    }
  }

  /** Two rows clash on the doctor constraint or on the patient constraint. */
  predicate Clash(a: Appointment, b: Appointment)
  {
    (a.doctor == b.doctor && a.date == b.date && a.time == b.time)
    || (a.patient == b.patient && a.date == b.date && a.time == b.time)
  }

  /**
   * The ledger's constraints `unique_doctor_appointment` and
   * `unique_patient_appointment`: whatever the statuses, no two rows share
   * (doctor, date, time) or (patient, date, time).
   */
  ghost predicate Unique(appts: seq<Appointment>)
  {
    forall i, j :: 0 <= i < j < |appts| ==> !Clash(appts[i], appts[j])
  }

  /** A row that would not break either constraint if added to `appts`. */
  predicate Admissible(appts: seq<Appointment>, patient: PatientId, doctor: DoctorId, date: Date, time: Minute)
  {
    forall a | a in appts ::
      !(a.doctor == doctor && a.date == date && a.time == time)
      && !(a.patient == patient && a.date == date && a.time == time)
  }

  /** Primary keys strictly increase along the slot table, so no two slots share one. */
  predicate SlotIdsAscending(slots: seq<Slot>)
  {
    forall i, j :: 0 <= i < j < |slots| ==> slots[i].id < slots[j].id
  }

  /** Primary keys strictly increase along the ledger, so no two rows share one. */
  predicate AppointmentIdsAscending(appts: seq<Appointment>)
  {
    forall i, j :: 0 <= i < j < |appts| ==> appts[i].id < appts[j].id
  }

  /** The position of the row with primary key `id`, if there is one. */
  function IndexOf(appts: seq<Appointment>, id: nat): (r: Option<nat>)
    ensures r.Some? ==> r.value < |appts| && appts[r.value].id == id
    ensures r.None? ==> forall a :: a in appts ==> a.id != id
  {
    if appts == [] then None
    else if appts[0].id == id then Some(0)
    else match IndexOf(appts[1..], id)
      case Some(k) => Some(k + 1)
      case None => None
  }

  /** With distinct primary keys, the row `IndexOf` finds is the only one with that key. */
  lemma IndexOfOnly(appts: seq<Appointment>, id: nat, j: nat)
    requires AppointmentIdsAscending(appts)
    requires j < |appts| && appts[j].id == id
    ensures IndexOf(appts, id) == Some(j)
  {
  }

  /** Appending an admissible row keeps both constraints. */
  lemma AdmissibleKeepsUnique(appts: seq<Appointment>, a: Appointment)
    requires Unique(appts)
    requires Admissible(appts, a.patient, a.doctor, a.date, a.time)
    ensures Unique(appts + [a])
  {
    var s := appts + [a];
    forall i, j | 0 <= i < j < |s| ensures !Clash(s[i], s[j]) {
      if j == |appts| {
        assert s[i] in appts;
      }
    }
  }

  /** Changing a row's status keeps both constraints: neither one mentions the status. */
  lemma StatusChangeKeepsUnique(appts: seq<Appointment>, k: nat, status: Option<string>)
    requires Unique(appts) && k < |appts|
    ensures Unique(appts[k := appts[k].(status := status)])
  {
    var s := appts[k := appts[k].(status := status)];
    forall i, j | 0 <= i < j < |s| ensures !Clash(s[i], s[j]) {
      assert !Clash(appts[i], appts[j]);
    }
  }

  /**
   * The appointment ledger, kept sequentially: `Insert` is an add followed by a
   * commit, and the commit fails, leaving the table as it was, when the new
   * row breaks a uniqueness constraint.
   */
  class AppointmentLedger {
    var appointments: seq<Appointment>
    var nextId: nat

    ghost predicate Valid()
      reads this
    {
      && Unique(appointments)
      && AppointmentIdsAscending(appointments)
      && forall a | a in appointments :: a.id < nextId
    }

    constructor ()
      ensures Valid() && appointments == [] && nextId == 0
    {
      appointments, nextId := [], 0;
    }

    method Insert(patient: PatientId, doctor: DoctorId, date: Date, time: Minute,
                  status: Option<string>, reason: Option<string>) returns (committed: bool, id: nat)
      requires Valid()
      modifies this
      ensures Valid()
      ensures committed <==> Admissible(old(appointments), patient, doctor, date, time)
      ensures committed ==> id == old(nextId) && nextId == old(nextId) + 1
      ensures committed ==>
        appointments == old(appointments) + [NewAppointment(id, patient, doctor, date, time, status, reason)]
      ensures !committed ==> appointments == old(appointments) && nextId == old(nextId)
    {
      id := nextId;
      committed := Admissible(appointments, patient, doctor, date, time);
      if committed {
        var row := NewAppointment(id, patient, doctor, date, time, status, reason);
        AdmissibleKeepsUnique(appointments, row);
        assert forall i :: 0 <= i < |appointments| ==> appointments[i] in appointments;
        appointments := appointments + [row];
        nextId := nextId + 1;
      }
    }

    /** Sets the status of the row with primary key `id`; `false` when there is none. */
    method SetStatus(id: nat, status: Option<string>) returns (found: bool)
      requires Valid()
      modifies this
      ensures Valid() && nextId == old(nextId)
      ensures found <==> IndexOf(old(appointments), id).Some?
      ensures found ==>
        var k := IndexOf(old(appointments), id).value;
        appointments == old(appointments)[k := old(appointments)[k].(status := status)]
      ensures !found ==> appointments == old(appointments)
    {
      var k := IndexOf(appointments, id);
      found := k.Some?;
      if found {
        StatusChangeKeepsUnique(appointments, k.value, status);
        appointments := appointments[k.value := appointments[k.value].(status := status)];
        assert forall a | a in appointments :: a in old(appointments) || a == old(appointments)[k.value].(status := status);
      }
    }
  }
}
