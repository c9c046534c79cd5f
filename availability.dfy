/**
 * A doctor re-declares the start times of their slots for one date: unbooked
 * slots that are no longer listed are deleted, booked ones are kept, and a
 * one-hour slot is added for each listed time that had no slot.
 */
module Availability {
  import opened Optional
  import opened Replies
  import opened Clock
  import opened Models

  /** The request's "HH:MM" entries that parse, in request order; the others are dropped. */
  function ParsedTimes(requested: seq<string>): (r: seq<Minute>)
    ensures |r| <= |requested|
    ensures forall t :: t in r <==> exists s :: s in requested && ParseTime(s) == Some(t)
  {
    if requested == [] then []
    else
      var last := requested[|requested| - 1];
      assert requested == requested[..|requested| - 1] + [last];
      ParsedTimes(requested[..|requested| - 1]) + (match ParseTime(last) case Some(t) => [t] case None => [])
  }

  /** A slot the reconciliation deletes: the doctor's, on that date, not listed, and not booked. */
  predicate Doomed(s: Slot, doctor: DoctorId, date: Date, times: seq<Minute>)
  {
    s.doctor == doctor && s.date == date && s.slotFrom !in times && s.isBooked == 0
  }

  /** The table without the doomed slots, in table order. */
  function Survivors(slots: seq<Slot>, doctor: DoctorId, date: Date, times: seq<Minute>): (r: seq<Slot>)
    ensures |r| <= |slots|
    ensures forall s :: s in r <==> s in slots && !Doomed(s, doctor, date, times)
  {
    if slots == [] then []
    else
      var last := slots[|slots| - 1];
      assert slots == slots[..|slots| - 1] + [last];
      Survivors(slots[..|slots| - 1], doctor, date, times)
        + (if Doomed(last, doctor, date, times) then [] else [last])
  }

  /**
   * The slots created for the listed times that had no slot before, one per
   * listed occurrence, numbered from `firstId` on.
   */
  function NewSlots(times: seq<Minute>, existing: seq<Minute>, doctor: DoctorId, date: Date, firstId: nat): (r: seq<Slot>)
    ensures |r| <= |times|
    ensures forall k :: 0 <= k < |r| ==> r[k].id == firstId + k
  {
    if times == [] then []
    else
      var prefix := NewSlots(times[..|times| - 1], existing, doctor, date, firstId);
      var t := times[|times| - 1];
      prefix + (if t in existing then [] else [NewSlot(firstId + |prefix|, doctor, date, t, AddHour(t))])
  }

  /** The table after a successful reconciliation of `requested` for (doctor, date). */
  function Reconciled(slots: seq<Slot>, doctor: DoctorId, date: Date, requested: seq<string>, firstId: nat): (r: seq<Slot>)
    ensures forall s: Slot :: s.doctor != doctor || s.date != date ==> (s in r <==> s in slots)
  {
    var times := ParsedTimes(requested);
    NewSlotsShape(times, StartTimes(slots, doctor, date), doctor, date, firstId);
    Survivors(slots, doctor, date, times) + NewSlots(times, StartTimes(slots, doctor, date), doctor, date, firstId)
  }

  /** How many slots a successful reconciliation adds. */
  function AddedCount(slots: seq<Slot>, doctor: DoctorId, date: Date, requested: seq<string>): nat
  {
    var times := ParsedTimes(requested);
    |NewSlots(times, StartTimes(slots, doctor, date), doctor, date, 0)|
  }

  /** Every slot the reconciliation creates is a new, unbooked, one-hour slot at a listed time that had none. */
  lemma {:induction false} NewSlotsShape(times: seq<Minute>, existing: seq<Minute>, doctor: DoctorId, date: Date, firstId: nat)
    ensures var r := NewSlots(times, existing, doctor, date, firstId);
      forall s :: s in r ==>
        && s.id >= firstId && s.doctor == doctor && s.date == date && s.isBooked == 0
        && s.slotFrom in times && s.slotFrom !in existing && s.slotTo == AddHour(s.slotFrom)
  {
    if times != [] {
      var pre := times[..|times| - 1];
      NewSlotsShape(pre, existing, doctor, date, firstId);
      assert forall t :: t in pre ==> t in times;
    }
  }

  /** Every listed time that had no slot gets one. */
  lemma {:induction false} NewSlotsCover(times: seq<Minute>, existing: seq<Minute>, doctor: DoctorId, date: Date, firstId: nat)
    ensures forall t :: t in times && t !in existing ==>
      exists s :: s in NewSlots(times, existing, doctor, date, firstId) && s.slotFrom == t
        && s.doctor == doctor && s.date == date
  {
    if times != [] {
      var pre := times[..|times| - 1];
      var last := times[|times| - 1];
      NewSlotsCover(pre, existing, doctor, date, firstId);
      assert times == pre + [last];
      var prefix := NewSlots(pre, existing, doctor, date, firstId);
      var r := NewSlots(times, existing, doctor, date, firstId);
      assert forall s :: s in prefix ==> s in r;
      if last !in existing {
        assert NewSlot(firstId + |prefix|, doctor, date, last, AddHour(last)) in r;
      }
    }
  }

  /** The numbering of new slots does not depend on where it starts, only their number. */
  lemma {:induction false} NewSlotsCount(times: seq<Minute>, existing: seq<Minute>, doctor: DoctorId, date: Date, a: nat, b: nat)
    ensures |NewSlots(times, existing, doctor, date, a)| == |NewSlots(times, existing, doctor, date, b)|
  {
    if times != [] {
      NewSlotsCount(times[..|times| - 1], existing, doctor, date, a, b);
    }
  }

  /** When every listed time already has a slot, nothing is created. */
  lemma {:induction false} NewSlotsNone(times: seq<Minute>, existing: seq<Minute>, doctor: DoctorId, date: Date, firstId: nat)
    requires forall t :: t in times ==> t in existing
    ensures NewSlots(times, existing, doctor, date, firstId) == []
  {
    if times != [] {
      NewSlotsNone(times[..|times| - 1], existing, doctor, date, firstId);
    }
  }

  /** Filtering a table with no doomed slot leaves it as it is. */
  lemma {:induction false} SurvivorsAll(slots: seq<Slot>, doctor: DoctorId, date: Date, times: seq<Minute>)
    requires forall s :: s in slots ==> !Doomed(s, doctor, date, times)
    ensures Survivors(slots, doctor, date, times) == slots
  {
    if slots != [] {
      var pre := slots[..|slots| - 1];
      assert slots == pre + [slots[|slots| - 1]];
      SurvivorsAll(pre, doctor, date, times);
    }
  }

  /**
   * A slot that was in the table survives reconciliation exactly when it is
   * another doctor's or date's, its start time is listed, or it is booked.
   */
  lemma ReconcileSurvival(slots: seq<Slot>, doctor: DoctorId, date: Date, requested: seq<string>, firstId: nat, s: Slot)
    requires forall x :: x in slots ==> x.id < firstId
    requires s in slots
    ensures s in Reconciled(slots, doctor, date, requested, firstId) <==>
      s.doctor != doctor || s.date != date || s.slotFrom in ParsedTimes(requested) || s.isBooked != 0
  {
    NewSlotsShape(ParsedTimes(requested), StartTimes(slots, doctor, date), doctor, date, firstId);
  }

  /**
   * Every slot in the table after reconciliation either was there before or is
   * a new unbooked one-hour slot for a listed time that had no slot.
   */
  lemma ReconcileCreatesOnlyListed(slots: seq<Slot>, doctor: DoctorId, date: Date, requested: seq<string>, firstId: nat, s: Slot)
    requires s in Reconciled(slots, doctor, date, requested, firstId)
    ensures s in slots || (
      && s.doctor == doctor && s.date == date && s.isBooked == 0 && s.id >= firstId
      && s.slotFrom in ParsedTimes(requested) && s.slotFrom !in StartTimes(slots, doctor, date)
      && s.slotTo == AddHour(s.slotFrom))
  {
    NewSlotsShape(ParsedTimes(requested), StartTimes(slots, doctor, date), doctor, date, firstId);
  }

  /**
   * After reconciliation the doctor's start times on that date are exactly the
   * listed times together with the start times of the slots that were booked.
   */
  lemma ReconcileStartTimes(slots: seq<Slot>, doctor: DoctorId, date: Date, requested: seq<string>, firstId: nat, t: Minute)
    ensures t in StartTimes(Reconciled(slots, doctor, date, requested, firstId), doctor, date) <==>
      t in ParsedTimes(requested)
      || exists s :: s in slots && s.doctor == doctor && s.date == date && s.slotFrom == t && s.isBooked != 0
  {
    var times := ParsedTimes(requested);
    var existing := StartTimes(slots, doctor, date);
    var r := Reconciled(slots, doctor, date, requested, firstId);
    NewSlotsShape(times, existing, doctor, date, firstId);
    NewSlotsCover(times, existing, doctor, date, firstId);
    if t in times {
      if t in existing {
        var s :| s in slots && s.doctor == doctor && s.date == date && s.slotFrom == t;
        assert s in r;
      } else {
        var s :| s in NewSlots(times, existing, doctor, date, firstId) && s.slotFrom == t
          && s.doctor == doctor && s.date == date;
        assert s in r;
      }
    }
  }

  /**
   * Reconciling twice with the same request is reconciling once: the second
   * call deletes nothing and creates nothing.
   */
  lemma ReconcileIdempotent(slots: seq<Slot>, doctor: DoctorId, date: Date, requested: seq<string>, firstId: nat)
    ensures var once := Reconciled(slots, doctor, date, requested, firstId);
      Reconciled(once, doctor, date, requested, firstId + AddedCount(slots, doctor, date, requested)) == once
  {
    var times := ParsedTimes(requested);
    var once := Reconciled(slots, doctor, date, requested, firstId);
    NewSlotsShape(times, StartTimes(slots, doctor, date), doctor, date, firstId);
    forall s | s in once ensures !Doomed(s, doctor, date, times) {
    }
    SurvivorsAll(once, doctor, date, times);
    forall t | t in times ensures t in StartTimes(once, doctor, date) {
      ReconcileStartTimes(slots, doctor, date, requested, firstId, t);
    }
    NewSlotsNone(times, StartTimes(once, doctor, date), doctor, date, firstId + AddedCount(slots, doctor, date, requested));
    assert once + [] == once;
  }

  /** Only slots that were already in the table can carry a nonzero booked flag afterwards. */
  lemma ReconcileNeverSetsBooked(slots: seq<Slot>, doctor: DoctorId, date: Date, requested: seq<string>, firstId: nat, s: Slot)
    requires s in Reconciled(slots, doctor, date, requested, firstId) && s.isBooked != 0
    ensures s in slots
  {
    NewSlotsShape(ParsedTimes(requested), StartTimes(slots, doctor, date), doctor, date, firstId);
  }

  /** The parse fact behind DuplicateTimesDuplicateSlots: both entries read as 10:00. */
  lemma ParsedTenTwice()
    ensures ParsedTimes(["10:00", "10:00"]) == [600, 600]
  {
    ParseFormat(600);
    assert Format(600) == "10:00";
    var req := ["10:00", "10:00"];
    assert req[..1] == ["10:00"] && req[..1][..0] == [];
  }

  /** Example: listing 10:00 twice on a date with no slots creates two slots that differ only in their ids. */
  lemma DuplicateTimesDuplicateSlots(doctor: DoctorId, date: Date)
    ensures Reconciled([], doctor, date, ["10:00", "10:00"], 0)
      == [Slot(0, doctor, date, 600, 660, 0), Slot(1, doctor, date, 600, 660, 0)]
  {
    ParsedTenTwice();
    var one := NewSlots([600], [], doctor, date, 0);
    assert [600, 600][..1] == [600] && [600][..0] == [];
    assert one == [Slot(0, doctor, date, 600, 660, 0)];
  }

  /** Each listed occurrence of a time that had no slot gets a new slot of its own. */
  lemma {:induction false} NewSlotsAt(times: seq<Minute>, existing: seq<Minute>, doctor: DoctorId, date: Date,
                                      firstId: nat, t: Minute)
    requires t !in existing
    ensures SlotsAt(NewSlots(times, existing, doctor, date, firstId), doctor, date, t) == multiset(times)[t]
  {
    if times != [] {
      var pre: seq<Minute> := times[..|times| - 1];
      var last := times[|times| - 1];
      var before: nat := multiset(pre)[t];
      assert multiset(times)[t] == before + (if last == t then 1 else 0) by {
        assert times == pre + [last];
      }
      NewSlotsAt(pre, existing, doctor, date, firstId, t);
      var prefix := NewSlots(pre, existing, doctor, date, firstId);
      if last in existing {
        assert NewSlots(times, existing, doctor, date, firstId) == prefix;
      } else {
        var slot := NewSlot(firstId + |prefix|, doctor, date, last, AddHour(last));
        assert NewSlots(times, existing, doctor, date, firstId) == prefix + [slot];
        assert (prefix + [slot])[..|prefix|] == prefix;
      }
    }
  }

  /**
   * At a time where the doctor had no slot on the date, reconciliation leaves
   * one slot per request entry that parses to that time: listing a time twice
   * creates two slots for it.
   */
  lemma ReconcileSlotCount(slots: seq<Slot>, doctor: DoctorId, date: Date, requested: seq<string>, firstId: nat, t: Minute)
    requires t !in StartTimes(slots, doctor, date)
    ensures SlotsAt(Reconciled(slots, doctor, date, requested, firstId), doctor, date, t)
      == multiset(ParsedTimes(requested))[t]
  {
    var times := ParsedTimes(requested);
    var existing := StartTimes(slots, doctor, date);
    var kept := Survivors(slots, doctor, date, times);
    var added := NewSlots(times, existing, doctor, date, firstId);
    SlotsAtAppend(kept, added, doctor, date, t);
    assert t !in StartTimes(kept, doctor, date);
    SlotsAtNone(kept, doctor, date, t);
    NewSlotsAt(times, existing, doctor, date, firstId, t);
  }

  /** Ids stay below the counter: old rows keep theirs and new rows take the next ones. */
  lemma ReconciledIds(slots: seq<Slot>, doctor: DoctorId, date: Date, requested: seq<string>, firstId: nat)
    requires forall s :: s in slots ==> s.id < firstId
    ensures forall s :: s in Reconciled(slots, doctor, date, requested, firstId) ==>
      s.id < firstId + AddedCount(slots, doctor, date, requested)
  {
    var times := ParsedTimes(requested);
    var existing := StartTimes(slots, doctor, date);
    var added := NewSlots(times, existing, doctor, date, firstId);
    NewSlotsCount(times, existing, doctor, date, firstId, 0);
    forall s | s in added ensures s.id < firstId + |added| {
      var k :| 0 <= k < |added| && added[k] == s;
    }
  }

  /** Survivors keep the table's order, so ascending primary keys stay ascending. */
  lemma {:induction false} SurvivorsAscending(slots: seq<Slot>, doctor: DoctorId, date: Date, times: seq<Minute>)
    requires SlotIdsAscending(slots)
    ensures SlotIdsAscending(Survivors(slots, doctor, date, times))
  {
    if slots != [] {
      var prefix, last := slots[..|slots| - 1], slots[|slots| - 1];
      assert SlotIdsAscending(prefix) by {
        forall i, j | 0 <= i < j < |prefix| ensures prefix[i].id < prefix[j].id {
          assert prefix[i] == slots[i] && prefix[j] == slots[j];
        }
      }
      SurvivorsAscending(prefix, doctor, date, times);
      var kept := Survivors(prefix, doctor, date, times);
      var r := Survivors(slots, doctor, date, times);
      assert r == kept + (if Doomed(last, doctor, date, times) then [] else [last]);
      forall i, j | 0 <= i < j < |r| ensures r[i].id < r[j].id {
        if j == |kept| {
          assert r[i] in prefix;
          var k :| 0 <= k < |prefix| && prefix[k] == r[i];
          assert slots[k] == r[i];
        }
      }
    }
  }

  /**
   * Reconciliation keeps primary keys ascending: the kept rows keep theirs, in
   * order, and the new rows take the counter's next values.
   */
  lemma ReconciledAscending(slots: seq<Slot>, doctor: DoctorId, date: Date, requested: seq<string>, firstId: nat)
    requires SlotIdsAscending(slots)
    requires forall s :: s in slots ==> s.id < firstId
    ensures SlotIdsAscending(Reconciled(slots, doctor, date, requested, firstId))
  {
    var times := ParsedTimes(requested);
    var kept := Survivors(slots, doctor, date, times);
    var added := NewSlots(times, StartTimes(slots, doctor, date), doctor, date, firstId);
    SurvivorsAscending(slots, doctor, date, times);
    var r := kept + added;
    forall i, j | 0 <= i < j < |r| ensures r[i].id < r[j].id {
      if i < |kept| && |kept| <= j {
        assert r[i] in slots;
      }
    }
  }

  /**
   * On a table where no slot is booked, which is every table this program
   * produces, reconciliation leaves the doctor's slots on that date exactly at
   * the listed times, and still no slot is booked.
   */
  lemma ReconcileListedOnly(slots: seq<Slot>, doctor: DoctorId, date: Date, requested: seq<string>, firstId: nat)
    requires forall s :: s in slots ==> s.id < firstId
    requires forall s :: s in slots ==> s.isBooked == 0
    ensures var r := Reconciled(slots, doctor, date, requested, firstId);
      && (forall x :: x in r ==> x.isBooked == 0)
      && (forall x :: x in r && x.doctor == doctor && x.date == date ==> x.slotFrom in ParsedTimes(requested))
      && (forall t :: t in StartTimes(r, doctor, date) <==> t in ParsedTimes(requested))
  {
    var r := Reconciled(slots, doctor, date, requested, firstId);
    forall x | x in r ensures x.isBooked == 0 {
      if x.isBooked != 0 {
        ReconcileNeverSetsBooked(slots, doctor, date, requested, firstId, x);
      }
    }
    forall x | x in r && x.doctor == doctor && x.date == date ensures x.slotFrom in ParsedTimes(requested) {
      ReconcileCreatesOnlyListed(slots, doctor, date, requested, firstId, x);
      if x in slots {
        ReconcileSurvival(slots, doctor, date, requested, firstId, x);
      }
    }
    forall t ensures t in StartTimes(r, doctor, date) <==> t in ParsedTimes(requested) {
      ReconcileStartTimes(slots, doctor, date, requested, firstId, t);
    }
  }

  /** The request's parse loop: each entry that `strptime(_, '%H:%M')` accepts, in order. */
  method ParseRequested(requested: seq<string>) returns (times: seq<Minute>)
    ensures times == ParsedTimes(requested)
  {
    times := [];
    for k := 0 to |requested|
      invariant times == ParsedTimes(requested[..k])
    {
      assert requested[..k + 1][..k] == requested[..k];
      match ParseTime(requested[k])
      case Some(t) => times := times + [t];
      case None =>
    }
    assert requested[..|requested|] == requested;
  }

  /**
   * The deletion loop over the doctor's slots on the date: what stays in the
   * table, and the start times the doctor had on that date before any deletion.
   */
  method Partition(table: seq<Slot>, doctor: DoctorId, date: Date, times: seq<Minute>)
    returns (kept: seq<Slot>, existing: seq<Minute>)
    ensures kept == Survivors(table, doctor, date, times)
    ensures existing == StartTimes(table, doctor, date)
  {
    kept, existing := [], [];
    for i := 0 to |table|
      invariant kept == Survivors(table[..i], doctor, date, times)
      invariant existing == StartTimes(table[..i], doctor, date)
    {
      assert table[..i + 1][..i] == table[..i];
      var s := table[i];
      if s.doctor == doctor && s.date == date {
        existing := existing + [s.slotFrom];
      }
      if !Doomed(s, doctor, date, times) {
        kept := kept + [s];
      }
    }
    assert table[..|table|] == table;
  }

  /** The creation loop: a one-hour slot for each listed time that had none, numbered from `firstId`. */
  method CreateSlots(times: seq<Minute>, existing: seq<Minute>, doctor: DoctorId, date: Date, firstId: nat)
    returns (added: seq<Slot>)
    ensures added == NewSlots(times, existing, doctor, date, firstId)
  {
    added := [];
    var id := firstId;
    for k := 0 to |times|
      invariant added == NewSlots(times[..k], existing, doctor, date, firstId)
      invariant id == firstId + |added|
    {
      assert times[..k + 1][..k] == times[..k];
      var t := times[k];
      if t !in existing {
        added := added + [NewSlot(id, doctor, date, t, AddHour(t))];
        id := id + 1;
      }
    }
    assert times[..|times|] == times;
  }

  /**
   * The availability table of the doctors, with the reconciling request.
   * Slot ids come from an autoincrement counter.
   */
  class AvailabilityStore {
    var slots: seq<Slot>
    var nextId: nat

    ghost predicate Valid()
      reads this
    {
      && SlotIdsAscending(slots)
      && (forall s | s in slots :: s.id < nextId)
      && (forall s | s in slots :: s.isBooked == 0)
    }

    constructor ()
      ensures Valid() && slots == [] && nextId == 0
    {
      slots, nextId := [], 0;
    }

    /**
     * The doctor's availability request. `doctor` is the caller's doctor
     * profile, if they have one; `date` is the request's date field, `Absent`
     * when it is missing, null or empty.
     */
    method Reconcile(doctor: Option<DoctorId>, date: DateInput, requested: seq<string>) returns (reply: Reply)
      requires Valid()
      modifies this
      ensures Valid()
      ensures doctor.None? ==> reply == NotFound("Doctor profile not found")
      ensures doctor.Some? && date.Absent? ==> reply == BadRequest("Date is required")
      ensures doctor.Some? && date.Unparseable? ==> reply == ServerError
      ensures !(doctor.Some? && date.Parsed?) ==> slots == old(slots) && nextId == old(nextId)
      ensures doctor.Some? && date.Parsed? ==>
        && reply == Ok("Availability updated")
        && slots == Reconciled(old(slots), doctor.value, date.date, requested, old(nextId))
        && nextId == old(nextId) + AddedCount(old(slots), doctor.value, date.date, requested)
      ensures doctor.Some? && date.Parsed? ==>
        forall t :: t in StartTimes(slots, doctor.value, date.date) <==> t in ParsedTimes(requested)
    {
      if doctor.None? {
        return NotFound("Doctor profile not found");
      }
      if date.Absent? {
        return BadRequest("Date is required");
      }
      if date.Unparseable? {
        return ServerError;
      }
      var d, day := doctor.value, date.date;
      var table, firstId := slots, nextId;

      var times := ParseRequested(requested);
      var kept, existing := Partition(table, d, day, times);
      var added := CreateSlots(times, existing, d, day, firstId);
      NewSlotsCount(times, existing, d, day, firstId, 0);
      ReconciledIds(table, d, day, requested, firstId);
      ReconciledAscending(table, d, day, requested, firstId);
      ReconcileListedOnly(table, d, day, requested, firstId);
      slots, nextId := kept + added, firstId + |added|;
      reply := Ok("Availability updated");
    }
  }
}
