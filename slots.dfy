/**
 * The bookable-times list a patient sees for one doctor on one date: the
 * doctor's declared start times (or a default 09:00-17:00 hourly grid when
 * there are none), each marked available unless a non-cancelled appointment
 * holds it, sorted by "HH:MM", and on today's date only the times after the
 * current minute.
 */
module SlotResolver {
  import opened Optional
  import opened Replies
  import opened Clock
  import opened Models
  import opened Availability

  /** A candidate time and whether it can be booked. */
  datatype Entry = Entry(time: Minute, available: bool)

  /** An element of the reply: `{"time": "HH:MM", "available": ...}`. */
  datatype SlotView = SlotView(time: string, available: bool)

  /** The default working day: hourly from 09:00 while before 17:00. */
  const FallbackGrid: seq<Minute> := [540, 600, 660, 720, 780, 840, 900, 960]

  /** The times the reply is built from: the declared start times, or the default grid when there are none. */
  function Candidates(slots: seq<Slot>, doctor: DoctorId, date: Date): (r: seq<Minute>)
    ensures r != []
    ensures forall t :: t in r ==> t in StartTimes(slots, doctor, date) || (540 <= t < 1020 && t % 60 == 0)
  {
    var declared := StartTimes(slots, doctor, date);
    if declared != [] then declared else FallbackGrid
  }

  /** Some appointment of the doctor on the date holds time `t` and is not CANCELLED. */
  predicate Occupied(appts: seq<Appointment>, doctor: DoctorId, date: Date, t: Minute)
  {
    exists a | a in appts :: a.doctor == doctor && a.date == date && Active(a) && a.time == t
  }

  /** The times of the doctor's non-cancelled appointments on the date. */
  function ActiveTimes(appts: seq<Appointment>, doctor: DoctorId, date: Date): (r: seq<Minute>)
    ensures forall t :: t in r <==> Occupied(appts, doctor, date, t)
  {
    if appts == [] then []
    else
      var last := appts[|appts| - 1];
      assert appts == appts[..|appts| - 1] + [last];
      ActiveTimes(appts[..|appts| - 1], doctor, date)
        + (if last.doctor == doctor && last.date == date && Active(last) then [last.time] else [])
  }

  /** Each time, marked with its availability. */
  function Mark(times: seq<Minute>, appts: seq<Appointment>, doctor: DoctorId, date: Date): seq<Entry>
  {
    seq(|times|, k requires 0 <= k < |times| => Entry(times[k], !Occupied(appts, doctor, date, times[k])))
  }

  predicate SortedByTime(s: seq<Entry>)
  {
    forall i, j :: 0 <= i < j < |s| ==> s[i].time <= s[j].time
  }

  /** Every entry's availability is the one its time has: entries with the same time are the same entry. */
  predicate Coherent(s: seq<Entry>, appts: seq<Appointment>, doctor: DoctorId, date: Date)
  {
    forall x :: x in s ==> x.available == !Occupied(appts, doctor, date, x.time)
  }

  function InsertByTime(e: Entry, s: seq<Entry>): (r: seq<Entry>)
    ensures multiset(r) == multiset(s) + multiset{e}
  {
    if s == [] then [e]
    else if e.time <= s[0].time then [e] + s
    else
      assert s == [s[0]] + s[1..];
      [s[0]] + InsertByTime(e, s[1..])
  }

  /** Whatever is inserted into `s` after its head is no earlier than the head, if `e` is not. */
  lemma InsertAfterHead(e: Entry, s: seq<Entry>, head: Entry)
    requires head.time <= e.time
    requires forall x :: x in s ==> head.time <= x.time
    ensures forall x :: x in InsertByTime(e, s) ==> head.time <= x.time
  {
    var r := InsertByTime(e, s);
    forall x | x in r ensures head.time <= x.time {
      assert x in multiset(r);
      assert x in multiset(s) || x == e;
    }
  }

  /** The head of a sorted sequence is no later than anything in its tail. */
  lemma HeadFirst(s: seq<Entry>)
    requires SortedByTime(s) && s != []
    ensures forall x :: x in s[1..] ==> s[0].time <= x.time
  {
    forall x | x in s[1..] ensures s[0].time <= x.time {
      var k :| 0 <= k < |s[1..]| && s[1..][k] == x;
      assert x == s[k + 1];
    }
  }

  /** Putting an entry no later than any of a sorted sequence in front keeps it sorted. */
  lemma ConsSorted(h: Entry, rest: seq<Entry>)
    requires SortedByTime(rest)
    requires forall x :: x in rest ==> h.time <= x.time
    ensures SortedByTime([h] + rest)
  {
    var r := [h] + rest;
    forall i, j | 0 <= i < j < |r| ensures r[i].time <= r[j].time {
      if i == 0 {
        assert r[j] == rest[j - 1];
        assert r[j] in rest;
      } else {
        assert r[i] == rest[i - 1] && r[j] == rest[j - 1];
      }
    }
  }

  /** Inserting into a sorted sequence keeps it sorted. */
  lemma {:induction false} InsertSorted(e: Entry, s: seq<Entry>)
    requires SortedByTime(s)
    ensures SortedByTime(InsertByTime(e, s))
  {
    if s == [] {
    } else if e.time <= s[0].time {
      HeadFirst(s);
      assert s == [s[0]] + s[1..];
      forall x | x in s ensures e.time <= x.time {
        if x != s[0] {
          assert x in s[1..];
        }
      }
      ConsSorted(e, s);
    } else {
      var tail := s[1..];
      SortedTail(s);
      InsertSorted(e, tail);
      HeadFirst(s);
      InsertAfterHead(e, tail, s[0]);
      var rest := InsertByTime(e, tail);
      assert InsertByTime(e, s) == [s[0]] + rest;
      ConsSorted(s[0], rest);
    }
  }

  /** A sort by time: the result is ordered and holds the same entries. */
  function SortByTime(s: seq<Entry>): (r: seq<Entry>)
    ensures multiset(r) == multiset(s)
    ensures SortedByTime(r)
  {
    if s == [] then []
    else
      assert s == [s[0]] + s[1..];
      var r := SortByTime(s[1..]);
      InsertSorted(s[0], r);
      InsertByTime(s[0], r)
  }

  /** The entries whose "HH:MM" is strictly greater than `cutoff`, in order. */
  function Later(s: seq<Entry>, cutoff: string): seq<Entry>
  {
    if s == [] then []
    else
      var last := s[|s| - 1];
      Later(s[..|s| - 1], cutoff) + (if StrLess(cutoff, Format(last.time)) then [last] else [])
  }

  /** On the current date only the times after the current minute remain; other dates are not filtered. */
  function Visible(s: seq<Entry>, date: Date, now: Now): seq<Entry>
  {
    if date == now.date then Later(s, Format(now.minute)) else s
  }

  function Render(s: seq<Entry>): seq<SlotView>
  {
    seq(|s|, k requires 0 <= k < |s| => SlotView(Format(s[k].time), s[k].available))
  }

  /** The resolver's answer for (doctor, date) at clock reading `now`, before rendering. */
  function Resolved(slots: seq<Slot>, appts: seq<Appointment>, doctor: DoctorId, date: Date, now: Now): seq<Entry>
  {
    Visible(SortByTime(Mark(Candidates(slots, doctor, date), appts, doctor, date)), date, now)
  }

  lemma SortedTail(s: seq<Entry>)
    requires SortedByTime(s) && s != []
    ensures SortedByTime(s[1..])
  {
    var tail := s[1..];
    forall i, j | 0 <= i < j < |tail| ensures tail[i].time <= tail[j].time {
      assert tail[i] == s[i + 1] && tail[j] == s[j + 1];
    }
  }

  /** Two sorted arrangements of one coherent, nonempty bag start with the same entry. */
  lemma SortedSameHead(s: seq<Entry>, t: seq<Entry>, appts: seq<Appointment>, doctor: DoctorId, date: Date)
    requires SortedByTime(s) && SortedByTime(t) && s != [] && t != []
    requires multiset(s) == multiset(t) && Coherent(s, appts, doctor, date)
    ensures s[0] == t[0]
  {
    assert s[0] in multiset(t);
    var k :| 0 <= k < |t| && t[k] == s[0];
    assert t[0] in multiset(s);
    var m :| 0 <= m < |s| && s[m] == t[0];
    assert s[0].time <= s[m].time by {
      if m > 0 {
        assert s[0].time <= s[m].time;
      }
    }
    assert t[0].time <= t[k].time by {
      if k > 0 {
        assert t[0].time <= t[k].time;
      }
    }
    assert s[0] in s && s[m] in s;
  }

  /** Dropping the head of a sequence removes one occurrence of it from the bag. */
  lemma TailBag(s: seq<Entry>)
    requires s != []
    ensures multiset(s[1..]) == multiset(s) - multiset{s[0]}
  {
    assert s == [s[0]] + s[1..];
  }

  /** The tails of two sorted arrangements with the same head are sorted arrangements of one coherent bag. */
  lemma SortedTails(s: seq<Entry>, t: seq<Entry>, appts: seq<Appointment>, doctor: DoctorId, date: Date)
    requires SortedByTime(s) && SortedByTime(t) && s != [] && t != [] && s[0] == t[0]
    requires multiset(s) == multiset(t) && Coherent(s, appts, doctor, date)
    ensures SortedByTime(s[1..]) && SortedByTime(t[1..])
    ensures multiset(s[1..]) == multiset(t[1..]) && Coherent(s[1..], appts, doctor, date)
  {
    TailBag(s);
    TailBag(t);
    forall x | x in s[1..] ensures x in s {
    }
    SortedTail(s);
    SortedTail(t);
  }

  /** Two sorted arrangements of one coherent bag of entries are the same sequence. */
  lemma {:induction false} SortedUnique(s: seq<Entry>, t: seq<Entry>, appts: seq<Appointment>, doctor: DoctorId, date: Date)
    requires SortedByTime(s) && SortedByTime(t)
    requires multiset(s) == multiset(t) && Coherent(s, appts, doctor, date)
    ensures s == t
  {
    if s == [] {
      assert |t| == |multiset(t)| == 0;
    } else {
      assert |t| == |multiset(t)| == |multiset(s)| == |s|;
      SortedSameHead(s, t, appts, doctor, date);
      SortedTails(s, t, appts, doctor, date);
      SortedUnique(s[1..], t[1..], appts, doctor, date);
      assert s == [s[0]] + s[1..] && t == [t[0]] + t[1..];
    }
  }

  /** Marking gives a coherent sequence, and so does any rearrangement of it. */
  lemma MarkCoherent(times: seq<Minute>, appts: seq<Appointment>, doctor: DoctorId, date: Date, s: seq<Entry>)
    requires multiset(s) == multiset(Mark(times, appts, doctor, date))
    ensures Coherent(s, appts, doctor, date)
  {
    var m := Mark(times, appts, doctor, date);
    forall x | x in s ensures x.available == !Occupied(appts, doctor, date, x.time) {
      assert x in multiset(m);
      assert x in m;
    }
  }

  /** What the cutoff keeps: the entries of `s` whose time is after the cutoff's minute. */
  lemma {:induction false} LaterMembers(s: seq<Entry>, cutoff: Minute)
    ensures forall e :: e in Later(s, Format(cutoff)) <==> e in s && cutoff < e.time
  {
    if s != [] {
      var pre, last := s[..|s| - 1], s[|s| - 1];
      LaterMembers(pre, cutoff);
      FormatOrder(cutoff, last.time);
      assert s == pre + [last];
    }
  }

  /** Appending an entry no earlier than any of a sorted sequence keeps it sorted. */
  lemma SnocSorted(r: seq<Entry>, last: Entry)
    requires SortedByTime(r)
    requires forall x :: x in r ==> x.time <= last.time
    ensures SortedByTime(r + [last])
  {
    var q := r + [last];
    forall i, j | 0 <= i < j < |q| ensures q[i].time <= q[j].time {
      assert q[i] == r[i];
      if j == |r| {
        assert r[i] in r;
      } else {
        assert q[j] == r[j];
      }
    }
  }

  /** The front of a sorted sequence is sorted and no later than its last entry. */
  lemma SortedFront(s: seq<Entry>)
    requires SortedByTime(s) && s != []
    ensures SortedByTime(s[..|s| - 1])
    ensures forall x :: x in s[..|s| - 1] ==> x.time <= s[|s| - 1].time
  {
    var pre := s[..|s| - 1];
    forall x | x in pre ensures x.time <= s[|s| - 1].time {
      var k :| 0 <= k < |pre| && pre[k] == x;
      assert x == s[k];
    }
  }

  /** The cutoff keeps a sorted sequence sorted: it preserves order. */
  lemma {:induction false} LaterSorted(s: seq<Entry>, cutoff: Minute)
    requires SortedByTime(s)
    ensures SortedByTime(Later(s, Format(cutoff)))
  {
    if s != [] {
      var pre, last := s[..|s| - 1], s[|s| - 1];
      SortedFront(s);
      LaterSorted(pre, cutoff);
      LaterMembers(pre, cutoff);
      var r := Later(pre, Format(cutoff));
      if StrLess(Format(cutoff), Format(last.time)) {
        SnocSorted(r, last);
      }
    }
  }

  /**
   * The reply is in chronological order, which is also "HH:MM" string order,
   * the key the handler sorts by.
   */
  lemma ResolvedSorted(slots: seq<Slot>, appts: seq<Appointment>, doctor: DoctorId, date: Date, now: Now)
    ensures var r := Resolved(slots, appts, doctor, date, now);
      forall i, j :: 0 <= i < j < |r| ==> r[i].time <= r[j].time && !StrLess(Format(r[j].time), Format(r[i].time))
  {
    var sorted := SortByTime(Mark(Candidates(slots, doctor, date), appts, doctor, date));
    LaterSorted(sorted, now.minute);
    var r := Resolved(slots, appts, doctor, date, now);
    forall i, j | 0 <= i < j < |r| ensures !StrLess(Format(r[j].time), Format(r[i].time)) {
      FormatOrder(r[j].time, r[i].time);
    }
  }

  /**
   * A listed time is available exactly when no appointment of the doctor on the
   * date holds it with a status other than CANCELLED; the slot's own booked
   * flag plays no part.
   */
  lemma ResolvedAvailability(slots: seq<Slot>, appts: seq<Appointment>, doctor: DoctorId, date: Date, now: Now, e: Entry)
    requires e in Resolved(slots, appts, doctor, date, now)
    ensures e.available <==> !Occupied(appts, doctor, date, e.time)
  {
    var marked := Mark(Candidates(slots, doctor, date), appts, doctor, date);
    var sorted := SortByTime(marked);
    LaterMembers(sorted, now.minute);
    assert e in sorted;
    assert e in multiset(marked);
  }

  /**
   * A time is listed exactly when it is a candidate and, on the current date,
   * is strictly later than the current minute; past dates are not filtered.
   */
  lemma ResolvedTimes(slots: seq<Slot>, appts: seq<Appointment>, doctor: DoctorId, date: Date, now: Now, t: Minute)
    ensures (exists e :: e in Resolved(slots, appts, doctor, date, now) && e.time == t) <==>
      t in Candidates(slots, doctor, date) && (date != now.date || now.minute < t)
  {
    var cands := Candidates(slots, doctor, date);
    var marked := Mark(cands, appts, doctor, date);
    var sorted := SortByTime(marked);
    LaterMembers(sorted, now.minute);
    var r := Resolved(slots, appts, doctor, date, now);
    if t in cands && (date != now.date || now.minute < t) {
      var k :| 0 <= k < |cands| && cands[k] == t;
      assert marked[k] in multiset(sorted);
      assert marked[k] in r;
    }
    if e :| e in r && e.time == t {
      assert e in multiset(marked);
    }
  }

  /** The fallback grid is the hourly times from 09:00, in order. */
  lemma FallbackGridHourly()
    ensures |FallbackGrid| == 8 && forall k :: 0 <= k < 8 ==> FallbackGrid[k] == 540 + 60 * k
  {
  }

  /** Marking the fallback grid gives eight entries in time order. */
  lemma FallbackMarked(appts: seq<Appointment>, doctor: DoctorId, date: Date)
    ensures var marked := Mark(FallbackGrid, appts, doctor, date);
      |marked| == 8 && SortedByTime(marked) && forall k :: 0 <= k < 8 ==> marked[k].time == 540 + 60 * k
  {
    FallbackGridHourly();
  }

  /**
   * With no declared slots and a date other than today, the reply is exactly
   * the eight hourly times 09:00 to 16:00 in order (17:00 is not included).
   */
  lemma ResolvedFallback(slots: seq<Slot>, appts: seq<Appointment>, doctor: DoctorId, date: Date, now: Now)
    requires StartTimes(slots, doctor, date) == [] && date != now.date
    ensures var r := Resolved(slots, appts, doctor, date, now);
      |r| == 8 && forall k :: 0 <= k < 8 ==> r[k].time == 540 + 60 * k
  {
    var marked := Mark(FallbackGrid, appts, doctor, date);
    FallbackMarked(appts, doctor, date);
    MarkCoherent(FallbackGrid, appts, doctor, date, marked);
    SortedUnique(marked, SortByTime(marked), appts, doctor, date);
  }


  /** An inactive appointment (CANCELLED or with a NULL status) changes nothing in the reply. */
  lemma CancelledIgnored(slots: seq<Slot>, appts: seq<Appointment>, a: Appointment, date: Date, doctor: DoctorId, now: Now)
    requires !Active(a)
    ensures Resolved(slots, appts + [a], doctor, date, now) == Resolved(slots, appts, doctor, date, now)
  {
    var cands := Candidates(slots, doctor, date);
    forall t ensures Occupied(appts + [a], doctor, date, t) == Occupied(appts, doctor, date, t) {
      if Occupied(appts + [a], doctor, date, t) {
        var b :| b in appts + [a] && b.doctor == doctor && b.date == date && Active(b) && b.time == t;
        assert b in appts;
      }
    }
    assert Mark(cands, appts + [a], doctor, date) == Mark(cands, appts, doctor, date);
  }

  /** Marking keeps one entry per occurrence of a time. */
  lemma {:induction false} MarkCount(times: seq<Minute>, appts: seq<Appointment>, doctor: DoctorId, date: Date, t: Minute)
    ensures multiset(Mark(times, appts, doctor, date))[Entry(t, !Occupied(appts, doctor, date, t))] == multiset(times)[t]
  {
    if times != [] {
      var pre, last := times[..|times| - 1], times[|times| - 1];
      MarkCount(pre, appts, doctor, date, t);
      assert Mark(times, appts, doctor, date) == Mark(pre, appts, doctor, date) + [Entry(last, !Occupied(appts, doctor, date, last))];
      assert times == pre + [last];
    }
  }

  /** The cutoff keeps every occurrence of an entry later than it. */
  lemma {:induction false} LaterCount(s: seq<Entry>, cutoff: Minute, e: Entry)
    requires cutoff < e.time
    ensures multiset(Later(s, Format(cutoff)))[e] == multiset(s)[e]
  {
    if s != [] {
      var pre, last := s[..|s| - 1], s[|s| - 1];
      LaterCount(pre, cutoff, e);
      FormatOrder(cutoff, last.time);
      assert s == pre + [last];
    }
  }

  /**
   * A declared time that is not cut off is listed once per slot row of the
   * doctor on the date that starts at it: duplicate rows give duplicate entries.
   */
  lemma ResolvedCount(slots: seq<Slot>, appts: seq<Appointment>, doctor: DoctorId, date: Date, now: Now, t: Minute)
    requires StartTimes(slots, doctor, date) != []
    requires date != now.date || now.minute < t
    ensures multiset(Resolved(slots, appts, doctor, date, now))[Entry(t, !Occupied(appts, doctor, date, t))]
      == SlotsAt(slots, doctor, date, t)
  {
    SlotsAtStartTimes(slots, doctor, date, t);
    var e := Entry(t, !Occupied(appts, doctor, date, t));
    var marked := Mark(StartTimes(slots, doctor, date), appts, doctor, date);
    MarkCount(StartTimes(slots, doctor, date), appts, doctor, date, t);
    if date == now.date {
      LaterCount(SortByTime(marked), now.minute, e);
    }
  }

  /** Example: two identical slot rows make the same time appear twice in the reply. */
  lemma DuplicateRowsListedTwice(doctor: DoctorId, date: Date, now: Now)
    requires date != now.date
    ensures var row := Slot(0, doctor, date, 600, 660, 0);
      Resolved([row, row], [], doctor, date, now) == [Entry(600, true), Entry(600, true)]
  {
    var row := Slot(0, doctor, date, 600, 660, 0);
    assert [row, row][..1] == [row] && [row][..0] == [];
    assert StartTimes([row, row], doctor, date) == [600, 600];
    var marked := Mark([600, 600], [], doctor, date);
    assert marked == [Entry(600, true), Entry(600, true)];
    MarkCoherent([600, 600], [], doctor, date, marked);
    SortedUnique(marked, SortByTime(marked), [], doctor, date);
  }

  /** The fallback loop: from 09:00 in one-hour steps while before 17:00. */
  method FallbackEntries(appts: seq<Appointment>, doctor: DoctorId, date: Date, booked: seq<Minute>)
    returns (entries: seq<Entry>)
    requires forall t :: t in booked <==> Occupied(appts, doctor, date, t)
    ensures entries == Mark(FallbackGrid, appts, doctor, date)
  {
    entries := [];
    var current := 540;
    var end := 1020;
    while current < end
      invariant 540 <= current <= 1020 && current == 540 + 60 * |entries|
      invariant entries == Mark(FallbackGrid[..|entries|], appts, doctor, date)
    {
      assert FallbackGrid[|entries|] == current;
      entries := entries + [Entry(current, current !in booked)];
      current := current + 60;
    }
    assert FallbackGrid[..|entries|] == FallbackGrid;
  }

  /** The declared-slot loop: one entry per declared start time, in table order. */
  method DeclaredEntries(declared: seq<Minute>, appts: seq<Appointment>, doctor: DoctorId, date: Date, booked: seq<Minute>)
    returns (entries: seq<Entry>)
    requires forall t :: t in booked <==> Occupied(appts, doctor, date, t)
    ensures entries == Mark(declared, appts, doctor, date)
  {
    entries := [];
    for k := 0 to |declared|
      invariant entries == Mark(declared[..k], appts, doctor, date)
    {
      entries := entries + [Entry(declared[k], declared[k] !in booked)];
    }
    assert declared[..|declared|] == declared;
  }

  /** Filtering and rendering one more entry appends its view exactly when the filter keeps it. */
  lemma VisibleStep(s: seq<Entry>, e: Entry, date: Date, now: Now)
    ensures Render(Visible(s + [e], date, now)) == Render(Visible(s, date, now))
      + (if date != now.date || StrLess(Format(now.minute), Format(e.time)) then [SlotView(Format(e.time), e.available)] else [])
  {
    assert (s + [e])[..|s|] == s;
  }

  /** The list comprehension that drops past times on the current date, with the rendering to "HH:MM". */
  method RenderVisible(sorted: seq<Entry>, date: Date, now: Now) returns (views: seq<SlotView>)
    ensures views == Render(Visible(sorted, date, now))
  {
    var today := date == now.date;
    var cutoff := Format(now.minute);
    views := [];
    for k := 0 to |sorted|
      invariant views == Render(Visible(sorted[..k], date, now))
    {
      VisibleStep(sorted[..k], sorted[k], date, now);
      assert sorted[..k + 1] == sorted[..k] + [sorted[k]];
      var view := SlotView(Format(sorted[k].time), sorted[k].available);
      if !today || StrLess(cutoff, view.time) {
        views := views + [view];
      }
    }
    assert sorted[..|sorted|] == sorted;
  }

  /**
   * The slot-listing request. `doctor` and `date` are the query parameters
   * (absent when missing or empty); `now` is the wall clock.
   */
  method ResolveSlots(store: AvailabilityStore, ledger: AppointmentLedger, doctor: Option<DoctorId>, date: DateInput, now: Now)
    returns (reply: Reply, views: seq<SlotView>)
    ensures doctor.None? || date.Absent? ==> reply == BadRequest("Missing doctor_id or date") && views == []
    ensures doctor.Some? && date.Unparseable? ==> reply == BadRequest("Invalid date format") && views == []
    ensures doctor.Some? && date.Parsed? ==>
      reply == OkList && views == Render(Resolved(store.slots, ledger.appointments, doctor.value, date.date, now))
  {
    views := [];
    if doctor.None? || date.Absent? {
      return BadRequest("Missing doctor_id or date"), [];
    }
    if date.Unparseable? {
      return BadRequest("Invalid date format"), [];
    }
    var d, day := doctor.value, date.date;
    var declared := StartTimes(store.slots, d, day);
    var booked := ActiveTimes(ledger.appointments, d, day);
    var entries;
    if declared != [] {
      entries := DeclaredEntries(declared, ledger.appointments, d, day, booked);
    } else {
      entries := FallbackEntries(ledger.appointments, d, day, booked);
    }
    views := RenderVisible(SortByTime(entries), day, now);
    reply := OkList;
  }
}
