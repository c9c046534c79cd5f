# Hospital management system: scheduling core

This project models the appointment-scheduling core of a small hospital
management system (a Flask backend with a Vue frontend) and proves properties
of it:

- **Availability reconciliation**: a doctor posts the start times they are
  available on a date. Existing slots are reconciled against that list. An
  unbooked slot that is not listed is deleted, and a listed time with no slot
  gets a new one-hour slot.
- **Slot resolution**: for a doctor and a date, the list of bookable times a
  patient sees. It comes from the declared slots, or from an hourly 09:00–16:00
  grid when there are none. Times held by a non-cancelled appointment are
  marked unavailable. The list is sorted by its `HH:MM` strings and, for
  today, trimmed to times later than the current minute.
- **Booking**: a patient books a doctor at a date and time. This goes through
  the handler's checks in order (parsing, the doctor exists, not in the past,
  doctor free, patient free) and then the database's two unique constraints
  on appointments.
- **Status updates**: patients may only cancel their own appointments.
  Doctors and admins may set any status.
- **Models**: the slot and appointment records, their defaults (`is_booked`
  0, status `BOOKED`) and the appointments table's unique constraints
  `(doctor, date, time)` and `(patient, date, time)`.
- **Toast queue** in the frontend: ids increase from 0, and removal splices
  out the first toast with the id.
- **Router**: the route table and the navigation guard that sends signed-out
  users to the login page and users with the wrong role to their dashboard.

Files:

- `common.dfy`: `Option` and the HTTP reply.
- `clock.dfy`: times of day, `strftime`/`strptime` for `%H:%M`, string order
  and the clock.
- `models.dfy`: the records and the appointments table (`AppointmentLedger`),
  whose `Insert` enforces the unique constraints as a commit would.
- `availability.dfy`: the slot table (`AvailabilityStore`) and its
  reconciliation.
- `slots.dfy`: the slot resolver.
- `booking.dfy`: booking and status updates.
- `toast.dfy`: the toast queue.
- `router.dfy`: the router.

The two database tables are classes whose methods update them in place:
`Models.AppointmentLedger` and `Availability.AvailabilityStore`. Each keeps an
invariant (`Valid`):

- primary keys strictly increase along the table and stay below the id counter;
- the ledger keeps both unique constraints;
- no slot has `is_booked` set.

`AvailabilityStore.Reconcile` and `Booking.Book` are proved to leave the table
equal to a specification function of the old table (`Reconciled` and
`BookOutcome`), and the lemmas about those functions carry the properties.
`Book` and `UpdateStatus` are module-level methods that take the ledger as a
parameter. `UpdateStatus` states the new table directly: only the status of
the matched row changes. `SlotResolver.ResolveSlots` changes nothing; it
returns the rendering of the specification function `Resolved`. The toast
queue is a class too, and its `Remove` is proved equal to `Spliced`.

How the model treats the inputs:

- Times of day are minutes since midnight.
- Dates are day numbers.
- The clock `Now` is a parameter: a date, a minute and the microseconds
  within that minute.
- Request bodies are parameters.
- A date field is absent, unparseable, or a parsed date.
- An appointment's status is nullable text: `None` is SQL NULL. A status
  update's `status` key is absent, JSON `null`, or a string.
- An exception the handler does not catch is the reply `ServerError` (HTTP
  500).

The model reproduces the source's behaviour as written, including these
quirks:

- Nothing ever sets `is_booked` to 1. The slot table's invariant says so, and
  under it reconciliation deletes every unlisted slot of the doctor on the
  date (`Availability.ReconcileListedOnly`).
- Booking's pre-checks look only at `BOOKED` appointments. The resolver
  treats `COMPLETED` as occupying a time. The unique constraints cover every
  status. So a booking of the time of a cancelled, NULL-status or `COMPLETED`
  appointment, by a patient with no `BOOKED` appointment at that time, passes
  the checks and fails at commit with a 500
  (`Booking.FreedTimeShownButNotBookable`,
  `Booking.CompletedTimeBlocksOnlyAtCommit`).
- The past check is a strict `<` on the full timestamp.
- Booking parses the date and time before its `try`, so its 400 "Invalid
  date or time format" branch is never reached. A bad date or time is a 500.
- For a time the doctor has no slot at on that date, each listed occurrence
  in one reconciliation request creates a slot, so a repeated time creates
  duplicate slots (`Availability.ReconcileSlotCount`). A listed time that
  already has a slot creates nothing. The resolver lists a time once per slot
  row at it (`SlotResolver.ResolvedCount`).
- A doctor or admin can set the status to NULL. The resolver's SQL filter
  `status != 'CANCELLED'` drops such a row, the `BOOKED` pre-checks ignore it,
  and the unique constraints still count it.

## Model

| member | source | states |
|---|---|---|
| Clock.Format | backend/app/resources.py:741 | `strftime('%H:%M')` gives five characters: two digits, a colon, two digits |
| Clock.ParseTime | backend/app/resources.py:668 | `strptime('%H:%M')` accepts only an hour field, a colon and a minute field (3 to 5 characters) |
| Clock.FieldSpellings | backend/app/resources.py:668 | a `%H` or `%M` field reads as `v` exactly when it is two digits for `v`, or one digit when `v` is below ten |
| Clock.ParseTimeSpellings | backend/app/resources.py:668 | a string parses to a time exactly when it is a spelling of the hour, a colon and a spelling of the minute, each with or without a leading zero |
| Clock.StrLess | backend/app/resources.py:773 | Python's `<` on strings compares by code point, lexicographically |
| Clock.StrLessTotal | backend/app/resources.py:773 | string `<` is a strict total order: never both ways, and one way for any two different strings |
| Clock.Before | backend/app/resources.py:356-357 | a date and minute is before the clock reading exactly when its instant, in microseconds, is smaller |
| Clock.ParseFormat | backend/app/resources.py:741 | parsing a formatted time gives back that time |
| Clock.FormatCanonical | backend/app/resources.py:764 | a five-character time string that parses is the formatted form of its value, so formatted strings are canonical |
| Clock.FormatOrder | backend/app/resources.py:764 | the string order of two formatted times is their chronological order |
| Clock.AddHour | backend/app/resources.py:689-690 | a slot's end is one hour after its start, wrapping past midnight |
| Models.NewSlot | backend/app/models.py:66 | a new availability row is unbooked: `is_booked` is 0 |
| Models.NewAppointment | backend/app/models.py:79 | a new appointment's status defaults to `BOOKED` when none is given |
| Models.Unique | backend/app/models.py:88-89 | no two rows share (doctor, date, time) or (patient, date, time), whatever their statuses |
| Models.Active | backend/app/resources.py:729 | a row passes `status != 'CANCELLED'` exactly when its status is present and not `CANCELLED`; a NULL status fails the filter |
| Models.IsBooked | backend/app/resources.py:361 | a row passes `filter_by(status='BOOKED')` exactly when its status is `BOOKED` |
| Models.SlotIdsAscending | backend/app/models.py:61 | slot primary keys strictly increase along the table, so no two slots share one |
| Models.AppointmentIdsAscending | backend/app/models.py:74 | appointment primary keys strictly increase along the table, so no two rows share one |
| Models.IndexOfOnly | backend/app/resources.py:404 | with distinct primary keys, the row the lookup finds is the only row with that key |
| Models.SlotsAt | backend/app/models.py:59-66 | the number of the doctor's slot rows on a date that start at a time |
| Models.SlotsAtStartTimes | backend/app/resources.py:682 | a time occurs in the doctor's start times once per slot row starting at it |
| Models.StartTimes | backend/app/resources.py:682 | the start times of a doctor's slots on a date are exactly those slots' `slot_from` |
| Models.IndexOf | backend/app/resources.py:404 | the primary-key lookup finds the appointment with that id, or reports that none exists |
| Models.AdmissibleKeepsUnique | backend/app/models.py:87-90 | inserting a row that passes both unique constraints keeps the table unique |
| Models.StatusChangeKeepsUnique | backend/app/models.py:87-90 | changing a status keeps both unique constraints, because they cover every status |
| Models.AppointmentLedger.Insert | backend/app/models.py:72-90 | a commit succeeds exactly when neither unique constraint is violated; the new row is appended with the next id and the table stays unique |
| Models.AppointmentLedger.SetStatus | backend/app/resources.py:412 | only the status of the appointment with that id changes |
| Availability.Survivors | backend/app/resources.py:672-679 | a row survives the deletion pass exactly when it is not the doctor's unlisted, unbooked slot on the date |
| Availability.NewSlots | backend/app/resources.py:684-699 | one new slot per listed entry without an existing slot, numbered consecutively from the counter |
| Availability.Reconciled | backend/app/resources.py:641-702 | the rows of other doctors and other dates are exactly kept |
| Availability.ParsedTimes | backend/app/resources.py:665-670 | the parsed times are the parses of the entries that parse, and invalid entries are skipped |
| Availability.ParseRequested | backend/app/resources.py:665-670 | the parsing loop computes the parsed times in request order |
| Availability.Partition | backend/app/resources.py:672-682 | the loop keeps exactly the surviving rows and collects the start times of the doctor's slots on that date |
| Availability.CreateSlots | backend/app/resources.py:684-699 | the loop creates exactly the new slots of the specification, with consecutive ids |
| Availability.NewSlotsShape | backend/app/resources.py:684-699 | each created slot is for the doctor and date, starts at a listed time with no existing slot, lasts an hour and is unbooked |
| Availability.NewSlotsCover | backend/app/resources.py:684-699 | every listed time without an existing slot gets a created slot |
| Availability.ReconcileSurvival | backend/app/resources.py:672-679 | an old row survives exactly when it belongs to another doctor or date, its start time is listed, or it is booked |
| Availability.ReconcileCreatesOnlyListed | backend/app/resources.py:684-699 | every new row is an unbooked one-hour slot at a listed time that had no slot |
| Availability.ReconcileStartTimes | backend/app/resources.py:672-699 | afterwards the doctor's start times on the date are exactly the listed times plus the starts of booked slots |
| Availability.ReconcileIdempotent | backend/app/resources.py:641-702 | posting the same list again leaves the table unchanged |
| Availability.ReconcileNeverSetsBooked | backend/app/resources.py:697 | reconciliation never marks a slot as booked |
| Availability.DuplicateTimesDuplicateSlots | backend/app/resources.py:684-699 | example: listing 10:00 twice on a date with no slots creates two slots at 10:00 |
| Availability.NewSlotsAt | backend/app/resources.py:684-699 | at a time with no existing slot, one new slot is created per listed occurrence of it |
| Availability.ReconcileSlotCount | backend/app/resources.py:665-699 | at a time where the doctor had no slot on the date, the reconciled table has one slot per request entry that parses to it |
| Availability.SurvivorsAscending | backend/app/resources.py:672-679 | deleting rows keeps primary keys ascending |
| Availability.ReconciledAscending | backend/app/models.py:61 | reconciliation keeps primary keys ascending, so they stay distinct |
| Availability.ReconcileListedOnly | backend/app/resources.py:672-699 | when no slot is booked, no slot is booked afterwards and the doctor's slots on the date are exactly at the listed times |
| Availability.ReconciledIds | backend/app/models.py:61 | after a reconciliation every slot id is below the advanced autoincrement counter |
| Availability.AvailabilityStore.Reconcile | backend/app/resources.py:641-702 | 404 without a doctor profile, 400 without a date, 500 for an unparseable date, and otherwise the table becomes the reconciled table, the counter advances by the number of new slots, and the doctor's start times on the date are exactly the listed ones |
| SlotResolver.Candidates | backend/app/resources.py:735-761 | the candidate times are never empty: declared start times, or hourly times from 09:00 before 17:00 |
| SlotResolver.Occupied | backend/app/resources.py:726-732 | a time is taken when an appointment of the doctor on the date that passes `status != 'CANCELLED'` holds it |
| SlotResolver.Mark | backend/app/resources.py:737-761 | each candidate time paired with `not is_taken` |
| SlotResolver.Later | backend/app/resources.py:773 | the entries whose `HH:MM` string is greater than the cutoff, in order |
| SlotResolver.Visible | backend/app/resources.py:770-773 | only today's list is filtered |
| SlotResolver.Resolved | backend/app/resources.py:706-775 | the resolver's answer: candidates marked, sorted, and filtered for today |
| SlotResolver.ActiveTimes | backend/app/resources.py:726-732 | a time is listed exactly when a non-cancelled appointment of the doctor holds it on that date |
| SlotResolver.InsertByTime | backend/app/resources.py:764 | insertion keeps the same entries plus the new one |
| SlotResolver.SortByTime | backend/app/resources.py:764 | the library sort by the `time` key gives a sorted permutation of its input |
| SlotResolver.InsertSorted | backend/app/resources.py:764 | inserting into a sorted list keeps it sorted |
| SlotResolver.SortedUnique | backend/app/resources.py:764 | two sorted arrangements of the same marked entries are equal, because entries with equal times carry equal availability; so the sort's result does not depend on how ties are broken |
| SlotResolver.LaterMembers | backend/app/resources.py:773 | the today filter keeps exactly the entries whose time string is greater than the current `HH:MM`, which are those after the current minute |
| SlotResolver.LaterSorted | backend/app/resources.py:773 | the today filter keeps a sorted list sorted |
| SlotResolver.ResolvedSorted | backend/app/resources.py:764 | the resolved list is in chronological order and in string order |
| SlotResolver.ResolvedAvailability | backend/app/resources.py:734-760 | a listed entry is available exactly when no non-cancelled appointment holds its time |
| SlotResolver.ResolvedTimes | backend/app/resources.py:734-773 | a time is listed exactly when it is a candidate and, if the date is today, later than the current minute |
| SlotResolver.ResolvedFallback | backend/app/resources.py:744-761 | with no declared slots on a day other than today, the list is the eight hourly times 09:00 to 16:00 |
| SlotResolver.CancelledIgnored | backend/app/resources.py:729 | adding an appointment that is cancelled or has a NULL status changes nothing in the resolved list |
| SlotResolver.MarkCount | backend/app/resources.py:737-743 | marking keeps one entry per occurrence of a time |
| SlotResolver.LaterCount | backend/app/resources.py:773 | the today filter keeps every occurrence of an entry after the cutoff |
| SlotResolver.ResolvedCount | backend/app/resources.py:735-773 | a declared time that is not cut off is listed once per slot row at it |
| SlotResolver.DuplicateRowsListedTwice | backend/app/resources.py:735-743 | example: two identical slot rows at 10:00 give two entries for 10:00 |
| SlotResolver.FallbackEntries | backend/app/resources.py:745-761 | the hourly loop from 09:00 while before 17:00 marks the eight grid times |
| SlotResolver.DeclaredEntries | backend/app/resources.py:737-743 | the loop over declared slots marks each start time, available unless it is booked |
| SlotResolver.RenderVisible | backend/app/resources.py:766-775 | the today filter and the rendering give the specified views |
| SlotResolver.ResolveSlots | backend/app/resources.py:706-775 | 400 without a doctor or date, 400 for an unparseable date, and otherwise the rendered resolved list |
| Booking.DoctorHasBooked | backend/app/resources.py:361-362 | the doctor pre-check finds only appointments whose status is `BOOKED` |
| Booking.PatientHasBooked | backend/app/resources.py:365-366 | the patient pre-check finds only appointments whose status is `BOOKED` |
| Booking.BookOutcome | backend/app/resources.py:326-378 | the booking handler's reply and resulting table, check by check |
| Booking.BookAddsOneOrNothing | backend/app/resources.py:326-378 | booking either appends exactly one `BOOKED` appointment with the request's fields and replies 201, or leaves the table unchanged |
| Booking.BookKeepsUnique | backend/app/models.py:87-90 | booking keeps both unique constraints |
| Booking.PastIsRejected | backend/app/resources.py:356-358 | a parsed request for a known doctor at an instant before now is refused with 400 |
| Booking.BookingAtNowAccepted | backend/app/resources.py:357 | a booking for the current minute made at second zero is accepted, because the comparison is strict |
| Booking.BookingInsideCurrentMinuteRejected | backend/app/resources.py:357 | a booking for the current minute made later within that minute is refused |
| Booking.BookCheckOrder | backend/app/resources.py:341-366 | the checks run in the source's order: parsing, the doctor exists, the past, the doctor's `BOOKED` clash, the patient's `BOOKED` clash |
| Booking.NoFormatRejection | backend/app/resources.py:341-353 | the second parse inside the `try` is modelled, and booking never replies 400 "Invalid date or time format": bad input is already a 500 at the first parse |
| Booking.SecondBookingRefused | backend/app/resources.py:360-362 | once a time is booked for a doctor, another booking of it is refused with "Slot already booked" |
| Booking.FreedTimeShownButNotBookable | backend/app/models.py:88 | on any ledger meeting the constraints, the time of a cancelled or NULL-status appointment is shown as available, and a booking of it by any patient with no BOOKED appointment at that time, the one who held it included, passes the checks and fails at commit with a 500 |
| Booking.CompletedTimeBlocksOnlyAtCommit | backend/app/resources.py:361 | on any ledger meeting the constraints, the time of a `COMPLETED` appointment is shown as taken, yet a booking of it by any patient with no BOOKED appointment at that time passes the checks and fails at commit with a 500 |
| Booking.OnlyRowAt | backend/app/models.py:88 | under the doctor constraint, a row is the only row of its doctor at its date and time |
| Booking.Book | backend/app/resources.py:326-378 | the table afterwards and the reply are those of the booking specification |
| Booking.StatusRule | backend/app/resources.py:407-416 | who may set which status: a patient only `CANCELLED` on their own appointment, a doctor or admin whatever is sent, anyone else nothing |
| Booking.PatientOnlyCancels | backend/app/resources.py:407-414 | a patient can assign only `CANCELLED`, and only to their own appointment |
| Booking.StaffSetsAnyStatus | backend/app/resources.py:415-416 | a doctor or admin sets whatever status is sent, including NULL; without a `status` key nothing changes |
| Booking.CancelFreesTime | backend/app/resources.py:726-730 | cancelling an appointment, or setting its status to NULL, frees its time for the doctor in the resolver |
| Booking.UpdateStatus | backend/app/resources.py:398-419 | the framework's default 404 for an unknown id; otherwise 403 or 200 by the status rule, changing only that appointment's status |
| Toastify.FirstIndex | frontend/src/utils/toastify.js:21 | `findIndex` gives the first position holding the id, or -1 |
| Toastify.Spliced | frontend/src/utils/toastify.js:20-25 | the list after `splice(index, 1)` at the first toast with the id, or the list unchanged |
| Toastify.FirstIndexIs | frontend/src/utils/toastify.js:21 | a position that holds the id with no earlier one is the first index |
| Toastify.SpliceIncreasing | frontend/src/utils/toastify.js:23 | removing one toast keeps ids increasing |
| Toastify.SplicedRemovesOnly | frontend/src/utils/toastify.js:20-25 | removal drops exactly the toast with the id and keeps every other toast in order |
| Toastify.ToastQueue.Add | frontend/src/utils/toastify.js:10-19 | a toast is appended with the next id, which is returned |
| Toastify.ToastQueue.FindIndex | frontend/src/utils/toastify.js:21 | the search returns the first index of the id, or -1 |
| Toastify.ToastQueue.Remove | frontend/src/utils/toastify.js:20-25 | the toast with the id is spliced out; an unknown id changes nothing |
| Toastify.ToastQueue.Success | frontend/src/utils/toastify.js:26-28 | a success toast has type `success` and the next id |
| Toastify.ToastQueue.Error | frontend/src/utils/toastify.js:29-31 | an error toast has type `danger` |
| Toastify.ToastQueue.Warning | frontend/src/utils/toastify.js:32-34 | a warning toast has type `warning` and the next id |
| Toastify.ToastQueue.Info | frontend/src/utils/toastify.js:35-37 | an info toast has type `info` and the next id |
| Toastify.FirstIdsCount | frontend/src/utils/toastify.js:7-11 | the first three toasts get ids 0, 1 and 2 |
| Toastify.SuccessOnEmpty | frontend/src/utils/toastify.js:26-28 | a success toast on an empty queue is the only toast, with the message and type `success` |
| Toastify.AddThenRemove | frontend/src/utils/toastify.js:10-25 | adding a toast and removing its id restores the queue |
| Router.Routes | frontend/src/router/index.js:12-144 | the 22 route records in declaration order; only the root redirects, and every record after `/register` requires sign-in |
| Router.Guard | frontend/src/router/index.js:148-170 | the navigation guard's decision from the target record, the signed-in state and the role |
| Router.TableStart | frontend/src/router/index.js:13-40 | the table opens with `/`, `/login`, `/register` and the admin and doctor dashboards |
| Router.TableDoctorWork | frontend/src/router/index.js:41-58 | the doctor's schedule, appointments and treatments pages follow |
| Router.TableDoctorPages | frontend/src/router/index.js:59-76 | then the doctor's treatment detail and profile pages |
| Router.TablePatient | frontend/src/router/index.js:77-82 | the patient dashboard comes next, gated to `PATIENT` |
| Router.Lookup | frontend/src/router/index.js:12-144 | the lookup returns a record of the table with that path, or none when no record has it |
| Router.LookupFirst | frontend/src/router/index.js:12-144 | the lookup returns the first record with that path |
| Router.GuardTable | frontend/src/router/index.js:148-170 | signed out on a protected route goes to `/login`; a role mismatch goes to the user's dashboard or `/login`; a signed-in user on login or register goes to the dashboard or `/`; navigation proceeds exactly when none of these applies |
| Router.UnmatchedProceeds | frontend/src/router/index.js:150-151 | a navigation that matches no route is never redirected |
| Router.DashboardRoutes | frontend/src/router/index.js:29-82 | each role's dashboard is a protected route for that role |
| Router.RedirectSettles | frontend/src/router/index.js:155-166 | for a signed-in user with a known role, the page the guard redirects to is accepted by the guard |
| Router.UnknownRoleLoops | frontend/src/router/index.js:13-16 | a signed-in user with an unknown role is sent from `/login` to `/`, which redirects to `/login` |

## Left out

- Authentication (JWT identity, `role_required`) is left out. The caller's role, user and profiles are parameters.
- Database sessions, transactions and concurrent requests are left out. Each handler runs alone, and a failed commit leaves the table unchanged.
- Date parsing (`strptime('%Y-%m-%d')`) is left out. A date is already absent, unparseable or a day number.
- Clock.ParseTime: accepts ASCII digits only. Python's `\d` in `strptime` also accepts other Unicode decimal digits.
- Request entries that are not strings, and bodies that are not JSON objects, are left out. In the source these raise uncaught exceptions.
- The rows' `created_on`/`updated_on` timestamps are left out.
- The other tables (users, departments, treatments, prescriptions, medicine) are left out. Only doctor existence and patient ownership are used, as parameters.
- The resolver's string comparison of `doctor_id` from the query string against the integer column is left out. The doctor id is a number.
- The serialised `HH:MM:SS` form of times in other responses is left out.
- Toastify.ToastQueue.Add: the `setTimeout` that removes a toast after `duration` milliseconds is left out. Removal is modelled only as an explicit `Remove`.
- Router.Lookup: matches a path pattern literally. It does not match a parameter like `:id` against concrete paths or resolve the root redirect, and lazy component loading is left out.
- Router.Guard: the user object is assumed present whenever a role is read. A signed-in state with a null user throws in the source.
- The Vue reactivity of the toast state and the router's history are left out.
- Primary keys: SQLite without `AUTOINCREMENT` gives a new row the largest id in the table plus one, so the id of a deleted highest row can be used again. The model's counter never goes back. Both keep ids ascending along the table.
- A `slots` value in an availability request that is not a list is left out. `null` or a number raises and gives a 500; a string is walked character by character, no character parses, so every unbooked slot of the date is cleared. The model's request is a list of strings.
- Status values that are neither strings nor null (numbers, lists) in a status update are left out. The model's status is a string or NULL.
- SlotResolver.SortByTime: models Python's built-in `list.sort` by its result, not by its algorithm. The order is by minute, which equals the `HH:MM` key order (Clock.FormatOrder).
