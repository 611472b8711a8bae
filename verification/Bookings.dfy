/**
 Bookings, their statuses and the status event log (`bookings.service.ts`, `statuses.service.ts`) of one
 organization. The status transactions are atomic.

 `Change` is one atomic call. `ChangeRead` and `ChangeCommit` are the same call cut between the status it
 compares with and the transaction that writes. `initial` records the status each booking was created with.
 */
module Bookings {
  import opened Prelude

  type Crew = nat
  type WorkOrder = nat
  type StatusId = nat
  type BookingId = nat

  datatype Status = Status(name: string, isDefault: bool, isActive: bool, sortOrder: int, createdAt: int)

  datatype StatusInput = StatusInput(
    name: string, isDefault: Option<bool>, isActive: Option<bool>, sortOrder: Option<int>)

  datatype StatusPatch = StatusPatch(
    name: Option<string>, isDefault: Option<bool>, isActive: Option<bool>, sortOrder: Option<int>)

  datatype Booking = Booking(
    workOrder: Option<WorkOrder>, crew: Crew, status: StatusId, start: Option<int>, end: Option<int>)

  /** Absent fields stay; a time can also be set to null. */
  datatype BookingPatch = BookingPatch(crew: Option<Crew>, start: Option<Option<int>>, end: Option<Option<int>>)

  datatype Event = Event(booking: BookingId, status: StatusId, member: Option<nat>, at: int)

  datatype Change = Change(booking: BookingId, status: StatusId, member: Option<nat>)

  datatype State = State(
    now: int, crews: set<Crew>, workOrders: set<WorkOrder>,
    statuses: map<StatusId, Status>, bookings: map<BookingId, Booking>, events: seq<Event>,
    nextStatus: StatusId, nextBooking: BookingId,
    initial: map<BookingId, StatusId>, inflight: map<nat, Change>)

  /** `pick` is the row the database puts first when the request names no status. `BackfillUpdate` is the update
      half of the scheduling backfill's booking upsert; its other half adds a booking like `CreateBooking`. */
  datatype Op =
    | CreateStatus(input: StatusInput)
    | UpdateStatus(id: StatusId, patch: StatusPatch)
    | CreateBooking(crew: Crew, workOrder: Option<WorkOrder>, status: Option<StatusId>, start: Option<int>,
                    end: Option<int>, pick: StatusId)
    | UpdateBooking(booking: BookingId, change: BookingPatch)
    | ChangeStatus(booking: BookingId, status: Option<StatusId>, member: Option<nat>, pick: StatusId)
    | ChangeRead(call: nat, booking: BookingId, status: Option<StatusId>, member: Option<nat>, pick: StatusId)
    | ChangeCommit(call: nat)
    | BackfillUpdate(booking: BookingId, crew: Crew, to: StatusId, start: Option<int>, end: Option<int>)
    | Tick(ms: nat)

  datatype Outcome =
    | StatusNotFound | NameTaken | CrewNotFound | WorkOrderNotFound | DefaultMissing | BookingExists
    | BookingNotFound | NotInFlight
    | StatusSaved(id: StatusId) | BookingSaved(id: BookingId) | Unchanged | Read | Logged(event: Event) | Done

  // ---------------------------------------------------------------- choosing a status

  function Actives(statuses: map<StatusId, Status>): set<StatusId> {
    set id | id in statuses && statuses[id].isActive
  }

  function Defaults(statuses: map<StatusId, Status>): set<StatusId> {
    set id | id in statuses && statuses[id].isDefault && statuses[id].isActive
  }

  predicate Before(a: Status, b: Status) {
    a.sortOrder < b.sortOrder || (a.sortOrder == b.sortOrder && a.createdAt < b.createdAt)
  }

  /** First by sort order, then by age; rows that tie may come in any order. */
  ghost predicate IsFirst(statuses: map<StatusId, Status>, among: set<StatusId>, id: StatusId)
    requires among <= statuses.Keys
  {
    id in among && forall k | k in among :: !Before(statuses[k], statuses[id])
  }

  function Candidates(statuses: map<StatusId, Status>): set<StatusId> {
    if Defaults(statuses) != {} then Defaults(statuses) else Actives(statuses)
  }

  ghost predicate LegalPick(statuses: map<StatusId, Status>, requested: Option<StatusId>, pick: StatusId) {
    requested.None? && Candidates(statuses) != {} ==> IsFirst(statuses, Candidates(statuses), pick)
  }

  datatype Resolved = Found(id: StatusId) | Failed(error: Outcome)

  function Resolve(statuses: map<StatusId, Status>, requested: Option<StatusId>, pick: StatusId): Resolved {
    if requested.Some? then
      if requested.value in statuses then Found(requested.value) else Failed(StatusNotFound)
    else if Candidates(statuses) != {} then Found(pick)
    else Failed(DefaultMissing)
  }

  // ---------------------------------------------------------------- the steps

  predicate TakenName(statuses: map<StatusId, Status>, name: string, id: StatusId) {
    exists k | k in statuses :: k != id && statuses[k].name == name
  }

  function ClearDefaults(statuses: map<StatusId, Status>, id: StatusId): map<StatusId, Status> {
    map k | k in statuses :: if k != id then statuses[k].(isDefault := false) else statuses[k]
  }

  function NewStatus(input: StatusInput, now: int): Status {
    Status(input.name, Default(input.isDefault, false), Default(input.isActive, true), Default(input.sortOrder, 0), now)
  }

  function PatchStatus(row: Status, patch: StatusPatch): Status {
    row.(name := Default(patch.name, row.name), isDefault := Default(patch.isDefault, row.isDefault),
         isActive := Default(patch.isActive, row.isActive), sortOrder := Default(patch.sortOrder, row.sortOrder))
  }

  function PatchBooking(row: Booking, change: BookingPatch): Booking {
    row.(crew := Default(change.crew, row.crew), start := Default(change.start, row.start), end := Default(change.end, row.end))
  }

  function Commit(s: State, change: Change): (State, Outcome)
    requires change.booking in s.bookings
  {
    var event := Event(change.booking, change.status, change.member, s.now);
    (s.(bookings := s.bookings[change.booking := s.bookings[change.booking].(status := change.status)],
        events := s.events + [event]),
     Logged(event))
  }

  /** Everything a status change decides before it writes. */
  function Decide(s: State, booking: BookingId, status: Option<StatusId>, pick: StatusId): Resolved {
    if booking !in s.bookings then Failed(BookingNotFound)
    else
      var resolved := Resolve(s.statuses, status, pick);
      if resolved.Found? && resolved.id == s.bookings[booking].status then Failed(Unchanged) else resolved
  }

  predicate Booked(bookings: map<BookingId, Booking>, workOrder: WorkOrder) {
    exists b | b in bookings :: bookings[b].workOrder == Some(workOrder)
  }

  function Step(s: State, op: Op): (State, Outcome) {
    match op
    case CreateStatus(input) =>
      if TakenName(s.statuses, input.name, s.nextStatus) then (s, NameTaken)
      else
        var cleared := if input.isDefault == Some(true) then ClearDefaults(s.statuses, s.nextStatus) else s.statuses;
        (s.(statuses := cleared[s.nextStatus := NewStatus(input, s.now)], nextStatus := s.nextStatus + 1),
         StatusSaved(s.nextStatus))
    case UpdateStatus(id, patch) =>
      if id !in s.statuses then (s, StatusNotFound)
      else if patch.name.Some? && TakenName(s.statuses, patch.name.value, id) then (s, NameTaken)
      else
        var cleared := if patch.isDefault == Some(true) then ClearDefaults(s.statuses, id) else s.statuses;
        (s.(statuses := cleared[id := PatchStatus(s.statuses[id], patch)]), StatusSaved(id))
    case CreateBooking(crew, workOrder, status, start, end, pick) =>
      if crew !in s.crews then (s, CrewNotFound)
      else if workOrder.Some? && workOrder.value !in s.workOrders then (s, WorkOrderNotFound)
      else
        var resolved := Resolve(s.statuses, status, pick);
        if resolved.Failed? then (s, resolved.error)
        else if workOrder.Some? && Booked(s.bookings, workOrder.value) then (s, BookingExists)
        else
          (s.(bookings := s.bookings[s.nextBooking := Booking(workOrder, crew, resolved.id, start, end)],
              initial := s.initial[s.nextBooking := resolved.id], nextBooking := s.nextBooking + 1),
           BookingSaved(s.nextBooking))
    case UpdateBooking(booking, change) =>
      if booking !in s.bookings then (s, BookingNotFound)
      else if change.crew.Some? && change.crew.value !in s.crews then (s, CrewNotFound)
      else (s.(bookings := s.bookings[booking := PatchBooking(s.bookings[booking], change)]), BookingSaved(booking))
    case ChangeStatus(booking, status, member, pick) =>
      var decided := Decide(s, booking, status, pick);
      if decided.Failed? then (s, decided.error) else Commit(s, Change(booking, decided.id, member))
    case ChangeRead(call, booking, status, member, pick) =>
      var decided := Decide(s, booking, status, pick);
      if decided.Failed? then (s, decided.error)
      else (s.(inflight := s.inflight[call := Change(booking, decided.id, member)]), Read)
    case ChangeCommit(call) =>
      if call !in s.inflight || s.inflight[call].booking !in s.bookings then (s, NotInFlight)
      else Commit(s.(inflight := s.inflight - {call}), s.inflight[call])
    case BackfillUpdate(booking, crew, status, start, end) =>
      if booking !in s.bookings then (s, BookingNotFound)
      else
        var row := s.bookings[booking].(crew := crew, status := status, start := start, end := end);
        (s.(bookings := s.bookings[booking := row]), BookingSaved(booking))
    case Tick(ms) => (s.(now := s.now + ms), Done)
  }

  ghost predicate Legal(s: State, op: Op) {
    match op
    case CreateBooking(_, _, status, _, _, pick) => LegalPick(s.statuses, status, pick)
    case ChangeStatus(_, status, _, pick) => LegalPick(s.statuses, status, pick)
    case ChangeRead(_, _, status, _, pick) => LegalPick(s.statuses, status, pick)
    case BackfillUpdate(_, crew, status, _, _) => crew in s.crews && status in s.statuses
    case _ => true
  }

  ghost predicate LegalRun(s: State, ops: seq<Op>)
    decreases |ops|
  {
    ops != [] ==> Legal(s, ops[0]) && LegalRun(Step(s, ops[0]).0, ops[1..])
  }

  function Run(s: State, ops: seq<Op>): State
    decreases |ops|
  {
    if ops == [] then s else Run(Step(s, ops[0]).0, ops[1..])
  }

  // ---------------------------------------------------------------- the status chosen

  /** Exactly what `resolveStatus` answers: the status asked for if it exists; else an active default if there is
      one, else an active status, in each case one that nothing eligible precedes; else an error. */
  lemma ResolveAnswers(statuses: map<StatusId, Status>, requested: Option<StatusId>, pick: StatusId)
    requires LegalPick(statuses, requested, pick)
    ensures var r := Resolve(statuses, requested, pick);
            && (r == Failed(StatusNotFound) <==> requested.Some? && requested.value !in statuses)
            && (r == Failed(DefaultMissing) <==> requested.None? && forall id | id in statuses :: !statuses[id].isActive)
            && (r.Found? ==> r.id in statuses)
            && (r.Found? && requested.Some? ==> r.id == requested.value)
            && (r.Found? && requested.None? ==>
                  && statuses[r.id].isActive
                  && (forall id | id in statuses && statuses[id].isActive && Before(statuses[id], statuses[r.id]) ::
                        statuses[r.id].isDefault && !statuses[id].isDefault)
                  && ((exists id :: id in statuses && statuses[id].isActive && statuses[id].isDefault)
                        ==> statuses[r.id].isDefault))
  {
    var r := Resolve(statuses, requested, pick);
    if requested.None? {
      if id :| id in statuses && statuses[id].isActive {
        assert id in Actives(statuses);
        if statuses[id].isDefault {
          assert id in Defaults(statuses);
        }
      }
      if r.Found? {
        assert IsFirst(statuses, Candidates(statuses), pick);
        forall id | id in statuses && statuses[id].isActive && Before(statuses[id], statuses[r.id])
          ensures statuses[r.id].isDefault && !statuses[id].isDefault
        {
          assert id in Actives(statuses);
          assert id !in Candidates(statuses);
        }
        forall id | id in statuses && statuses[id].isActive && statuses[id].isDefault ensures statuses[r.id].isDefault {
          assert id in Defaults(statuses);
        }
      }
    }
  }

  ghost predicate OneDefault(statuses: map<StatusId, Status>) {
    forall a, b | a in statuses && b in statuses && statuses[a].isDefault && statuses[b].isDefault :: a == b
  }

  /** With at most one default the choice among defaults does not depend on the database. */
  lemma DefaultIsDetermined(statuses: map<StatusId, Status>, pick: StatusId, id: StatusId)
    requires OneDefault(statuses) && LegalPick(statuses, None, pick)
    requires id in statuses && statuses[id].isDefault && statuses[id].isActive
    ensures Resolve(statuses, None, pick) == Found(id)
  {
    assert id in Defaults(statuses);
    ResolveAnswers(statuses, None, pick);
  }

  // ---------------------------------------------------------------- at most one default

  ghost predicate OneName(statuses: map<StatusId, Status>) {
    forall a, b | a in statuses && b in statuses && statuses[a].name == statuses[b].name :: a == b
  }

  ghost predicate StatusesOk(s: State) {
    OneDefault(s.statuses) && OneName(s.statuses) && forall id | id in s.statuses :: id < s.nextStatus
  }

  lemma SavedKeepsUnique(statuses: map<StatusId, Status>, id: StatusId, row: Status, clear: bool)
    requires OneDefault(statuses) && OneName(statuses) && !TakenName(statuses, row.name, id)
    requires row.isDefault && !clear ==> id in statuses && statuses[id].isDefault
    ensures var after := (if clear then ClearDefaults(statuses, id) else statuses)[id := row];
            OneDefault(after) && OneName(after) && after.Keys == statuses.Keys + {id}
  {}

  /** The write of a status never leaves two defaults or two equal names. */
  lemma StepKeepsStatuses(s: State, op: Op)
    requires StatusesOk(s)
    ensures StatusesOk(Step(s, op).0)
  {
    hide OneDefault;
    hide OneName;
    hide ClearDefaults;
    match op
    case CreateStatus(input) =>
      if Step(s, op).1.StatusSaved? {
        SavedKeepsUnique(s.statuses, s.nextStatus, NewStatus(input, s.now), input.isDefault == Some(true));
      }
    case UpdateStatus(id, patch) =>
      if Step(s, op).1.StatusSaved? {
        if patch.name.None? {
          OwnName(s.statuses, id);
        }
        SavedKeepsUnique(s.statuses, id, PatchStatus(s.statuses[id], patch), patch.isDefault == Some(true));
      }
    case _ =>
  }

  lemma OwnName(statuses: map<StatusId, Status>, id: StatusId)
    requires OneName(statuses) && id in statuses
    ensures !TakenName(statuses, statuses[id].name, id)
  {}

  /** Whatever the defaults were, a write that makes a status the default leaves it the only one. */
  lemma MadeDefaultIsOnly(s: State, op: Op)
    requires Step(s, op).1.StatusSaved?
    requires (op.CreateStatus? && op.input.isDefault == Some(true)) || (op.UpdateStatus? && op.patch.isDefault == Some(true))
    ensures forall id | id in Step(s, op).0.statuses ::
              Step(s, op).0.statuses[id].isDefault <==> id == Step(s, op).1.id
  {}

  lemma {:induction false} RunKeepsStatuses(s: State, ops: seq<Op>)
    requires StatusesOk(s)
    ensures StatusesOk(Run(s, ops))
    decreases |ops|
  {
    if ops != [] {
      StepKeepsStatuses(s, ops[0]);
      RunKeepsStatuses(Step(s, ops[0]).0, ops[1..]);
    }
  }

  // ---------------------------------------------------------------- the event log

  /** A booking's status read off its events, oldest first. */
  function Replay(events: seq<Event>, booking: BookingId, from: StatusId): StatusId {
    if events == [] then from
    else
      var last := events[|events| - 1];
      if last.booking == booking then last.status else Replay(events[..|events| - 1], booking, from)
  }

  /** No event sets the status that its booking already had. */
  ghost predicate NoRepeats(events: seq<Event>, initial: map<BookingId, StatusId>) {
    events != [] ==>
      var init, last := events[..|events| - 1], events[|events| - 1];
      && last.booking in initial && last.status != Replay(init, last.booking, initial[last.booking])
      && NoRepeats(init, initial)
  }

  ghost predicate LogOk(s: State) {
    && s.initial.Keys == s.bookings.Keys
    && (forall b | b in s.bookings :: b < s.nextBooking && Replay(s.events, b, s.initial[b]) == s.bookings[b].status)
    && (forall i | 0 <= i < |s.events| :: s.events[i].booking in s.bookings)
  }

  lemma {:induction false} NoEventsOf(events: seq<Event>, booking: BookingId, from: StatusId)
    requires forall i | 0 <= i < |events| :: events[i].booking != booking
    ensures Replay(events, booking, from) == from
  {
    if events != [] {
      NoEventsOf(events[..|events| - 1], booking, from);
    }
  }

  lemma ReplayAppend(events: seq<Event>, event: Event, booking: BookingId, from: StatusId)
    ensures Replay(events + [event], booking, from)
            == if event.booking == booking then event.status else Replay(events, booking, from)
  {
    assert (events + [event])[..|events|] == events;
  }

  lemma {:induction false} NoRepeatsExtends(
    events: seq<Event>, initial: map<BookingId, StatusId>, booking: BookingId, status: StatusId)
    requires booking !in initial && forall i | 0 <= i < |events| :: events[i].booking in initial
    ensures NoRepeats(events, initial[booking := status]) <==> NoRepeats(events, initial)
  {
    if events != [] {
      NoRepeatsExtends(events[..|events| - 1], initial, booking, status);
    }
  }

  lemma CommitKeepsLog(s: State, change: Change)
    requires LogOk(s) && change.booking in s.bookings
    ensures LogOk(Commit(s, change).0)
    ensures NoRepeats(Commit(s, change).0.events, s.initial)
            <==> NoRepeats(s.events, s.initial) && s.bookings[change.booking].status != change.status
  {
    var t := Commit(s, change).0;
    var event := Event(change.booking, change.status, change.member, s.now);
    forall b | b in t.bookings ensures Replay(t.events, b, t.initial[b]) == t.bookings[b].status {
      ReplayAppend(s.events, event, b, s.initial[b]);
    }
    assert t.events[..|t.events| - 1] == s.events;
  }

  /** A commit that writes the status its booking has by now. */
  predicate Repeating(s: State, op: Op) {
    && op.ChangeCommit? && op.call in s.inflight && s.inflight[op.call].booking in s.bookings
    && s.bookings[s.inflight[op.call].booking].status == s.inflight[op.call].status
  }

  /** A backfill write of another status than the booking has: the one status write that logs nothing. */
  predicate Overwrites(s: State, op: Op) {
    op.BackfillUpdate? && op.booking in s.bookings && s.bookings[op.booking].status != op.to
  }

  /** Exactly the overwriting backfill steps put the log out of step with the bookings; of the others, exactly
      the repeating commits break its other property. */
  lemma StepKeepsLogIff(s: State, op: Op)
    requires LogOk(s)
    ensures LogOk(Step(s, op).0) <==> !Overwrites(s, op)
    ensures NoRepeats(Step(s, op).0.events, Step(s, op).0.initial)
            <==> NoRepeats(s.events, s.initial) && !Repeating(s, op)
  {
    hide NoRepeats;
    hide Replay;
    hide TakenName;
    hide ClearDefaults;
    hide Candidates;
    hide Booked;
    match op
    case CreateBooking(crew, workOrder, status, start, end, pick) =>
      if Step(s, op).1.BookingSaved? {
        assert s.nextBooking !in s.bookings;
        var id := Resolve(s.statuses, status, pick).id;
        NoEventsOf(s.events, s.nextBooking, id);
        NoRepeatsExtends(s.events, s.initial, s.nextBooking, id);
      }
    case ChangeStatus(booking, status, member, pick) =>
      var decided := Decide(s, booking, status, pick);
      if decided.Found? {
        CommitKeepsLog(s, Change(booking, decided.id, member));
      }
    case ChangeCommit(call) =>
      if call in s.inflight && s.inflight[call].booking in s.bookings {
        CommitKeepsLog(s.(inflight := s.inflight - {call}), s.inflight[call]);
      }
    case BackfillUpdate(booking, _, _, _, _) =>
      if booking in s.bookings {
        assert Replay(s.events, booking, s.initial[booking]) == s.bookings[booking].status;
        assert booking in Step(s, op).0.bookings;
      }
    case _ =>
  }

  ghost predicate NoRepeatingCommit(s: State, ops: seq<Op>)
    decreases |ops|
  {
    ops != [] ==> !Repeating(s, ops[0]) && NoRepeatingCommit(Step(s, ops[0]).0, ops[1..])
  }

  ghost predicate NoOverwrite(s: State, ops: seq<Op>)
    decreases |ops|
  {
    ops != [] ==> !Overwrites(s, ops[0]) && NoOverwrite(Step(s, ops[0]).0, ops[1..])
  }

  /** The log and the bookings agree after every step of the run. */
  ghost predicate FaithfulRun(s: State, ops: seq<Op>)
    decreases |ops|
  {
    ops != [] ==> LogOk(Step(s, ops[0]).0) && FaithfulRun(Step(s, ops[0]).0, ops[1..])
  }

  /** Exactly which runs, split changes and backfill writes included, keep a booking's status readable from its
      initial status and its events: those in which no backfill writes another status than the booking has. Of
      those, exactly the ones without a repeating commit never log the status before it again. */
  lemma {:induction false} LogIsFaithfulIff(s: State, ops: seq<Op>)
    requires LogOk(s)
    ensures FaithfulRun(s, ops) <==> NoOverwrite(s, ops)
    ensures NoOverwrite(s, ops) ==>
              && LogOk(Run(s, ops))
              && (NoRepeats(Run(s, ops).events, Run(s, ops).initial)
                  <==> NoRepeats(s.events, s.initial) && NoRepeatingCommit(s, ops))
    decreases |ops|
  {
    if ops != [] {
      StepKeepsLogIff(s, ops[0]);
      if !Overwrites(s, ops[0]) {
        LogIsFaithfulIff(Step(s, ops[0]).0, ops[1..]);
      }
    }
  }

  /** The services alone never overwrite. */
  lemma {:induction false} ServicesNeverOverwrite(s: State, ops: seq<Op>)
    requires forall i | 0 <= i < |ops| :: !ops[i].BackfillUpdate?
    ensures NoOverwrite(s, ops)
    decreases |ops|
  {
    if ops != [] {
      var rest := ops[1..];
      assert forall i | 0 <= i < |rest| :: rest[i] == ops[i + 1];
      ServicesNeverOverwrite(Step(s, ops[0]).0, rest);
    }
  }

  lemma {:induction false} AtomicChangesNeverRepeat(s: State, ops: seq<Op>)
    requires forall i | 0 <= i < |ops| :: !ops[i].ChangeCommit?
    ensures NoRepeatingCommit(s, ops)
    decreases |ops|
  {
    if ops != [] {
      var rest := ops[1..];
      assert forall i | 0 <= i < |rest| :: rest[i] == ops[i + 1];
      AtomicChangesNeverRepeat(Step(s, ops[0]).0, rest);
    }
  }

  /** A booking changed to `to` by a member, then put back to the default by the backfill: its events still say
      `to`, and changing it to `to` again logs the same status twice in a row. */
  lemma BackfillBreaksTheLog(s: State, booking: BookingId, to: StatusId, default: StatusId)
    requires LogOk(s) && booking in s.bookings && to in s.statuses && s.bookings[booking].status != to && default != to
    ensures var b := s.bookings[booking];
            var changed := Step(s, ChangeStatus(booking, Some(to), None, 0)).0;
            var t := Step(changed, BackfillUpdate(booking, b.crew, default, b.start, b.end)).0;
            var u := Step(t, ChangeStatus(booking, Some(to), None, 0)).0;
            && LogOk(changed) && !LogOk(t)
            && booking in t.bookings && t.bookings[booking].status == default
            && Replay(t.events, booking, s.initial[booking]) == to
            && |u.events| == |s.events| + 2 && u.events[|s.events|].status == u.events[|s.events| + 1].status == to
  {
    hide Step;
    var b := s.bookings[booking];
    var changed := Step(s, ChangeStatus(booking, Some(to), None, 0)).0;
    ChangeIs(s, booking, to);
    CommitKeepsLog(s, Change(booking, to, None));
    var t := Step(changed, BackfillUpdate(booking, b.crew, default, b.start, b.end)).0;
    BackfillIs(changed, booking, b.crew, default, b.start, b.end);
    ChangeIs(t, booking, to);
    assert Replay(changed.events, booking, s.initial[booking]) == to;
  }

  lemma ChangeIs(s: State, booking: BookingId, to: StatusId)
    requires booking in s.bookings && to in s.statuses && s.bookings[booking].status != to
    ensures Step(s, ChangeStatus(booking, Some(to), None, 0)) == Commit(s, Change(booking, to, None))
  {}

  lemma BackfillIs(s: State, booking: BookingId, crew: Crew, to: StatusId, start: Option<int>, end: Option<int>)
    requires booking in s.bookings
    ensures Step(s, BackfillUpdate(booking, crew, to, start, end)).0
            == s.(bookings := s.bookings[booking := s.bookings[booking].(crew := crew, status := to, start := start, end := end)])
  {}

  /** The atomic change is its two halves run back to back. */
  lemma ChangeIsReadThenCommit(
    s: State, call: nat, booking: BookingId, status: Option<StatusId>, member: Option<nat>, pick: StatusId)
    requires call !in s.inflight
    ensures var read := Step(s, ChangeRead(call, booking, status, member, pick));
            var commit := Step(read.0, ChangeCommit(call));
            var whole := Step(s, ChangeStatus(booking, status, member, pick));
            whole == if read.1 == Read then commit else read
  {
    hide Candidates;
    var read := Step(s, ChangeRead(call, booking, status, member, pick));
    if read.0 != s {
      assert read.0.inflight - {call} == s.inflight;
    }
  }

  /** Two changes to one status, both compared before either writes, log it twice. */
  lemma DoubleChangeRepeats(s: State, booking: BookingId, to: StatusId)
    requires LogOk(s) && booking in s.bookings && to in s.statuses && s.bookings[booking].status != to
    ensures var first := Step(Step(s, ChangeRead(0, booking, Some(to), None, 0)).0, ChangeRead(1, booking, Some(to), None, 0)).0;
            var t := Step(Step(first, ChangeCommit(0)).0, ChangeCommit(1)).0;
            && |t.events| == |s.events| + 2 && t.events[|s.events|] == t.events[|s.events| + 1]
            && !NoRepeats(t.events, t.initial)
  {
    hide NoRepeats;
    hide Replay;
    hide TakenName;
    hide Booked;
    hide ClearDefaults;
    var c := Change(booking, to, None);
    var first := Step(Step(s, ChangeRead(0, booking, Some(to), None, 0)).0, ChangeRead(1, booking, Some(to), None, 0)).0;
    assert first == s.(inflight := s.inflight[0 := c][1 := c]);
    var mid := Step(first, ChangeCommit(0)).0;
    StepKeepsLogIff(first, ChangeCommit(0));
    assert mid.inflight[1] == c && mid.bookings[booking].status == to;
    StepKeepsLogIff(mid, ChangeCommit(1));
  }

  // ---------------------------------------------------------------- references

  ghost predicate RefsOk(s: State) {
    && (forall b | b in s.bookings ::
          b < s.nextBooking && s.bookings[b].status in s.statuses && s.bookings[b].crew in s.crews
          && (s.bookings[b].workOrder.Some? ==> s.bookings[b].workOrder.value in s.workOrders))
    && (forall c | c in s.inflight :: s.inflight[c].status in s.statuses)
    && (forall i | 0 <= i < |s.events| :: s.events[i].status in s.statuses)
  }

  ghost predicate OneBooking(bookings: map<BookingId, Booking>) {
    forall a, b | a in bookings && b in bookings && bookings[a].workOrder.Some?
                  && bookings[a].workOrder == bookings[b].workOrder :: a == b
  }

  lemma StepKeepsOneBooking(s: State, op: Op)
    requires OneBooking(s.bookings)
    ensures OneBooking(Step(s, op).0.bookings)
  {
    hide Resolve;
  }

  /** Bookings and events name existing rows. */
  lemma StepKeepsRefs(s: State, op: Op)
    requires RefsOk(s) && Legal(s, op)
    ensures RefsOk(Step(s, op).0)
  {
    hide TakenName;
    hide Booked;
    hide NewStatus;
    hide PatchStatus;
    hide Resolve;
    hide LegalPick;
    match op
    case CreateBooking(_, _, status, _, _, pick) => ResolveAnswers(s.statuses, status, pick);
    case ChangeStatus(_, status, _, pick) => ResolveAnswers(s.statuses, status, pick);
    case ChangeRead(_, _, status, _, pick) => ResolveAnswers(s.statuses, status, pick);
    case _ =>
  }

  /** Over every run, split changes included: bookings and events name existing rows, and a work order has at
      most one booking. */
  lemma {:induction false} RunKeepsRefs(s: State, ops: seq<Op>)
    requires RefsOk(s) && OneBooking(s.bookings) && LegalRun(s, ops)
    ensures RefsOk(Run(s, ops)) && OneBooking(Run(s, ops).bookings)
    decreases |ops|
  {
    if ops != [] {
      StepKeepsRefs(s, ops[0]);
      StepKeepsOneBooking(s, ops[0]);
      RunKeepsRefs(Step(s, ops[0]).0, ops[1..]);
    }
  }

  // ---------------------------------------------------------------- the service

  /** The calls over the tables as fields; each is the atomic step. */
  class Service {
    var now: int
    var crews: set<Crew>
    var workOrders: set<WorkOrder>
    var statuses: map<StatusId, Status>
    var bookings: map<BookingId, Booking>
    var events: seq<Event>
    var nextStatus: StatusId
    var nextBooking: BookingId
    ghost var initial: map<BookingId, StatusId>
    ghost var inflight: map<nat, Change>

    ghost function View(): State
      reads this
    {
      State(now, crews, workOrders, statuses, bookings, events, nextStatus, nextBooking, initial, inflight)
    }

    constructor (crews: set<Crew>, workOrders: set<WorkOrder>)
      ensures View() == State(0, crews, workOrders, map[], map[], [], 0, 0, map[], map[])
      ensures StatusesOk(View()) && LogOk(View()) && NoRepeats(events, initial) && RefsOk(View()) && OneBooking(bookings)
    {
      this.crews, this.workOrders := crews, workOrders;
      now, statuses, bookings, events, nextStatus, nextBooking := 0, map[], map[], [], 0, 0;
      initial, inflight := map[], map[];
    }

    method CreateBookingStatus(input: StatusInput) returns (out: Outcome)
      modifies this`statuses, this`nextStatus
      ensures (View(), out) == Step(old(View()), CreateStatus(input))
    {
      if exists k | k in statuses :: k != nextStatus && statuses[k].name == input.name {
        return NameTaken;
      }
      if input.isDefault == Some(true) {
        ClearOtherDefaults(nextStatus);
      }
      var row := Status(input.name, Default(input.isDefault, false), Default(input.isActive, true),
                        Default(input.sortOrder, 0), now);
      statuses := statuses[nextStatus := row];
      out := StatusSaved(nextStatus);
      nextStatus := nextStatus + 1;
    }

    method ClearOtherDefaults(id: StatusId)
      modifies this`statuses
      ensures statuses == ClearDefaults(old(statuses), id) && statuses.Keys == old(statuses).Keys
      ensures forall k | k in statuses && statuses[k].isDefault :: k == id
      ensures forall k | k in statuses :: statuses[k] == old(statuses)[k].(isDefault := statuses[k].isDefault)
      ensures id in statuses ==> statuses[id] == old(statuses)[id]
    {
      statuses := map k | k in statuses :: if k != id then statuses[k].(isDefault := false) else statuses[k];
    }

    /** The update, built field by field. */
    static method BuildData(row: Status, patch: StatusPatch) returns (data: Status)
      ensures data == PatchStatus(row, patch)
    {
      data := row;
      if patch.name.Some? {
        data := data.(name := patch.name.value);
      }
      if patch.isDefault.Some? {
        data := data.(isDefault := patch.isDefault.value);
      }
      if patch.isActive.Some? {
        data := data.(isActive := patch.isActive.value);
      }
      if patch.sortOrder.Some? {
        data := data.(sortOrder := patch.sortOrder.value);
      }
    }

    method UpdateBookingStatus(id: StatusId, patch: StatusPatch) returns (out: Outcome)
      modifies this`statuses
      ensures (View(), out) == Step(old(View()), UpdateStatus(id, patch))
    {
      if id !in statuses {
        return StatusNotFound;
      }
      var data := BuildData(statuses[id], patch);
      if patch.name.Some? && exists k | k in statuses :: k != id && statuses[k].name == patch.name.value {
        return NameTaken;
      }
      if patch.isDefault == Some(true) {
        ClearOtherDefaults(id);
      }
      statuses := statuses[id := data];
      out := StatusSaved(id);
    }

    /** The database hands over a row that nothing eligible precedes. */
    method ResolveStatus(requested: Option<StatusId>, pick: StatusId) returns (r: Resolved)
      requires LegalPick(statuses, requested, pick)
      ensures r == Resolve(statuses, requested, pick)
      ensures r == Failed(StatusNotFound) <==> requested.Some? && requested.value !in statuses
      ensures r == Failed(DefaultMissing) <==> requested.None? && forall id | id in statuses :: !statuses[id].isActive
      ensures r.Found? && requested.None? ==>
                && r.id in statuses && statuses[r.id].isActive
                && forall id | id in statuses && statuses[id].isActive && Before(statuses[id], statuses[r.id]) ::
                     statuses[r.id].isDefault && !statuses[id].isDefault
    {
      ResolveAnswers(statuses, requested, pick);
      if requested.Some? {
        return if requested.value in statuses then Found(requested.value) else Failed(StatusNotFound);
      }
      var defaults := set id | id in statuses && statuses[id].isDefault && statuses[id].isActive;
      assert defaults == Defaults(statuses);
      if defaults != {} {
        return Found(pick);
      }
      var actives := set id | id in statuses && statuses[id].isActive;
      assert actives == Actives(statuses);
      r := if actives != {} then Found(pick) else Failed(DefaultMissing);
    }

    method CreateBooking(
      crew: Crew, workOrder: Option<WorkOrder>, status: Option<StatusId>, start: Option<int>, end: Option<int>, pick: StatusId)
      returns (out: Outcome)
      requires LegalPick(statuses, status, pick)
      modifies this`bookings, this`initial, this`nextBooking
      ensures (View(), out) == Step(old(View()), Op.CreateBooking(crew, workOrder, status, start, end, pick))
    {
      if crew !in crews {
        return CrewNotFound;
      }
      if workOrder.Some? && workOrder.value !in workOrders {
        return WorkOrderNotFound;
      }
      var resolved := ResolveStatus(status, pick);
      if resolved.Failed? {
        return resolved.error;
      }
      if workOrder.Some? && exists b | b in bookings :: bookings[b].workOrder == Some(workOrder.value) {
        return BookingExists;
      }
      bookings := bookings[nextBooking := Booking(workOrder, crew, resolved.id, start, end)];
      initial := initial[nextBooking := resolved.id];
      out := BookingSaved(nextBooking);
      nextBooking := nextBooking + 1;
    }

    method UpdateBooking(booking: BookingId, change: BookingPatch) returns (out: Outcome)
      modifies this`bookings
      ensures (View(), out) == Step(old(View()), Op.UpdateBooking(booking, change))
    {
      if booking !in bookings {
        return BookingNotFound;
      }
      if change.crew.Some? && change.crew.value !in crews {
        return CrewNotFound;
      }
      var data := bookings[booking];
      if change.crew.Some? {
        data := data.(crew := change.crew.value);
      }
      if change.start.Some? {
        data := data.(start := change.start.value);
      }
      if change.end.Some? {
        data := data.(end := change.end.value);
      }
      bookings := bookings[booking := data];
      out := BookingSaved(booking);
    }

    method ChangeBookingStatus(booking: BookingId, status: Option<StatusId>, member: Option<nat>, pick: StatusId)
      returns (out: Outcome)
      requires LegalPick(statuses, status, pick)
      modifies this`bookings, this`events
      ensures (View(), out) == Step(old(View()), ChangeStatus(booking, status, member, pick))
    {
      if booking !in bookings {
        return BookingNotFound;
      }
      var resolved := ResolveStatus(status, pick);
      if resolved.Failed? {
        return resolved.error;
      }
      if bookings[booking].status == resolved.id {
        return Unchanged;
      }
      bookings := bookings[booking := bookings[booking].(status := resolved.id)];
      var event := Event(booking, resolved.id, member, now);
      events := events + [event];
      out := Logged(event);
    }
  }
}
