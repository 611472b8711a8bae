/**
 What bookings and statuses hold, in terms of the calls answered for them: each field is the one last given. (The
 status of a booking is read off the event log, in `Bookings`.)
 */
module BookingHistory {
  import opened Prelude
  import opened Bookings

  // ---------------------------------------------------------------- bookings

  /** A call on a booking that was answered as done. */
  datatype Event =
    | Made(workOrder: Option<WorkOrder>, crew: Crew, start: Option<int>, end: Option<int>)
    | Changed(change: BookingPatch)
    | Overwritten(crew: Crew, start: Option<int>, end: Option<int>)

  function EventOf(op: Op, out: Outcome, id: BookingId): Option<Event> {
    if out != BookingSaved(id) then None
    else
      match op
      case CreateBooking(crew, workOrder, _, start, end, _) => Some(Made(workOrder, crew, start, end))
      case UpdateBooking(_, change) => Some(Changed(change))
      case BackfillUpdate(_, crew, _, start, end) => Some(Overwritten(crew, start, end))
      case _ => None
  }

  function Events(s: State, ops: seq<Op>, id: BookingId): seq<Event>
    decreases |ops|
  {
    if ops == [] then []
    else
      var (t, out) := Step(s, ops[0]);
      var event := EventOf(ops[0], out, id);
      (if event.Some? then [event.value] else []) + Events(t, ops[1..], id)
  }

  /** The fields of a booking but for its status. */
  datatype Slot = Slot(workOrder: Option<WorkOrder>, crew: Crew, start: Option<int>, end: Option<int>)

  function SlotOf(s: State, id: BookingId): Option<Slot> {
    if id in s.bookings
    then Some(Slot(s.bookings[id].workOrder, s.bookings[id].crew, s.bookings[id].start, s.bookings[id].end)) else None
  }

  /** A field that is given is set, one that is not stays. */
  function SlotAfter(before: Option<Slot>, event: Event): Option<Slot> {
    match event
    case Made(workOrder, crew, start, end) => Some(Slot(workOrder, crew, start, end))
    case Changed(change) =>
      if before.None? then None
      else
        var row := before.value;
        Some(Slot(row.workOrder, if change.crew.Some? then change.crew.value else row.crew,
                  if change.start.Some? then change.start.value else row.start,
                  if change.end.Some? then change.end.value else row.end))
    case Overwritten(crew, start, end) => if before.None? then None else Some(Slot(before.value.workOrder, crew, start, end))
  }

  function SlotRead(before: Option<Slot>, events: seq<Event>): Option<Slot>
    decreases |events|
  {
    if events == [] then before else SlotRead(SlotAfter(before, events[0]), events[1..])
  }

  lemma StepTells(s: State, op: Op, id: BookingId)
    ensures var (t, out) := Step(s, op);
            var event := EventOf(op, out, id);
            SlotOf(t, id) == if event.Some? then SlotAfter(SlotOf(s, id), event.value) else SlotOf(s, id)
  {
    hide Booked;
    hide Candidates;
    hide TakenName;
    hide ClearDefaults;
    hide NewStatus;
    hide PatchStatus;
  }

  /** Over every run, split changes and backfill writes included: a booking has the work order it was made with, and the
      crew, start and end last given for it. */
  lemma {:induction false} BookingIsHistory(s: State, ops: seq<Op>, id: BookingId)
    ensures SlotOf(Run(s, ops), id) == SlotRead(SlotOf(s, id), Events(s, ops, id))
    decreases |ops|
  {
    if ops != [] {
      var (t, out) := Step(s, ops[0]);
      StepTells(s, ops[0], id);
      BookingIsHistory(t, ops[1..], id);
      var event, rest := EventOf(ops[0], out, id), Events(t, ops[1..], id);
      if event.Some? {
        assert Events(s, ops, id) == [event.value] + rest && ([event.value] + rest)[1..] == rest;
      } else {
        assert Events(s, ops, id) == rest;
      }
    }
  }

  // ---------------------------------------------------------------- statuses

  /** What a saved status call says about status `id`: its own fields, or that another one became the default. */
  function StatusAfter(before: Option<Status>, now: int, op: Op, out: Outcome, id: StatusId): Option<Status> {
    if !out.StatusSaved? then before
    else if out.id == id then
      match op
      case CreateStatus(input) =>
        Some(Status(input.name, if input.isDefault.Some? then input.isDefault.value else false,
                    if input.isActive.Some? then input.isActive.value else true,
                    if input.sortOrder.Some? then input.sortOrder.value else 0, now))
      case UpdateStatus(_, patch) =>
        if before.None? then None
        else
          var row := before.value;
          Some(Status(if patch.name.Some? then patch.name.value else row.name,
                      if patch.isDefault.Some? then patch.isDefault.value else row.isDefault,
                      if patch.isActive.Some? then patch.isActive.value else row.isActive,
                      if patch.sortOrder.Some? then patch.sortOrder.value else row.sortOrder, row.createdAt))
      case _ => before
    else if before.Some? && MakesDefault(op) then Some(before.value.(isDefault := false))
    else before
  }

  predicate MakesDefault(op: Op) {
    (op.CreateStatus? && op.input.isDefault == Some(true)) || (op.UpdateStatus? && op.patch.isDefault == Some(true))
  }

  function StatusOf(s: State, id: StatusId): Option<Status> { if id in s.statuses then Some(s.statuses[id]) else None }

  function StatusRead(s: State, before: Option<Status>, ops: seq<Op>, id: StatusId): Option<Status>
    decreases |ops|
  {
    if ops == [] then before
    else
      var (t, out) := Step(s, ops[0]);
      StatusRead(t, StatusAfter(before, s.now, ops[0], out, id), ops[1..], id)
  }

  lemma StatusStepTells(s: State, op: Op, id: StatusId)
    requires StatusesOk(s)
    ensures var (t, out) := Step(s, op); StatusOf(t, id) == StatusAfter(StatusOf(s, id), s.now, op, out, id)
  {
    hide Booked;
    hide Candidates;
    hide TakenName;
    hide OneDefault;
    hide OneName;
    hide PatchBooking;
    assert s.nextStatus !in s.statuses;
  }

  /** Over every run: a status has the fields last given for it, absent ones at their defaults, and stops being the
      default when another one becomes it. */
  lemma {:induction false} StatusIsHistory(s: State, ops: seq<Op>, id: StatusId)
    requires StatusesOk(s)
    ensures StatusOf(Run(s, ops), id) == StatusRead(s, StatusOf(s, id), ops, id)
    decreases |ops|
  {
    if ops != [] {
      StatusStepTells(s, ops[0], id);
      StepKeepsStatuses(s, ops[0]);
      StatusIsHistory(Step(s, ops[0]).0, ops[1..], id);
    }
  }

  // ---------------------------------------------------------------- every answer

  /** The status a request resolves to. */
  ghost predicate Resolves(statuses: map<StatusId, Status>, requested: Option<StatusId>, id: StatusId) {
    && id in statuses
    && (requested.Some? ==> id == requested.value)
    && (requested.None? ==>
          && statuses[id].isActive
          && ((exists k :: k in statuses && statuses[k].isActive && statuses[k].isDefault) ==> statuses[id].isDefault)
          && (forall k | k in statuses && statuses[k].isActive && Before(statuses[k], statuses[id]) ::
                statuses[id].isDefault && !statuses[k].isDefault))
  }

  predicate NoneActive(statuses: map<StatusId, Status>) { forall id | id in statuses :: !statuses[id].isActive }

  /** Exactly how a booking is refused, in this order, and what a new one is. */
  lemma CreateIsAnswered(
    s: State, crew: Crew, workOrder: Option<WorkOrder>, status: Option<StatusId>, start: Option<int>, end: Option<int>, pick: StatusId)
    requires LegalPick(s.statuses, status, pick) && forall b | b in s.bookings :: b < s.nextBooking
    ensures var (t, out) := Step(s, CreateBooking(crew, workOrder, status, start, end, pick));
            if crew !in s.crews then out == CrewNotFound && t == s
            else if workOrder.Some? && workOrder.value !in s.workOrders then out == WorkOrderNotFound && t == s
            else if status.Some? && status.value !in s.statuses then out == StatusNotFound && t == s
            else if status.None? && NoneActive(s.statuses) then out == DefaultMissing && t == s
            else if workOrder.Some? && (exists b | b in s.bookings :: s.bookings[b].workOrder == workOrder) then
              out == BookingExists && t == s
            else
              && out.BookingSaved? && out.id !in s.bookings && out.id in t.bookings
              && t.bookings == s.bookings[out.id := t.bookings[out.id]]
              && Resolves(s.statuses, status, t.bookings[out.id].status)
              && t.statuses == s.statuses && t.events == s.events
  {
    ResolveAnswers(s.statuses, status, pick);
    hide Candidates;
    hide Before;
    if workOrder.Some? && Booked(s.bookings, workOrder.value) {
      var b :| b in s.bookings && s.bookings[b].workOrder == Some(workOrder.value);
      assert s.bookings[b].workOrder == workOrder;
    }
  }

  /** Exactly how a change of status is answered: a booking that has the status already is left alone, and nothing is
      logged. */
  lemma ChangeIsAnswered(s: State, booking: BookingId, status: Option<StatusId>, member: Option<nat>, pick: StatusId)
    requires LegalPick(s.statuses, status, pick)
    ensures var (t, out) := Step(s, ChangeStatus(booking, status, member, pick));
            if booking !in s.bookings then out == BookingNotFound && t == s
            else if status.Some? && status.value !in s.statuses then out == StatusNotFound && t == s
            else if status.None? && NoneActive(s.statuses) then out == DefaultMissing && t == s
            else
              && booking in t.bookings && Resolves(s.statuses, status, t.bookings[booking].status)
              && (if t.bookings[booking].status == s.bookings[booking].status then out == Unchanged && t == s
                  else
                    && out == Logged(Event(booking, t.bookings[booking].status, member, s.now))
                    && t.events == s.events + [out.event]
                    && t.bookings.Keys == s.bookings.Keys
                    && forall b | b in s.bookings && b != booking :: t.bookings[b] == s.bookings[b])
  {
    ResolveAnswers(s.statuses, status, pick);
    hide Candidates;
    hide Before;
  }

  /** Exactly how the other calls are refused; a refused call changes nothing. */
  lemma RefusedExactly(s: State, op: Op)
    requires op.UpdateBooking? || op.CreateStatus? || op.UpdateStatus?
    ensures var (t, out) := Step(s, op);
            match op
            case UpdateBooking(booking, change) =>
              if booking !in s.bookings then out == BookingNotFound && t == s
              else if change.crew.Some? && change.crew.value !in s.crews then out == CrewNotFound && t == s
              else out == BookingSaved(booking) && t == s.(bookings := t.bookings) && t.bookings[booking].status == s.bookings[booking].status
            case CreateStatus(input) =>
              if exists k | k in s.statuses && k != s.nextStatus :: s.statuses[k].name == input.name then out == NameTaken && t == s
              else out == StatusSaved(s.nextStatus) && t.bookings == s.bookings && t.events == s.events
            case UpdateStatus(id, patch) =>
              if id !in s.statuses then out == StatusNotFound && t == s
              else if patch.name.Some? && (exists k | k in s.statuses && k != id :: s.statuses[k].name == patch.name.value) then
                out == NameTaken && t == s
              else out == StatusSaved(id) && t.bookings == s.bookings && t.events == s.events
  {
    hide ClearDefaults;
  }
}
