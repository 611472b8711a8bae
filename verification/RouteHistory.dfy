/**
 Where stops stand, in terms of the calls answered for them, and every answer of the stop calls. (Their order on the
 route is `Routes`' matter.)
 */
module RouteHistory {
  import opened Prelude
  import opened Positions
  import opened Routes

  /** The route and the booking of a stop. */
  datatype Where = Where(route: RouteId, booking: BookingId)

  function WhereOf(s: State, id: Row): Option<Where> {
    if id in s.stops then Some(Where(s.stops[id].routeId, s.stops[id].bookingId)) else None
  }

  /** What a call and its answer say about stop `id`. A removal takes effect even if closing up then fails; an upsert
      takes the booking's stop along, or makes it one. */
  function WhereAfter(s: State, before: Option<Where>, op: Op, out: Outcome, id: Row): Option<Where> {
    match op
    case Add(route, booking) => if out.Added? && out.id == id then Some(Where(route, booking)) else before
    case Remove(_, row, _) => if row == id && out in {Done, PlaceTaken} then None else before
    case Place(route, booking, row, _) =>
      if out == Done && id == (if exists k :: k in s.stops && s.stops[k].bookingId == booking then row else s.nextStop)
      then Some(Where(route, booking)) else before
    case _ => before
  }

  ghost function WhereRead(s: State, before: Option<Where>, ops: seq<Op>, id: Row): Option<Where>
    requires LegalRun(s, ops)
    decreases |ops|
  {
    if ops == [] then before
    else
      var (t, out) := Step(s, ops[0]);
      WhereRead(t, WhereAfter(s, before, ops[0], out, id), ops[1..], id)
  }

  lemma StepTells(s: State, op: Op, id: Row)
    requires Legal(s, op)
    ensures var (t, out) := Step(s, op); WhereOf(t, id) == WhereAfter(s, WhereOf(s, id), op, out, id)
  {
    hide NextPlace;
    hide Clear;
    hide Placed;
    hide Taken;
  }

  /** Over every run, upserts and crew changes included: a stop is on the route last given for it, for its one booking,
      until it is removed. */
  lemma {:induction false} StopIsHistory(s: State, ops: seq<Op>, id: Row)
    requires LegalRun(s, ops)
    ensures WhereOf(Run(s, ops), id) == WhereRead(s, WhereOf(s, id), ops, id)
    decreases |ops|
  {
    if ops != [] {
      StepTells(s, ops[0], id);
      StopIsHistory(Step(s, ops[0]).0, ops[1..], id);
    }
  }

  // ---------------------------------------------------------------- one stop for a booking

  ghost predicate OneStop(s: State) {
    && (forall id | id in s.stops :: id < s.nextStop)
    && forall a, b | a in s.stops && b in s.stops && s.stops[a].bookingId == s.stops[b].bookingId :: a == b
  }

  lemma StepKeepsOneStop(s: State, op: Op)
    requires OneStop(s) && Legal(s, op)
    ensures OneStop(Step(s, op).0)
  {
    var t := Step(s, op).0;
    if op.Place? && Step(s, op).1 == Done && Routed(s, op.booking) {
      assert forall id | id in s.stops && s.stops[id].bookingId == op.booking :: id == op.id;
    }
    hide NextPlace;
    hide Clear;
    hide Placed;
    hide Taken;
  }

  /** Over every run a booking has at most one stop. */
  lemma {:induction false} RunKeepsOneStop(s: State, ops: seq<Op>)
    requires OneStop(s) && LegalRun(s, ops)
    ensures OneStop(Run(s, ops))
    decreases |ops|
  {
    if ops != [] {
      StepKeepsOneStop(s, ops[0]);
      RunKeepsOneStop(Step(s, ops[0]).0, ops[1..]);
    }
  }

  // ---------------------------------------------------------------- every answer

  /** Exactly when a stop is added, and otherwise the first of the refusals that applies; it goes after the last stop of
      its route, and no other stop changes. */
  lemma AddIsAnswered(s: State, route: RouteId, booking: BookingId)
    requires forall id | id in s.stops :: id < s.nextStop
    ensures var (t, out) := Step(s, Add(route, booking));
            if route !in s.routes then out == RouteNotFound && t == s
            else if booking !in s.crews then out == BookingNotFound && t == s
            else if s.crews[booking] != s.routes[route] then out == CrewMismatch && t == s
            else if exists id :: id in s.stops && s.stops[id].bookingId == booking then out == AlreadyRouted && t == s
            else
              && out.Added? && out.id !in s.stops
              && t.stops == s.stops[out.id := Stop(route, booking, out.position)] && t.crews == s.crews && t.routes == s.routes
              && (forall id | id in s.stops && s.stops[id].routeId == route :: s.stops[id].position < out.position)
              && (if forall id | id in s.stops :: s.stops[id].routeId != route then out.position == 1
                  else exists id :: id in s.stops && s.stops[id].routeId == route && s.stops[id].position == out.position - 1)
  {
    var pos := OnRoute(s, route);
    NextPlaceIsFree(pos);
    assert forall id | id in s.stops && s.stops[id].routeId == route :: id in pos && pos[id] == s.stops[id].position;
    if last :| IsLast(pos, last) {
      assert pos[last] == NextPlace(pos) - 1 by { LastIsOne(pos, last); }
    } else {
      assert forall id | id in s.stops :: s.stops[id].routeId != route;
    }
  }

  lemma LastIsOne(pos: map<Row, int>, last: Row)
    requires IsLast(pos, last)
    ensures NextPlace(pos) == pos[last] + 1
  {}

  /** A removal is refused exactly when the stop is not on the route; a reorder, when the route is missing or the list is
      not one of distinct stops of it; either changes nothing then, nor the stops of other routes ever. */
  lemma RemoveAndReorderAnswer(s: State, op: Op)
    requires Legal(s, op) && (op.Remove? || op.Reorder?)
    ensures var (t, out) := Step(s, op);
            && (out in {RouteNotFound, StopNotFound, InvalidOrder} ==> t == s)
            && (op.Remove? ==> (out == StopNotFound <==> !(op.id in s.stops && s.stops[op.id].routeId == op.route)))
            && (op.Remove? ==> out in {StopNotFound, PlaceTaken, Done})
            && (op.Reorder? ==> (out == RouteNotFound <==> op.route !in s.routes))
            && (op.Reorder? && op.route in s.routes ==>
                  (out == InvalidOrder <==>
                    !(Distinct(op.ids) && forall id | id in op.ids :: id in s.stops && s.stops[id].routeId == op.route)))
            && (forall id | id in s.stops && s.stops[id].routeId != op.route :: id in t.stops && t.stops[id] == s.stops[id])
            && t.crews == s.crews && t.routes == s.routes
  {
    hide Clear;
    hide Placed;
    if op.Reorder? && op.route in s.routes {
      ReorderAcceptsExactly(s, op.route, op.ids);
      assert forall id :: id in OnRoute(s, op.route) <==> id in s.stops && s.stops[id].routeId == op.route;
      if |Found(s, op.route, op.ids)| == |op.ids| {
        PlacedKeys(OnRoute(s, op.route), op.ids);
      }
    }
    if op.Remove? && op.id in OnRoute(s, op.route) {
      PlacedKeys(OnRoute(Without(s, op.id), op.route), op.order);
    }
  }
}
