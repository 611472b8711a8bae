/**
 Route stops (`routes.service.ts`): stops are appended, reordered and removed, and their positions
 rewritten. One organization; every query of the source is scoped to it.

 `indexed` says whether the unique index on (route, position) of the migration is in force. The rest of
 the state is the same either way, and the theorems say which mode they are about.
 */
module Routes {
  import opened Prelude
  import opened Positions

  type RouteId = nat
  type BookingId = nat

  datatype Stop = Stop(routeId: RouteId, bookingId: BookingId, position: int)

  /** `routes` and `crews`: the crew of each route and of each booking. */
  datatype State = State(
    routes: map<RouteId, nat>, crews: map<BookingId, nat>, stops: map<Row, Stop>, nextStop: Row, indexed: bool)

  /** `order` is the reading of the remaining rows by position, ties as the database returns them. `Place` is one
      upsert of the scheduling backfill: the booking's stop, `id` if it has one, goes to the route and place given,
      whatever it was before. */
  datatype Op =
    | Add(route: RouteId, booking: BookingId)
    | Reorder(route: RouteId, ids: seq<Row>)
    | Remove(route: RouteId, id: Row, order: seq<Row>)
    | Place(route: RouteId, booking: BookingId, id: Row, to: int)
    | ChangeCrew(booking: BookingId, crew: nat)

  datatype Outcome =
    | RouteNotFound | BookingNotFound | CrewMismatch | AlreadyRouted | StopNotFound
    | InvalidOrder | PlaceTaken | Added(id: Row, position: int) | Done

  /** The positions of one route's stops. */
  function OnRoute(s: State, route: RouteId): map<Row, int> {
    map id | id in s.stops && s.stops[id].routeId == route :: s.stops[id].position
  }

  predicate IsLast(pos: map<Row, int>, k: Row) {
    k in pos && forall j | j in pos :: pos[j] <= pos[k]
  }

  /** The position after the highest one on the route, 1 on an empty route. */
  ghost function NextPlace(pos: map<Row, int>): int {
    if last :| IsLast(pos, last) then pos[last] + 1 else 1
  }

  predicate Routed(s: State, booking: BookingId) {
    exists id | id in s.stops :: s.stops[id].bookingId == booking
  }

  function Renumber(s: State, pos: map<Row, int>): State {
    s.(stops := map id | id in s.stops ::
         if id in pos then s.stops[id].(position := pos[id]) else s.stops[id])
  }

  /** Of the ids asked for, those the route has: what the count check of `reorderRouteStops` counts. */
  function Found(s: State, route: RouteId, ids: seq<Row>): set<Row> {
    set id | id in ids && id in OnRoute(s, route)
  }

  function Write(s: State, pos: map<Row, int>, list: seq<Row>): (State, Outcome) {
    if s.indexed && !Clear(pos, list) then (s, PlaceTaken) else (Renumber(s, Placed(pos, list)), Done)
  }

  function Without(s: State, id: Row): State { s.(stops := s.stops - {id}) }

  /** What the database promises of its ordered reading. */
  ghost predicate Legal(s: State, op: Op) {
    && (op.Remove? && op.id in OnRoute(s, op.route) ==> Listing(OnRoute(Without(s, op.id), op.route), op.order))
    && (op.Place? && Routed(s, op.booking) ==> op.id in s.stops && s.stops[op.id].bookingId == op.booking)
  }

  /** The row an upsert writes. */
  function PlacedRow(s: State, booking: BookingId, id: Row): Row { if Routed(s, booking) then id else s.nextStop }

  predicate Taken(s: State, route: RouteId, place: int, row: Row) {
    exists k | k in s.stops :: k != row && s.stops[k].routeId == route && s.stops[k].position == place
  }

  ghost function Step(s: State, op: Op): (State, Outcome)
    requires Legal(s, op)
  {
    match op
    case Add(route, booking) =>
      if route !in s.routes then (s, RouteNotFound)
      else if booking !in s.crews then (s, BookingNotFound)
      else if s.routes[route] != s.crews[booking] then (s, CrewMismatch)
      else if Routed(s, booking) then (s, AlreadyRouted)
      else
        var p := NextPlace(OnRoute(s, route));
        (s.(stops := s.stops[s.nextStop := Stop(route, booking, p)], nextStop := s.nextStop + 1), Added(s.nextStop, p))
    case Reorder(route, ids) =>
      if route !in s.routes then (s, RouteNotFound)
      else if |Found(s, route, ids)| != |ids| then (s, InvalidOrder)
      else Write(s, OnRoute(s, route), ids)
    case Remove(route, id, order) =>
      if id !in OnRoute(s, route) then (s, StopNotFound)
      else Write(Without(s, id), OnRoute(Without(s, id), route), order)
    case Place(route, booking, id, to) =>
      var row := PlacedRow(s, booking, id);
      if route !in s.routes then (s, RouteNotFound)
      else if s.indexed && Taken(s, route, to, row) then (s, PlaceTaken)
      else
        (s.(stops := s.stops[row := Stop(route, booking, to)],
            nextStop := if Routed(s, booking) then s.nextStop else s.nextStop + 1), Done)
    case ChangeCrew(booking, crew) =>
      (if booking in s.crews then s.(crews := s.crews[booking := crew]) else s, Done)
  }

  ghost predicate LegalRun(s: State, ops: seq<Op>)
    decreases |ops|
  {
    ops != [] ==> Legal(s, ops[0]) && LegalRun(Step(s, ops[0]).0, ops[1..])
  }

  ghost function Run(s: State, ops: seq<Op>): State
    requires LegalRun(s, ops)
    decreases |ops|
  {
    if ops == [] then s else Run(Step(s, ops[0]).0, ops[1..])
  }

  // ---------------------------------------------------------------- the count check

  lemma {:induction false} FoundSize(s: State, route: RouteId, ids: seq<Row>)
    ensures |Found(s, route, ids)| <= |ids|
    ensures |Found(s, route, ids)| == |ids| <==> Distinct(ids) && forall id | id in ids :: id in OnRoute(s, route)
  {
    hide OnRoute;
    var found := Found(s, route, ids);
    if ids == [] {
      assert found == {};
    } else {
      var init, last := ids[..|ids| - 1], ids[|ids| - 1];
      assert ids == init + [last];
      FoundSize(s, route, init);
      var part := Found(s, route, init);
      assert found == if last in OnRoute(s, route) then part + {last} else part;
      if |found| == |ids| {
        assert last !in part && last in OnRoute(s, route);
        assert forall id | id in init :: id in ids;
      }
      if Distinct(ids) && forall id | id in ids :: id in OnRoute(s, route) {
        assert forall i | 0 <= i < |init| :: init[i] == ids[i];
        assert last in ids && last !in init;
      }
    }
  }

  /** Comparing the two lengths accepts exactly the lists of distinct stops of that route. */
  lemma ReorderAcceptsExactly(s: State, route: RouteId, ids: seq<Row>)
    requires route in s.routes
    ensures Step(s, Reorder(route, ids)).1 != InvalidOrder
            <==> Distinct(ids) && forall id | id in ids :: id in OnRoute(s, route)
  {
    FoundSize(s, route, ids);
  }

  // ---------------------------------------------------------------- framing

  lemma RenumberOnRoute(s: State, route: RouteId, pos: map<Row, int>)
    requires pos.Keys == OnRoute(s, route).Keys
    ensures OnRoute(Renumber(s, pos), route) == pos
    ensures forall r | r != route :: OnRoute(Renumber(s, pos), r) == OnRoute(s, r)
  {}

  lemma PlacedKeys(pos: map<Row, int>, list: seq<Row>)
    requires forall k | k in list :: k in pos
    ensures Placed(pos, list).Keys == pos.Keys
  {}

  /** A write touches one route, and there it is the write of `Positions`. */
  lemma WriteOnRoute(s: State, route: RouteId, list: seq<Row>)
    requires forall k | k in list :: k in OnRoute(s, route)
    ensures var (s1, out) := Write(s, OnRoute(s, route), list);
            && out in {Done, PlaceTaken}
            && (out == PlaceTaken <==> s.indexed && !Clear(OnRoute(s, route), list))
            && OnRoute(s1, route) == (if out == Done then Placed(OnRoute(s, route), list) else OnRoute(s, route))
            && (forall r | r != route :: OnRoute(s1, r) == OnRoute(s, r))
            && s1.routes == s.routes && s1.indexed == s.indexed && s1.nextStop == s.nextStop
            && s1.stops.Keys == s.stops.Keys
  {
    PlacedKeys(OnRoute(s, route), list);
    RenumberOnRoute(s, route, Placed(OnRoute(s, route), list));
  }

  lemma AddOnRoute(s: State, route: RouteId, booking: BookingId)
    requires s.nextStop !in s.stops && Step(s, Add(route, booking)).1.Added?
    ensures var (s1, out) := Step(s, Add(route, booking));
            && OnRoute(s1, route) == OnRoute(s, route)[s.nextStop := NextPlace(OnRoute(s, route))]
            && out == Added(s.nextStop, NextPlace(OnRoute(s, route)))
            && (forall r | r != route :: OnRoute(s1, r) == OnRoute(s, r))
  {}

  lemma WithoutOnRoute(s: State, route: RouteId, id: Row)
    requires id in OnRoute(s, route)
    ensures OnRoute(Without(s, id), route) == OnRoute(s, route) - {id}
    ensures |OnRoute(Without(s, id), route)| == |OnRoute(s, route)| - 1
    ensures forall r | r != route :: OnRoute(Without(s, id), r) == OnRoute(s, r)
  {
    var pos := OnRoute(s, route);
    var rest := OnRoute(Without(s, id), route);
    assert rest == pos - {id};
    assert rest.Keys == pos.Keys - {id};
    assert |rest| == |rest.Keys| && |pos| == |pos.Keys|;
  }

  // ---------------------------------------------------------------- the two invariants

  /** Every position on every route of n stops lies in 1..n. */
  ghost predicate Bounded(s: State) {
    (forall id | id in s.stops :: id < s.nextStop) && forall r :: InRange(OnRoute(s, r))
  }

  /** On every route the positions are exactly 1..n. */
  ghost predicate Tight(s: State) {
    (forall id | id in s.stops :: id < s.nextStop) && forall r :: Contiguous(OnRoute(s, r))
  }

  lemma NextPlaceIsFree(pos: map<Row, int>)
    ensures forall k | k in pos :: pos[k] < NextPlace(pos)
    ensures pos != map[] ==> exists k :: IsLast(pos, k)
    ensures InRange(pos) ==> 1 <= NextPlace(pos) <= |pos| + 1
  {
    if pos != map[] {
      assert pos.Keys != {};
      var last := HighestExists(pos, pos.Keys);
      assert IsLast(pos, last);
    }
  }

  lemma AppendKeepsRange(pos: map<Row, int>, id: Row)
    requires id !in pos && InRange(pos)
    ensures InRange(pos[id := NextPlace(pos)])
    ensures Contiguous(pos) ==> Contiguous(pos[id := NextPlace(pos)])
  {
    NextPlaceIsFree(pos);
    var pos1 := pos[id := NextPlace(pos)];
    assert pos1.Keys == pos.Keys + {id};
    assert |pos1| == |pos1.Keys| == |pos| + 1 by { assert |pos| == |pos.Keys|; }
  }

  lemma PlacingKeepsRange(pos: map<Row, int>, list: seq<Row>)
    requires InRange(pos) && Distinct(list) && forall k | k in list :: k in pos
    ensures InRange(Placed(pos, list))
  {
    ListFits(pos, list);
    PlacedKeys(pos, list);
    var placed := Placed(pos, list);
    assert |placed| == |placed.Keys| && |pos| == |pos.Keys|;
  }

  /** When the closing-up writes of a remove can clash with the index at all, they do not. */
  ghost predicate CanClose(s: State, route: RouteId) {
    s.indexed ==> Injective(OnRoute(s, route)) && forall k | k in OnRoute(s, route) :: OnRoute(s, route)[k] >= 1
  }

  lemma RemoveFrames(s: State, route: RouteId, id: Row, order: seq<Row>)
    requires Legal(s, Remove(route, id, order)) && id in OnRoute(s, route) && CanClose(s, route)
    ensures var (s1, out) := Step(s, Remove(route, id, order));
            && out == Done
            && OnRoute(s1, route) == Placed(OnRoute(s, route) - {id}, order)
            && (forall r | r != route :: OnRoute(s1, r) == OnRoute(s, r))
            && s1.indexed == s.indexed && s1.nextStop == s.nextStop && s1.stops.Keys == s.stops.Keys - {id}
  {
    var t := Without(s, id);
    WithoutOnRoute(s, route, id);
    CloseUp(OnRoute(t, route), order);
    WriteOnRoute(t, route, order);
  }

  /** `removeRouteStop`: from any positions whatever without the index, ties included, and from distinct
      positive ones with it, the route is left numbered exactly 1..n-1, in the order it was read, with
      every pair of stops whose places differed still in order. */
  lemma RemoveClosesUp(s: State, route: RouteId, id: Row, order: seq<Row>)
    requires Legal(s, Remove(route, id, order)) && id in OnRoute(s, route) && CanClose(s, route)
    ensures var (s1, out) := Step(s, Remove(route, id, order));
            var before, after := OnRoute(s, route), OnRoute(s1, route);
            && out == Done
            && after.Keys == before.Keys - {id}
            && Contiguous(after) && InPlace(after, order)
            && (forall a, b | a in after && b in after && before[a] < before[b] :: after[a] < after[b])
  {
    RemoveFrames(s, route, id, order);
    WithoutOnRoute(s, route, id);
    CloseUp(OnRoute(s, route) - {id}, order);
  }

  /** If one route is left in range (or contiguous) and the others as they were, so is the table. */
  lemma OneRouteChanged(s: State, s1: State, route: RouteId)
    requires forall r | r != route :: OnRoute(s1, r) == OnRoute(s, r)
    requires forall id | id in s1.stops :: id < s1.nextStop
    ensures Bounded(s) && InRange(OnRoute(s1, route)) ==> Bounded(s1)
    ensures Tight(s) && Contiguous(OnRoute(s1, route)) ==> Tight(s1)
  {
    forall r | r != route
      ensures InRange(OnRoute(s, r)) ==> InRange(OnRoute(s1, r))
      ensures Contiguous(OnRoute(s, r)) ==> Contiguous(OnRoute(s1, r))
    {
      assert OnRoute(s1, r) == OnRoute(s, r);
    }
  }

  lemma AddKeepsBounded(s: State, route: RouteId, booking: BookingId)
    requires Bounded(s)
    ensures Bounded(Step(s, Add(route, booking)).0)
  {
    if Step(s, Add(route, booking)).1.Added? {
      AddOnRoute(s, route, booking);
      AppendKeepsRange(OnRoute(s, route), s.nextStop);
      OneRouteChanged(s, Step(s, Add(route, booking)).0, route);
    }
  }

  lemma ReorderKeepsBounded(s: State, route: RouteId, ids: seq<Row>)
    requires Bounded(s) && !s.indexed
    ensures Bounded(Step(s, Reorder(route, ids)).0)
  {
    FoundSize(s, route, ids);
    if route in s.routes && |Found(s, route, ids)| == |ids| {
      WriteOnRoute(s, route, ids);
      PlacingKeepsRange(OnRoute(s, route), ids);
      OneRouteChanged(s, Step(s, Reorder(route, ids)).0, route);
    }
  }

  /** What an upsert does to the routes: its row joins one and leaves any other. */
  lemma PlaceOnRoutes(s: State, op: Op)
    requires Legal(s, op) && op.Place? && Step(s, op).1 == Done
    requires forall id | id in s.stops :: id < s.nextStop
    ensures var (s1, row) := (Step(s, op).0, PlacedRow(s, op.booking, op.id));
            && OnRoute(s1, op.route) == OnRoute(s, op.route)[row := op.to]
            && (forall r | r != op.route :: OnRoute(s1, r) == OnRoute(s, r) - {row})
            && (forall id | id in s1.stops :: id < s1.nextStop) && s1.indexed == s.indexed
            && (row in s.stops <==> Routed(s, op.booking))
  {
    var s1, row := Step(s, op).0, PlacedRow(s, op.booking, op.id);
    forall r | r != op.route ensures OnRoute(s1, r) == OnRoute(s, r) - {row} {}
  }

  /** The place is within the route's new size, and a route left behind keeps no stop in its last place. */
  ghost predicate StaysInRange(s: State, op: Op)
    requires Legal(s, op)
  {
    op.Place? && Step(s, op).1 == Done ==>
      var row, pos := PlacedRow(s, op.booking, op.id), OnRoute(s, op.route);
      && 1 <= op.to <= (if row in pos then |pos| else |pos| + 1)
      && (row !in pos && row in s.stops ==>
            var left := OnRoute(s, s.stops[row].routeId);
            forall k | k in left && k != row :: left[k] < |left|)
  }

  lemma DropInRangeIff(pos: map<Row, int>, k: Row)
    requires InRange(pos) && k in pos
    ensures InRange(pos - {k}) <==> forall j | j in pos && j != k :: pos[j] < |pos|
  {
    MapSize(pos, k, 0);
    assert forall j | j in pos && j != k :: j in pos - {k} && (pos - {k})[j] == pos[j];
  }

  lemma SetInRangeIff(pos: map<Row, int>, k: Row, p: int)
    requires InRange(pos)
    ensures InRange(pos[k := p]) <==> 1 <= p <= if k in pos then |pos| else |pos| + 1
  {
    MapSize(pos, k, p);
    assert k in pos[k := p] && pos[k := p][k] == p;
  }

  lemma PlaceKeepsBoundedIff(s: State, op: Op)
    requires Bounded(s) && Legal(s, op) && op.Place?
    ensures Bounded(Step(s, op).0) <==> StaysInRange(s, op)
  {
    hide InRange;
    if Step(s, op).1 == Done {
      var s1, row, pos := Step(s, op).0, PlacedRow(s, op.booking, op.id), OnRoute(s, op.route);
      PlaceOnRoutes(s, op);
      assert InRange(pos);
      assert row in pos ==> row in s.stops && s.stops[row].routeId == op.route;
      var left := if row in s.stops then s.stops[row].routeId else op.route;
      assert InRange(OnRoute(s, left));
      assert row in s.stops ==> row in OnRoute(s, left);
      forall r | r != op.route && r != left ensures OnRoute(s1, r) == OnRoute(s, r) {
        assert row !in OnRoute(s, r);
      }
      RestUnchanged(s, s1, op.route, left);
      hide Step;
      hide Bounded;
      hide OnRoute;
      SetInRangeIff(pos, row, op.to);
      if row !in pos && row in s.stops {
        DropInRangeIff(OnRoute(s, left), row);
      }
    }
  }

  /** If all routes but two are as they were, the two decide. */
  lemma RestUnchanged(s: State, s1: State, a: RouteId, b: RouteId)
    requires (forall r | r != a && r != b :: OnRoute(s1, r) == OnRoute(s, r)) && forall id | id in s1.stops :: id < s1.nextStop
    ensures Bounded(s) ==> (Bounded(s1) <==> InRange(OnRoute(s1, a)) && InRange(OnRoute(s1, b)))
    ensures Tight(s) ==> (Tight(s1) <==> Contiguous(OnRoute(s1, a)) && Contiguous(OnRoute(s1, b)))
  {
    forall r | r != a && r != b
      ensures InRange(OnRoute(s, r)) ==> InRange(OnRoute(s1, r))
      ensures Contiguous(OnRoute(s, r)) ==> Contiguous(OnRoute(s1, r))
    {
      assert OnRoute(s1, r) == OnRoute(s, r);
    }
  }

  /** On the service code alone, without the index, exactly when a call keeps every position in 1..n: the three
      calls always do, a backfill upsert when its place and the one it leaves allow it. */
  lemma StepKeepsBoundedIff(s: State, op: Op)
    requires Bounded(s) && !s.indexed && Legal(s, op)
    ensures Bounded(Step(s, op).0) <==> StaysInRange(s, op)
  {
    match op
    case Add(route, booking) => AddKeepsBounded(s, route, booking);
    case Reorder(route, ids) => ReorderKeepsBounded(s, route, ids);
    case Remove(route, id, order) =>
      if id in OnRoute(s, route) {
        RemoveFrames(s, route, id, order);
        RemoveClosesUp(s, route, id, order);
        OneRouteChanged(s, Step(s, op).0, route);
      }
    case Place(_, _, _, _) => PlaceKeepsBoundedIff(s, op);
    case ChangeCrew(_, _) =>
      var s1 := Step(s, op).0;
      assert forall r :: OnRoute(s1, r) == OnRoute(s, r);
      assert InRange(OnRoute(s, 0));
      OneRouteChanged(s, s1, 0);
  }

  ghost predicate BoundedRun(s: State, ops: seq<Op>)
    requires LegalRun(s, ops)
    decreases |ops|
  {
    ops != [] ==> Bounded(Step(s, ops[0]).0) && BoundedRun(Step(s, ops[0]).0, ops[1..])
  }

  ghost predicate InRangeMoves(s: State, ops: seq<Op>)
    requires LegalRun(s, ops)
    decreases |ops|
  {
    ops != [] ==> StaysInRange(s, ops[0]) && InRangeMoves(Step(s, ops[0]).0, ops[1..])
  }

  /** Over every run of add, reorder (partial ones too), remove and backfill upserts, on the service code alone:
      every position on a route of n stops lies in 1..n after every step exactly when the upserts allow it. */
  lemma {:induction false} PositionsStayInRangeIff(s: State, ops: seq<Op>)
    requires Bounded(s) && !s.indexed && LegalRun(s, ops)
    ensures BoundedRun(s, ops) <==> InRangeMoves(s, ops)
    decreases |ops|
  {
    if ops != [] {
      StepKeepsBoundedIff(s, ops[0]);
      StepKeepsIndex(s, ops[0]);
      if StaysInRange(s, ops[0]) {
        PositionsStayInRangeIff(Step(s, ops[0]).0, ops[1..]);
      }
    }
  }

  /** In particular over every run of the three stop calls alone. */
  lemma {:induction false} PositionsStayInRange(s: State, ops: seq<Op>)
    requires Bounded(s) && !s.indexed && LegalRun(s, ops) && forall i | 0 <= i < |ops| :: !ops[i].Place?
    ensures Bounded(Run(s, ops))
    decreases |ops|
  {
    if ops != [] {
      StepKeepsBoundedIff(s, ops[0]);
      StepKeepsIndex(s, ops[0]);
      var rest := ops[1..];
      assert forall i | 0 <= i < |rest| :: rest[i] == ops[i + 1];
      PositionsStayInRange(Step(s, ops[0]).0, rest);
    }
  }

  /** With the index, no reorder request of a contiguous route changes anything. */
  lemma IndexedReorderIsInert(s: State, route: RouteId, ids: seq<Row>)
    requires s.indexed && route in s.routes && Contiguous(OnRoute(s, route))
    ensures var (s1, out) := Step(s, Reorder(route, ids));
            && s1 == s
            && (out == Done <==> Distinct(ids) && InPlace(OnRoute(s, route), ids))
  {
    hide Contiguous;
    hide Clear;
    var pos := OnRoute(s, route);
    FoundSize(s, route, ids);
    if Distinct(ids) && forall id | id in ids :: id in pos {
      OnlyTheCurrentOrderIsClear(pos, ids);
      assert Renumber(s, pos) == s;
    }
  }

  /** An accepted reorder leaves out no stop that holds one of the places it writes; an upsert takes the next
      place, or its own again, and leaves no gap behind. */
  ghost predicate StaysTight(s: State, op: Op)
    requires Legal(s, op)
  {
    && (op.Reorder? && !s.indexed && Step(s, op).1 == Done ==>
          forall t | t in OnRoute(s, op.route) && OnRoute(s, op.route)[t] <= |op.ids| :: t in op.ids)
    && (op.Place? && Step(s, op).1 == Done ==>
          var row, pos := PlacedRow(s, op.booking, op.id), OnRoute(s, op.route);
          if row in pos then op.to == pos[row]
          else
            && op.to == |pos| + 1
            && (row in s.stops ==> s.stops[row].position == |OnRoute(s, s.stops[row].routeId)|))
  }

  lemma ReorderKeepsTightIff(s: State, route: RouteId, ids: seq<Row>)
    requires Tight(s)
    ensures Tight(Step(s, Reorder(route, ids)).0) <==> StaysTight(s, Reorder(route, ids))
  {
    if route in s.routes && |Found(s, route, ids)| == |ids| {
      assert Contiguous(OnRoute(s, route));
      if s.indexed {
        IndexedReorderIsInert(s, route, ids);
      } else {
        var s1 := Step(s, Reorder(route, ids)).0;
        FoundSize(s, route, ids);
        WriteOnRoute(s, route, ids);
        WriteContiguousIff(OnRoute(s, route), ids);
        RestUnchanged(s, s1, route, route);
      }
    }
  }

  lemma PlaceKeepsTightIff(s: State, op: Op)
    requires Tight(s) && Legal(s, op) && op.Place?
    ensures Tight(Step(s, op).0) <==> StaysTight(s, op)
  {
    hide Contiguous;
    if Step(s, op).1 == Done {
      var s1, row, pos := Step(s, op).0, PlacedRow(s, op.booking, op.id), OnRoute(s, op.route);
      PlaceOnRoutes(s, op);
      assert Contiguous(pos);
      assert row in pos ==> row in s.stops && s.stops[row].routeId == op.route;
      var left := if row in s.stops then s.stops[row].routeId else op.route;
      assert Contiguous(OnRoute(s, left));
      assert row in s.stops ==> row in OnRoute(s, left) && OnRoute(s, left)[row] == s.stops[row].position;
      forall r | r != op.route && r != left ensures OnRoute(s1, r) == OnRoute(s, r) {
        assert row !in OnRoute(s, r);
      }
      RestUnchanged(s, s1, op.route, left);
      hide Step;
      hide Tight;
      hide OnRoute;
      if row in pos {
        ReplaceContiguousIff(pos, row, op.to);
      } else {
        AppendContiguousIff(pos, row, op.to);
        if row in s.stops {
          DropContiguousIff(OnRoute(s, left), row);
        }
      }
    }
  }

  lemma AddKeepsTight(s: State, route: RouteId, booking: BookingId)
    requires Tight(s)
    ensures Tight(Step(s, Add(route, booking)).0)
  {
    if Step(s, Add(route, booking)).1.Added? {
      AddOnRoute(s, route, booking);
      AppendKeepsRange(OnRoute(s, route), s.nextStop);
      OneRouteChanged(s, Step(s, Add(route, booking)).0, route);
    }
  }

  lemma RemoveKeepsTight(s: State, route: RouteId, id: Row, order: seq<Row>)
    requires Tight(s) && Legal(s, Remove(route, id, order))
    ensures Tight(Step(s, Remove(route, id, order)).0)
  {
    if id in OnRoute(s, route) {
      assert Contiguous(OnRoute(s, route));
      RemoveFrames(s, route, id, order);
      RemoveClosesUp(s, route, id, order);
      OneRouteChanged(s, Step(s, Remove(route, id, order)).0, route);
    }
  }

  /** Exactly when a call keeps the positions of every route 1..n: adds and removes always. */
  lemma StepKeepsTightIff(s: State, op: Op)
    requires Tight(s) && Legal(s, op)
    ensures Tight(Step(s, op).0) <==> StaysTight(s, op)
  {
    match op
    case Add(route, booking) => AddKeepsTight(s, route, booking);
    case Reorder(route, ids) => ReorderKeepsTightIff(s, route, ids);
    case Remove(route, id, order) => RemoveKeepsTight(s, route, id, order);
    case Place(_, _, _, _) => PlaceKeepsTightIff(s, op);
    case ChangeCrew(_, _) =>
      var s1 := Step(s, op).0;
      assert forall r :: OnRoute(s1, r) == OnRoute(s, r);
      assert Contiguous(OnRoute(s, 0));
      OneRouteChanged(s, s1, 0);
  }

  ghost predicate TightRun(s: State, ops: seq<Op>)
    requires LegalRun(s, ops)
    decreases |ops|
  {
    ops != [] ==> Tight(Step(s, ops[0]).0) && TightRun(Step(s, ops[0]).0, ops[1..])
  }

  ghost predicate TightMoves(s: State, ops: seq<Op>)
    requires LegalRun(s, ops)
    decreases |ops|
  {
    ops != [] ==> StaysTight(s, ops[0]) && TightMoves(Step(s, ops[0]).0, ops[1..])
  }

  /** Exactly which runs of add, reorder, remove and backfill upserts, with the index or without, keep the
      positions of every route 1..n after every step. */
  lemma {:induction false} PositionsStayContiguousIff(s: State, ops: seq<Op>)
    requires Tight(s) && LegalRun(s, ops)
    ensures TightRun(s, ops) <==> TightMoves(s, ops)
    ensures TightRun(s, ops) ==> Tight(Run(s, ops))
    decreases |ops|
  {
    if ops != [] {
      StepKeepsTightIff(s, ops[0]);
      if StaysTight(s, ops[0]) {
        PositionsStayContiguousIff(Step(s, ops[0]).0, ops[1..]);
      }
    }
  }

  /** Every accepted reorder of the run lists all stops of its route. */
  ghost predicate FullReorders(s: State, ops: seq<Op>)
    requires LegalRun(s, ops)
    decreases |ops|
  {
    ops != [] ==>
      && (ops[0].Reorder? && Step(s, ops[0]).1 == Done ==> forall id | id in OnRoute(s, ops[0].route) :: id in ops[0].ids)
      && FullReorders(Step(s, ops[0]).0, ops[1..])
  }

  /** Of the runs of the three stop calls alone: with the index all do, without it those whose accepted reorders
      are full. */
  lemma {:induction false} PositionsStayContiguous(s: State, ops: seq<Op>)
    requires Tight(s) && LegalRun(s, ops) && forall i | 0 <= i < |ops| :: !ops[i].Place?
    requires s.indexed || FullReorders(s, ops)
    ensures TightMoves(s, ops) && Tight(Run(s, ops))
    decreases |ops|
  {
    if ops != [] {
      StepKeepsTightIff(s, ops[0]);
      StepKeepsIndex(s, ops[0]);
      var rest := ops[1..];
      assert forall i | 0 <= i < |rest| :: rest[i] == ops[i + 1];
      PositionsStayContiguous(Step(s, ops[0]).0, rest);
    }
  }

  /** Without the index, a full accepted list is read back in the requested order. */
  lemma FullReorderReadsBack(s: State, route: RouteId, ids: seq<Row>, order: seq<Row>)
    requires route in s.routes && !s.indexed
    requires Distinct(ids) && forall id :: id in ids <==> id in OnRoute(s, route)
    requires Listing(OnRoute(Step(s, Reorder(route, ids)).0, route), order)
    ensures Step(s, Reorder(route, ids)).1 == Done && order == ids
  {
    FoundSize(s, route, ids);
    WriteOnRoute(s, route, ids);
    ReadBack(OnRoute(s, route), ids, order);
  }

  /** With the index, exactly when an accepted list is written: no stop whose place lies in 1..k may be
      left out of the k ids or moved to a later place. */
  lemma IndexedReorderCommitsIff(s: State, route: RouteId, ids: seq<Row>)
    requires route in s.routes && s.indexed
    requires Distinct(ids) && forall id | id in ids :: id in OnRoute(s, route)
    ensures var (s1, out) := Step(s, Reorder(route, ids));
            && (out == Done <==> forall t | t in OnRoute(s, route) && 1 <= OnRoute(s, route)[t] <= |ids| ::
                                   Among(ids, OnRoute(s, route)[t], t))
            && (out == Done ==> InPlace(OnRoute(s1, route), ids))
            && (out != Done ==> out == PlaceTaken && s1 == s)
  {
    FoundSize(s, route, ids);
    WriteOnRoute(s, route, ids);
    var placed := Placed(OnRoute(s, route), ids);
    forall i | 0 <= i < |ids| ensures ids[i] in placed && placed[ids[i]] == i + 1 {
      assert ids[i] in ids;
    }
  }

  /** With the index, exactly on which routes no reorder request ever changes anything: those numbered 1..n. From
      distinct positive places with a gap, the current order itself closes the gap. */
  lemma InertExactlyWhenContiguous(s: State, route: RouteId)
    requires s.indexed && route in s.routes && Injective(OnRoute(s, route))
    requires forall k | k in OnRoute(s, route) :: OnRoute(s, route)[k] >= 1
    ensures (forall ids :: Step(s, Reorder(route, ids)).0 == s) <==> Contiguous(OnRoute(s, route))
  {
    if Contiguous(OnRoute(s, route)) {
      forall ids ensures Step(s, Reorder(route, ids)).0 == s {
        IndexedReorderIsInert(s, route, ids);
      }
    } else {
      var order := GapCloses(s, route);
      assert Step(s, Reorder(route, order)).0 != s;
    }
  }

  lemma GapCloses(s: State, route: RouteId) returns (order: seq<Row>)
    requires s.indexed && route in s.routes && Injective(OnRoute(s, route)) && !Contiguous(OnRoute(s, route))
    requires forall k | k in OnRoute(s, route) :: OnRoute(s, route)[k] >= 1
    ensures OnRoute(Step(s, Reorder(route, order)).0, route) != OnRoute(s, route)
  {
    hide Contiguous;
    hide Placed;
    hide Injective;
    hide InPlace;
    hide Clear;
    var pos := OnRoute(s, route);
    order := ListingExists(pos);
    CloseUp(pos, order);
    FoundSize(s, route, order);
    WriteOnRoute(s, route, order);
  }

  /** With the index, on every state that the three stop calls alone reach from an empty stop table a reorder
      request either names the stops already in places 1..k, in that order, and changes nothing, or fails. So it
      does after backfill upserts that leave no gaps. */
  lemma IndexedReorderNeverReorders(start: State, ops: seq<Op>, route: RouteId, ids: seq<Row>)
    requires start.indexed && start.stops == map[] && LegalRun(start, ops) && route in Run(start, ops).routes
    requires (forall i | 0 <= i < |ops| :: !ops[i].Place?) || TightMoves(start, ops)
    ensures var s := Run(start, ops);
            var (s1, out) := Step(s, Reorder(route, ids));
            && s1 == s
            && (out == Done <==> Distinct(ids) && InPlace(OnRoute(s, route), ids))
  {
    var s := Run(start, ops);
    assert Tight(start) by {
      forall r ensures Contiguous(OnRoute(start, r)) { assert OnRoute(start, r) == map[]; }
    }
    if forall i | 0 <= i < |ops| :: !ops[i].Place? {
      PositionsStayContiguous(start, ops);
    } else {
      PositionsStayContiguousIff(start, ops);
    }
    RunKeepsIndex(start, ops);
    assert Contiguous(OnRoute(s, route));
    IndexedReorderIsInert(s, route, ids);
  }

  /** From places 2 and 3 the index lets a reorder swap two stops. */
  lemma GapLetsReorder(t: State, route: RouteId, a: Row, b: Row)
    requires t.indexed && route in t.routes && a != b && OnRoute(t, route) == map[a := 2, b := 3]
    ensures Step(t, Reorder(route, [b, a])).1 == Done
    ensures OnRoute(Step(t, Reorder(route, [b, a])).0, route) == map[b := 1, a := 2]
  {
    var ids := [b, a];
    FoundSize(t, route, ids);
    WriteOnRoute(t, route, ids);
    assert ids[0] == b && ids[1] == a;
    assert Among(ids, 2, a);
    var placed := Placed(OnRoute(t, route), ids);
    assert ids[IndexOf(ids, a)] == a && ids[IndexOf(ids, b)] == b;
    assert placed[a] == 2 && placed[b] == 1;
    assert placed.Keys == {a, b};
  }

  lemma PlaceElsewhere(s: State, route: RouteId, other: RouteId, x: Row)
    requires x in s.stops && s.stops[x].routeId == route != other && other in s.routes
    requires (forall k | k in s.stops :: s.stops[k].routeId != other) && forall id | id in s.stops :: id < s.nextStop
    ensures var op := Place(other, s.stops[x].bookingId, x, 1);
            && Legal(s, op) && Step(s, op).1 == Done && PlacedRow(s, op.booking, x) == x
            && OnRoute(Step(s, op).0, route) == OnRoute(s, route) - {x}
  {
    var op := Place(other, s.stops[x].bookingId, x, 1);
    assert Routed(s, s.stops[x].bookingId);
    assert !Taken(s, other, 1, x);
    PlaceOnRoutes(s, op);
  }

  lemma GapIsNotContiguous(a: Row, b: Row)
    requires a != b
    ensures !Contiguous(map[a := 2, b := 3])
  {
    var left := map[a := 2, b := 3];
    MapSize(map[a := 2], b, 3);
    assert b in left && left[b] > |left|;
  }

  /** A backfill upsert that moves the first of three stops to another route leaves such a gap. */
  lemma BackfillLeavesAGap(s: State, route: RouteId, other: RouteId, x: Row, a: Row, b: Row)
    requires Tight(s) && s.indexed && route in s.routes && other in s.routes && route != other
    requires x != a && x != b && a != b && OnRoute(s, route) == map[x := 1, a := 2, b := 3]
    requires x in s.stops && forall k | k in s.stops :: s.stops[k].routeId != other
    ensures var op := Place(other, s.stops[x].bookingId, x, 1);
            && Legal(s, op) && Step(s, op).1 == Done && !Tight(Step(s, op).0)
            && OnRoute(Step(s, op).0, route) == map[a := 2, b := 3]
  {
    hide Contiguous;
    hide Step;
    hide Legal;
    assert x in OnRoute(s, route) && s.stops[x].routeId == route;
    PlaceElsewhere(s, route, other, x);
    GapIsNotContiguous(a, b);
    hide Tight;
    hide OnRoute;
    var t := Step(s, Place(other, s.stops[x].bookingId, x, 1)).0;
    assert OnRoute(t, route) == map[a := 2, b := 3];
    TightHere(t, route);
  }

  lemma TightHere(t: State, route: RouteId)
    ensures Tight(t) ==> Contiguous(OnRoute(t, route))
  {}

  lemma StepKeepsIndex(s: State, op: Op)
    requires Legal(s, op)
    ensures Step(s, op).0.indexed == s.indexed
  {}

  lemma {:induction false} RunKeepsIndex(s: State, ops: seq<Op>)
    requires LegalRun(s, ops)
    ensures Run(s, ops).indexed == s.indexed
    decreases |ops|
  {
    if ops != [] {
      RunKeepsIndex(Step(s, ops[0]).0, ops[1..]);
    }
  }
}
