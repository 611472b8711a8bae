/**
 The scheduling backfill (`scripts/scheduling/backfill-bookings.ts`) for one organization: give every
 work order a booking, gather the scheduled ones by crew and UTC day, and number each gathering's route
 stops by start time.

 A booking is known by its work order and a route by its crew and day, the unique keys the script's
 upserts use. The script runs in no transaction: what it wrote before a failing write stays.
 */
module Backfill {
  import opened Prelude
  import opened Positions

  const MS_PER_DAY := 86_400_000

  datatype WorkOrder = WorkOrder(id: Row, start: Option<int>, end: Option<int>, technician: Option<nat>)

  /** What the crew lookups return: a resource per technician, a crew per resource. */
  datatype Lookups = Lookups(defaultCrew: nat, resources: map<nat, nat>, members: map<nat, nat>)

  datatype Booking = Booking(crew: nat, status: nat, start: Option<int>, end: Option<int>)

  datatype Route = Route(crew: nat, day: int)

  datatype Stop = Stop(route: Route, position: int)

  datatype State = State(bookings: map<Row, Booking>, routes: set<Route>, stops: map<Row, Stop>)

  function CrewFor(look: Lookups, w: WorkOrder): nat {
    if w.technician.Some? && w.technician.value in look.resources
       && look.resources[w.technician.value] in look.members
    then look.members[look.resources[w.technician.value]]
    else look.defaultCrew
  }

  /** The crew and the UTC day number of the start; both day and midnight are functions of that number. */
  function RouteFor(look: Lookups, w: WorkOrder): Route
    requires w.start.Some?
  {
    Route(CrewFor(look, w), w.start.value / MS_PER_DAY)
  }

  function BookingFor(look: Lookups, status: nat, w: WorkOrder): Booking {
    Booking(CrewFor(look, w), status, w.start, w.end)
  }

  ghost predicate DistinctOrders(orders: seq<WorkOrder>) {
    forall i, j | 0 <= i < j < |orders| :: orders[i].id != orders[j].id
  }

  function Booked(bookings: map<Row, Booking>, look: Lookups, status: nat, orders: seq<WorkOrder>): map<Row, Booking> {
    if orders == [] then bookings
    else
      var last := orders[|orders| - 1];
      Booked(bookings, look, status, orders[..|orders| - 1])[last.id := BookingFor(look, status, last)]
  }

  // ---------------------------------------------------------------- gathering

  /** An insertion-ordered map from route to the bookings pushed to it. */
  datatype Buckets = Buckets(order: seq<Route>, of: map<Route, seq<Row>>)

  function Push(buckets: Buckets, route: Route, booking: Row): Buckets {
    if route in buckets.of
    then buckets.(of := buckets.of[route := buckets.of[route] + [booking]])
    else Buckets(buckets.order + [route], buckets.of[route := [booking]])
  }

  function Gather(look: Lookups, orders: seq<WorkOrder>): Buckets {
    if orders == [] then Buckets([], map[])
    else
      var last := orders[|orders| - 1];
      var before := Gather(look, orders[..|orders| - 1]);
      if last.start.None? then before else Push(before, RouteFor(look, last), last.id)
  }

  /** Where each scheduled booking belongs. */
  function Target(look: Lookups, orders: seq<WorkOrder>): map<Row, Route> {
    if orders == [] then map[]
    else
      var last := orders[|orders| - 1];
      var before := Target(look, orders[..|orders| - 1]);
      if last.start.None? then before else before[last.id := RouteFor(look, last)]
  }

  ghost predicate Scheduled(orders: seq<WorkOrder>, i: int, b: Row) {
    0 <= i < |orders| && orders[i].id == b && orders[i].start.Some?
  }

  lemma {:induction false} TargetIs(look: Lookups, orders: seq<WorkOrder>)
    requires DistinctOrders(orders)
    ensures forall b :: b in Target(look, orders) <==> exists i :: Scheduled(orders, i, b)
    ensures forall i, b | Scheduled(orders, i, b) :: Target(look, orders)[b] == RouteFor(look, orders[i])
  {
    if orders != [] {
      var init, last := orders[..|orders| - 1], orders[|orders| - 1];
      TargetIs(look, init);
      forall i, b ensures Scheduled(orders, i, b) <==> Scheduled(init, i, b) || (i == |init| && b == last.id && last.start.Some?) {}
      forall b | b in Target(look, orders) ensures exists i :: Scheduled(orders, i, b) {
        if b in Target(look, init) {
          var i :| Scheduled(init, i, b);
          assert Scheduled(orders, i, b);
        } else {
          assert Scheduled(orders, |init|, b);
        }
      }
    }
  }

  ghost predicate DistinctRoutes(order: seq<Route>) {
    forall i, j | 0 <= i < j < |order| :: order[i] != order[j]
  }

  /** Every booking of `target` is in the bucket of its route, once, and in no other. */
  ghost predicate Partition(buckets: Buckets, target: map<Row, Route>) {
    && DistinctRoutes(buckets.order)
    && (forall r :: r in buckets.of <==> r in buckets.order)
    && (forall r | r in buckets.of :: Distinct(buckets.of[r]) && buckets.of[r] != [])
    && (forall r, b | r in buckets.of && b in buckets.of[r] :: b in target && target[b] == r)
    && (forall b | b in target :: target[b] in buckets.of && b in buckets.of[target[b]])
  }

  lemma PushKeepsPartition(buckets: Buckets, target: map<Row, Route>, route: Route, booking: Row)
    requires Partition(buckets, target) && booking !in target
    ensures Partition(Push(buckets, route, booking), target[booking := route])
  {}

  lemma {:induction false} GatherPartitions(look: Lookups, orders: seq<WorkOrder>)
    requires DistinctOrders(orders)
    ensures Partition(Gather(look, orders), Target(look, orders))
  {
    if orders != [] {
      var init, last := orders[..|orders| - 1], orders[|orders| - 1];
      GatherPartitions(look, init);
      TargetIs(look, init);
      if last.start.Some? {
        PushKeepsPartition(Gather(look, init), Target(look, init), RouteFor(look, last), last.id);
      }
    }
  }

  lemma {:induction false} BookedAs(bookings: map<Row, Booking>, look: Lookups, status: nat, orders: seq<WorkOrder>, i: nat)
    requires DistinctOrders(orders) && i < |orders|
    ensures orders[i].id in Booked(bookings, look, status, orders)
    ensures Booked(bookings, look, status, orders)[orders[i].id] == BookingFor(look, status, orders[i])
  {
    if i < |orders| - 1 {
      BookedAs(bookings, look, status, orders[..|orders| - 1], i);
    }
  }

  // ---------------------------------------------------------------- sorting

  /** The sort key; a booking without a start counts as time 0. */
  function StartOf(bookings: map<Row, Booking>, b: Row): int {
    if b in bookings && bookings[b].start.Some? then bookings[b].start.value else 0
  }

  predicate Ascending(bookings: map<Row, Booking>, list: seq<Row>) {
    forall i, j | 0 <= i < j < |list| :: StartOf(bookings, list[i]) <= StartOf(bookings, list[j])
  }

  /** Before the first row that does not start earlier. */
  function Insert(bookings: map<Row, Booking>, x: Row, sorted: seq<Row>): seq<Row> {
    if sorted == [] || StartOf(bookings, x) <= StartOf(bookings, sorted[0]) then [x] + sorted
    else [sorted[0]] + Insert(bookings, x, sorted[1..])
  }

  /** The stable sort by start. */
  function Sorted(bookings: map<Row, Booking>, list: seq<Row>): seq<Row> {
    if list == [] then [] else Insert(bookings, list[0], Sorted(bookings, list[1..]))
  }

  ghost predicate SameMembers(xs: seq<Row>, ys: seq<Row>) { forall b :: b in xs <==> b in ys }

  lemma {:induction false} InsertSorts(bookings: map<Row, Booking>, x: Row, sorted: seq<Row>)
    requires Ascending(bookings, sorted) && Distinct(sorted) && x !in sorted
    ensures var r := Insert(bookings, x, sorted);
            Ascending(bookings, r) && Distinct(r) && SameMembers(r, [x] + sorted)
  {
    if sorted != [] && StartOf(bookings, x) > StartOf(bookings, sorted[0]) {
      var rest := sorted[1..];
      assert sorted == [sorted[0]] + rest;
      InsertSorts(bookings, x, rest);
      var tail := Insert(bookings, x, rest);
      assert sorted[0] !in rest;
      assert sorted[0] !in [x] + rest;
      forall j | 0 <= j < |tail| ensures StartOf(bookings, sorted[0]) <= StartOf(bookings, tail[j]) && tail[j] != sorted[0] {
        assert tail[j] in [x] + rest;
        assert tail[j] in tail;
      }
    }
  }

  /** The sort rearranges the rows so that no row starts before an earlier one. */
  lemma {:induction false} SortedSorts(bookings: map<Row, Booking>, list: seq<Row>)
    requires Distinct(list)
    ensures var r := Sorted(bookings, list);
            Ascending(bookings, r) && Distinct(r) && SameMembers(r, list)
  {
    if list != [] {
      var rest := list[1..];
      assert list == [list[0]] + rest;
      assert forall i | 0 <= i < |rest| :: rest[i] == list[i + 1];
      SortedSorts(bookings, rest);
      var tail := Sorted(bookings, rest);
      assert list[0] !in rest;
      InsertSorts(bookings, list[0], tail);
    }
  }

  ghost predicate DistinctStarts(bookings: map<Row, Booking>, list: seq<Row>) {
    forall a, b | a in list && b in list && StartOf(bookings, a) == StartOf(bookings, b) :: a == b
  }

  /** With distinct starts there is one ascending arrangement. */
  lemma {:induction false} AscendingIsUnique(bookings: map<Row, Booking>, xs: seq<Row>, ys: seq<Row>)
    requires Ascending(bookings, xs) && Ascending(bookings, ys) && Distinct(xs) && Distinct(ys)
    requires SameMembers(xs, ys) && DistinctStarts(bookings, xs)
    ensures xs == ys
  {
    assert ys == [] || ys[0] in ys;
    if xs != [] {
      assert xs[0] in ys && ys != [];
      assert ys[0] in xs;
      assert xs[0] == ys[0];
      var a, b := xs[1..], ys[1..];
      assert xs == [xs[0]] + a && ys == [ys[0]] + b;
      assert forall i | 0 <= i < |a| :: a[i] == xs[i + 1];
      assert forall i | 0 <= i < |b| :: b[i] == ys[i + 1];
      assert xs[0] !in a && xs[0] !in b;
      AscendingIsUnique(bookings, a, b);
    }
  }

  // ---------------------------------------------------------------- writing the stops

  /** The positions of one route's stops. */
  function OnRoute(stops: map<Row, Stop>, route: Route): map<Row, int> {
    map b | b in stops && stops[b].route == route :: stops[b].position
  }

  /** Another stop holds the place. */
  predicate Taken(stops: map<Row, Stop>, route: Route, position: int, b: Row) {
    exists t | t in stops :: t != b && stops[t] == Stop(route, position)
  }

  /** Upserts of `list[i..]`; with the unique index a taken place ends them. */
  function WriteFrom(stops: map<Row, Stop>, route: Route, list: seq<Row>, i: nat, indexed: bool): (map<Row, Stop>, bool)
    requires i <= |list|
    decreases |list| - i
  {
    if i == |list| then (stops, true)
    else if indexed && Taken(stops, route, i + 1, list[i]) then (stops, false)
    else WriteFrom(stops[list[i] := Stop(route, i + 1)], route, list, i + 1, indexed)
  }

  /** The table after the first `n` upserts. */
  ghost predicate Upserted(stops: map<Row, Stop>, route: Route, list: seq<Row>, n: nat, now: map<Row, Stop>)
    requires n <= |list|
  {
    && (forall b :: b in now <==> b in stops || Among(list, n, b))
    && (forall i | 0 <= i < n :: now[list[i]] == Stop(route, i + 1))
    && (forall b | b in stops && !Among(list, n, b) :: now[b] == stops[b])
  }

  lemma UpsertOne(stops: map<Row, Stop>, route: Route, list: seq<Row>, n: nat, now: map<Row, Stop>)
    requires Distinct(list) && n < |list| && Upserted(stops, route, list, n, now)
    ensures Upserted(stops, route, list, n + 1, now[list[n] := Stop(route, n + 1)])
  {
    forall b ensures Among(list, n + 1, b) <==> Among(list, n, b) || b == list[n] {
      if b == list[n] {
        assert list[n] == b;
      }
    }
  }

  lemma UpsertedOnRoute(stops: map<Row, Stop>, route: Route, list: seq<Row>, n: nat, now: map<Row, Stop>)
    requires n <= |list| && Upserted(stops, route, list, n, now)
    ensures Written(OnRoute(stops, route), list, n, OnRoute(now, route))
  {
    var pos, work := OnRoute(stops, route), OnRoute(now, route);
    forall b ensures b in work <==> b in pos || Among(list, n, b) {
      if Among(list, n, b) {
        var i :| 0 <= i < n && list[i] == b;
        assert now[list[i]] == Stop(route, i + 1);
      }
    }
  }

  lemma TakenClashes(stops: map<Row, Stop>, route: Route, list: seq<Row>, i: nat, now: map<Row, Stop>)
    requires Distinct(list) && i < |list| && Upserted(stops, route, list, i, now)
    ensures Taken(now, route, i + 1, list[i]) ==> !Clear(OnRoute(stops, route), list)
    ensures !Taken(now, route, i + 1, list[i]) && ClearTo(OnRoute(stops, route), list, i)
            ==> ClearTo(OnRoute(stops, route), list, i + 1)
  {
    var pos, work := OnRoute(stops, route), OnRoute(now, route);
    UpsertedOnRoute(stops, route, list, i, now);
    if Taken(now, route, i + 1, list[i]) {
      var t :| t in now && t != list[i] && now[t] == Stop(route, i + 1);
      assert t in work && work[t] == i + 1;
      Clash(pos, list, i, work, t);
    } else if ClearTo(pos, list, i) {
      NoClash(pos, list, i, work);
    }
  }

  /** The writes end well exactly when the rows are `Clear` (or there is no index), and then every listed
      booking stands at its place in the list, taken from whatever route it was on. */
  lemma {:induction false} WritesFrom(
    stops: map<Row, Stop>, route: Route, list: seq<Row>, i: nat, now: map<Row, Stop>, indexed: bool)
    requires Distinct(list) && i <= |list| && Upserted(stops, route, list, i, now)
    requires indexed ==> ClearTo(OnRoute(stops, route), list, i)
    ensures var (end, ok) := WriteFrom(now, route, list, i, indexed);
            && (ok <==> (indexed ==> Clear(OnRoute(stops, route), list)))
            && (ok ==> Upserted(stops, route, list, |list|, end))
    decreases |list| - i
  {
    hide Upserted;
    hide Taken;
    hide OnRoute;
    if i < |list| {
      TakenClashes(stops, route, list, i, now);
      if !indexed || !Taken(now, route, i + 1, list[i]) {
        UpsertOne(stops, route, list, i, now);
        WritesFrom(stops, route, list, i + 1, now[list[i] := Stop(route, i + 1)], indexed);
      }
    }
  }

  /** One bucket: other routes only lose the bookings moved here. */
  lemma WritesBucket(stops: map<Row, Stop>, route: Route, list: seq<Row>, indexed: bool)
    requires Distinct(list)
    ensures var (end, ok) := WriteFrom(stops, route, list, 0, indexed);
            && (ok <==> (indexed ==> Clear(OnRoute(stops, route), list)))
            && (ok ==>
                  && (forall i | 0 <= i < |list| :: list[i] in end && end[list[i]] == Stop(route, i + 1))
                  && (forall b | b !in list :: SameStop(stops, end, b)))
  {
    WritesFrom(stops, route, list, 0, stops, indexed);
    var (end, ok) := WriteFrom(stops, route, list, 0, indexed);
    if ok {
      forall b ensures b in list <==> Among(list, |list|, b) {}
    }
  }

  // ---------------------------------------------------------------- all buckets

  /** A bucket with its bookings in the order they are written. */
  datatype Leg = Leg(route: Route, list: seq<Row>)

  function WriteLegs(s: State, plan: seq<Leg>, indexed: bool): (State, bool) {
    if plan == [] then (s, true)
    else
      var last := plan[|plan| - 1];
      var (t, ok) := WriteLegs(s, plan[..|plan| - 1], indexed);
      if !ok then (t, false)
      else
        var (stops, done) := WriteFrom(t.stops, last.route, last.list, 0, indexed);
        (t.(routes := t.routes + {last.route}, stops := stops), done)
  }

  /** Each route has one leg, and each booking is at most once in a leg, the one of its route. */
  ghost predicate Fits(plan: seq<Leg>, target: map<Row, Route>) {
    && (forall j, k | 0 <= j < k < |plan| :: plan[j].route != plan[k].route)
    && (forall k | 0 <= k < |plan| :: Distinct(plan[k].list))
    && (forall k, b | 0 <= k < |plan| && b in plan[k].list :: b in target && target[b] == plan[k].route)
  }

  ghost predicate InLeg(plan: seq<Leg>, k: int, b: Row) { 0 <= k < |plan| && b in plan[k].list }

  ghost predicate Covers(plan: seq<Leg>, target: map<Row, Route>) {
    Fits(plan, target) && forall b | b in target :: exists k :: InLeg(plan, k, b)
  }

  function RoutesOf(plan: seq<Leg>): set<Route> {
    if plan == [] then {} else RoutesOf(plan[..|plan| - 1]) + {plan[|plan| - 1].route}
  }

  ghost predicate Standing(plan: seq<Leg>, now: map<Row, Stop>) {
    forall k, i | 0 <= k < |plan| && 0 <= i < |plan[k].list| ::
      plan[k].list[i] in now && now[plan[k].list[i]] == Stop(plan[k].route, i + 1)
  }

  ghost predicate SameStop(before: map<Row, Stop>, now: map<Row, Stop>, b: Row) {
    (b in now <==> b in before) && (b in now ==> now[b] == before[b])
  }

  lemma LegStays(plan: seq<Leg>, target: map<Row, Route>, before: map<Row, Stop>, now: map<Row, Stop>)
    requires Fits(plan, target) && plan != []
    requires var last := plan[|plan| - 1];
             && Standing(plan[..|plan| - 1], before)
             && (forall i | 0 <= i < |last.list| :: last.list[i] in now && now[last.list[i]] == Stop(last.route, i + 1))
             && (forall b | b !in last.list :: SameStop(before, now, b))
    ensures Standing(plan, now)
  {
    var init, last := plan[..|plan| - 1], plan[|plan| - 1];
    forall k, i | 0 <= k < |plan| && 0 <= i < |plan[k].list|
      ensures plan[k].list[i] in now && now[plan[k].list[i]] == Stop(plan[k].route, i + 1)
    {
      if k < |init| {
        var b := plan[k].list[i];
        assert init[k] == plan[k] && b in plan[k].list;
        assert plan[k].route != plan[|plan| - 1].route && target[b] == plan[k].route;
        assert b !in plan[|plan| - 1].list;
        assert SameStop(before, now, b);
      }
    }
  }

  /** When all writes go through, every booking of the plan stands at its place in its leg, and no other
      booking's stop has changed. */
  lemma {:induction false} LegsSettle(s: State, plan: seq<Leg>, target: map<Row, Route>, indexed: bool)
    requires Fits(plan, target) && WriteLegs(s, plan, indexed).1
    ensures var t := WriteLegs(s, plan, indexed).0;
            && Standing(plan, t.stops)
            && (forall b | !(exists k :: InLeg(plan, k, b)) :: SameStop(s.stops, t.stops, b))
            && t.bookings == s.bookings && t.routes == s.routes + RoutesOf(plan)
    decreases |plan|
  {
    if plan != [] {
      var init, last := plan[..|plan| - 1], plan[|plan| - 1];
      assert Fits(init, target);
      LegsSettle(s, init, target, indexed);
      var mid, now := WriteLegs(s, init, indexed).0.stops, WriteLegs(s, plan, indexed).0.stops;
      WritesBucket(mid, last.route, last.list, indexed);
      LegStays(plan, target, mid, now);
      forall b | !(exists k :: InLeg(plan, k, b)) ensures SameStop(s.stops, now, b) {
        assert !InLeg(plan, |plan| - 1, b);
        forall k ensures !InLeg(init, k, b) {
          assert InLeg(init, k, b) ==> InLeg(plan, k, b);
        }
        assert SameStop(s.stops, mid, b);
      }
    }
  }

  function RowsOf(plan: seq<Leg>): set<Row> {
    if plan == [] then {} else RowsOf(plan[..|plan| - 1]) + Rows(plan[|plan| - 1].list)
  }

  lemma {:induction false} InRowsOf(plan: seq<Leg>, b: Row)
    ensures b in RowsOf(plan) <==> exists k :: InLeg(plan, k, b)
  {
    if plan != [] {
      var init := plan[..|plan| - 1];
      InRowsOf(init, b);
      forall k ensures InLeg(plan, k, b) <==> InLeg(init, k, b) || (k == |init| && b in plan[k].list) {}
      if b in plan[|plan| - 1].list {
        assert InLeg(plan, |plan| - 1, b);
      }
      if b in RowsOf(init) {
        var k :| InLeg(init, k, b);
        assert InLeg(plan, k, b);
      }
    }
  }

  /** What a later leg finds on its route: the stops there before, less those moved away by earlier legs. */
  lemma RouteLoses(s: State, plan: seq<Leg>, target: map<Row, Route>, indexed: bool, route: Route)
    requires Fits(plan, target) && WriteLegs(s, plan, indexed).1
    requires forall k | 0 <= k < |plan| :: plan[k].route != route
    ensures OnRoute(WriteLegs(s, plan, indexed).0.stops, route) == OnRoute(s.stops, route) - RowsOf(plan)
  {
    LegsSettle(s, plan, target, indexed);
    var now := WriteLegs(s, plan, indexed).0.stops;
    forall b ensures b in RowsOf(plan) ==> b in now && now[b].route != route
             ensures b !in RowsOf(plan) ==> SameStop(s.stops, now, b)
    {
      InRowsOf(plan, b);
      if b in RowsOf(plan) {
        var k :| InLeg(plan, k, b);
        var i := IndexOf(plan[k].list, b);
        assert plan[k].list[i] in now && now[plan[k].list[i]] == Stop(plan[k].route, i + 1);
      }
    }
  }

  /** Leg `k` is refused no place by a stop that is on its route, has not been moved away by an earlier leg,
      and is not due at its own place or an earlier one in this leg. */
  ghost predicate Unrefused(stops: map<Row, Stop>, plan: seq<Leg>, k: int)
    requires 0 <= k < |plan|
  {
    Clear(OnRoute(stops, plan[k].route) - RowsOf(plan[..k]), plan[k].list)
  }

  lemma LastLegIff(s: State, plan: seq<Leg>, target: map<Row, Route>, indexed: bool)
    requires Fits(plan, target) && plan != [] && WriteLegs(s, plan[..|plan| - 1], indexed).1
    ensures WriteLegs(s, plan, indexed).1 <==> (indexed ==> Unrefused(s.stops, plan, |plan| - 1))
  {
    hide Clear;
    hide OnRoute;
    var init, last := plan[..|plan| - 1], plan[|plan| - 1];
    assert Fits(init, target);
    RouteLoses(s, init, target, indexed, last.route);
    WritesBucket(WriteLegs(s, init, indexed).0.stops, last.route, last.list, indexed);
  }

  /** Exactly when a run completes: without the index always; with it when no leg is refused a place. */
  lemma {:induction false} CompletesIff(s: State, plan: seq<Leg>, target: map<Row, Route>, indexed: bool)
    requires Fits(plan, target)
    ensures WriteLegs(s, plan, indexed).1 <==>
              (indexed ==> forall k | 0 <= k < |plan| :: Unrefused(s.stops, plan, k))
    decreases |plan|
  {
    if plan != [] {
      var init := plan[..|plan| - 1];
      assert Fits(init, target);
      CompletesIff(s, init, target, indexed);
      forall k | 0 <= k < |init| ensures Unrefused(s.stops, init, k) == Unrefused(s.stops, plan, k) {
        assert init[..k] == plan[..k];
      }
      if WriteLegs(s, init, indexed).1 {
        LastLegIff(s, plan, target, indexed);
      }
      hide Unrefused;
    }
  }
}
