/**
 Whole runs of the scheduling backfill: what a completed run leaves, what a second run changes, and when the
 unique index lets a run complete.
 */
module BackfillRuns {
  import opened Prelude
  import opened Positions
  import opened Backfill

  // ---------------------------------------------------------------- the whole script

  /** The database returns the bookings of a bucket in any order. */
  ghost predicate ReadsBack(buckets: Buckets, read: map<Route, seq<Row>>) {
    forall r | r in buckets.of :: r in read && Distinct(read[r]) && SameMembers(read[r], buckets.of[r])
  }

  function ReadOf(read: map<Route, seq<Row>>, r: Route): seq<Row> { if r in read then read[r] else [] }

  function PlanOf(bookings: map<Row, Booking>, order: seq<Route>, read: map<Route, seq<Row>>): (plan: seq<Leg>)
    ensures |plan| == |order|
    ensures forall k | 0 <= k < |plan| :: plan[k] == Leg(order[k], Sorted(bookings, ReadOf(read, order[k])))
  {
    if order == [] then []
    else
      var last := order[|order| - 1];
      PlanOf(bookings, order[..|order| - 1], read) + [Leg(last, Sorted(bookings, ReadOf(read, last)))]
  }

  /** Each leg is its bucket, in ascending order of start. */
  ghost predicate LegsSorted(bookings: map<Row, Booking>, buckets: Buckets, plan: seq<Leg>) {
    && |plan| == |buckets.order|
    && forall k | 0 <= k < |plan| ::
         && plan[k].route == buckets.order[k] && buckets.order[k] in buckets.of
         && Distinct(plan[k].list) && Ascending(bookings, plan[k].list)
         && SameMembers(plan[k].list, buckets.of[plan[k].route])
  }

  lemma PlanSorts(bookings: map<Row, Booking>, buckets: Buckets, target: map<Row, Route>, read: map<Route, seq<Row>>)
    requires Partition(buckets, target) && ReadsBack(buckets, read)
    ensures LegsSorted(bookings, buckets, PlanOf(bookings, buckets.order, read))
  {
    var plan := PlanOf(bookings, buckets.order, read);
    forall k | 0 <= k < |plan|
      ensures buckets.order[k] in buckets.of && plan[k].route == buckets.order[k]
      ensures Distinct(plan[k].list) && Ascending(bookings, plan[k].list)
      ensures SameMembers(plan[k].list, buckets.of[plan[k].route])
    {
      assert buckets.order[k] in buckets.order;
      SortedSorts(bookings, read[buckets.order[k]]);
    }
  }

  lemma SortedLegsCover(bookings: map<Row, Booking>, buckets: Buckets, target: map<Row, Route>, plan: seq<Leg>)
    requires Partition(buckets, target) && LegsSorted(bookings, buckets, plan)
    ensures Covers(plan, target)
  {
    forall k, b | 0 <= k < |plan| && b in plan[k].list ensures b in target && target[b] == plan[k].route {
      assert b in buckets.of[plan[k].route];
    }
    forall b | b in target ensures exists k :: InLeg(plan, k, b) {
      assert target[b] in buckets.order;
      var k :| 0 <= k < |buckets.order| && buckets.order[k] == target[b];
      assert InLeg(plan, k, b);
    }
  }

  lemma {:induction false} InRoutesOf(plan: seq<Leg>, r: Route)
    ensures r in RoutesOf(plan) <==> exists k | 0 <= k < |plan| :: plan[k].route == r
  {
    if plan != [] {
      InRoutesOf(plan[..|plan| - 1], r);
      if r == plan[|plan| - 1].route {
        assert plan[|plan| - 1].route == r;
      }
    }
  }

  /** One run of the script: what it leaves, and whether it got to the end. */
  function Script(
    s: State, status: nat, look: Lookups, orders: seq<WorkOrder>, read: map<Route, seq<Row>>, indexed: bool): (State, bool)
  {
    var bookings := Booked(s.bookings, look, status, orders);
    WriteLegs(s.(bookings := bookings), PlanOf(bookings, Gather(look, orders).order, read), indexed)
  }

  /** A booking of the plan stands in its route's leg, at its place there. */
  lemma StandsInLeg(plan: seq<Leg>, target: map<Row, Route>, now: map<Row, Stop>, b: Row) returns (k: nat, i: nat)
    requires Covers(plan, target) && Standing(plan, now) && b in target
    ensures k < |plan| && i < |plan[k].list| && plan[k].route == target[b] && plan[k].list[i] == b
    ensures b in now && now[b] == Stop(target[b], i + 1)
  {
    k :| InLeg(plan, k, b);
    i := IndexOf(plan[k].list, b);
  }

  lemma CoveredSettle(s: State, plan: seq<Leg>, target: map<Row, Route>, indexed: bool)
    requires Covers(plan, target) && WriteLegs(s, plan, indexed).1
    ensures var t := WriteLegs(s, plan, indexed).0;
            && Standing(plan, t.stops) && (forall b | b !in target :: SameStop(s.stops, t.stops, b))
            && t.bookings == s.bookings && t.routes == s.routes + RoutesOf(plan)
  {
    LegsSettle(s, plan, target, indexed);
    var now := WriteLegs(s, plan, indexed).0.stops;
    forall b | b !in target ensures SameStop(s.stops, now, b) {
      forall k ensures !InLeg(plan, k, b) {}
    }
  }

  /** A completed run, as its plan. */
  lemma ScriptSettles(
    s: State, status: nat, look: Lookups, orders: seq<WorkOrder>, read: map<Route, seq<Row>>, indexed: bool)
    returns (plan: seq<Leg>)
    requires DistinctOrders(orders) && ReadsBack(Gather(look, orders), read)
    requires Script(s, status, look, orders, read, indexed).1
    ensures var t := Script(s, status, look, orders, read, indexed).0;
            && Covers(plan, Target(look, orders)) && LegsSorted(t.bookings, Gather(look, orders), plan)
            && Partition(Gather(look, orders), Target(look, orders))
            && Standing(plan, t.stops)
            && (forall b | b !in Target(look, orders) :: SameStop(s.stops, t.stops, b))
            && t.bookings == Booked(s.bookings, look, status, orders) && t.routes == s.routes + RoutesOf(plan)
  {
    hide Gather;
    hide Booked;
    hide Target;
    hide ReadsBack;
    hide DistinctOrders;
    hide Partition;
    hide LegsSorted;
    hide Standing;
    hide PlanOf;
    hide WriteLegs;
    hide Covers;
    var bookings, buckets, target := Booked(s.bookings, look, status, orders), Gather(look, orders), Target(look, orders);
    GatherPartitions(look, orders);
    plan := PlanOf(bookings, buckets.order, read);
    PlanSorts(bookings, buckets, target, read);
    SortedLegsCover(bookings, buckets, target, plan);
    CoveredSettle(s.(bookings := bookings), plan, target, indexed);
  }

  /** After a completed run each scheduled work order's booking has its crew and start, and stands on the
      route of that crew and of the start's UTC day, in one of the places 1..n of the n gathered there. */
  lemma ScheduledBookingIsRouted(
    s: State, status: nat, look: Lookups, orders: seq<WorkOrder>, read: map<Route, seq<Row>>, indexed: bool, i: nat)
    requires DistinctOrders(orders) && ReadsBack(Gather(look, orders), read)
    requires Script(s, status, look, orders, read, indexed).1
    requires i < |orders| && orders[i].start.Some?
    ensures var (t, b, buckets) := (Script(s, status, look, orders, read, indexed).0, orders[i].id, Gather(look, orders));
            && b in t.bookings && t.bookings[b] == BookingFor(look, status, orders[i])
            && b in t.stops && t.stops[b].route == Route(t.bookings[b].crew, orders[i].start.value / MS_PER_DAY)
            && t.stops[b].route in t.routes && t.stops[b].route in buckets.of
            && 1 <= t.stops[b].position <= |buckets.of[t.stops[b].route]|
  {
    var t, b := Script(s, status, look, orders, read, indexed).0, orders[i].id;
    var plan := ScriptSettles(s, status, look, orders, read, indexed);
    hide Script;
    hide Gather;
    TargetIs(look, orders);
    assert Scheduled(orders, i, b);
    BookedAs(s.bookings, look, status, orders, i);
    var k, p := StandsInLeg(plan, Target(look, orders), t.stops, b);
    InRoutesOf(plan, plan[k].route);
    SameLength(plan[k].list, Gather(look, orders).of[plan[k].route]);
  }

  /** The crew a work order's technician works in, by way of a resource, if all of these are known; else the default. */
  ghost predicate CrewIs(look: Lookups, technician: Option<nat>, crew: nat) {
    if exists resource :: technician.Some? && technician.value in look.resources
                          && look.resources[technician.value] == resource && resource in look.members
    then look.resources[technician.value] in look.members && crew == look.members[look.resources[technician.value]]
    else crew == look.defaultCrew
  }

  /** After a run, completed or not: every work order has a booking with its crew, times and the status chosen, scheduled
      or not, and bookings of other work orders are as they were. A route's day is the UTC day its bookings start. */
  lemma EveryOrderIsBooked(
    s: State, status: nat, look: Lookups, orders: seq<WorkOrder>, read: map<Route, seq<Row>>, indexed: bool, i: nat, b: Row)
    requires DistinctOrders(orders) && i < |orders|
    ensures var t := Script(s, status, look, orders, read, indexed).0;
            && orders[i].id in t.bookings
            && CrewIs(look, orders[i].technician, t.bookings[orders[i].id].crew)
            && t.bookings[orders[i].id].status == status
            && t.bookings[orders[i].id].start == orders[i].start && t.bookings[orders[i].id].end == orders[i].end
    ensures var t := Script(s, status, look, orders, read, indexed).0;
            (forall j | 0 <= j < |orders| :: orders[j].id != b) ==>
              (b in t.bookings <==> b in s.bookings) && (b in s.bookings ==> t.bookings[b] == s.bookings[b])
    ensures orders[i].start.Some? ==>
              RouteFor(look, orders[i]).day * 86_400_000 <= orders[i].start.value < (RouteFor(look, orders[i]).day + 1) * 86_400_000
              && CrewIs(look, orders[i].technician, RouteFor(look, orders[i]).crew)
  {
    var bookings := Booked(s.bookings, look, status, orders);
    BookedAs(s.bookings, look, status, orders, i);
    if forall j | 0 <= j < |orders| :: orders[j].id != b {
      BookedElsewhere(s.bookings, look, status, orders, b);
    }
    WritesNoBooking(s.(bookings := bookings), PlanOf(bookings, Gather(look, orders).order, read), indexed);
  }

  lemma {:induction false} WritesNoBooking(s: State, plan: seq<Leg>, indexed: bool)
    ensures WriteLegs(s, plan, indexed).0.bookings == s.bookings
    decreases |plan|
  {
    if plan != [] {
      WritesNoBooking(s, plan[..|plan| - 1], indexed);
    }
  }

  /** Two bookings of one route hold different places, the one that starts earlier the lower. */
  lemma EarlierStartsComeFirst(
    s: State, status: nat, look: Lookups, orders: seq<WorkOrder>, read: map<Route, seq<Row>>, indexed: bool,
    i: nat, j: nat)
    requires DistinctOrders(orders) && ReadsBack(Gather(look, orders), read)
    requires Script(s, status, look, orders, read, indexed).1
    requires i < |orders| && j < |orders| && i != j && orders[i].start.Some? && orders[j].start.Some?
    requires RouteFor(look, orders[i]) == RouteFor(look, orders[j])
    ensures var stops := Script(s, status, look, orders, read, indexed).0.stops;
            && orders[i].id in stops && orders[j].id in stops
            && stops[orders[i].id].position != stops[orders[j].id].position
            && (orders[i].start.value < orders[j].start.value ==>
                  stops[orders[i].id].position < stops[orders[j].id].position)
  {
    var t, a, b := Script(s, status, look, orders, read, indexed).0, orders[i].id, orders[j].id;
    var plan := ScriptSettles(s, status, look, orders, read, indexed);
    hide Script;
    hide Gather;
    TargetIs(look, orders);
    assert Scheduled(orders, i, a) && Scheduled(orders, j, b);
    BookedAs(s.bookings, look, status, orders, i);
    BookedAs(s.bookings, look, status, orders, j);
    var k, p := StandsInLeg(plan, Target(look, orders), t.stops, a);
    var l, q := StandsInLeg(plan, Target(look, orders), t.stops, b);
    assert k == l;
    assert StartOf(t.bookings, plan[k].list[p]) == orders[i].start.value;
    assert StartOf(t.bookings, plan[l].list[q]) == orders[j].start.value;
  }

  lemma SameLength(xs: seq<Row>, ys: seq<Row>)
    requires Distinct(xs) && Distinct(ys) && SameMembers(xs, ys)
    ensures |xs| == |ys|
  {
    assert Rows(xs) == Rows(ys);
    ListSize(xs);
    ListSize(ys);
  }

  // ---------------------------------------------------------------- a second run

  ghost predicate SameOrders(xs: seq<WorkOrder>, ys: seq<WorkOrder>) { forall w :: w in xs <==> w in ys }

  lemma SameTarget(look: Lookups, xs: seq<WorkOrder>, ys: seq<WorkOrder>)
    requires DistinctOrders(xs) && DistinctOrders(ys) && SameOrders(xs, ys)
    ensures Target(look, xs) == Target(look, ys)
  {
    TargetIs(look, xs);
    TargetIs(look, ys);
    TargetPart(look, xs, ys);
    TargetPart(look, ys, xs);
  }

  lemma TargetPart(look: Lookups, xs: seq<WorkOrder>, ys: seq<WorkOrder>)
    requires DistinctOrders(xs) && DistinctOrders(ys) && SameOrders(xs, ys)
    ensures forall b | b in Target(look, xs) :: b in Target(look, ys) && Target(look, ys)[b] == Target(look, xs)[b]
  {
    TargetIs(look, xs);
    TargetIs(look, ys);
    forall b | b in Target(look, xs) ensures b in Target(look, ys) && Target(look, ys)[b] == Target(look, xs)[b] {
      var i :| Scheduled(xs, i, b);
      assert xs[i] in xs;
      var j :| 0 <= j < |ys| && ys[j] == xs[i];
      assert Scheduled(ys, j, b);
    }
  }

  lemma {:induction false} BookedElsewhere(bookings: map<Row, Booking>, look: Lookups, status: nat, orders: seq<WorkOrder>, b: Row)
    requires forall i | 0 <= i < |orders| :: orders[i].id != b
    ensures b in Booked(bookings, look, status, orders) <==> b in bookings
    ensures b in bookings ==> Booked(bookings, look, status, orders)[b] == bookings[b]
  {
    if orders != [] {
      BookedElsewhere(bookings, look, status, orders[..|orders| - 1], b);
    }
  }

  /** The booking upserts of a second run change nothing. */
  lemma BookedTwice(bookings: map<Row, Booking>, look: Lookups, status: nat, xs: seq<WorkOrder>, ys: seq<WorkOrder>)
    requires DistinctOrders(xs) && DistinctOrders(ys) && SameOrders(xs, ys)
    ensures Booked(Booked(bookings, look, status, xs), look, status, ys) == Booked(bookings, look, status, xs)
  {
    var once := Booked(bookings, look, status, xs);
    var twice := Booked(once, look, status, ys);
    forall b ensures (b in twice <==> b in once) && (b in once ==> twice[b] == once[b]) {
      if j :| 0 <= j < |ys| && ys[j].id == b {
        BookedAs(once, look, status, ys, j);
        assert ys[j] in ys;
        var i :| 0 <= i < |xs| && xs[i] == ys[j];
        BookedAs(bookings, look, status, xs, i);
      } else {
        BookedElsewhere(once, look, status, ys, b);
      }
    }
  }

  ghost predicate SameLegs(plan: seq<Leg>, again: seq<Leg>) {
    forall j, k | 0 <= j < |plan| && 0 <= k < |again| && plan[j].route == again[k].route :: plan[j].list == again[k].list
  }

  /** Two plans for one target leave every booking on the same route, and with the same legs in the same place. */
  lemma SecondPlan(plan: seq<Leg>, again: seq<Leg>, target: map<Row, Route>, now: map<Row, Stop>, later: map<Row, Stop>)
    requires Covers(plan, target) && Covers(again, target) && Standing(plan, now) && Standing(again, later)
    requires forall b | b !in target :: SameStop(now, later, b)
    ensures forall b | b in target :: b in now && b in later && later[b].route == now[b].route
    ensures SameLegs(plan, again) ==> later == now
  {
    forall b | b in target
      ensures b in now && b in later && later[b].route == now[b].route
      ensures SameLegs(plan, again) ==> later[b] == now[b]
    {
      var j, p := StandsInLeg(plan, target, now, b);
      var k, q := StandsInLeg(again, target, later, b);
      if SameLegs(plan, again) {
        assert plan[j].list == again[k].list;
        assert p == q;
      }
    }
    if SameLegs(plan, again) {
      forall b ensures SameStop(now, later, b) {}
    }
  }

  /** Every leg carries some booking, so the routes of a plan are those of its target. */
  lemma RoutesWithin(
    plan: seq<Leg>, other: seq<Leg>, buckets: Buckets, target: map<Row, Route>, bookings: map<Row, Booking>)
    requires Partition(buckets, target) && LegsSorted(bookings, buckets, plan) && Covers(other, target)
    ensures RoutesOf(plan) <= RoutesOf(other)
  {
    hide Ascending;
    hide Distinct;
    hide SameMembers;
    forall r | r in RoutesOf(plan) ensures r in RoutesOf(other) {
      InRoutesOf(plan, r);
      var k :| 0 <= k < |plan| && plan[k].route == r;
      assert plan[k].route == buckets.order[k] && r in buckets.of;
      var b := buckets.of[r][0];
      assert b in buckets.of[r];
      assert b in target && target[b] == r;
      var j :| InLeg(other, j, b);
      InRoutesOf(other, r);
    }
  }

  /** No two bookings gathered for one route start together. */
  ghost predicate NoTies(look: Lookups, orders: seq<WorkOrder>) {
    forall i, j | 0 <= i < j < |orders| && orders[i].start.Some? && orders[j].start.Some?
                  && RouteFor(look, orders[i]) == RouteFor(look, orders[j]) ::
      orders[i].start.value != orders[j].start.value
  }

  lemma NoTiesDistinct(
    look: Lookups, status: nat, orders: seq<WorkOrder>, before: map<Row, Booking>, r: Route, list: seq<Row>)
    requires DistinctOrders(orders) && NoTies(look, orders)
    requires forall b | b in list :: b in Target(look, orders) && Target(look, orders)[b] == r
    ensures DistinctStarts(Booked(before, look, status, orders), list)
  {
    var bookings := Booked(before, look, status, orders);
    TargetIs(look, orders);
    forall a, b | a in list && b in list && StartOf(bookings, a) == StartOf(bookings, b) ensures a == b {
      var m :| Scheduled(orders, m, a);
      var n :| Scheduled(orders, n, b);
      BookedAs(before, look, status, orders, m);
      BookedAs(before, look, status, orders, n);
    }
  }

  lemma SameLeg(
    look: Lookups, status: nat, orders: seq<WorkOrder>, before: map<Row, Booking>, r: Route, list: seq<Row>, relist: seq<Row>)
    requires DistinctOrders(orders) && NoTies(look, orders)
    requires forall b :: b in list <==> b in Target(look, orders) && Target(look, orders)[b] == r
    requires SameMembers(list, relist) && Distinct(list) && Distinct(relist)
    requires var bookings := Booked(before, look, status, orders);
             Ascending(bookings, list) && Ascending(bookings, relist)
    ensures list == relist
  {
    NoTiesDistinct(look, status, orders, before, r, list);
    AscendingIsUnique(Booked(before, look, status, orders), list, relist);
  }

  /** The bookings of a leg are all those of its route. */
  lemma LegIsWhole(plan: seq<Leg>, target: map<Row, Route>, k: nat, b: Row)
    requires Covers(plan, target) && k < |plan|
    ensures b in plan[k].list <==> b in target && target[b] == plan[k].route
  {
    if b in target && target[b] == plan[k].route {
      var j :| InLeg(plan, j, b);
      assert plan[j].route == target[b];
    }
  }

  lemma NoTiesSameLegs(
    look: Lookups, status: nat, orders: seq<WorkOrder>, before: map<Row, Booking>,
    buckets: Buckets, rebuckets: Buckets, plan: seq<Leg>, again: seq<Leg>)
    requires DistinctOrders(orders) && NoTies(look, orders)
    requires Covers(plan, Target(look, orders)) && Covers(again, Target(look, orders))
    requires LegsSorted(Booked(before, look, status, orders), buckets, plan)
    requires LegsSorted(Booked(before, look, status, orders), rebuckets, again)
    ensures SameLegs(plan, again)
  {
    forall j, k | 0 <= j < |plan| && 0 <= k < |again| && plan[j].route == again[k].route
      ensures plan[j].list == again[k].list
    {
      forall b
        ensures b in plan[j].list <==> b in Target(look, orders) && Target(look, orders)[b] == plan[j].route
        ensures b in again[k].list <==> b in plan[j].list
      {
        LegIsWhole(plan, Target(look, orders), j, b);
        LegIsWhole(again, Target(look, orders), k, b);
      }
      assert Distinct(plan[j].list) && Distinct(again[k].list);
      SameLeg(look, status, orders, before, plan[j].route, plan[j].list, again[k].list);
    }
  }

  /** A second run over the same work orders and crews, read in any order: every booking keeps its route and
      every row but the positions is as it was; when no two bookings of a route start together the whole
      state is as it was. */
  lemma SecondRun(
    s: State, status: nat, look: Lookups, orders: seq<WorkOrder>, again: seq<WorkOrder>,
    read: map<Route, seq<Row>>, reread: map<Route, seq<Row>>, indexed: bool)
    requires DistinctOrders(orders) && DistinctOrders(again) && SameOrders(orders, again)
    requires ReadsBack(Gather(look, orders), read) && ReadsBack(Gather(look, again), reread)
    requires Script(s, status, look, orders, read, indexed).1
    requires Script(Script(s, status, look, orders, read, indexed).0, status, look, again, reread, indexed).1
    ensures var t := Script(s, status, look, orders, read, indexed).0;
            var u := Script(t, status, look, again, reread, indexed).0;
            && u.bookings == t.bookings && u.routes == t.routes
            && (forall b | b in Target(look, orders) :: b in t.stops && b in u.stops && u.stops[b].route == t.stops[b].route)
            && (forall b | b !in Target(look, orders) :: SameStop(t.stops, u.stops, b))
            && (NoTies(look, orders) ==> u == t)
  {
    hide Script;
    hide Gather;
    hide Covers;
    hide LegsSorted;
    hide Standing;
    hide Partition;
    hide ReadsBack;
    hide DistinctOrders;
    hide SameOrders;
    hide Booked;
    hide Target;
    hide NoTies;
    hide SameLegs;
    var t := Script(s, status, look, orders, read, indexed).0;
    var u := Script(t, status, look, again, reread, indexed).0;
    var plan := ScriptSettles(s, status, look, orders, read, indexed);
    var plan1 := ScriptSettles(t, status, look, again, reread, indexed);
    SameTarget(look, orders, again);
    BookedTwice(s.bookings, look, status, orders, again);
    SecondPlan(plan, plan1, Target(look, orders), t.stops, u.stops);
    RoutesWithin(plan1, plan, Gather(look, again), Target(look, orders), t.bookings);
    if NoTies(look, orders) {
      NoTiesSameLegs(look, status, orders, s.bookings, Gather(look, orders), Gather(look, again), plan, plan1);
    }
  }

  // ---------------------------------------------------------------- the unique index

  lemma EmptyIsUnrefused(stops: map<Row, Stop>, plan: seq<Leg>, k: nat)
    requires k < |plan| && OnRoute(stops, plan[k].route) == map[]
    ensures Unrefused(stops, plan, k)
  {}

  lemma NoneOnRoutes(stops: map<Row, Stop>, route: Route)
    requires forall b | b in stops :: stops[b].route != route
    ensures OnRoute(stops, route) == map[]
  {}

  /** Routes that have no stops yet are always filled, index or not. */
  lemma FreshRunCompletes(
    s: State, status: nat, look: Lookups, orders: seq<WorkOrder>, read: map<Route, seq<Row>>, indexed: bool)
    requires DistinctOrders(orders) && ReadsBack(Gather(look, orders), read)
    requires forall b | b in s.stops :: s.stops[b].route !in Gather(look, orders).of
    ensures Script(s, status, look, orders, read, indexed).1
  {
    var bookings, buckets, target := Booked(s.bookings, look, status, orders), Gather(look, orders), Target(look, orders);
    GatherPartitions(look, orders);
    var plan := PlanOf(bookings, buckets.order, read);
    PlanSorts(bookings, buckets, target, read);
    SortedLegsCover(bookings, buckets, target, plan);
    CompletesIff(s.(bookings := bookings), plan, target, indexed);
    forall k | 0 <= k < |plan| ensures Unrefused(s.stops, plan, k) {
      assert plan[k].route in buckets.of;
      NoneOnRoutes(s.stops, plan[k].route);
      EmptyIsUnrefused(s.stops, plan, k);
    }
  }

  lemma WholeListIsContiguous(pos: map<Row, int>, list: seq<Row>)
    requires Distinct(list) && InPlace(pos, list) && forall b :: b in pos <==> b in list
    ensures Contiguous(pos)
  {
    ListFits(pos, list);
    assert Placed(pos, list) == pos by {
      forall b | b in pos ensures Placed(pos, list)[b] == pos[b] {
        assert list[IndexOf(list, b)] == b;
      }
    }
    FullListIsContiguous(pos, list);
  }

  /** The stops of the run's own bookings on a route. */
  function Own(now: map<Row, Stop>, target: map<Row, Route>, route: Route): map<Row, int> {
    map b | b in now && b in target && now[b].route == route :: now[b].position
  }

  lemma LegOnRoute(plan: seq<Leg>, target: map<Row, Route>, now: map<Row, Stop>, j: nat)
    requires Covers(plan, target) && Standing(plan, now) && j < |plan|
    ensures var own := Own(now, target, plan[j].route);
            InPlace(own, plan[j].list) && Contiguous(own) && forall b :: b in own <==> b in plan[j].list
  {
    var own := Own(now, target, plan[j].route);
    forall b ensures b in own <==> b in plan[j].list {
      LegIsWhole(plan, target, j, b);
      if b in target {
        var l, p := StandsInLeg(plan, target, now, b);
      }
    }
    WholeListIsContiguous(own, plan[j].list);
  }

  /** Stops of other bookings on the plan's routes hold none of the places the plan fills. */
  ghost predicate OutOfTheWay(plan: seq<Leg>, target: map<Row, Route>, now: map<Row, Stop>) {
    forall j, b | 0 <= j < |plan| && b in now && b !in target && now[b].route == plan[j].route ::
      !(1 <= now[b].position <= |plan[j].list|)
  }

  /** With the index, a completed run leaves them so. */
  lemma CompletedIsOutOfTheWay(s: State, plan: seq<Leg>, target: map<Row, Route>)
    requires Covers(plan, target) && WriteLegs(s, plan, true).1
    ensures OutOfTheWay(plan, target, WriteLegs(s, plan, true).0.stops)
  {
    CompletesIff(s, plan, target, true);
    CoveredSettle(s, plan, target, true);
    var now := WriteLegs(s, plan, true).0.stops;
    forall j, b | 0 <= j < |plan| && b in now && b !in target && now[b].route == plan[j].route
      ensures !(1 <= now[b].position <= |plan[j].list|)
    {
      assert SameStop(s.stops, now, b);
      assert Unrefused(s.stops, plan, j);
      InRowsOf(plan[..j], b);
      forall k ensures !InLeg(plan[..j], k, b) {}
      var list, pos := plan[j].list, OnRoute(s.stops, plan[j].route) - RowsOf(plan[..j]);
      assert b in pos && b !in list;
      forall n | 0 <= n <= |list| ensures !Among(list, n, b) {}
    }
  }

  /** Rows outside the places to be written do not matter. */
  lemma ClearWithin(pos: map<Row, int>, own: map<Row, int>, list: seq<Row>)
    requires forall b | b in own :: b in pos && pos[b] == own[b]
    requires forall b | b in pos && b !in own :: !(1 <= pos[b] <= |list|)
    ensures Clear(pos, list) <==> Clear(own, list)
  {}

  lemma NotMovedAway(plan: seq<Leg>, again: seq<Leg>, target: map<Row, Route>, now: map<Row, Stop>, k: nat, b: Row)
    requires Covers(plan, target) && Covers(again, target) && Standing(plan, now)
    requires k < |again| && b in now && now[b].route == again[k].route
    ensures b !in RowsOf(again[..k])
  {
    InRowsOf(again[..k], b);
    if l :| InLeg(again[..k], l, b) {
      assert b in again[l].list && target[b] == again[l].route != again[k].route;
      var m, p := StandsInLeg(plan, target, now, b);
      assert false;
    }
  }

  /** What leg `k` of a further plan finds in the places it writes: the run's own bookings. */
  lemma ClearOfOthers(plan: seq<Leg>, again: seq<Leg>, target: map<Row, Route>, now: map<Row, Stop>, j: nat, k: nat)
    requires Covers(plan, target) && Covers(again, target) && Standing(plan, now) && OutOfTheWay(plan, target, now)
    requires j < |plan| && k < |again| && plan[j].route == again[k].route && |plan[j].list| == |again[k].list|
    ensures Unrefused(now, again, k) <==> Clear(Own(now, target, plan[j].route), again[k].list)
  {
    hide Covers;
    hide Standing;
    hide Clear;
    var r, relist := plan[j].route, again[k].list;
    var own, rest := Own(now, target, r), OnRoute(now, r) - RowsOf(again[..k]);
    forall b | b in OnRoute(now, r) ensures b in rest {
      NotMovedAway(plan, again, target, now, k, b);
    }
    forall b | b in rest && b !in own ensures !(1 <= rest[b] <= |relist|) {
      assert now[b].route == plan[j].route;
    }
    ClearWithin(rest, own, relist);
  }

  /** After a completed run leg `k` of a further plan for the same target is refused unless it has the order
      written before. */
  lemma RerunLegIff(plan: seq<Leg>, again: seq<Leg>, target: map<Row, Route>, now: map<Row, Stop>, j: nat, k: nat)
    requires Covers(plan, target) && Covers(again, target) && Standing(plan, now) && OutOfTheWay(plan, target, now)
    requires j < |plan| && k < |again| && plan[j].route == again[k].route
    ensures Unrefused(now, again, k) <==> plan[j].list == again[k].list
  {
    var own, list, relist := Own(now, target, plan[j].route), plan[j].list, again[k].list;
    LegOnRoute(plan, target, now, j);
    forall b ensures b in list <==> b in target && target[b] == plan[j].route ensures b in relist <==> b in list {
      LegIsWhole(plan, target, j, b);
      LegIsWhole(again, target, k, b);
    }
    assert Distinct(list) && Distinct(relist);
    SameLength(list, relist);
    hide Covers;
    hide Standing;
    hide OutOfTheWay;
    hide Own;
    hide Unrefused;
    ClearOfOthers(plan, again, target, now, j, k);
    OnlyTheCurrentOrderIsClear(own, relist);
    if InPlace(own, relist) {
      SameRows(own, list, relist);
    }
  }

  lemma AllRerunLegs(plan: seq<Leg>, again: seq<Leg>, target: map<Row, Route>, now: map<Row, Stop>)
    requires Covers(plan, target) && Covers(again, target) && Standing(plan, now) && OutOfTheWay(plan, target, now)
    requires forall k | 0 <= k < |again| :: again[k].list != []
    ensures (forall k | 0 <= k < |again| :: Unrefused(now, again, k)) <==> SameLegs(plan, again)
  {
    hide OutOfTheWay;
    forall j, k | 0 <= j < |plan| && 0 <= k < |again| && plan[j].route == again[k].route
      ensures Unrefused(now, again, k) <==> plan[j].list == again[k].list
    {
      RerunLegIff(plan, again, target, now, j, k);
    }
    forall k | 0 <= k < |again| ensures exists j :: 0 <= j < |plan| && plan[j].route == again[k].route {
      var b := again[k].list[0];
      assert b in again[k].list && b in target;
      var j :| InLeg(plan, j, b);
      assert plan[j].route == again[k].route;
    }
  }

  lemma SecondPlanCompletesIff(plan: seq<Leg>, t: State, again: seq<Leg>, target: map<Row, Route>)
    requires Covers(plan, target) && Covers(again, target) && Standing(plan, t.stops) && OutOfTheWay(plan, target, t.stops)
    requires forall k | 0 <= k < |again| :: again[k].list != []
    ensures WriteLegs(t, again, true).1 <==> SameLegs(plan, again)
    ensures WriteLegs(t, again, true).1 ==> WriteLegs(t, again, true).0.stops == t.stops
  {
    hide OutOfTheWay;
    CompletesIff(t, again, target, true);
    AllRerunLegs(plan, again, target, t.stops);
    if WriteLegs(t, again, true).1 {
      CoveredSettle(t, again, target, true);
      var u := WriteLegs(t, again, true).0;
      SecondPlan(plan, again, target, t.stops, u.stops);
    }
  }

  /** Both readings sort to the same list on every route. */
  ghost predicate SameOrder(
    routes: seq<Route>, reroutes: seq<Route>, bookings: map<Row, Booking>, rebookings: map<Row, Booking>,
    read: map<Route, seq<Row>>, reread: map<Route, seq<Row>>)
  {
    forall r | r in routes && r in reroutes :: Sorted(rebookings, ReadOf(reread, r)) == Sorted(bookings, ReadOf(read, r))
  }

  lemma SameOrderSameLegs(
    routes: seq<Route>, reroutes: seq<Route>, bookings: map<Row, Booking>, rebookings: map<Row, Booking>,
    read: map<Route, seq<Row>>, reread: map<Route, seq<Row>>)
    ensures SameLegs(PlanOf(bookings, routes, read), PlanOf(rebookings, reroutes, reread))
            <==> SameOrder(routes, reroutes, bookings, rebookings, read, reread)
  {
    hide Sorted;
    hide PlanOf;
    var plan, again := PlanOf(bookings, routes, read), PlanOf(rebookings, reroutes, reread);
    if SameLegs(plan, again) {
      forall r | r in routes && r in reroutes
        ensures Sorted(rebookings, ReadOf(reread, r)) == Sorted(bookings, ReadOf(read, r))
      {
        var j :| 0 <= j < |routes| && routes[j] == r;
        var k :| 0 <= k < |reroutes| && reroutes[k] == r;
        assert plan[j].route == again[k].route;
      }
    }
    if SameOrder(routes, reroutes, bookings, rebookings, read, reread) {
      forall j, k | 0 <= j < |plan| && 0 <= k < |again| && plan[j].route == again[k].route
        ensures plan[j].list == again[k].list
      {
        assert routes[j] in routes && reroutes[k] in reroutes;
      }
    }
  }

  lemma LegsAreFilled(bookings: map<Row, Booking>, buckets: Buckets, target: map<Row, Route>, plan: seq<Leg>)
    requires Partition(buckets, target) && LegsSorted(bookings, buckets, plan)
    ensures forall k | 0 <= k < |plan| :: plan[k].list != []
  {
    forall k | 0 <= k < |plan| ensures plan[k].list != [] {
      assert buckets.of[plan[k].route][0] in buckets.of[plan[k].route];
      assert buckets.of[plan[k].route][0] in plan[k].list;
    }
  }

  lemma ScriptPlan(bookings: map<Row, Booking>, look: Lookups, orders: seq<WorkOrder>, read: map<Route, seq<Row>>)
    requires DistinctOrders(orders) && ReadsBack(Gather(look, orders), read)
    ensures Partition(Gather(look, orders), Target(look, orders))
    ensures var plan := PlanOf(bookings, Gather(look, orders).order, read);
            Covers(plan, Target(look, orders)) && forall k | 0 <= k < |plan| :: plan[k].list != []
  {
    var buckets, target := Gather(look, orders), Target(look, orders);
    GatherPartitions(look, orders);
    PlanSorts(bookings, buckets, target, read);
    SortedLegsCover(bookings, buckets, target, PlanOf(bookings, buckets.order, read));
    LegsAreFilled(bookings, buckets, target, PlanOf(bookings, buckets.order, read));
  }

  /** With the index, a rerun that leaves every booking on its route (start times may have changed within the
      day) completes exactly when each route's bookings come out in the order the first run wrote; it then
      changes no stop. */
  lemma RerunCompletesIff(
    s: State, status: nat, look: Lookups, orders: seq<WorkOrder>, read: map<Route, seq<Row>>,
    again: seq<WorkOrder>, reread: map<Route, seq<Row>>)
    requires DistinctOrders(orders) && DistinctOrders(again) && Target(look, orders) == Target(look, again)
    requires ReadsBack(Gather(look, orders), read) && ReadsBack(Gather(look, again), reread)
    requires Script(s, status, look, orders, read, true).1
    ensures var t := Script(s, status, look, orders, read, true).0;
            var (u, ok) := Script(t, status, look, again, reread, true);
            && (ok <==> SameOrder(Gather(look, orders).order, Gather(look, again).order,
                                  t.bookings, Booked(t.bookings, look, status, again), read, reread))
            && (ok ==> u.stops == t.stops)
  {
    hide Gather;
    hide ReadsBack;
    hide DistinctOrders;
    hide Partition;
    hide Covers;
    hide Booked;
    hide SameOrder;
    hide SameLegs;
    hide Standing;
    hide OutOfTheWay;
    hide WriteLegs;
    hide PlanOf;
    hide Target;
    FirstRunStands(s, status, look, orders, read);
    var t, target := Script(s, status, look, orders, read, true).0, Target(look, orders);
    var rebooked := Booked(t.bookings, look, status, again);
    var routes, reroutes := Gather(look, orders).order, Gather(look, again).order;
    var plan, replan := PlanOf(t.bookings, routes, read), PlanOf(rebooked, reroutes, reread);
    ScriptPlan(t.bookings, look, orders, read);
    ScriptPlan(rebooked, look, again, reread);
    SameOrderSameLegs(routes, reroutes, t.bookings, rebooked, read, reread);
    SecondPlanCompletesIff(plan, t.(bookings := rebooked), replan, target);
  }

  lemma FirstRunStands(s: State, status: nat, look: Lookups, orders: seq<WorkOrder>, read: map<Route, seq<Row>>)
    requires DistinctOrders(orders) && ReadsBack(Gather(look, orders), read)
    requires Script(s, status, look, orders, read, true).1
    ensures var t := Script(s, status, look, orders, read, true).0;
            && t.bookings == Booked(s.bookings, look, status, orders)
            && Standing(PlanOf(t.bookings, Gather(look, orders).order, read), t.stops)
            && OutOfTheWay(PlanOf(t.bookings, Gather(look, orders).order, read), Target(look, orders), t.stops)
  {
    hide OutOfTheWay;
    hide ReadsBack;
    hide DistinctOrders;
    hide Gather;
    hide PlanOf;
    hide Booked;
    hide Standing;
    var bookings, target := Booked(s.bookings, look, status, orders), Target(look, orders);
    var plan := PlanOf(bookings, Gather(look, orders).order, read);
    ScriptPlan(bookings, look, orders, read);
    CoveredSettle(s.(bookings := bookings), plan, target, true);
    CompletedIsOutOfTheWay(s.(bookings := bookings), plan, target);
  }

  lemma NoTiesSameOrder(
    look: Lookups, status: nat, orders: seq<WorkOrder>, again: seq<WorkOrder>, before: map<Row, Booking>,
    read: map<Route, seq<Row>>, reread: map<Route, seq<Row>>)
    requires DistinctOrders(orders) && DistinctOrders(again) && SameOrders(orders, again) && NoTies(look, orders)
    requires ReadsBack(Gather(look, orders), read) && ReadsBack(Gather(look, again), reread)
    ensures var bookings := Booked(before, look, status, orders);
            SameOrder(Gather(look, orders).order, Gather(look, again).order, bookings, bookings, read, reread)
  {
    hide Gather;
    hide ReadsBack;
    hide DistinctOrders;
    hide Partition;
    hide Covers;
    hide LegsSorted;
    hide Booked;
    hide SameOrder;
    hide SameLegs;
    hide SameOrders;
    hide PlanOf;
    hide Target;
    hide NoTies;
    var bookings, target := Booked(before, look, status, orders), Target(look, orders);
    var routes, reroutes := Gather(look, orders).order, Gather(look, again).order;
    SameTarget(look, orders, again);
    ScriptPlan(bookings, look, orders, read);
    ScriptPlan(bookings, look, again, reread);
    PlanSorts(bookings, Gather(look, orders), target, read);
    PlanSorts(bookings, Gather(look, again), target, reread);
    NoTiesSameLegs(look, status, orders, before, Gather(look, orders), Gather(look, again),
                   PlanOf(bookings, routes, read), PlanOf(bookings, reroutes, reread));
    SameOrderSameLegs(routes, reroutes, bookings, bookings, read, reread);
  }

  /** The script is idempotent with the index: once it has completed, from whatever state, it completes again and
      changes nothing, when no two bookings of a route start together. */
  lemma NoTiesIdempotent(
    s: State, status: nat, look: Lookups, orders: seq<WorkOrder>, again: seq<WorkOrder>,
    read: map<Route, seq<Row>>, reread: map<Route, seq<Row>>)
    requires DistinctOrders(orders) && DistinctOrders(again) && SameOrders(orders, again) && NoTies(look, orders)
    requires ReadsBack(Gather(look, orders), read) && ReadsBack(Gather(look, again), reread)
    requires Script(s, status, look, orders, read, true).1
    ensures var t := Script(s, status, look, orders, read, true).0;
            Script(t, status, look, again, reread, true) == (t, true)
  {
    hide Gather;
    hide ReadsBack;
    hide DistinctOrders;
    hide SameOrder;
    hide SameOrders;
    hide NoTies;
    FirstRunStands(s, status, look, orders, read);
    SameTarget(look, orders, again);
    BookedTwice(s.bookings, look, status, orders, again);
    hide Script;
    hide Booked;
    NoTiesSameOrder(look, status, orders, again, s.bookings, read, reread);
    RerunCompletesIff(s, status, look, orders, read, again, reread);
    SecondRun(s, status, look, orders, again, read, reread, true);
  }

  lemma GatherPair(look: Lookups, a: WorkOrder, b: WorkOrder)
    requires a.start.Some? && b.start.Some? && RouteFor(look, a) == RouteFor(look, b)
    ensures Gather(look, [a, b]) == Buckets([RouteFor(look, a)], map[RouteFor(look, a) := [a.id, b.id]])
  {
    var r := RouteFor(look, a);
    assert [a, b][..1] == [a] && [a][..0] == [];
    assert Gather(look, [a]) == Push(Gather(look, []), r, a.id);
    assert Gather(look, [a]) == Buckets([r], map[r := [a.id]]);
    assert [a.id] + [b.id] == [a.id, b.id];
  }

  lemma PairSorted(bookings: map<Row, Booking>, a: Row, b: Row)
    requires StartOf(bookings, a) == StartOf(bookings, b)
    ensures Sorted(bookings, [a, b]) == [a, b]
  {
    assert [a, b][1..] == [b] && [b][1..] == [];
    assert Sorted(bookings, [b]) == [b];
  }

  lemma PairReads(look: Lookups, a: WorkOrder, b: WorkOrder, read: map<Route, seq<Row>>)
    requires a.id != b.id && a.start.Some? && b.start.Some? && RouteFor(look, a) == RouteFor(look, b)
    requires read == map[RouteFor(look, a) := [a.id, b.id]] || read == map[RouteFor(look, a) := [b.id, a.id]]
    ensures DistinctOrders([a, b]) && ReadsBack(Gather(look, [a, b]), read)
    ensures Gather(look, [a, b]).order == [RouteFor(look, a)] && Gather(look, [a, b]).of.Keys == {RouteFor(look, a)}
  {
    GatherPair(look, a, b);
    assert SameMembers([b.id, a.id], [a.id, b.id]);
  }

  lemma PairTies(bookings: map<Row, Booking>, look: Lookups, status: nat, a: WorkOrder, b: WorkOrder)
    requires a.id != b.id && a.start == b.start
    ensures var booked := Booked(bookings, look, status, [a, b]);
            Sorted(booked, [a.id, b.id]) == [a.id, b.id] && Sorted(booked, [b.id, a.id]) == [b.id, a.id]
  {
    var booked := Booked(bookings, look, status, [a, b]);
    BookedAs(bookings, look, status, [a, b], 0);
    BookedAs(bookings, look, status, [a, b], 1);
    PairSorted(booked, a.id, b.id);
    PairSorted(booked, b.id, a.id);
  }

  /** Two bookings of one route that start together, read the other way round by the second run over the
      same data: with the index the second run fails. */
  lemma TiesStopTheRerun(s: State, status: nat, look: Lookups, a: WorkOrder, b: WorkOrder)
    requires a.id != b.id && a.start.Some? && a.start == b.start && RouteFor(look, a) == RouteFor(look, b)
    requires forall x | x in s.stops :: s.stops[x].route != RouteFor(look, a)
    ensures var r := RouteFor(look, a);
            var (t, ok) := Script(s, status, look, [a, b], map[r := [a.id, b.id]], true);
            ok && !Script(t, status, look, [a, b], map[r := [b.id, a.id]], true).1
  {
    hide Script;
    hide Gather;
    hide ReadsBack;
    hide DistinctOrders;
    hide Booked;
    hide Sorted;
    hide Target;
    var r, orders := RouteFor(look, a), [a, b];
    var read, reread := map[r := [a.id, b.id]], map[r := [b.id, a.id]];
    PairReads(look, a, b, read);
    PairReads(look, a, b, reread);
    FreshRunCompletes(s, status, look, orders, read, true);
    FirstRunStands(s, status, look, orders, read);
    BookedTwice(s.bookings, look, status, orders, orders);
    PairTies(s.bookings, look, status, a, b);
    RerunCompletesIff(s, status, look, orders, read, orders, reread);
    assert r in [r];
    assert [a.id, b.id][0] != [b.id, a.id][0];
  }
}
