/**
 The backfill's `main` for one organization, statement by statement, over the tables as fields. Readings
 whose order the database chooses are parameters.
 */
module BackfillScript {
  import opened Prelude
  import opened Positions
  import B = Backfill
  import R = BackfillRuns

  class Main {
    const indexed: bool
    var bookings: map<Row, B.Booking>
    var routes: set<B.Route>
    var stops: map<Row, B.Stop>

    ghost function View(): B.State
      reads this
    {
      B.State(bookings, routes, stops)
    }

    constructor (s: B.State, indexed: bool)
      ensures View() == s && this.indexed == indexed
    {
      this.bookings, this.routes, this.stops, this.indexed := s.bookings, s.routes, s.stops, indexed;
    }

    /** The first loop: a booking per work order, and the scheduled ones gathered by route. */
    method UpsertBookings(status: nat, look: B.Lookups, workOrders: seq<B.WorkOrder>) returns (buckets: B.Buckets)
      modifies this`bookings
      ensures bookings == B.Booked(old(bookings), look, status, workOrders)
      ensures buckets == B.Gather(look, workOrders)
    {
      buckets := B.Buckets([], map[]);
      var i := 0;
      while i < |workOrders|
        invariant i <= |workOrders|
        invariant bookings == B.Booked(old(bookings), look, status, workOrders[..i])
        invariant buckets == B.Gather(look, workOrders[..i])
      {
        var workOrder := workOrders[i];
        var crew := look.defaultCrew;
        if workOrder.technician.Some? && workOrder.technician.value in look.resources {
          var resource := look.resources[workOrder.technician.value];
          if resource in look.members {
            crew := look.members[resource];
          }
        }
        bookings := bookings[workOrder.id := B.Booking(crew, status, workOrder.start, workOrder.end)];
        if workOrder.start.Some? {
          var route := B.Route(crew, workOrder.start.value / B.MS_PER_DAY);
          if route in buckets.of {
            buckets := buckets.(of := buckets.of[route := buckets.of[route] + [workOrder.id]]);
          } else {
            buckets := B.Buckets(buckets.order + [route], buckets.of[route := [workOrder.id]]);
          }
        }
        assert workOrders[..i + 1][..i] == workOrders[..i];
        i := i + 1;
      }
      assert workOrders[..i] == workOrders;
    }

    /** The position loop; a taken place ends the script there. */
    method WriteStops(route: B.Route, list: seq<Row>) returns (ok: bool)
      modifies this`stops
      ensures (stops, ok) == B.WriteFrom(old(stops), route, list, 0, indexed)
    {
      var position := 1;
      while position <= |list|
        invariant 1 <= position <= |list| + 1
        invariant B.WriteFrom(old(stops), route, list, 0, indexed)
                  == B.WriteFrom(stops, route, list, position - 1, indexed)
      {
        var booking := list[position - 1];
        if indexed && B.Taken(stops, route, position, booking) {
          return false;
        }
        stops := stops[booking := B.Stop(route, position)];
        position := position + 1;
      }
      ok := true;
    }

    /** Without an active status or a crew the organization is passed over. */
    method Backfill(
      status: Option<nat>, crews: seq<nat>, resources: map<nat, nat>, members: map<nat, nat>,
      workOrders: seq<B.WorkOrder>, read: map<B.Route, seq<Row>>)
      returns (completed: bool)
      modifies this`bookings, this`routes, this`stops
      ensures status.None? || crews == [] ==> completed && View() == old(View())
      ensures status.Some? && crews != [] ==>
                (View(), completed) == R.Script(old(View()), status.value, B.Lookups(crews[0], resources, members),
                                                workOrders, read, indexed)
    {
      hide B.Gather;
      hide B.Booked;
      hide B.WriteFrom;
      hide B.Sorted;
      hide R.PlanOf;
      if status.None? {
        return true;
      }
      if |crews| == 0 {
        return true;
      }
      var look := B.Lookups(crews[0], resources, members);
      var buckets := UpsertBookings(status.value, look, workOrders);
      ghost var start, plan := View(), R.PlanOf(bookings, buckets.order, read);
      var k := 0;
      while k < |buckets.order|
        invariant k <= |buckets.order|
        invariant bookings == start.bookings
        invariant B.WriteLegs(start, plan[..k], indexed) == (View(), true)
      {
        var route := buckets.order[k];
        routes := routes + {route};
        var list := B.Sorted(bookings, R.ReadOf(read, route));
        assert plan[..k + 1][..k] == plan[..k];
        var done := WriteStops(route, list);
        if !done {
          PlanStops(start, plan, k + 1);
          return false;
        }
        k := k + 1;
      }
      assert plan[..k] == plan;
      completed := true;
    }

    /** Once a leg fails no later one is written. */
    lemma {:induction false} PlanStops(s: B.State, plan: seq<B.Leg>, k: nat)
      requires k <= |plan| && !B.WriteLegs(s, plan[..k], indexed).1
      ensures B.WriteLegs(s, plan, indexed) == B.WriteLegs(s, plan[..k], indexed)
      decreases |plan|
    {
      if k < |plan| {
        assert plan[..|plan| - 1][..k] == plan[..k];
        PlanStops(s, plan[..|plan| - 1], k);
      } else {
        assert plan[..k] == plan;
      }
    }
  }
}
