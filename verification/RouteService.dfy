/**
 The three stop operations of `routes.service.ts`, statement by statement, over the tables as fields.
 Each is proved to be the step of `Routes`. Readings whose order the database chooses are parameters.
 */
module RouteService {
  import opened Prelude
  import opened Positions
  import R = Routes

  class Service {
    const indexed: bool
    var routes: map<R.RouteId, nat>
    var crews: map<R.BookingId, nat>
    var stops: map<Row, R.Stop>
    var nextStop: Row

    ghost function View(): R.State
      reads this
    {
      R.State(routes, crews, stops, nextStop, indexed)
    }

    constructor (routes: map<R.RouteId, nat>, crews: map<R.BookingId, nat>, indexed: bool)
      ensures View() == R.State(routes, crews, map[], 0, indexed)
    {
      this.routes, this.crews, this.indexed := routes, crews, indexed;
      stops, nextStop := map[], 0;
    }

    /** `WHERE routeId = route`, position per row. */
    method PositionsOf(route: R.RouteId) returns (pos: map<Row, int>)
      ensures pos == R.OnRoute(View(), route)
    {
      pos := map id | id in stops && stops[id].routeId == route :: stops[id].position;
    }

    method AddRouteStop(route: R.RouteId, booking: R.BookingId) returns (out: R.Outcome)
      modifies this`stops, this`nextStop
      ensures (View(), out) == R.Step(old(View()), R.Add(route, booking))
    {
      if route !in routes {
        return R.RouteNotFound;
      }
      if booking !in crews {
        return R.BookingNotFound;
      }
      if routes[route] != crews[booking] {
        return R.CrewMismatch;
      }
      var taken := PositionsOf(route);
      R.NextPlaceIsFree(taken);
      var position := 1;
      if taken != map[] {
        var last :| last in taken && R.IsLast(taken, last);
        position := taken[last] + 1;
      }
      if exists id | id in stops :: stops[id].bookingId == booking {
        return R.AlreadyRouted;
      }
      stops := stops[nextStop := R.Stop(route, booking, position)];
      out := R.Added(nextStop, position);
      nextStop := nextStop + 1;
    }

    /** Write the list's positions in one transaction. */
    method WritePositions(route: R.RouteId, list: seq<Row>) returns (out: R.Outcome)
      requires Distinct(list)
      modifies this`stops
      ensures (View(), out) == R.Write(old(View()), R.OnRoute(old(View()), route), list)
    {
      var pos := PositionsOf(route);
      var written := WriteSequence(pos, list, indexed);
      if written.None? {
        return R.PlaceTaken;
      }
      stops := map id | id in stops ::
        if id in written.value then stops[id].(position := written.value[id]) else stops[id];
      out := R.Done;
    }

    method ReorderRouteStops(route: R.RouteId, ids: seq<Row>) returns (out: R.Outcome)
      modifies this`stops
      ensures (View(), out) == R.Step(old(View()), R.Reorder(route, ids))
    {
      if route !in routes {
        return R.RouteNotFound;
      }
      var pos := PositionsOf(route);
      var found := set id | id in ids && id in pos;
      assert found == R.Found(View(), route, ids);
      R.FoundSize(View(), route, ids);
      if |found| != |ids| {
        return R.InvalidOrder;
      }
      out := WritePositions(route, ids);
    }

    method RemoveRouteStop(route: R.RouteId, id: Row, remaining: seq<Row>) returns (out: R.Outcome)
      requires R.Legal(View(), R.Remove(route, id, remaining))
      modifies this`stops
      ensures (View(), out) == R.Step(old(View()), R.Remove(route, id, remaining))
    {
      if id !in stops || stops[id].routeId != route {
        return R.StopNotFound;
      }
      stops := stops - {id};
      out := WritePositions(route, remaining);
    }
  }
}
