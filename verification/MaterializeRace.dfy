/**
 Materialization calls that overlap: each reads the latest stored start, then the clock, and inserts what follows
 without looking at the table again; starts that are stored by then are skipped.

 `ReadClock` fixes the instant a call goes on from; without it the clock is read together with the insert.
 */
module MaterializeRace {
  import opened Prelude
  import opened Recurrence

  /** A call past its lookup. */
  datatype Pending = Pending(latest: Option<int>, count: nat, clock: Option<int>)

  datatype State = State(now: int, rows: seq<int>, inflight: map<nat, Pending>)

  datatype Op = Look(call: nat, count: nat) | ReadClock(call: nat) | Insert(call: nat) | Tick(ms: nat)

  function CursorOf(latest: Option<int>, clock: int): int {
    if latest.Some? && latest.value > clock then latest.value else clock
  }

  /** The starts a call generates. */
  function Wanted(after: After, s: State, p: Pending): seq<int> {
    Next(after, CursorOf(p.latest, Default(p.clock, s.now)), p.count)
  }

  function Step(after: After, s: State, op: Op): State {
    match op
    case Look(call, count) => s.(inflight := s.inflight[call := Pending(Latest(s.rows), count, None)])
    case ReadClock(call) =>
      if call !in s.inflight || s.inflight[call].clock.Some? then s
      else s.(inflight := s.inflight[call := s.inflight[call].(clock := Some(s.now))])
    case Insert(call) =>
      if call !in s.inflight then s
      else s.(rows := InsertNew(s.rows, Wanted(after, s, s.inflight[call])), inflight := s.inflight - {call})
    case Tick(ms) => s.(now := s.now + ms)
  }

  function Run(after: After, s: State, ops: seq<Op>): State
    decreases |ops|
  {
    if ops == [] then s else Run(after, Step(after, s, ops[0]), ops[1..])
  }

  /** The call of `Recurrence` is a lookup and an insert with nothing in between. */
  lemma MaterializeIsLookThenInsert(after: After, s: State, call: nat, count: nat)
    requires call !in s.inflight
    ensures Step(after, Step(after, s, Look(call, count)), Insert(call)) == s.(rows := Materialize(after, s.rows, s.now, count))
  {
    var read := Step(after, s, Look(call, count));
    assert read.inflight - {call} == s.inflight;
    assert Wanted(after, read, read.inflight[call]) == Next(after, Cursor(s.rows, s.now), count);
  }

  // ---------------------------------------------------------------- no gaps, in any interleaving

  predicate Distinct(rows: seq<int>) { forall i, j | 0 <= i < j < |rows| :: rows[i] != rows[j] }

  /** No start is stored twice, every start is an occurrence, and from the clock on all occurrences up to any
      stored start are stored. */
  ghost predicate GapFree(after: After, rows: seq<int>, now: int) {
    && Distinct(rows)
    && (forall r | r in rows :: Occurs(after, r))
    && (forall u, r | now < u && Occurs(after, u) && r in rows && u <= r :: u in rows)
  }

  /** What a call has looked up is a stored start, no later than the latest one; its clock reading is past. */
  ghost predicate PendingOk(s: State, p: Pending) {
    && (p.latest.Some? ==> p.latest.value in s.rows)
    && (p.clock.Some? ==> p.clock.value <= s.now)
  }

  ghost predicate Inv(after: After, s: State) {
    GapFree(after, s.rows, s.now) && forall c | c in s.inflight :: PendingOk(s, s.inflight[c])
  }

  lemma {:induction false} InsertNewHas(rows: seq<int>, starts: seq<int>)
    ensures forall x :: x in InsertNew(rows, starts) <==> x in rows || x in starts
    ensures Distinct(rows) ==> Distinct(InsertNew(rows, starts))
    decreases |starts|
  {
    if starts != [] {
      assert starts == [starts[0]] + starts[1..];
      InsertNewHas(if starts[0] in rows then rows else rows + [starts[0]], starts[1..]);
    }
  }

  lemma InsertKeepsGapFree(after: After, rows: seq<int>, now: int, latest: Option<int>, clock: int, count: nat)
    requires IsSuccessor(after) && GapFree(after, rows, now) && clock <= now
    requires latest.Some? ==> latest.value in rows
    ensures GapFree(after, InsertNew(rows, Next(after, CursorOf(latest, clock), count)), now)
  {
    var cursor := CursorOf(latest, clock);
    var xs := Next(after, cursor, count);
    var all := InsertNew(rows, xs);
    NextIsTheNext(after, cursor, count);
    InsertNewHas(rows, xs);
    forall u, r | now < u && Occurs(after, u) && r in all && u <= r ensures u in all {
      if r in rows {
        assert u in rows;
      } else if u <= cursor {
        assert latest.value in rows && u <= latest.value;
      } else {
        var i :| 0 <= i < |xs| && xs[i] == r;
        assert u <= End(cursor, xs);
      }
    }
  }

  lemma StepKeepsInv(after: After, s: State, op: Op)
    requires IsSuccessor(after) && Inv(after, s)
    ensures Inv(after, Step(after, s, op))
  {
    match op
    case Look(_, _) => LatestIsGreatest(s.rows);
    case ReadClock(_) =>
    case Insert(call) =>
      if call in s.inflight {
        var p := s.inflight[call];
        assert PendingOk(s, p);
        InsertKeepsGapFree(after, s.rows, s.now, p.latest, Default(p.clock, s.now), p.count);
        InsertNewHas(s.rows, Wanted(after, s, p));
        hide GapFree;
        hide InsertNew;
        hide Wanted;
        var t := Step(after, s, op);
        assert forall r | r in s.rows :: r in t.rows;
        forall c | c in t.inflight ensures PendingOk(t, t.inflight[c]) {
          assert PendingOk(s, s.inflight[c]);
        }
      }
    case Tick(_) =>
  }

  /** Over every interleaving of overlapping calls: nothing repeated, nothing extra, nothing missing from the clock to
      the latest stored start. */
  lemma {:induction false} OverlappingRunsHaveNoGaps(after: After, s: State, ops: seq<Op>)
    requires IsSuccessor(after) && Inv(after, s)
    ensures Inv(after, Run(after, s, ops))
    decreases |ops|
  {
    if ops != [] {
      StepKeepsInv(after, s, ops[0]);
      OverlappingRunsHaveNoGaps(after, Step(after, s, ops[0]), ops[1..]);
    }
  }

  // ---------------------------------------------------------------- but counts do not add up

  lemma {:induction false} InsertAgain(rows: seq<int>, starts: seq<int>)
    requires forall x | x in starts :: x in rows
    ensures InsertNew(rows, starts) == rows
    decreases |starts|
  {
    if starts != [] {
      var head := starts[0];
      assert head in starts;
      InsertAgain(rows, starts[1..]);
    }
  }

  lemma {:induction false} InsertParts(rows: seq<int>, xs: seq<int>, ys: seq<int>)
    ensures InsertNew(rows, xs + ys) == InsertNew(InsertNew(rows, xs), ys)
    decreases |xs|
  {
    if xs == [] {
      assert xs + ys == ys;
    } else {
      assert (xs + ys)[1..] == xs[1..] + ys;
      InsertParts(if xs[0] in rows then rows else rows + [xs[0]], xs[1..], ys);
    }
  }

  /** Inserting for a and then for b from one cursor leaves what inserting for the larger leaves. */
  lemma InsertTheLarger(after: After, rows: seq<int>, cursor: int, a: nat, b: nat)
    requires IsSuccessor(after) && forall r | r in rows :: r <= cursor
    ensures InsertNew(InsertNew(rows, Next(after, cursor, a)), Next(after, cursor, b))
            == rows + Next(after, cursor, if a < b then b else a)
  {
    var small, large := if a < b then a else b, if a < b then b else a;
    var xs, all := Next(after, cursor, small), Next(after, cursor, large);
    NextSplits(after, cursor, small, large - small);
    var ys := all[|xs|..];
    assert all == xs + ys;
    NextIsTheNext(after, cursor, large);
    InsertAllNew(rows, all);
    InsertNewHas(rows, xs);
    InsertNewHas(rows, all);
    InsertParts(rows, xs, ys);
    if a < b {
      var some := InsertNew(rows, xs);
      InsertAgain(some, xs);
      InsertParts(some, xs, ys);
    } else {
      InsertAgain(InsertNew(rows, all), xs);
    }
  }

  /** Two calls for a and b that both look before either inserts leave one call for the larger, whichever inserts
      first; one after the other they leave one call for a + b. */
  lemma OverlappingPairStoresTheLarger(after: After, s: State, first: nat, second: nat, a: nat, b: nat)
    requires IsSuccessor(after) && first != second && first !in s.inflight && second !in s.inflight
    ensures var looked := Step(after, Step(after, s, Look(first, a)), Look(second, b));
            var both := Step(after, Step(after, looked, Insert(first)), Insert(second));
            both == s.(rows := Materialize(after, s.rows, s.now, if a < b then b else a))
    ensures var one := Step(after, Step(after, s, Look(first, a)), Insert(first));
            var both := Step(after, Step(after, one, Look(second, b)), Insert(second));
            both == s.(rows := Materialize(after, s.rows, s.now, a + b))
  {
    var looked := Step(after, Step(after, s, Look(first, a)), Look(second, b));
    var inserted := Step(after, looked, Insert(first));
    var both := Step(after, inserted, Insert(second));
    var cursor, more := Cursor(s.rows, s.now), if a < b then b else a;
    LatestIsGreatest(s.rows);
    InsertTheLarger(after, s.rows, cursor, a, b);
    MaterializeAppendsTheNext(after, s.rows, s.now, more);
    assert inserted.rows == InsertNew(s.rows, Next(after, cursor, a));
    assert both.rows == InsertNew(inserted.rows, Next(after, cursor, b));
    assert looked.inflight - {first} - {second} == s.inflight;
    var one := Step(after, Step(after, s, Look(first, a)), Insert(first));
    MaterializeIsLookThenInsert(after, s, first, a);
    MaterializeIsLookThenInsert(after, one, second, b);
    TwoCallsAreOne(after, s.rows, s.now, a, b);
  }
}
