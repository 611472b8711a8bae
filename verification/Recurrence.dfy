/**
 Occurrence generation (`recurrence.service.ts`) and materialization (`materializeServiceContractOccurrences`
 of `serviceContracts.service.ts`).

 A rule is known only through `after(t)`, the least occurrence strictly later than t (RFC 5545, section
 3.3.10, describes the sets of instants rules denote; how `after` finds the next one is the library's).
 Instants are whole milliseconds.
 */
module Recurrence {
  import opened Prelude

  type After = int -> Option<int>

  /** `after` is the successor function of some set of instants. */
  ghost predicate IsSuccessor(after: After) {
    forall t ::
      && (after(t).Some? ==> after(t).value > t && forall u | t <= u < after(t).value :: after(u) == after(t))
      && (after(t).None? ==> forall u | t <= u :: after(u) == None)
  }

  /** The set it is the successor function of. */
  predicate Occurs(after: After, t: int) { after(t - 1) == Some(t) }

  lemma NothingBetween(after: After, t: int, u: int)
    requires IsSuccessor(after) && t < u && Occurs(after, u)
    ensures after(t).Some? && after(t).value <= u
  {
    assert after(u - 1) == Some(u) && t <= u - 1;
  }

  /** `after(t)` is the least occurrence later than t, `None` exactly when there is none. */
  lemma AfterIsLeast(after: After, t: int)
    requires IsSuccessor(after)
    ensures after(t).Some? ==> Occurs(after, after(t).value)
    ensures forall u | u > t && Occurs(after, u) :: after(t).Some? && after(t).value <= u
  {
    if after(t).Some? {
      assert after(after(t).value - 1) == after(t);
    }
    forall u | u > t && Occurs(after, u) ensures after(t).Some? && after(t).value <= u {
      NothingBetween(after, t, u);
    }
  }

  // ---------------------------------------------------------------- building the rule

  /** Each textual field as its parser sees it: absent, unreadable, or a value. */
  datatype Field<T> = Absent | Unreadable | Read(value: T)

  /** The options of a rule: when it starts and ends, the time zone it names, and the pattern these anchor. */
  datatype Options = Options(
    dtstart: Option<int>, until: Option<int>, tzid: Option<string>, recur: (int, Option<string>) -> After)

  ghost predicate IsPattern(o: Options) { forall start, zone :: IsSuccessor(o.recur(start, zone)) }

  /** `rrule`: the options parsed from the RRULE string, which may name a DTSTART, its TZID and an UNTIL itself. */
  datatype RuleConfig = RuleConfig(rrule: Field<Options>, timeZone: string, dtstart: Field<int>, until: Field<int>)

  datatype RuleError = BadRule | NoTimeZone | BadDateTime | UntilBeforeStart

  datatype Built = Rule(after: After) | Rejected(error: RuleError)

  /** The pattern's instants from `dtstart` up to and including `until`. */
  function Clip(pattern: After, dtstart: int, until: Option<int>): After {
    (t: int) =>
      var next := pattern(if t < dtstart then dtstart - 1 else t);
      if next.Some? && until.Some? && next.value > until.value then None else next
  }

  /** `new RRule(options)`, for options with a start. */
  function Occurrences(o: Options): After
    requires o.dtstart.Some?
  {
    Clip(o.recur(o.dtstart.value, o.tzid), o.dtstart.value, o.until)
  }

  /** The parsed options, with the contract's own start and end put over theirs. */
  function BuildRecurrenceRule(config: RuleConfig): Built {
    if !config.rrule.Read? then Rejected(BadRule)
    else if config.timeZone == "" then Rejected(NoTimeZone)
    else if !config.dtstart.Read? then Rejected(BadDateTime)
    else if config.until.Unreadable? then Rejected(BadDateTime)
    else if config.until.Read? && config.until.value < config.dtstart.value then Rejected(UntilBeforeStart)
    else
      var until := if config.until.Read? then Some(config.until.value) else None;
      Rule(Occurrences(config.rrule.value.(dtstart := Some(config.dtstart.value), until := until)))
  }

  lemma ClipPair(pattern: After, dtstart: int, until: Option<int>, t: int, u: int)
    requires IsSuccessor(pattern) && t <= u
    ensures var clip := Clip(pattern, dtstart, until);
            && (clip(t).Some? ==> clip(t).value > t && (u < clip(t).value ==> clip(u) == clip(t)))
            && (clip(t).None? ==> clip(u) == None)
  {
    LaterIsLater(pattern, if t < dtstart then dtstart - 1 else t, if u < dtstart then dtstart - 1 else u);
  }

  lemma ClipIsSuccessor(pattern: After, dtstart: int, until: Option<int>)
    requires IsSuccessor(pattern)
    ensures IsSuccessor(Clip(pattern, dtstart, until))
  {
    hide Clip;
    var clip := Clip(pattern, dtstart, until);
    forall t
      ensures clip(t).Some? ==> clip(t).value > t && forall u | t <= u < clip(t).value :: clip(u) == clip(t)
      ensures clip(t).None? ==> forall u | t <= u :: clip(u) == None
    {
      ClipPair(pattern, dtstart, until, t, t);
      forall u | t <= u
        ensures clip(t).Some? && u < clip(t).value ==> clip(u) == clip(t)
        ensures clip(t).None? ==> clip(u) == None
      {
        ClipPair(pattern, dtstart, until, t, u);
      }
    }
  }

  lemma ClipOccurs(pattern: After, dtstart: int, until: Option<int>, t: int)
    requires IsSuccessor(pattern)
    ensures Occurs(Clip(pattern, dtstart, until), t)
            <==> Occurs(pattern, t) && dtstart <= t && (until.Some? ==> t <= until.value)
  {
    assert t < dtstart && pattern(dtstart - 1).Some? ==> pattern(dtstart - 1).value > dtstart - 1;
  }

  lemma LaterIsLater(after: After, t: int, u: int)
    requires IsSuccessor(after) && t <= u
    ensures after(t).None? ==> after(u).None?
    ensures after(t).Some? && u < after(t).value ==> after(u) == after(t)
    ensures after(t).Some? && after(u).Some? ==> after(t).value <= after(u).value
  {
    if after(t).Some? && after(t).value <= u && after(u).Some? {
      assert after(u).value > u;
    }
  }

  /** A built rule denotes the pattern's instants within the contract's own [dtstart, until], whatever DTSTART and
      UNTIL the string names, and every rejection has its cause. A time zone named by the string stays in force. */
  lemma BuiltRuleIsThePattern(config: RuleConfig)
    requires config.rrule.Read? ==> IsPattern(config.rrule.value)
    ensures var built := BuildRecurrenceRule(config);
            && (built.Rule? <==> config.rrule.Read? && config.timeZone != "" && config.dtstart.Read?
                                 && !config.until.Unreadable?
                                 && (config.until.Read? ==> config.dtstart.value <= config.until.value))
            && (built.Rule? ==>
                  && IsSuccessor(built.after)
                  && forall t :: Occurs(built.after, t) <==>
                       Occurs(config.rrule.value.recur(config.dtstart.value, config.rrule.value.tzid), t)
                       && config.dtstart.value <= t && (config.until.Read? ==> t <= config.until.value))
  {
    var built := BuildRecurrenceRule(config);
    if built.Rule? {
      var until := if config.until.Read? then Some(config.until.value) else None;
      var pattern := config.rrule.value.recur(config.dtstart.value, config.rrule.value.tzid);
      ClipIsSuccessor(pattern, config.dtstart.value, until);
      forall t ensures Occurs(built.after, t) <==>
                         Occurs(pattern, t) && config.dtstart.value <= t && (until.Some? ==> t <= until.value)
      {
        ClipOccurs(pattern, config.dtstart.value, until, t);
      }
    }
  }

  // ---------------------------------------------------------------- the next occurrences

  /** The next `count` occurrences after `cursor`, fewer when the rule runs out. */
  function Next(after: After, cursor: int, count: nat): seq<int>
    decreases count
  {
    if count == 0 || after(cursor).None? then []
    else [after(cursor).value] + Next(after, after(cursor).value, count - 1)
  }

  /** `generateNextOccurrences`, given the built rule. */
  method GenerateNextOccurrences(after: After, cursor: int, count: int) returns (results: seq<int>)
    ensures results == Next(after, cursor, if count < 0 then 0 else count)
  {
    if count <= 0 {
      return [];
    }
    results := [];
    var next := after(cursor);
    ghost var at := cursor;
    while next.Some? && |results| < count
      invariant |results| <= count && next == after(at)
      invariant Next(after, cursor, count) == results + Next(after, at, count - |results|)
      decreases count - |results|
    {
      results := results + [next.value];
      at := next.value;
      next := after(next.value);
    }
  }

  ghost predicate Increasing(xs: seq<int>) { forall i, j | 0 <= i < j < |xs| :: xs[i] < xs[j] }

  /** Where the next request continues. */
  function End(cursor: int, xs: seq<int>): int { if xs == [] then cursor else xs[|xs| - 1] }

  /** The next `count` occurrences, in terms of the set of occurrences alone: strictly increasing
      occurrences later than the cursor, none skipped, and short only when there are no more. */
  ghost predicate Describes(after: After, cursor: int, count: nat, xs: seq<int>) {
    && |xs| <= count && Increasing(xs)
    && (forall x | x in xs :: x > cursor && Occurs(after, x))
    && (forall u | cursor < u && Occurs(after, u) && (|xs| < count || u <= End(cursor, xs)) :: u in xs)
  }

  lemma {:induction false} NextIsTheNext(after: After, cursor: int, count: nat)
    requires IsSuccessor(after)
    ensures Describes(after, cursor, count, Next(after, cursor, count))
    decreases count
  {
    AfterIsLeast(after, cursor);
    if count > 0 && after(cursor).Some? {
      var head := after(cursor).value;
      var rest := Next(after, head, count - 1);
      NextIsTheNext(after, head, count - 1);
      var xs := Next(after, cursor, count);
      assert xs == [head] + rest;
      forall i, j | 0 <= i < j < |xs| ensures xs[i] < xs[j] {
        if i == 0 { assert xs[j] == rest[j - 1] && rest[j - 1] in rest; }
      }
      forall u | cursor < u && Occurs(after, u) && (|xs| < count || u <= xs[|xs| - 1]) ensures u in xs {
        assert head <= u;
        if u != head { assert u in rest; }
      }
    }
  }

  lemma TailDescribes(after: After, cursor: int, count: nat, ys: seq<int>)
    requires Describes(after, cursor, count, ys) && ys != []
    ensures Describes(after, ys[0], count - 1, ys[1..])
  {
    var rest := ys[1..];
    assert forall i | 0 <= i < |rest| :: rest[i] == ys[i + 1];
    forall y | y in rest ensures y > ys[0] && Occurs(after, y) {
      var i :| 0 <= i < |rest| && rest[i] == y;
      assert ys[i + 1] in ys;
    }
    forall u | ys[0] < u && Occurs(after, u) && (|rest| < count - 1 || u <= End(ys[0], rest)) ensures u in rest {
      assert ys[0] in ys && u in ys;
      var i :| 0 <= i < |ys| && ys[i] == u;
      assert rest[i - 1] == u;
    }
  }

  /** That description leaves only one list. */
  lemma {:induction false} NextIsDetermined(after: After, cursor: int, count: nat, ys: seq<int>)
    requires IsSuccessor(after) && Describes(after, cursor, count, ys)
    ensures ys == Next(after, cursor, count)
    decreases count
  {
    AfterIsLeast(after, cursor);
    if ys != [] {
      assert ys[0] in ys;
      var head := after(cursor).value;
      assert head in ys by { assert head <= ys[0] <= ys[|ys| - 1]; }
      assert ys[0] == head;
      TailDescribes(after, cursor, count, ys);
      NextIsDetermined(after, head, count - 1, ys[1..]);
    }
  }

  /** Asking for a and then for b from where that ended is asking for a + b. */
  lemma {:induction false} NextSplits(after: After, cursor: int, a: nat, b: nat)
    ensures var xs := Next(after, cursor, a);
            Next(after, cursor, a + b)
            == xs + (if |xs| < a then [] else Next(after, End(cursor, xs), b))
    decreases a
  {
    if a > 0 && after(cursor).Some? {
      var head := after(cursor).value;
      NextSplits(after, head, a - 1, b);
      var rest := Next(after, head, a - 1);
      var xs := [head] + rest;
      assert Next(after, cursor, a) == xs && End(cursor, xs) == End(head, rest);
      var more := if |rest| < a - 1 then [] else Next(after, End(head, rest), b);
      assert Next(after, cursor, a + b) == [head] + (rest + more) == xs + more;
    }
  }

  // ---------------------------------------------------------------- materialization

  /** The greatest stored start, if any (`findFirst` ordered by start, descending). */
  function Latest(rows: seq<int>): Option<int> {
    if rows == [] then None
    else
      var rest := Latest(rows[1..]);
      if rest.Some? && rest.value >= rows[0] then rest else Some(rows[0])
  }

  lemma {:induction false} LatestIsGreatest(rows: seq<int>)
    ensures rows == [] <==> Latest(rows) == None
    ensures rows != [] ==> Latest(rows).value in rows && forall r | r in rows :: r <= Latest(rows).value
  {
    if rows != [] {
      LatestIsGreatest(rows[1..]);
      assert rows == [rows[0]] + rows[1..];
    }
  }

  function Cursor(rows: seq<int>, now: int): int {
    var latest := Latest(rows);
    if latest.Some? && latest.value > now then latest.value else now
  }

  /** `createMany` with `skipDuplicates` over the unique (contract, start) index. */
  function InsertNew(rows: seq<int>, starts: seq<int>): seq<int>
    decreases |starts|
  {
    if starts == [] then rows
    else InsertNew(if starts[0] in rows then rows else rows + [starts[0]], starts[1..])
  }

  /** One call with an unchanged rule: the rows afterwards. */
  function Materialize(after: After, rows: seq<int>, now: int, count: nat): seq<int> {
    InsertNew(rows, Next(after, Cursor(rows, now), count))
  }

  lemma {:induction false} InsertAllNew(rows: seq<int>, starts: seq<int>)
    requires Increasing(starts) && forall x | x in starts :: x !in rows
    ensures InsertNew(rows, starts) == rows + starts
    decreases |starts|
  {
    if starts != [] {
      var rest := starts[1..];
      assert forall i | 0 <= i < |rest| :: rest[i] == starts[i + 1];
      forall x | x in rest ensures x !in rows + [starts[0]] {
        var i :| 0 <= i < |rest| && rest[i] == x;
        assert starts[i + 1] == x && x in starts;
      }
      assert starts[0] in starts;
      InsertAllNew(rows + [starts[0]], rest);
      assert rows + [starts[0]] + rest == rows + starts;
    } else {
      assert rows + [] == rows;
    }
  }

  /** Each call appends exactly the next min(count, remaining) occurrences, none of which was stored,
      whatever was stored before. */
  lemma MaterializeAppendsTheNext(after: After, rows: seq<int>, now: int, count: nat)
    requires IsSuccessor(after)
    ensures var xs := Next(after, Cursor(rows, now), count);
            && Materialize(after, rows, now, count) == rows + xs
            && (forall x | x in xs :: x !in rows && x > now && forall r | r in rows :: r < x)
  {
    var xs := Next(after, Cursor(rows, now), count);
    NextIsTheNext(after, Cursor(rows, now), count);
    LatestIsGreatest(rows);
    InsertAllNew(rows, xs);
  }

  /** The rows whose start is among the wanted ones, in table order. */
  function Select(rows: seq<int>, wanted: seq<int>): seq<int> {
    if rows == [] then []
    else Select(rows[..|rows| - 1], wanted) + if rows[|rows| - 1] in wanted then [rows[|rows| - 1]] else []
  }

  lemma {:induction false} SelectNone(rows: seq<int>, wanted: seq<int>)
    requires forall i | 0 <= i < |rows| :: rows[i] !in wanted
    ensures Select(rows, wanted) == []
  {
    if rows != [] {
      SelectNone(rows[..|rows| - 1], wanted);
    }
  }

  lemma {:induction false} SelectPart(rows: seq<int>, xs: seq<int>, wanted: seq<int>)
    requires (forall i | 0 <= i < |rows| :: rows[i] !in wanted) && forall x | x in xs :: x in wanted
    ensures Select(rows + xs, wanted) == xs
    decreases |xs|
  {
    if xs == [] {
      SelectNone(rows, wanted);
      assert rows + xs == rows;
    } else {
      var init, last := xs[..|xs| - 1], xs[|xs| - 1];
      assert last in xs && xs == init + [last];
      SelectPart(rows, init, wanted);
      assert (rows + xs)[..|rows + xs| - 1] == rows + init;
    }
  }

  lemma SelectInserted(rows: seq<int>, xs: seq<int>)
    requires forall x | x in xs :: x !in rows
    ensures Select(rows + xs, xs) == xs
  {
    forall i | 0 <= i < |rows| ensures rows[i] !in xs {
      var r := rows[i];
      assert r in rows;
      assert r !in xs;
    }
    SelectPart(rows, xs, xs);
  }

  lemma LatestOfAppend(rows: seq<int>, xs: seq<int>)
    requires xs != [] && Increasing(xs) && forall x, r | x in xs && r in rows :: r < x
    ensures Latest(rows + xs) == Some(xs[|xs| - 1])
  {
    var last := xs[|xs| - 1];
    var all := rows + xs;
    LatestIsGreatest(all);
    assert last in xs && all[|all| - 1] == last && last in all;
    forall r | r in all ensures r <= last {
      if r in xs {
        var i :| 0 <= i < |xs| && xs[i] == r;
      }
    }
  }

  lemma {:induction false} ShortMeansDone(after: After, cursor: int, count: nat)
    requires |Next(after, cursor, count)| < count
    ensures after(End(cursor, Next(after, cursor, count))).None?
    decreases count
  {
    if after(cursor).Some? {
      var head := after(cursor).value;
      var rest := Next(after, head, count - 1);
      ShortMeansDone(after, head, count - 1);
      assert Next(after, cursor, count) == [head] + rest;
      assert End(cursor, [head] + rest) == End(head, rest);
    }
  }

  lemma CursorMovesToEnd(after: After, rows: seq<int>, now: int, count: nat)
    requires IsSuccessor(after)
    ensures Cursor(Materialize(after, rows, now, count), now)
            == End(Cursor(rows, now), Next(after, Cursor(rows, now), count))
  {
    var xs := Next(after, Cursor(rows, now), count);
    MaterializeAppendsTheNext(after, rows, now, count);
    if xs == [] {
      assert rows + xs == rows;
    } else {
      NextIsTheNext(after, Cursor(rows, now), count);
      LatestOfAppend(rows, xs);
      assert xs[|xs| - 1] in xs;
    }
  }

  /** Two calls of a and then b at the same instant leave what one call of a + b leaves. */
  lemma TwoCallsAreOne(after: After, rows: seq<int>, now: int, a: nat, b: nat)
    requires IsSuccessor(after)
    ensures Materialize(after, Materialize(after, rows, now, a), now, b) == Materialize(after, rows, now, a + b)
  {
    var cursor := Cursor(rows, now);
    var xs := Next(after, cursor, a);
    MaterializeAppendsTheNext(after, rows, now, a);
    MaterializeAppendsTheNext(after, rows, now, a + b);
    MaterializeAppendsTheNext(after, rows + xs, now, b);
    CursorMovesToEnd(after, rows, now, a);
    NextSplits(after, cursor, a, b);
    if |xs| < a {
      ShortMeansDone(after, cursor, a);
    }
    var ys := Next(after, End(cursor, xs), b);
    assert rows + xs + ys == rows + (xs + ys);
  }

  // ---------------------------------------------------------------- whole runs

  /** One call: the clock reading and the count asked for. */
  datatype Call = Call(now: int, count: nat)

  function Run(after: After, rows: seq<int>, calls: seq<Call>): seq<int>
    decreases |calls|
  {
    if calls == [] then rows else Run(after, Materialize(after, rows, calls[0].now, calls[0].count), calls[1..])
  }

  ghost predicate Forward(calls: seq<Call>, since: int) {
    && (forall i | 0 <= i < |calls| :: since <= calls[i].now)
    && (forall i, j | 0 <= i < j < |calls| :: calls[i].now <= calls[j].now)
  }

  /** The stored rows, in the order they were stored, are occurrences in their order, and from `now` on
      they are all the occurrences up to the latest one stored. */
  ghost predicate Faithful(after: After, rows: seq<int>, now: int) {
    && Increasing(rows)
    && (forall r | r in rows :: Occurs(after, r))
    && (forall u | now < u && Occurs(after, u) && rows != [] && u <= rows[|rows| - 1] :: u in rows)
  }

  lemma JoinIncreasing(rows: seq<int>, xs: seq<int>)
    requires Increasing(rows) && Increasing(xs) && forall x, r | x in xs && r in rows :: r < x
    ensures Increasing(rows + xs)
  {
    var all := rows + xs;
    forall i, j | 0 <= i < j < |all| ensures all[i] < all[j] {
      if i < |rows| <= j {
        assert all[i] in rows && all[j] in xs;
      }
    }
  }

  /** Up to the cursor everything was stored before; past it the call stores everything up to its last. */
  lemma NothingSkipped(after: After, rows: seq<int>, before: int, call: Call, u: int)
    requires IsSuccessor(after) && Faithful(after, rows, before) && before <= call.now < u && Occurs(after, u)
    requires var all := rows + Next(after, Cursor(rows, call.now), call.count); all != [] && u <= all[|all| - 1]
    ensures u in rows + Next(after, Cursor(rows, call.now), call.count)
  {
    var cursor := Cursor(rows, call.now);
    var xs := Next(after, cursor, call.count);
    NextIsTheNext(after, cursor, call.count);
    LatestIsGreatest(rows);
    assert rows != [] ==> rows[|rows| - 1] in rows;
    if xs == [] {
      assert rows + xs == rows;
    }
    if u <= cursor {
      assert Latest(rows).Some? && cursor == Latest(rows).value;
      var i :| 0 <= i < |rows| && rows[i] == cursor;
      assert rows[i] <= rows[|rows| - 1];
    }
  }

  lemma MaterializeKeepsFaithful(after: After, rows: seq<int>, before: int, call: Call)
    requires IsSuccessor(after) && Faithful(after, rows, before) && before <= call.now
    ensures Faithful(after, Materialize(after, rows, call.now, call.count), call.now)
  {
    var cursor := Cursor(rows, call.now);
    var xs := Next(after, cursor, call.count);
    MaterializeAppendsTheNext(after, rows, call.now, call.count);
    NextIsTheNext(after, cursor, call.count);
    JoinIncreasing(rows, xs);
    var all := rows + xs;
    forall u | call.now < u && Occurs(after, u) && all != [] && u <= all[|all| - 1] ensures u in all {
      NothingSkipped(after, rows, before, call, u);
    }
  }

  /** After every call of every run whose clock does not go back, the table is the ordered occurrence list
      from that call's instant to the latest stored one, with nothing extra, repeated or missing. */
  lemma {:induction false} RunIsFaithful(after: After, rows: seq<int>, calls: seq<Call>, since: int)
    requires IsSuccessor(after) && Faithful(after, rows, since) && Forward(calls, since) && calls != []
    ensures Faithful(after, Run(after, rows, calls), calls[|calls| - 1].now)
    decreases |calls|
  {
    var rows1 := Materialize(after, rows, calls[0].now, calls[0].count);
    MaterializeKeepsFaithful(after, rows, since, calls[0]);
    var rest := calls[1..];
    if rest == [] {
      assert Run(after, rows1, rest) == rows1;
    } else {
      assert forall i | 0 <= i < |rest| :: rest[i] == calls[i + 1];
      RunIsFaithful(after, rows1, rest, calls[0].now);
    }
  }

  function Total(calls: seq<Call>): nat {
    if calls == [] then 0 else calls[0].count + Total(calls[1..])
  }

  /** Any number of calls at one instant store what a single call for the total stores. */
  lemma {:induction false} OnlyTheTotalMatters(after: After, rows: seq<int>, calls: seq<Call>, now: int)
    requires IsSuccessor(after) && forall i | 0 <= i < |calls| :: calls[i].now == now
    ensures Run(after, rows, calls) == Materialize(after, rows, now, Total(calls))
    decreases |calls|
  {
    if calls == [] {
      MaterializeAppendsTheNext(after, rows, now, 0);
      assert rows + [] == rows;
    } else {
      OnlyTheTotalMatters(after, Materialize(after, rows, now, calls[0].count), calls[1..], now);
      TwoCallsAreOne(after, rows, now, calls[0].count, Total(calls[1..]));
    }
  }

  // ---------------------------------------------------------------- the service

  /** One contract's occurrence table and `materializeServiceContractOccurrences` over it. */
  class Contract {
    var rule: RuleConfig
    var rows: seq<int>

    constructor (rule: RuleConfig)
      ensures this.rule == rule && rows == []
    {
      this.rule, this.rows := rule, [];
    }

    /** Without a positive count the rule is not even built. */
    method MaterializeOccurrences(now: int, count: int) returns (error: Option<RuleError>, stored: seq<int>)
      requires rule.rrule.Read? ==> IsPattern(rule.rrule.value)
      modifies this`rows
      ensures error.Some? <==> count > 0 && BuildRecurrenceRule(rule).Rejected?
      ensures error.Some? ==> error.value == BuildRecurrenceRule(rule).error && rows == old(rows)
      ensures error.None? && count > 0 ==>
                && rows == Materialize(BuildRecurrenceRule(rule).after, old(rows), now, count)
                && rows == old(rows) + stored
      ensures count <= 0 ==> rows == old(rows) && stored == []
    {
      var latest := Latest(rows);
      var cursor := if latest.Some? && latest.value > now then latest.value else now;
      if count <= 0 {
        return None, [];
      }
      var built := BuildRecurrenceRule(rule);
      if built.Rejected? {
        return Some(built.error), [];
      }
      BuiltRuleIsThePattern(rule);
      MaterializeAppendsTheNext(built.after, rows, now, count);
      var occurrences := GenerateNextOccurrences(built.after, cursor, count);
      error := None;
      if |occurrences| == 0 {
        return None, [];
      }
      rows := InsertNew(rows, occurrences);
      stored := Select(rows, occurrences);
      SelectInserted(old(rows), occurrences);
    }
  }
}
