/**
 Login lockout per (email, IP) key (`ensureLoginNotLocked`, `recordLoginFailure`, `clearLoginAttempts`
 of `auth.service.ts`). A login call is atomic and carries the clock reading it was made at.
 */
module Lockout {
  import opened Prelude

  type Key = (string, string)

  /** The three settings are parsed as positive numbers. */
  datatype Policy = Policy(maxAttempts: nat, lockoutMs: nat, windowMs: nat)

  datatype Attempt = Attempt(failCount: nat, firstFailedAt: int, lastFailedAt: int, lockedUntil: Option<int>)

  type Table = map<Key, Attempt>

  /** `good`: the credentials pass every check that follows the lockout guard. */
  datatype Login = Login(key: Key, at: int, good: bool)

  datatype Result = Locked | Failed | Succeeded

  predicate Usable(p: Policy) { p.maxAttempts > 0 && p.lockoutMs > 0 && p.windowMs > 0 }

  predicate IsLocked(a: Attempt, now: int) { a.lockedUntil.Some? && a.lockedUntil.value > now }

  /** A row the guard throws away: its lock has run out, or its last failure is too old. */
  predicate IsStale(p: Policy, a: Attempt, now: int) {
    a.lockedUntil.Some? || now - a.lastFailedAt > p.windowMs
  }

  /** The table after the guard has let a call through. */
  function Guarded(p: Policy, t: Table, key: Key, now: int): Table {
    if key in t && !IsLocked(t[key], now) && IsStale(p, t[key], now) then t - {key} else t
  }

  /** The row `recordLoginFailure` writes over `prior`. */
  function FailureRow(p: Policy, prior: Option<Attempt>, now: int): Attempt {
    var within := prior.Some? && now - prior.value.lastFailedAt <= p.windowMs;
    var count := if within then prior.value.failCount + 1 else 1;
    var lock := if count >= p.maxAttempts then Some(now + p.lockoutMs) else None;
    if prior.None? then Attempt(count, now, now, lock)
    else if !within || prior.value.lockedUntil.Some? then Attempt(1, now, now, lock)
    else Attempt(count, prior.value.firstFailedAt, now, lock)
  }

  function Lookup(t: Table, key: Key): Option<Attempt> {
    if key in t then Some(t[key]) else None
  }

  function Step(p: Policy, t: Table, call: Login): (Table, Result) {
    if call.key in t && IsLocked(t[call.key], call.at) then (t, Locked)
    else
      var g := Guarded(p, t, call.key, call.at);
      if call.good then (g - {call.key}, Succeeded)
      else (g[call.key := FailureRow(p, Lookup(g, call.key), call.at)], Failed)
  }

  function Run(p: Policy, t: Table, calls: seq<Login>): Table
    decreases |calls|
  {
    if calls == [] then t else Run(p, Step(p, t, calls[0]).0, calls[1..])
  }

  /** Failed logins of `key` that got past the guard. */
  function Failures(p: Policy, t: Table, calls: seq<Login>, key: Key): nat
    decreases |calls|
  {
    if calls == [] then 0
    else
      var (t1, r) := Step(p, t, calls[0]);
      (if calls[0].key == key && r == Failed then 1 else 0) + Failures(p, t1, calls[1..], key)
  }

  function Successes(p: Policy, t: Table, calls: seq<Login>, key: Key): nat
    decreases |calls|
  {
    if calls == [] then 0
    else
      var (t1, r) := Step(p, t, calls[0]);
      (if calls[0].key == key && r == Succeeded then 1 else 0) + Successes(p, t1, calls[1..], key)
  }

  predicate Timed(calls: seq<Login>) {
    forall i, j | 0 <= i < j < |calls| :: calls[i].at <= calls[j].at
  }

  // ---------------------------------------------------------------- invariant

  /** What every table a run can reach looks like at time `now`. */
  ghost predicate Inv(p: Policy, t: Table, now: int) {
    forall k | k in t ::
      && t[k].firstFailedAt <= t[k].lastFailedAt <= now
      && 1 <= t[k].failCount
      && (t[k].lockedUntil.None? ==> t[k].failCount < p.maxAttempts)
      && (t[k].lockedUntil.Some? ==> t[k].lockedUntil.value == t[k].lastFailedAt + p.lockoutMs)
  }

  lemma StepKeepsInv(p: Policy, t: Table, call: Login, now: int)
    requires Usable(p) && Inv(p, t, now) && now <= call.at
    ensures Inv(p, Step(p, t, call).0, call.at)
  {}

  lemma {:induction false} RunKeepsInv(p: Policy, t: Table, calls: seq<Login>, now: int) returns (end: int)
    requires Usable(p) && Inv(p, t, now) && Timed(calls) && (calls != [] ==> now <= calls[0].at)
    ensures now <= end && (calls == [] ==> end == now) && (calls != [] ==> end == calls[|calls| - 1].at)
    ensures Inv(p, Run(p, t, calls), end)
    decreases |calls|
  {
    if calls == [] {
      end := now;
    } else {
      StepKeepsInv(p, t, calls[0], now);
      end := RunKeepsInv(p, Step(p, t, calls[0]).0, calls[1..], calls[0].at);
    }
  }

  // ---------------------------------------------------------------- the bound

  /** How many more failures `key` can have before `last`, given the first one in the span came at `first`. */
  function Room(p: Policy, t: Table, key: Key, first: int, last: int): nat {
    if key !in t || t[key].lastFailedAt < first then p.maxAttempts
    else if t[key].lockedUntil.Some? then (if t[key].lockedUntil.value > last then 0 else p.maxAttempts)
    else if t[key].failCount <= p.maxAttempts then p.maxAttempts - t[key].failCount
    else 0
  }

  predicate Within(calls: seq<Login>, first: int, last: int) {
    forall i | 0 <= i < |calls| :: first <= calls[i].at <= last
  }

  /** The lengths of span the bound is good for. With one attempt allowed, every failure locks. */
  predicate ShortSpan(p: Policy, span: nat) {
    span < p.lockoutMs && (span <= p.windowMs || p.maxAttempts == 1)
  }

  lemma StepUsesRoom(p: Policy, t: Table, call: Login, key: Key, now: int, first: int, last: int)
    requires Usable(p) && Inv(p, t, now) && now <= call.at && first <= call.at <= last
    requires ShortSpan(p, last - first)
    requires call.key == key ==> Step(p, t, call).1 != Succeeded
    ensures var (t1, r) := Step(p, t, call);
            Room(p, t1, key, first, last) + (if call.key == key && r == Failed then 1 else 0)
            <= Room(p, t, key, first, last)
  {}

  lemma {:induction false} FailuresFitRoom(
    p: Policy, t: Table, calls: seq<Login>, key: Key, now: int, first: int, last: int)
    requires Usable(p) && Inv(p, t, now) && Timed(calls) && Within(calls, first, last)
    requires calls != [] ==> now <= calls[0].at
    requires first <= last && ShortSpan(p, last - first)
    requires Successes(p, t, calls, key) == 0
    ensures Failures(p, t, calls, key) <= Room(p, t, key, first, last)
    decreases |calls|
  {
    if calls != [] {
      var (t1, r) := Step(p, t, calls[0]);
      StepKeepsInv(p, t, calls[0], now);
      StepUsesRoom(p, t, calls[0], key, now, first, last);
      assert Within(calls[1..], first, last);
      FailuresFitRoom(p, t1, calls[1..], key, calls[0].at, first, last);
    }
  }

  /** After any run from the empty table, a span with no success has at most `maxAttempts` failures. */
  ghost predicate BoundedOn(p: Policy, span: nat, before: seq<Login>, calls: seq<Login>, key: Key, first: int) {
    && Timed(before + calls)
    && Within(calls, first, first + span)
    && Successes(p, Run(p, map[], before), calls, key) == 0
    ==> Failures(p, Run(p, map[], before), calls, key) <= p.maxAttempts
  }

  lemma LockoutBound(p: Policy, span: nat, before: seq<Login>, calls: seq<Login>, key: Key, first: int)
    requires Usable(p) && ShortSpan(p, span)
    ensures BoundedOn(p, span, before, calls, key, first)
  {
    var t := Run(p, map[], before);
    if Timed(before + calls) && Within(calls, first, first + span) && Successes(p, t, calls, key) == 0 {
      var all := before + calls;
      assert forall i | 0 <= i < |before| :: before[i] == all[i];
      assert forall i | 0 <= i < |calls| :: calls[i] == all[|before| + i];
      var start := if before != [] then before[0].at else if calls != [] then calls[0].at else 0;
      var end := RunKeepsInv(p, map[], before, start);
      FailuresFitRoom(p, t, calls, key, end, first, first + span);
    }
  }

  // ---------------------------------------------------------------- and it is exact

  function Bad(key: Key, at: int, n: nat): (calls: seq<Login>)
    ensures |calls| == n && forall i | 0 <= i < n :: calls[i] == Login(key, at, false)
  {
    if n == 0 then [] else [Login(key, at, false)] + Bad(key, at, n - 1)
  }

  lemma {:induction false} FailuresAppend(p: Policy, t: Table, xs: seq<Login>, ys: seq<Login>, key: Key)
    ensures Failures(p, t, xs + ys, key) == Failures(p, t, xs, key) + Failures(p, Run(p, t, xs), ys, key)
    ensures Successes(p, t, xs + ys, key) == Successes(p, t, xs, key) + Successes(p, Run(p, t, xs), ys, key)
    decreases |xs|
  {
    if xs == [] {
      assert xs + ys == ys;
    } else {
      assert (xs + ys)[1..] == xs[1..] + ys;
      FailuresAppend(p, Step(p, t, xs[0]).0, xs[1..], ys, key);
    }
  }

  /** `n` bad logins at one instant against a row holding `prior` recent failures all get through while
      the total stays below the maximum, and the one that reaches it locks the key. */
  lemma {:induction false} Burst(p: Policy, t: Table, key: Key, at: int, n: nat, prior: nat)
    requires Usable(p) && prior + n <= p.maxAttempts && prior < p.maxAttempts
    requires if key in t then prior == t[key].failCount && t[key].lockedUntil.None? && t[key].lastFailedAt == at
             else prior == 0
    ensures var calls := Bad(key, at, n);
            && Failures(p, t, calls, key) == n && Successes(p, t, calls, key) == 0
            && (n > 0 ==>
                  && key in Run(p, t, calls)
                  && Run(p, t, calls)[key].lastFailedAt == at
                  && Run(p, t, calls)[key].failCount == prior + n
                  && Run(p, t, calls)[key].lockedUntil ==
                     (if prior + n == p.maxAttempts then Some(at + p.lockoutMs) else None))
    decreases n
  {
    if n > 0 {
      var calls := Bad(key, at, n);
      assert calls[1..] == Bad(key, at, n - 1);
      var t1 := Step(p, t, calls[0]).0;
      if n > 1 {
        Burst(p, t1, key, at, n - 1, prior + 1);
      } else {
        assert calls[1..] == [];
      }
    }
  }

  /** A burst at time 0 and a full one once its row has gone stale are all evaluated. */
  lemma TwoBursts(p: Policy, key: Key, n: nat, later: int)
    requires Usable(p) && 0 < n <= p.maxAttempts
    requires if n == p.maxAttempts then p.lockoutMs <= later else p.windowMs < later
    ensures var calls := Bad(key, 0, n) + Bad(key, later, p.maxAttempts);
            Failures(p, map[], calls, key) == n + p.maxAttempts && Successes(p, map[], calls, key) == 0
  {
    var xs, ys := Bad(key, 0, n), Bad(key, later, p.maxAttempts);
    Burst(p, map[], key, 0, n, 0);
    var t := Run(p, map[], xs);
    var g := Guarded(p, t, key, later);
    assert key !in g;
    SkipStaleRow(p, t, ys, key);
    Burst(p, g, key, later, p.maxAttempts, 0);
    FailuresAppend(p, map[], xs, ys, key);
  }

  lemma BurstsAreTimed(key: Key, n: nat, later: nat, m: nat)
    ensures var calls := Bad(key, 0, n) + Bad(key, later, m);
            Timed(calls) && Within(calls, 0, later) && Timed([] + calls)
  {
    var a, b := Bad(key, 0, n), Bad(key, later, m);
    hide Bad;
    var calls: seq<Login> := a + b;
    assert forall i | 0 <= i < |calls| :: calls[i].at == if i < n then 0 else later;
    assert [] + calls == calls;
  }

  /** Too many failures for any span the bound does not cover. */
  lemma TooManyInALongSpan(p: Policy, span: nat) returns (calls: seq<Login>, key: Key)
    requires Usable(p) && !ShortSpan(p, span)
    ensures !BoundedOn(p, span, [], calls, key, 0)
  {
    assert Run(p, map[], []) == map[];
    hide Run;
    hide Failures;
    hide Successes;
    hide Bad;
    hide Timed;
    key := ("", "");
    var n := if p.lockoutMs <= span then p.maxAttempts else p.maxAttempts - 1;
    var later := if p.lockoutMs <= span then p.lockoutMs else p.windowMs + 1;
    calls := Bad(key, 0, n) + Bad(key, later, p.maxAttempts);
    BurstsAreTimed(key, n, later, p.maxAttempts);
    TwoBursts(p, key, n, later);
  }

  /** A first call that finds a stale row behaves as if the row were absent. */
  lemma SkipStaleRow(p: Policy, t: Table, ys: seq<Login>, key: Key)
    requires ys != [] && ys[0].key == key && key in t && !IsLocked(t[key], ys[0].at) && IsStale(p, t[key], ys[0].at)
    ensures Failures(p, t, ys, key) == Failures(p, Guarded(p, t, key, ys[0].at), ys, key)
    ensures Successes(p, t, ys, key) == Successes(p, Guarded(p, t, key, ys[0].at), ys, key)
  {
    assert Step(p, t, ys[0]) == Step(p, Guarded(p, t, key, ys[0].at), ys[0]);
  }

  /** At most `maxAttempts` evaluated failures in every success-free span of the given length, in every
      run, exactly when the span is shorter than the lockout and (unless one failure locks) fits the window. */
  lemma LockoutBoundIff(p: Policy, span: nat)
    requires Usable(p)
    ensures (forall before, calls, key, first :: BoundedOn(p, span, before, calls, key, first)) <==> ShortSpan(p, span)
  {
    if ShortSpan(p, span) {
      forall before, calls, key, first ensures BoundedOn(p, span, before, calls, key, first) {
        LockoutBound(p, span, before, calls, key, first);
      }
    } else {
      var calls, key := TooManyInALongSpan(p, span);
      assert !BoundedOn(p, span, [], calls, key, 0);
    }
  }
}
