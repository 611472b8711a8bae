/**
 Logins cut at every statement: the guard's lookup, its reading of the clock, its deletion of a stale row, the
 password check, and for a failure the lookup, the clock and the write. Other logins can come in anywhere.

 The writes name a row by its key only: they do not ask whether it is still the row that was looked up. A create
 that finds a row, and an update that finds none, fail without effect.
 */
module LockoutRace {
  import opened Prelude
  import L = Lockout

  /** How far a login has come: past the guard's lookup, about to delete a stale row, checking the password, or
      past the lookup of a failure, with the clock if it has read it. */
  datatype Call =
    | Arrived(key: L.Key, seen: Option<L.Attempt>)
    | Passing(key: L.Key, stale: L.Attempt)
    | Checking(key: L.Key)
    | Recording(key: L.Key, found: Option<L.Attempt>, clock: Option<int>)

  datatype State = State(table: L.Table, inflight: map<nat, Call>)

  datatype Op =
    | Guard(call: nat, key: L.Key, at: int)
    | Pass(call: nat, at: int)
    | Discard(call: nat, at: int)
    | Clear(call: nat, at: int)
    | Look(call: nat, at: int)
    | Clock(call: nat, at: int)
    | Record(call: nat, at: int)

  const INIT := State(map[], map[])

  /** `ensureLoginNotLocked` once it has the row and the clock; `None` refuses the login. */
  function Admit(p: L.Policy, key: L.Key, seen: Option<L.Attempt>, at: int): Option<Call> {
    if seen.None? then Some(Checking(key))
    else if L.IsLocked(seen.value, at) then None
    else if L.IsStale(p, seen.value, at) then Some(Passing(key, seen.value))
    else Some(Checking(key))
  }

  /** The write of a failure that found `found`; a further failure within the window leaves `firstFailedAt` as the
      row has it. */
  function Recorded(p: L.Policy, t: L.Table, key: L.Key, found: Option<L.Attempt>, at: int): L.Table {
    if found.Some? != (key in t) then t
    else
      var row := L.FailureRow(p, found, at);
      var further := found.Some? && at - found.value.lastFailedAt <= p.windowMs && found.value.lockedUntil.None?;
      t[key := if further then row.(firstFailedAt := t[key].firstFailedAt) else row]
  }

  function Step(p: L.Policy, s: State, op: Op): State {
    if op.Guard? then
      if op.call in s.inflight then s
      else s.(inflight := s.inflight[op.call := Arrived(op.key, L.Lookup(s.table, op.key))])
    else if op.call !in s.inflight then s
    else
      var call, rest := s.inflight[op.call], s.inflight - {op.call};
      match (op, call)
      case (Pass(c, at), Arrived(key, seen)) =>
        var next := Admit(p, key, seen, at);
        s.(inflight := if next.Some? then s.inflight[c := next.value] else rest)
      case (Discard(c, _), Passing(key, _)) => State(s.table - {key}, s.inflight[c := Checking(key)])
      case (Clear(_, _), Checking(key)) => State(s.table - {key}, rest)
      case (Look(c, _), Checking(key)) =>
        s.(inflight := s.inflight[c := Recording(key, L.Lookup(s.table, key), None)])
      case (Clock(c, at), Recording(_, _, None)) => s.(inflight := s.inflight[c := call.(clock := Some(at))])
      case (Record(_, at), Recording(key, found, clock)) =>
        State(Recorded(p, s.table, key, found, Default(clock, at)), rest)
      case _ => s
  }

  function Run(p: L.Policy, s: State, ops: seq<Op>): State
    decreases |ops|
  {
    if ops == [] then s else Run(p, Step(p, s, ops[0]), ops[1..])
  }

  /** The next statement of a login of `key`. */
  predicate Of(s: State, op: Op, key: L.Key) { op.call in s.inflight && s.inflight[op.call].key == key }

  /** An outcome evaluated for `key`: good credentials clear the row, bad ones look it up. */
  predicate Ends(s: State, op: Op, key: L.Key, good: bool) {
    Of(s, op, key) && s.inflight[op.call].Checking? && (if good then op.Clear? else op.Look?)
  }

  function Count(p: L.Policy, s: State, ops: seq<Op>, key: L.Key, good: bool): nat
    decreases |ops|
  {
    if ops == [] then 0
    else (if Ends(s, ops[0], key, good) then 1 else 0) + Count(p, Step(p, s, ops[0]), ops[1..], key, good)
  }

  predicate Timed(ops: seq<Op>) { forall i, j | 0 <= i < j < |ops| :: ops[i].at <= ops[j].at }

  predicate Within(ops: seq<Op>, first: int, last: int) { forall i | 0 <= i < |ops| :: first <= ops[i].at <= last }

  // ---------------------------------------------------------------- what disturbs the count

  /** The write of a failure. */
  predicate Records(s: State, op: Op, key: L.Key) { op.Record? && Of(s, op, key) && s.inflight[op.call].Recording? }

  /** A failure looked up or written over a lock. The guard lets no call through to a locked row it sees, so the
      lock was set after that. */
  predicate Meets(s: State, op: Op, key: L.Key) {
    (Ends(s, op, key, false) || Records(s, op, key)) && key in s.table && s.table[key].lockedUntil.Some?
  }

  /** A failure looked up between the lookup and the write of another. */
  ghost predicate Crosses(s: State, op: Op, key: L.Key) {
    Ends(s, op, key, false) && exists c | c in s.inflight :: s.inflight[c].Recording? && s.inflight[c].key == key
  }

  /** A write that finds another row than its lookup did: of a failure, or the deletion of a stale row. */
  predicate Replaced(s: State, op: Op, key: L.Key) {
    || (Records(s, op, key) && L.Lookup(s.table, key) != s.inflight[op.call].found)
    || (op.Discard? && Of(s, op, key) && s.inflight[op.call].Passing?
        && key in s.table && s.table[key] != s.inflight[op.call].stale)
  }

  ghost predicate Disturbs(s: State, op: Op, key: L.Key) {
    Meets(s, op, key) || Crosses(s, op, key) || Replaced(s, op, key)
  }

  ghost predicate Undisturbed(p: L.Policy, s: State, ops: seq<Op>, key: L.Key)
    decreases |ops|
  {
    ops != [] ==> !Disturbs(s, ops[0], key) && Undisturbed(p, Step(p, s, ops[0]), ops[1..], key)
  }

  // ---------------------------------------------------------------- the invariant

  predicate RowOk(p: L.Policy, a: L.Attempt, now: int) {
    && a.lastFailedAt <= now && 1 <= a.failCount
    && (a.lockedUntil.None? ==> a.failCount < p.maxAttempts)
    && (a.lockedUntil.Some? ==> a.lockedUntil.value == a.lastFailedAt + p.lockoutMs)
  }

  predicate CallOk(p: L.Policy, call: Call, now: int) {
    match call
    case Arrived(_, seen) => seen.Some? ==> RowOk(p, seen.value, now)
    case Passing(_, stale) => RowOk(p, stale, now) && L.IsStale(p, stale, now) && !L.IsLocked(stale, now)
    case Checking(_) => true
    case Recording(_, found, clock) =>
      && (clock.Some? ==> clock.value <= now)
      && (found.Some? ==> RowOk(p, found.value, if clock.Some? then clock.value else now))
  }

  ghost predicate Inv(p: L.Policy, s: State, now: int) {
    && (forall k | k in s.table :: RowOk(p, s.table[k], now))
    && (forall c | c in s.inflight :: CallOk(p, s.inflight[c], now))
  }

  lemma RecordedRow(p: L.Policy, t: L.Table, key: L.Key, found: Option<L.Attempt>, at: int)
    requires L.Usable(p) && (found.Some? ==> RowOk(p, found.value, at))
    ensures var u := Recorded(p, t, key, found, at);
            forall k | k in u :: (k in t && u[k] == t[k]) || (k == key && RowOk(p, u[key], at))
  {}

  lemma LaterIsOk(p: L.Policy, s: State, now: int, later: int)
    requires Inv(p, s, now) && now <= later
    ensures Inv(p, s, later)
  {}

  /** Only the statement's own call moves on. */
  lemma OthersWait(p: L.Policy, s: State, op: Op)
    ensures forall c | c != op.call ::
              (c in Step(p, s, op).inflight <==> c in s.inflight)
              && (c in s.inflight ==> Step(p, s, op).inflight[c] == s.inflight[c])
  {
    hide Admit;
    hide Recorded;
  }

  lemma CallMovesOn(p: L.Policy, s: State, op: Op)
    requires Inv(p, s, op.at)
    ensures op.call in Step(p, s, op).inflight ==> CallOk(p, Step(p, s, op).inflight[op.call], op.at)
  {
    hide Recorded;
    if op.call in s.inflight {
      assert CallOk(p, s.inflight[op.call], op.at);
    }
  }

  lemma RowsStayOk(p: L.Policy, s: State, op: Op)
    requires L.Usable(p) && Inv(p, s, op.at)
    ensures forall k | k in Step(p, s, op).table :: RowOk(p, Step(p, s, op).table[k], op.at)
  {
    hide Admit;
    if op.Record? && op.call in s.inflight && s.inflight[op.call].Recording? {
      var call := s.inflight[op.call];
      assert CallOk(p, call, op.at);
      RecordedRow(p, s.table, call.key, call.found, Default(call.clock, op.at));
    }
    hide Recorded;
  }

  /** Over every interleaving: a lock lasts `lockoutMs` from the last failure, and an unlocked row counts fewer
      than `maxAttempts`. */
  lemma StepKeepsInv(p: L.Policy, s: State, op: Op, now: int)
    requires L.Usable(p) && Inv(p, s, now) && now <= op.at
    ensures Inv(p, Step(p, s, op), op.at)
  {
    LaterIsOk(p, s, now, op.at);
    OthersWait(p, s, op);
    CallMovesOn(p, s, op);
    RowsStayOk(p, s, op);
    hide Step;
    hide CallOk;
    hide RowOk;
  }

  lemma {:induction false} RunKeepsInv(p: L.Policy, s: State, ops: seq<Op>, now: int) returns (end: int)
    requires L.Usable(p) && Inv(p, s, now) && Timed(ops) && (ops != [] ==> now <= ops[0].at)
    ensures now <= end && (ops == [] ==> end == now) && (ops != [] ==> end == ops[|ops| - 1].at)
    ensures Inv(p, Run(p, s, ops), end)
    decreases |ops|
  {
    end := now;
    if ops != [] {
      StepKeepsInv(p, s, ops[0], now);
      var rest := ops[1..];
      assert forall i | 0 <= i < |rest| :: rest[i] == ops[i + 1];
      end := RunKeepsInv(p, Step(p, s, ops[0]), rest, ops[0].at);
    }
  }

  // ---------------------------------------------------------------- the bound, where nothing disturbs the count

  /** The failure of the stretch that has been looked up and not yet written: there is room left for it. */
  ghost predicate Owed(p: L.Policy, s: State, key: L.Key, first: int, last: int, owed: Option<nat>) {
    owed.Some? ==>
      && owed.value in s.inflight && s.inflight[owed.value].Recording? && s.inflight[owed.value].key == key
      && (s.inflight[owed.value].clock.Some? ==> first <= s.inflight[owed.value].clock.value)
      && (forall c | c in s.inflight && s.inflight[c].Recording? && s.inflight[c].key == key :: c == owed.value)
      && L.Room(p, s.table, key, first, last) > 0
  }

  function Left(p: L.Policy, s: State, key: L.Key, first: int, last: int, owed: Option<nat>): int {
    L.Room(p, s.table, key, first, last) - if owed.Some? then 1 else 0
  }

  function Owes(s: State, op: Op, key: L.Key, owed: Option<nat>): Option<nat> {
    if Ends(s, op, key, false) then Some(op.call) else if op.Record? && owed == Some(op.call) then None else owed
  }

  /** An undisturbed write of a failure uses up room, if it is one of the stretch. */
  lemma RecordUsesRoom(p: L.Policy, t: L.Table, key: L.Key, at: int, now: int, first: int, last: int)
    requires L.Usable(p) && first <= last && at <= now <= last && L.ShortSpan(p, last - first)
    requires key in t ==> t[key].lockedUntil.None? && RowOk(p, t[key], at)
    ensures var u := Recorded(p, t, key, L.Lookup(t, key), at);
            L.Room(p, u, key, first, last) + (if first <= at then 1 else 0) <= L.Room(p, t, key, first, last)
  {}

  lemma DiscardKeepsRoom(p: L.Policy, t: L.Table, key: L.Key, stale: L.Attempt, now: int, first: int, last: int)
    requires L.Usable(p) && first <= last && now <= last && L.ShortSpan(p, last - first)
    requires CallOk(p, Passing(key, stale), now) && (key in t ==> t[key] == stale)
    ensures L.Room(p, t - {key}, key, first, last) == L.Room(p, t, key, first, last)
  {}

  lemma OtherKeepsRoom(p: L.Policy, s: State, op: Op, key: L.Key, first: int, last: int)
    requires !Of(s, op, key) || op.Guard? || op.Pass? || op.Look? || op.Clock?
    ensures L.Room(p, Step(p, s, op).table, key, first, last) == L.Room(p, s.table, key, first, last)
  {
    hide L.FailureRow;
  }

  lemma StepUsesRoom(
    p: L.Policy, s: State, op: Op, key: L.Key, now: int, first: int, last: int, owed: Option<nat>)
    requires L.Usable(p) && Inv(p, s, now) && now <= op.at && first <= op.at <= last
    requires L.ShortSpan(p, last - first) && !Disturbs(s, op, key) && !Ends(s, op, key, true)
    requires Owed(p, s, key, first, last, owed)
    ensures var t, owes := Step(p, s, op), Owes(s, op, key, owed);
            && Owed(p, t, key, first, last, owes)
            && Left(p, t, key, first, last, owes) + (if Ends(s, op, key, false) then 1 else 0)
               <= Left(p, s, key, first, last, owed)
  {
    StepKeepsInv(p, s, op, now);
    if Records(s, op, key) {
      var call := s.inflight[op.call];
      assert CallOk(p, call, now);
      RecordUsesRoom(p, s.table, key, Default(call.clock, op.at), op.at, first, last);
    } else if Of(s, op, key) && op.Discard? && s.inflight[op.call].Passing? {
      assert CallOk(p, s.inflight[op.call], now);
      DiscardKeepsRoom(p, s.table, key, s.inflight[op.call].stale, now, first, last);
    } else if !Of(s, op, key) || op.Guard? || op.Pass? || op.Look? || op.Clock? {
      OtherKeepsRoom(p, s, op, key, first, last);
    }
    hide Recorded;
    hide L.FailureRow;
    hide Admit;
  }

  lemma {:induction false} FailuresFitRoom(
    p: L.Policy, s: State, ops: seq<Op>, key: L.Key, now: int, first: int, last: int, owed: Option<nat>)
    requires L.Usable(p) && Inv(p, s, now) && Timed(ops) && Within(ops, first, last)
    requires ops != [] ==> now <= ops[0].at
    requires first <= last && L.ShortSpan(p, last - first) && Owed(p, s, key, first, last, owed)
    requires Undisturbed(p, s, ops, key) && Count(p, s, ops, key, true) == 0
    ensures Count(p, s, ops, key, false) <= Left(p, s, key, first, last, owed)
    decreases |ops|
  {
    if ops != [] {
      StepKeepsInv(p, s, ops[0], now);
      StepUsesRoom(p, s, ops[0], key, now, first, last, owed);
      hide Inv;
      hide Owed;
      hide Disturbs;
      var rest := ops[1..];
      assert forall i | 0 <= i < |rest| :: rest[i] == ops[i + 1];
      FailuresFitRoom(p, Step(p, s, ops[0]), rest, key, ops[0].at, first, last, Owes(s, ops[0], key, owed));
    }
  }

  /** After `before`, a span with no success has at most `maxAttempts` failures evaluated for the key. */
  ghost predicate BoundedOn(p: L.Policy, span: nat, before: seq<Op>, ops: seq<Op>, key: L.Key, first: int) {
    && Timed(before + ops)
    && Within(ops, first, first + span)
    && Count(p, Run(p, INIT, before), ops, key, true) == 0
    ==> Count(p, Run(p, INIT, before), ops, key, false) <= p.maxAttempts
  }

  /** The lockout bound for interleaved logins, when in the stretch no failure of the key meets a lock, no two
      overlap between lookup and write, and every write finds the row its lookup saw. */
  lemma FreshBound(p: L.Policy, span: nat, before: seq<Op>, ops: seq<Op>, key: L.Key, first: int)
    requires L.Usable(p) && L.ShortSpan(p, span) && Undisturbed(p, Run(p, INIT, before), ops, key)
    ensures BoundedOn(p, span, before, ops, key, first)
  {
    var s := Run(p, INIT, before);
    if Timed(before + ops) && Within(ops, first, first + span) && Count(p, s, ops, key, true) == 0 {
      var all := before + ops;
      assert forall i | 0 <= i < |before| :: before[i] == all[i];
      assert forall i | 0 <= i < |ops| :: ops[i] == all[|before| + i];
      var start := if before != [] then before[0].at else if ops != [] then ops[0].at else 0;
      var end := RunKeepsInv(p, INIT, before, start);
      FailuresFitRoom(p, s, ops, key, end, first, first + span, None);
    }
  }

  // ---------------------------------------------------------------- each disturbance loses failures

  /** Two failures that meet the same lock clear it: the first leaves a count of 1 under a new lock, the second
      counts on from 1. */
  lemma TwoMeetingsUnlock(p: L.Policy, s: State, a: nat, b: nat, key: L.Key, at: int)
    requires L.Usable(p) && p.maxAttempts >= 3 && a != b
    requires a in s.inflight && b in s.inflight && s.inflight[a] == Checking(key) == s.inflight[b]
    requires key in s.table && L.IsLocked(s.table[key], at) && s.table[key].failCount == p.maxAttempts
    requires at - s.table[key].lastFailedAt <= p.windowMs
    ensures var one := Step(p, Step(p, s, Look(a, at)), Record(a, at));
            var two := Step(p, Step(p, one, Look(b, at)), Record(b, at));
            key in two.table && two.table[key].lockedUntil.None?
  {}

  /** Two failures that look before either writes count as one. */
  lemma CrossingsCountOnce(p: L.Policy, s: State, a: nat, b: nat, key: L.Key, at: int)
    requires a != b && a in s.inflight && b in s.inflight && s.inflight[a] == Checking(key) == s.inflight[b]
    requires key in s.table && s.table[key].lockedUntil.None? && at - s.table[key].lastFailedAt <= p.windowMs
    ensures var looked := Step(p, Step(p, s, Look(a, at)), Look(b, at));
            var both := Step(p, Step(p, looked, Record(a, at)), Record(b, at));
            && Ends(s, Look(a, at), key, false) && Ends(Step(p, s, Look(a, at)), Look(b, at), key, false)
            && key in both.table && both.table[key].failCount == s.table[key].failCount + 1
  {}

  /** What the write of a failure leaves, whatever has happened since its lookup: a create over a row, and an update of no
      row, leave the table alone; an update counts on from what was looked up, and leaves a later row's first failure
      only when it goes on counting. */
  lemma LateWritesCountFromTheLookup(p: L.Policy, s: State, c: nat, at: int)
    requires c in s.inflight && s.inflight[c].Recording?
    ensures var t, key, found := Step(p, s, Record(c, at)).table, s.inflight[c].key, s.inflight[c].found;
            var now := Default(s.inflight[c].clock, at);
            && (forall k | k != key :: L.Lookup(t, k) == L.Lookup(s.table, k))
            && (found.None? && key in s.table ==> t == s.table)
            && (found.Some? && key !in s.table ==> t == s.table)
            && (found.Some? == (key in s.table) ==> key in t && t[key].lastFailedAt == now)
            && (found.Some? && key in s.table && found.value.lockedUntil.None? && now - found.value.lastFailedAt <= p.windowMs ==>
                  t[key].failCount == found.value.failCount + 1 && t[key].firstFailedAt == s.table[key].firstFailedAt)
            && (found.Some? == (key in s.table)
                && (found.None? || found.value.lockedUntil.Some? || now - found.value.lastFailedAt > p.windowMs) ==>
                  t[key].failCount == 1 && t[key].firstFailedAt == now)
  {}

  /** A guard that saw a stale row deletes the one a later failure has written in its place. */
  lemma DiscardLosesAFailure(p: L.Policy, s: State, a: nat, key: L.Key, at: int)
    requires a in s.inflight && s.inflight[a].Passing? && s.inflight[a].key == key
    ensures key !in Step(p, s, Discard(a, at)).table
    ensures key in s.table && s.table[key] != s.inflight[a].stale <==> Replaced(s, Discard(a, at), key)
  {}

  // ---------------------------------------------------------------- one login of a key at a time

  /** No two logins of one key are under way together. */
  ghost predicate Alone(s: State) {
    forall a, b | a in s.inflight && b in s.inflight && s.inflight[a].key == s.inflight[b].key :: a == b
  }

  ghost predicate OneAtATime(p: L.Policy, s: State, ops: seq<Op>)
    decreases |ops|
  {
    Alone(s) && (ops != [] ==> OneAtATime(p, Step(p, s, ops[0]), ops[1..]))
  }

  /** What a call has seen is still there, and past the guard there is no lock. */
  predicate Current(t: L.Table, call: Call) {
    match call
    case Arrived(key, seen) => L.Lookup(t, key) == seen
    case Passing(key, stale) => L.Lookup(t, key) == Some(stale)
    case Checking(key) => key in t ==> t[key].lockedUntil.None?
    case Recording(key, found, _) => L.Lookup(t, key) == found && (found.Some? ==> found.value.lockedUntil.None?)
  }

  ghost predicate Clean(s: State) { forall c | c in s.inflight :: Current(s.table, s.inflight[c]) }

  /** A statement of one key leaves the rows of the others alone. */
  lemma OtherRowsStay(p: L.Policy, s: State, op: Op, key: L.Key)
    requires !Of(s, op, key)
    ensures L.Lookup(Step(p, s, op).table, key) == L.Lookup(s.table, key)
  {
    hide Admit;
    hide L.FailureRow;
  }

  lemma OnlyItsRow(t: L.Table, u: L.Table, call: Call)
    requires L.Lookup(t, call.key) == L.Lookup(u, call.key) && Current(t, call)
    ensures Current(u, call)
  {}

  lemma CallStaysCurrent(p: L.Policy, s: State, op: Op)
    requires op.call in s.inflight ==> Current(s.table, s.inflight[op.call])
    ensures var t := Step(p, s, op); op.call in t.inflight ==> Current(t.table, t.inflight[op.call])
  {
    hide Recorded;
  }

  lemma NothingDisturbs(s: State, op: Op, key: L.Key)
    requires Clean(s) && Alone(s)
    ensures !Disturbs(s, op, key)
  {
    if op.call in s.inflight {
      assert Current(s.table, s.inflight[op.call]);
    }
  }

  lemma StepStaysClean(p: L.Policy, s: State, op: Op, key: L.Key)
    requires Clean(s) && Alone(s)
    ensures Clean(Step(p, s, op)) && !Disturbs(s, op, key)
  {
    NothingDisturbs(s, op, key);
    hide Disturbs;
    var t := Step(p, s, op);
    OthersWait(p, s, op);
    CallStaysCurrent(p, s, op);
    if op.call in s.inflight {
      assert Current(s.table, s.inflight[op.call]);
    }
    hide Step;
    hide Current;
    forall c | c in t.inflight && c != op.call ensures Current(t.table, t.inflight[c]) {
      var other := s.inflight[c].key;
      assert Current(s.table, s.inflight[c]) && !Of(s, op, other);
      OtherRowsStay(p, s, op, other);
      OnlyItsRow(s.table, t.table, s.inflight[c]);
    }
  }

  lemma {:induction false} OneAtATimeIsUndisturbed(p: L.Policy, s: State, ops: seq<Op>, key: L.Key)
    requires Clean(s) && OneAtATime(p, s, ops)
    ensures Undisturbed(p, s, ops, key) && Clean(Run(p, s, ops))
    decreases |ops|
  {
    if ops != [] {
      StepStaysClean(p, s, ops[0], key);
      OneAtATimeIsUndisturbed(p, Step(p, s, ops[0]), ops[1..], key);
    }
  }

  lemma {:induction false} OneAtATimeSplits(p: L.Policy, s: State, xs: seq<Op>, ys: seq<Op>)
    requires OneAtATime(p, s, xs + ys)
    ensures OneAtATime(p, s, xs) && OneAtATime(p, Run(p, s, xs), ys)
    decreases |xs|
  {
    if xs == [] {
      assert xs + ys == ys;
    } else {
      assert (xs + ys)[1..] == xs[1..] + ys;
      OneAtATimeSplits(p, Step(p, s, xs[0]), xs[1..], ys);
    }
  }

  /** So the bound holds when logins of one (email, IP) do not overlap, whatever other keys do. */
  lemma BoundWithoutOverlap(p: L.Policy, span: nat, before: seq<Op>, ops: seq<Op>, key: L.Key, first: int)
    requires L.Usable(p) && L.ShortSpan(p, span) && OneAtATime(p, INIT, before + ops)
    ensures BoundedOn(p, span, before, ops, key, first)
  {
    OneAtATimeSplits(p, INIT, before, ops);
    OneAtATimeIsUndisturbed(p, INIT, before, key);
    OneAtATimeIsUndisturbed(p, Run(p, INIT, before), ops, key);
    FreshBound(p, span, before, ops, key, first);
  }

  // ---------------------------------------------------------------- and it is exact

  /** At most `n` logins are handled together. */
  predicate CallsBelow(ops: seq<Op>, n: nat) { forall i | 0 <= i < |ops| :: ops[i].call < n }

  lemma {:induction false} OneSlotIsOneAtATime(p: L.Policy, s: State, ops: seq<Op>)
    requires CallsBelow(ops, 1) && forall c | c in s.inflight :: c == 0
    ensures OneAtATime(p, s, ops)
    decreases |ops|
  {
    if ops != [] {
      var rest := ops[1..];
      assert forall i | 0 <= i < |rest| :: rest[i] == ops[i + 1];
      assert ops[0].call < 1;
      OneSlotIsOneAtATime(p, Step(p, s, ops[0]), rest);
    }
  }

  /** The statements of one login, run in call slot 0 at one instant; those it does not come to do nothing. */
  function Statements(call: L.Login): seq<Op> {
    [Guard(0, call.key, call.at), Pass(0, call.at), Discard(0, call.at),
     if call.good then Clear(0, call.at) else Look(0, call.at), Record(0, call.at)]
  }

  /** Atomic logins, statement by statement. */
  function Expand(calls: seq<L.Login>): seq<Op> {
    if calls == [] then [] else Statements(calls[0]) + Expand(calls[1..])
  }

  lemma {:induction false} ExpandTimes(calls: seq<L.Login>)
    ensures |Expand(calls)| == 5 * |calls| && CallsBelow(Expand(calls), 1)
    ensures forall i | 0 <= i < |Expand(calls)| :: Expand(calls)[i].at == calls[i / 5].at
  {
    if calls != [] {
      ExpandTimes(calls[1..]);
      var rest := Expand(calls[1..]);
      forall i | 5 <= i < |Expand(calls)| ensures Expand(calls)[i] == rest[i - 5] && calls[i / 5] == calls[1..][(i - 5) / 5] {}
    }
  }

  lemma {:induction false} CountAppend(p: L.Policy, s: State, xs: seq<Op>, ys: seq<Op>, key: L.Key, good: bool)
    ensures Run(p, s, xs + ys) == Run(p, Run(p, s, xs), ys)
    ensures Count(p, s, xs + ys, key, good) == Count(p, s, xs, key, good) + Count(p, Run(p, s, xs), ys, key, good)
    decreases |xs|
  {
    if xs == [] {
      assert xs + ys == ys;
    } else {
      assert (xs + ys)[1..] == xs[1..] + ys;
      CountAppend(p, Step(p, s, xs[0]), xs[1..], ys, key, good);
    }
  }

  /** Run back to back, the statements do what the atomic logins do. */
  lemma {:induction false} ExpandRuns(p: L.Policy, t: L.Table, calls: seq<L.Login>, key: L.Key)
    ensures Run(p, State(t, map[]), Expand(calls)) == State(L.Run(p, t, calls), map[])
    ensures Count(p, State(t, map[]), Expand(calls), key, false) == L.Failures(p, t, calls, key)
    ensures Count(p, State(t, map[]), Expand(calls), key, true) == L.Successes(p, t, calls, key)
    decreases |calls|
  {
    if calls != [] {
      var s, xs, ys := State(t, map[]), Statements(calls[0]), Expand(calls[1..]);
      StatementsAreLogin(p, t, calls[0], key);
      ExpandRuns(p, L.Step(p, t, calls[0]).0, calls[1..], key);
      CountAppend(p, s, xs, ys, key, false);
      CountAppend(p, s, xs, ys, key, true);
    }
  }

  /** Up to the password check. */
  lemma GuardIsGuarded(p: L.Policy, t: L.Table, key: L.Key, at: int)
    ensures var s := Step(p, Step(p, Step(p, State(t, map[]), Guard(0, key, at)), Pass(0, at)), Discard(0, at));
            if key in t && L.IsLocked(t[key], at) then s == State(t, map[])
            else s == State(L.Guarded(p, t, key, at), map[0 := Checking(key)])
  {
    var one := Step(p, State(t, map[]), Guard(0, key, at));
    assert one == State(t, map[0 := Arrived(key, L.Lookup(t, key))]);
    assert map[0 := Arrived(key, L.Lookup(t, key))] - {0} == map[];
    var two := Step(p, one, Pass(0, at));
    if L.Lookup(t, key).Some? && !L.IsLocked(t[key], at) {
      var next := Admit(p, key, L.Lookup(t, key), at).value;
      assert two == State(t, map[0 := next]);
      assert next.Passing? ==> Step(p, two, Discard(0, at)) == State(t - {key}, map[0 := Checking(key)]);
    }
  }

  /** From the password check on. */
  lemma OutcomeIsWritten(p: L.Policy, t: L.Table, key: L.Key, at: int, good: bool)
    ensures var s := Step(p, State(t, map[0 := Checking(key)]), if good then Clear(0, at) else Look(0, at));
            Step(p, s, Record(0, at))
            == State(if good then t - {key} else t[key := L.FailureRow(p, L.Lookup(t, key), at)], map[])
  {
    var s := Step(p, State(t, map[0 := Checking(key)]), if good then Clear(0, at) else Look(0, at));
    assert map[0 := Checking(key)] - {0} == map[];
    if !good {
      assert s == State(t, map[0 := Recording(key, L.Lookup(t, key), None)]);
      assert s.inflight - {0} == map[];
    }
  }

  lemma StatementsAreLogin(p: L.Policy, t: L.Table, call: L.Login, key: L.Key)
    ensures var s, xs := State(t, map[]), Statements(call);
            var (t1, r) := L.Step(p, t, call);
            && Run(p, s, xs) == State(t1, map[])
            && Count(p, s, xs, key, false) == (if call.key == key && r == L.Failed then 1 else 0)
            && Count(p, s, xs, key, true) == (if call.key == key && r == L.Succeeded then 1 else 0)
  {
    var xs, s := Statements(call), State(t, map[]);
    var s1 := Step(p, s, xs[0]);
    var s2 := Step(p, s1, xs[1]);
    var s3 := Step(p, s2, xs[2]);
    GuardIsGuarded(p, t, call.key, call.at);
    OutcomeIsWritten(p, L.Guarded(p, t, call.key, call.at), call.key, call.at, call.good);
    var s4 := Step(p, s3, xs[3]);
    var s5 := Step(p, s4, xs[4]);
    assert s5 == State(L.Step(p, t, call).0, map[]);
    hide Step;
    assert xs[1..][1..] == xs[2..] && xs[2..][1..] == xs[3..] && xs[3..][1..] == xs[4..] && xs[4..][1..] == [];
    assert Run(p, s5, xs[4..][1..]) == s5;
    assert Run(p, s4, xs[4..]) == s5;
    assert Run(p, s3, xs[3..]) == s5;
    assert Run(p, s2, xs[2..]) == s5;
    assert Run(p, s1, xs[1..]) == s5;
    forall good ensures Count(p, s, xs, key, good) == if Ends(s3, xs[3], key, good) then 1 else 0 {
      assert Count(p, s4, xs[4..], key, good) == 0;
      assert Count(p, s3, xs[3..], key, good) == if Ends(s3, xs[3], key, good) then 1 else 0;
      assert Count(p, s2, xs[2..], key, good) == Count(p, s3, xs[3..], key, good);
      assert Count(p, s1, xs[1..], key, good) == Count(p, s2, xs[2..], key, good);
    }
  }

  /** Two logins past the guard together, after all attempts but one: one failure too many at one instant. */
  function Together(key: L.Key): seq<Op> {
    [Guard(0, key, 0), Guard(1, key, 0), Pass(0, 0), Pass(1, 0), Look(0, 0), Look(1, 0)]
  }

  function Crowd(p: L.Policy, key: L.Key): seq<Op>
    requires p.maxAttempts > 0
  {
    Expand(L.Bad(key, 0, p.maxAttempts - 1)) + Together(key)
  }

  lemma CrowdTail(p: L.Policy, t: L.Table, key: L.Key)
    requires L.Usable(p)
    requires key in t ==> t[key].lockedUntil.None? && t[key].lastFailedAt == 0
    ensures Count(p, State(t, map[]), Together(key), key, false) == 2
    ensures Count(p, State(t, map[]), Together(key), key, true) == 0
  {
    var xs, s, found := Together(key), State(t, map[]), L.Lookup(t, key);
    var s1 := Step(p, s, xs[0]);
    assert s1 == State(t, map[0 := Arrived(key, found)]);
    var s2 := Step(p, s1, xs[1]);
    assert s2 == State(t, map[0 := Arrived(key, found), 1 := Arrived(key, found)]);
    var s3 := Step(p, s2, xs[2]);
    assert s3 == State(t, map[0 := Checking(key), 1 := Arrived(key, found)]);
    var s4 := Step(p, s3, xs[3]);
    assert s4 == State(t, map[0 := Checking(key), 1 := Checking(key)]);
    var s5 := Step(p, s4, xs[4]);
    assert s5.inflight[1] == Checking(key) && s4.inflight[0] == Checking(key);
    hide Step;
    assert xs[1..][1..] == xs[2..] && xs[2..][1..] == xs[3..] && xs[3..][1..] == xs[4..] && xs[4..][1..] == xs[5..];
    assert xs[5..] == [xs[5]] && [xs[5]][1..] == [];
    forall good ensures Count(p, s, xs, key, good) == if good then 0 else 2 {
      assert Count(p, s5, xs[5..], key, good) == if good then 0 else 1;
      assert Count(p, s4, xs[4..], key, good) == if good then 0 else 2;
      assert Count(p, s3, xs[3..], key, good) == Count(p, s4, xs[4..], key, good);
      assert Count(p, s2, xs[2..], key, good) == Count(p, s3, xs[3..], key, good);
      assert Count(p, s1, xs[1..], key, good) == Count(p, s2, xs[2..], key, good);
    }
  }

  lemma CrowdTimes(p: L.Policy, key: L.Key)
    requires p.maxAttempts > 0
    ensures var ops := Crowd(p, key);
            CallsBelow(ops, 2) && forall i | 0 <= i < |ops| :: ops[i].at == 0
  {
    var bad := L.Bad(key, 0, p.maxAttempts - 1);
    ExpandTimes(bad);
    hide Expand;
    hide L.Bad;
    var head, ops := Expand(bad), Crowd(p, key);
    forall i | 0 <= i < |head| ensures ops[i].at == 0 && ops[i].call < 2 {
      assert ops[i] == head[i] && head[i].call < 1;
    }
  }

  lemma CrowdCounts(p: L.Policy, key: L.Key)
    requires L.Usable(p)
    ensures Count(p, INIT, Crowd(p, key), key, false) == p.maxAttempts + 1
    ensures Count(p, INIT, Crowd(p, key), key, true) == 0
  {
    var bad := L.Bad(key, 0, p.maxAttempts - 1);
    L.Burst(p, map[], key, 0, p.maxAttempts - 1, 0);
    if p.maxAttempts == 1 {
      assert L.Run(p, map[], bad) == map[];
    }
    hide Count;
    hide Expand;
    hide L.Bad;
    ExpandRuns(p, map[], bad, key);
    CrowdTail(p, L.Run(p, map[], bad), key);
    CountAppend(p, INIT, Expand(bad), Together(key), key, false);
    CountAppend(p, INIT, Expand(bad), Together(key), key, true);
  }

  lemma CrowdExceeds(p: L.Policy, span: nat, key: L.Key)
    requires L.Usable(p)
    ensures CallsBelow([] + Crowd(p, key), 2) && !BoundedOn(p, span, [], Crowd(p, key), key, 0)
  {
    var ops := Crowd(p, key);
    CrowdTimes(p, key);
    CrowdCounts(p, key);
    hide Crowd;
    assert [] + ops == ops;
    assert Run(p, INIT, []) == INIT;
  }

  lemma ExpandIsTimed(calls: seq<L.Login>, first: int, last: int)
    requires L.Timed(calls) && L.Within(calls, first, last)
    ensures Timed(Expand(calls)) && Within(Expand(calls), first, last) && CallsBelow(Expand(calls), 1)
  {
    ExpandTimes(calls);
    var ops := Expand(calls);
    hide Expand;
    forall i, j | 0 <= i < j < |ops| ensures ops[i].at <= ops[j].at {
      var m, n := i / 5, j / 5;
      assert m == n || calls[m].at <= calls[n].at;
    }
    forall i | 0 <= i < |ops| ensures first <= ops[i].at <= last {
      assert first <= calls[i / 5].at <= last;
    }
  }

  /** A long span fails already with atomic logins. */
  lemma LongSpanFails(p: L.Policy, span: nat) returns (ops: seq<Op>, key: L.Key)
    requires L.Usable(p) && !L.ShortSpan(p, span)
    ensures CallsBelow([] + ops, 1) && !BoundedOn(p, span, [], ops, key, 0)
  {
    assert Run(p, INIT, []) == INIT && L.Run(p, map[], []) == map[];
    var calls;
    calls, key := L.TooManyInALongSpan(p, span);
    ops := Expand(calls);
    assert [] + ops == ops && [] + calls == calls;
    hide Expand;
    hide L.Run;
    hide Run;
    ExpandIsTimed(calls, 0, span);
    ExpandRuns(p, map[], calls, key);
  }

  /** At most `maxAttempts` evaluated failures in every success-free span of the given length, over every run that
      handles up to `n` logins together, exactly when the span is short and n is one. */
  lemma BoundIff(p: L.Policy, span: nat, n: nat)
    requires L.Usable(p) && n >= 1
    ensures (forall before, ops, key, first | CallsBelow(before + ops, n) :: BoundedOn(p, span, before, ops, key, first))
            <==> L.ShortSpan(p, span) && n == 1
  {
    if L.ShortSpan(p, span) && n == 1 {
      forall before, ops, key, first | CallsBelow(before + ops, n) ensures BoundedOn(p, span, before, ops, key, first) {
        OneSlotIsOneAtATime(p, INIT, before + ops);
        BoundWithoutOverlap(p, span, before, ops, key, first);
      }
    } else if !L.ShortSpan(p, span) {
      var ops, key := LongSpanFails(p, span);
      assert CallsBelow([] + ops, n);
    } else {
      var key := ("", "");
      CrowdExceeds(p, span, key);
      assert CallsBelow([] + Crowd(p, key), n);
    }
  }
}
