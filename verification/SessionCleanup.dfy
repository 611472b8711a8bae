/**
 The session cleanup job (`sessionCleanup.ts`) against the refresh protocol it runs beside.

 Two runs are compared: one with the cleanup calls, one with them erased. They stay related: the
 swept table is the other one minus rows that no refresh call can ever exchange again.
 */
module SessionCleanup {
  import opened Prelude
  import opened AuthSessions

  /** The same calls with every cleanup left out. */
  function Erase(ops: seq<Op>): seq<Op> {
    if ops == [] then []
    else if ops[0].Cleanup? then Erase(ops[1..])
    else [ops[0]] + Erase(ops[1..])
  }

  predicate Refreshing(op: Op) { op.Refresh? || op.RefreshRead? || op.RefreshWrite? }

  /** What the callers of `refresh` see over a run: every result, tokens included, in order; of a call cut in two,
      the result of each half. */
  function RefreshOutcomes(c: Config, s: State, ops: seq<Op>): seq<Outcome>
    decreases |ops|
  {
    if ops == [] then []
    else
      var (s1, out) := Step(c, s, ops[0]);
      (if Refreshing(ops[0]) then [out] else []) + RefreshOutcomes(c, s1, ops[1..])
  }

  /** `b` is `a` without some rows that are invalid or named only by expired tokens. */
  ghost predicate Related(a: State, b: State) {
    && a.(sessions := map[]) == b.(sessions := map[])
    && (forall sid | sid in b.sessions :: sid in a.sessions && a.sessions[sid] == b.sessions[sid])
    && (forall sid | sid in a.sessions && sid !in b.sessions ::
          !a.sessions[sid].valid || (forall t | t in a.minted && t.sid == sid :: t.exp <= a.now))
  }

  /** Cleanup waits at least as long as a refresh token lives, or does not go by age at all. */
  predicate WaitsLongEnough(c: Config) {
    c.cleanupTtl.Some? && c.cleanupTtl.value > 0 ==> c.signTtl <= c.cleanupTtl.value
  }

  lemma SweepStaysRelated(c: Config, a: State, b: State)
    requires Inv(c, b) && Related(a, b) && WaitsLongEnough(c)
    ensures Related(a, Step(c, b, Cleanup).0)
  {
    var b1 := Step(c, b, Cleanup).0;
    forall sid | sid in a.sessions && sid !in b1.sessions
      ensures !a.sessions[sid].valid || (forall t | t in a.minted && t.sid == sid :: t.exp <= a.now)
    {
      if sid in b.sessions && a.sessions[sid].valid {
        assert Sweepable(c, b.now, b.sessions[sid]);
      }
    }
  }

  /** The write of a refresh that finds its row deleted. */
  predicate Misses(s: State, op: Op) {
    op.RefreshWrite? && op.call in s.inflight && s.inflight[op.call].sid !in s.sessions
  }

  predicate NoMissedWrite(c: Config, s: State, ops: seq<Op>)
    decreases |ops|
  {
    ops != [] ==> !Misses(s, ops[0]) && NoMissedWrite(c, Step(c, s, ops[0]).0, ops[1..])
  }

  lemma RotateLockStep(c: Config, a: State, b: State, user: Uid, sid: Sid)
    requires Related(a, b) && sid in b.sessions
    ensures sid in a.sessions
    ensures Related(Rotate(c, a, user, sid).0, Rotate(c, b, user, sid).0) && Rotate(c, a, user, sid).1 == Rotate(c, b, user, sid).1
  {}

  lemma RefuseLockStep(c: Config, a: State, b: State, tok: Token)
    requires Inv(c, a) && Inv(c, b) && Related(a, b)
    ensures Check(a, tok) == Check(b, tok)
    ensures Check(a, tok) != Fresh ==>
              && Related(Refuse(a, tok, Check(a, tok)).0, Refuse(b, tok, Check(b, tok)).0)
              && Refuse(a, tok, Check(a, tok)).1 == Refuse(b, tok, Check(b, tok)).1
  {}

  /** Taking a call on or off the calls under way. */
  lemma InflightLockStep(a: State, b: State, inflight: map<nat, Token>)
    requires Related(a, b)
    ensures Related(a.(inflight := inflight), b.(inflight := inflight)) && a.inflight == b.inflight
  {}

  lemma RefreshLockStep(c: Config, a: State, b: State, op: Op)
    requires Inv(c, a) && Inv(c, b) && Related(a, b) && Refreshing(op) && !Misses(b, op)
    ensures Related(Step(c, a, op).0, Step(c, b, op).0)
    ensures Step(c, a, op).1 == Step(c, b, op).1
  {
    assert a.inflight == b.inflight by { InflightLockStep(a, b, a.inflight); }
    if op.RefreshWrite? {
      if op.call in b.inflight {
        var tok, inflight := b.inflight[op.call], b.inflight - {op.call};
        InflightLockStep(a, b, inflight);
        RotateLockStep(c, a.(inflight := inflight), b.(inflight := inflight), tok.sub, tok.sid);
        hide Related;
        hide Rotate;
      }
    } else {
      RefuseLockStep(c, a, b, op.tok);
      if Check(b, op.tok) == Fresh {
        RotateLockStep(c, a, b, op.tok.sub, op.tok.sid);
        if op.RefreshRead? {
          InflightLockStep(a, b, b.inflight[op.call := op.tok]);
        }
      }
      hide Related;
      hide Rotate;
      hide Refuse;
    }
  }

  /** Any call but a cleanup, and a write that misses, takes indistinguishable tables to indistinguishable tables, and
      refresh answers alike. */
  lemma LockStep(c: Config, a: State, b: State, op: Op)
    requires Inv(c, a) && Inv(c, b) && Related(a, b) && !op.Cleanup? && !Misses(b, op)
    ensures Related(Step(c, a, op).0, Step(c, b, op).0)
    ensures Refreshing(op) ==> Step(c, a, op).1 == Step(c, b, op).1
  {
    if Refreshing(op) {
      RefreshLockStep(c, a, b, op);
    } else {
      hide Check;
      hide Refuse;
      hide Rotate;
    }
  }

  /** Every refresh under way has its row. Without cleanups nothing deletes one. */
  ghost predicate Held(s: State) { forall k | k in s.inflight :: s.inflight[k].sid in s.sessions }

  lemma StepStaysHeld(c: Config, s: State, op: Op)
    requires Held(s) && !op.Cleanup?
    ensures Held(Step(c, s, op).0)
  {}

  /** A missed write is seen: where the row is still there, it issues a token. */
  lemma MissedWriteShows(c: Config, a: State, b: State, op: Op)
    requires Related(a, b) && Held(a) && Misses(b, op)
    ensures Step(c, a, op).1.Issued? && Step(c, b, op).1 == RowMissing
  {
    assert b.inflight == a.(sessions := map[]).inflight;
  }

  lemma FirstOutcome(c: Config, s: State, ops: seq<Op>)
    requires ops != []
    ensures var rest := RefreshOutcomes(c, Step(c, s, ops[0]).0, ops[1..]);
            if Refreshing(ops[0]) then
              && RefreshOutcomes(c, s, ops)[0] == Step(c, s, ops[0]).1
              && RefreshOutcomes(c, s, ops)[1..] == rest && RefreshOutcomes(c, s, ops) == [Step(c, s, ops[0]).1] + rest
            else RefreshOutcomes(c, s, ops) == rest
  {}

  /** Erasing the cleanups leaves every answer of refresh as it was exactly when no write finds its row deleted. */
  lemma {:induction false} ErasedRunLooksTheSame(c: Config, a: State, b: State, ops: seq<Op>)
    requires Inv(c, a) && Inv(c, b) && Related(a, b) && Held(a) && WaitsLongEnough(c)
    ensures RefreshOutcomes(c, a, Erase(ops)) == RefreshOutcomes(c, b, ops) <==> NoMissedWrite(c, b, ops)
    decreases |ops|
  {
    if ops != [] {
      var b1 := Step(c, b, ops[0]).0;
      StepKeepsInv(c, b, ops[0]);
      if ops[0].Cleanup? {
        SweepStaysRelated(c, a, b);
        ErasedRunLooksTheSame(c, a, b1, ops[1..]);
      } else {
        var a1 := Step(c, a, ops[0]).0;
        assert Erase(ops)[1..] == Erase(ops[1..]) && Erase(ops)[0] == ops[0];
        FirstOutcome(c, a, Erase(ops));
        FirstOutcome(c, b, ops);
        if Misses(b, ops[0]) {
          MissedWriteShows(c, a, b, ops[0]);
        } else {
          StepKeepsInv(c, a, ops[0]);
          StepStaysHeld(c, a, ops[0]);
          LockStep(c, a, b, ops[0]);
          hide *;
          ErasedRunLooksTheSame(c, a1, b1, ops[1..]);
        }
      }
    }
  }

  /** Runs of atomic calls have no write to miss. */
  lemma {:induction false} AtomicMissesNothing(c: Config, s: State, ops: seq<Op>)
    requires Atomic(ops)
    ensures NoMissedWrite(c, s, ops)
    decreases |ops|
  {
    if ops != [] {
      var rest := ops[1..];
      assert forall i | 0 <= i < |rest| :: rest[i] == ops[i + 1];
      AtomicMissesNothing(c, Step(c, s, ops[0]).0, rest);
    }
  }

  /** Cleanup that waits long enough is invisible to an interleaved run exactly when no refresh under way comes back to
      find its row deleted. */
  lemma InvisibleToSplitRunIff(c: Config, ops: seq<Op>)
    requires WaitsLongEnough(c)
    ensures RefreshOutcomes(c, INIT, Erase(ops)) == RefreshOutcomes(c, INIT, ops) <==> NoMissedWrite(c, INIT, ops)
  {
    ErasedRunLooksTheSame(c, INIT, INIT, ops);
  }

  /** One does, however long the cleanup waits: its session is logged out behind its check, and swept. */
  lemma SweptUnderWay(c: Config)
    requires c.signTtl > 0
    ensures var tok := NextToken(c, INIT, 0, 0);
            !NoMissedWrite(c, INIT, [Create(0), RefreshRead(0, tok), Logout(tok), Cleanup, RefreshWrite(0)])
  {
    var tok := NextToken(c, INIT, 0, 0);
    var ops := [Create(0), RefreshRead(0, tok), Logout(tok), Cleanup, RefreshWrite(0)];
    var s1 := Step(c, INIT, ops[0]).0;
    assert Check(s1, tok) == Fresh;
    var s2 := Step(c, s1, ops[1]).0;
    var s3 := Step(c, s2, ops[2]).0;
    assert !s3.sessions[0].valid;
    var s4 := Step(c, s3, ops[3]).0;
    assert Misses(s4, ops[4]);
    hide Step;
    assert ops[1..][1..] == ops[2..] && ops[2..][1..] == ops[3..] && ops[3..][1..] == ops[4..];
    assert !NoMissedWrite(c, s4, ops[4..]);
    assert !NoMissedWrite(c, s3, ops[3..]);
    assert !NoMissedWrite(c, s2, ops[2..]);
    assert !NoMissedWrite(c, s1, ops[1..]);
  }

  ghost predicate InvisibleOn(c: Config, ops: seq<Op>) {
    Atomic(ops) ==> RefreshOutcomes(c, INIT, Erase(ops)) == RefreshOutcomes(c, INIT, ops)
  }

  /** A session opened, left alone for the cleanup TTL, swept, and then refreshed. */
  function EarlySweep(c: Config): seq<Op>
    requires c.cleanupTtl.Some?
  {
    [Create(0), Tick(c.cleanupTtl.value), Cleanup, Refresh(NextToken(c, INIT, 0, 0))]
  }

  lemma EarlySweepShows(c: Config)
    requires !WaitsLongEnough(c)
    ensures !InvisibleOn(c, EarlySweep(c))
  {
    var ops := EarlySweep(c);
    var tok := NextToken(c, INIT, 0, 0);
    var s1 := Step(c, INIT, ops[0]).0;
    var s2 := Step(c, s1, ops[1]).0;
    var s3 := Step(c, s2, ops[2]).0;
    assert 0 !in s3.sessions && Check(s3, tok) == Dead && Check(s2, tok) == Fresh;
    var r := [ops[3]];
    assert ops[1..] == [ops[1], ops[2]] + r && ops[1..][1..] == [ops[2]] + r && ops[1..][1..][1..] == r;
    assert r[1..] == [];
    assert RefreshOutcomes(c, s3, r) == [SessionInvalid];
    assert RefreshOutcomes(c, s2, [ops[2]] + r) == [SessionInvalid];
    assert RefreshOutcomes(c, s1, ops[1..]) == [SessionInvalid];
    assert Erase(r) == r && Erase([ops[2]] + r) == r && Erase(ops[1..]) == [ops[1]] + r;
    assert Erase(ops)[1..] == [ops[1]] + r && ([ops[1]] + r)[1..] == r;
    assert RefreshOutcomes(c, s2, r) == [Step(c, s2, ops[3]).1];
    assert RefreshOutcomes(c, s1, [ops[1]] + r) == [Step(c, s2, ops[3]).1];
  }

  /** Cleanup is invisible to every refresh of every run of atomic calls exactly when it waits at least
      one signing TTL (both TTLs come from one setting, read by two parsers). */
  lemma CleanupInvisibleIff(c: Config)
    ensures (forall ops :: InvisibleOn(c, ops)) <==> WaitsLongEnough(c)
  {
    if WaitsLongEnough(c) {
      forall ops ensures InvisibleOn(c, ops) {
        if Atomic(ops) {
          AtomicMissesNothing(c, INIT, ops);
          InvisibleToSplitRunIff(c, ops);
        }
      }
    } else {
      EarlySweepShows(c);
    }
  }
}
