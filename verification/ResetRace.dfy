/**
 Password reset cut at its await points: `resetPassword` looks its token up, hashes the new password, and only
 then runs the transaction that uses the token up, without looking at it again.

 `Whole` is any atomic account call. `Read` and `Write` are the two halves of a reset. `changed` records the
 tokens that have changed a password.
 */
module ResetRace {
  import opened Prelude
  import A = Accounts
  import S = AuthSessions

  /** A reset past its checks: its token, the new password, and the instant of the checks. */
  datatype Reset = Reset(raw: nat, password: string, at: int)

  datatype State = State(accounts: A.State, inflight: map<nat, Reset>, changed: set<nat>)

  datatype Op =
    | Whole(op: A.Op)
    | Read(call: nat, raw: nat, password: string)
    | Write(call: nat)

  const INIT := State(A.INIT, map[], {})

  /** The transaction. */
  function Commit(a: A.State, r: Reset): A.State
    requires r.raw in a.resets
  {
    var user := a.resets[r.raw].userId;
    var b := a.(resets := A.UseAll(A.Use(a.resets, r.raw, r.at), user, r.at),
                core := a.core.(sessions := S.RevokeUser(a.core.sessions, a.core.now, user)));
    if user in a.users then b.(users := a.users[user := a.users[user].(password := r.password)]) else b
  }

  predicate Writes(s: State, op: Op) {
    op.Write? && op.call in s.inflight && s.inflight[op.call].raw in s.accounts.resets
  }

  /** The token with which a step changes a password. */
  function Changing(c: A.Config, s: State, op: Op): Option<nat> {
    match op
    case Whole(call) =>
      if call.ResetPassword? && A.Step(c, s.accounts, call).1 == A.PasswordChanged then Some(call.raw) else None
    case Read(_, _, _) => None
    case Write(call) => if Writes(s, op) then Some(s.inflight[call].raw) else None
  }

  function Step(c: A.Config, s: State, op: Op): State {
    var raw := Changing(c, s, op);
    var t := s.(changed := if raw.Some? then s.changed + {raw.value} else s.changed);
    match op
    case Whole(call) => t.(accounts := A.Step(c, s.accounts, call).0)
    case Read(call, raw, password) =>
      var now := s.accounts.core.now;
      if !A.Unused(s.accounts.resets, raw) then t
      else if s.accounts.resets[raw].expiresAt <= now then
        t.(accounts := s.accounts.(resets := A.Use(s.accounts.resets, raw, now)))
      else t.(inflight := s.inflight[call := Reset(raw, password, now)])
    case Write(call) =>
      if Writes(s, op) then t.(accounts := Commit(s.accounts, s.inflight[call]), inflight := s.inflight - {call}) else t
  }

  function Run(c: A.Config, s: State, ops: seq<Op>): State
    decreases |ops|
  {
    if ops == [] then s else Run(c, Step(c, s, ops[0]), ops[1..])
  }

  /** The atomic call is its two halves run back to back. */
  lemma ResetIsReadThenWrite(c: A.Config, s: State, call: nat, raw: nat, password: string)
    requires call !in s.inflight
    ensures Step(c, Step(c, s, Read(call, raw, password)), Write(call)) == Step(c, s, Whole(A.ResetPassword(raw, password)))
  {
    var mid := Step(c, s, Read(call, raw, password));
    var now := s.accounts.core.now;
    if A.Unused(s.accounts.resets, raw) && s.accounts.resets[raw].expiresAt > now {
      assert mid.inflight == s.inflight[call := Reset(raw, password, now)];
      assert mid.inflight - {call} == s.inflight;
    }
  }

  // ---------------------------------------------------------------- what interleaving keeps

  lemma CommitKeepsInv(c: A.Config, a: A.State, r: Reset)
    requires A.Inv(c, a) && r.raw in a.resets
    ensures A.Inv(c, Commit(a, r))
  {
    hide S.Inv;
    var user := a.resets[r.raw].userId;
    A.UseKeepsTable(a.users.Keys, a.resets, r.raw, user, r.at);
    S.StepKeepsInv(c.session, a.core, S.LogoutAll(user));
    var b := a.(resets := A.UseAll(A.Use(a.resets, r.raw, r.at), user, r.at),
                core := a.core.(sessions := S.RevokeUser(a.core.sessions, a.core.now, user)));
    assert A.Inv(c, b);
    A.EditKeepsInv(c, b, user, a.users[user].(password := r.password));
  }

  lemma ReadKeepsInv(c: A.Config, s: State, call: nat, raw: nat, password: string)
    requires A.Inv(c, s.accounts)
    ensures A.Inv(c, Step(c, s, Read(call, raw, password)).accounts)
  {
    hide S.Inv;
    if raw in s.accounts.resets {
      A.UseKeepsTable(s.accounts.users.Keys, s.accounts.resets, raw, s.accounts.resets[raw].userId, s.accounts.core.now);
    }
  }

  /** Over every run, split resets included: at most one unused reset token per user, sessions only of verified
      users, and the rest of the account invariant. */
  lemma {:induction false} RunKeepsInv(c: A.Config, s: State, ops: seq<Op>)
    requires A.Inv(c, s.accounts)
    ensures A.Inv(c, Run(c, s, ops).accounts)
    decreases |ops|
  {
    if ops != [] {
      match ops[0] {
        case Whole(op) => A.StepKeepsInv(c, s.accounts, op);
        case Read(call, raw, password) => ReadKeepsInv(c, s, call, raw, password);
        case Write(call) =>
          if Writes(s, ops[0]) {
            CommitKeepsInv(c, s.accounts, s.inflight[call]);
          }
      }
      RunKeepsInv(c, Step(c, s, ops[0]), ops[1..]);
    }
  }

  lemma WholeUses(c: A.Config, a: A.State, op: A.Op, raw: nat)
    ensures A.UsedUp(a, raw) ==> A.UsedUp(A.Step(c, a, op).0, raw)
    ensures op.ResetPassword? && op.raw == raw && A.Step(c, a, op).1 == A.PasswordChanged ==>
              !A.UsedUp(a, raw) && A.UsedUp(A.Step(c, a, op).0, raw)
  {
    if A.UsedUp(a, raw) {
      A.UsedUpStep(c, a, op, raw);
    }
  }

  /** Nothing un-uses a token, and everything that changes a password uses its token up. */
  lemma UsedStays(c: A.Config, s: State, op: Op, raw: nat)
    ensures A.UsedUp(s.accounts, raw) ==> A.UsedUp(Step(c, s, op).accounts, raw)
    ensures Changing(c, s, op) == Some(raw) ==> A.UsedUp(Step(c, s, op).accounts, raw)
    ensures Changing(c, s, op) == Some(raw) && A.UsedUp(s.accounts, raw) ==> op.Write?
  {
    if op.Whole? {
      WholeUses(c, s.accounts, op.op, raw);
      hide A.Step;
    } else {
      hide A.Step;
    }
  }

  // ---------------------------------------------------------------- a used token is refused

  /** A write whose token has been used since its check. */
  predicate Stale(s: State, op: Op) { Writes(s, op) && A.UsedUp(s.accounts, s.inflight[op.call].raw) }

  predicate NoStaleWrite(c: A.Config, s: State, ops: seq<Op>)
    decreases |ops|
  {
    ops != [] ==> !Stale(s, ops[0]) && NoStaleWrite(c, Step(c, s, ops[0]), ops[1..])
  }

  function UsedIn(a: A.State): set<nat> { set raw | raw in a.resets && a.resets[raw].usedAt.Some? }

  /** No step changes a password with a token that was used up at any point of the run before it. */
  predicate RefusesUsed(c: A.Config, s: State, seen: set<nat>, ops: seq<Op>)
    decreases |ops|
  {
    ops != [] ==>
      var used := seen + UsedIn(s.accounts);
      && (Changing(c, s, ops[0]).Some? ==> Changing(c, s, ops[0]).value !in used)
      && RefusesUsed(c, Step(c, s, ops[0]), used, ops[1..])
  }

  /** Exactly which interleaved runs refuse every used token: those without a stale write. */
  lemma {:induction false} RefusesUsedIff(c: A.Config, s: State, seen: set<nat>, ops: seq<Op>)
    requires seen <= UsedIn(s.accounts)
    ensures RefusesUsed(c, s, seen, ops) <==> NoStaleWrite(c, s, ops)
    decreases |ops|
  {
    if ops != [] {
      var used, t := seen + UsedIn(s.accounts), Step(c, s, ops[0]);
      forall raw | raw in used ensures raw in UsedIn(t.accounts) {
        UsedStays(c, s, ops[0], raw);
      }
      if Changing(c, s, ops[0]).Some? {
        UsedStays(c, s, ops[0], Changing(c, s, ops[0]).value);
      }
      RefusesUsedIff(c, t, used, ops[1..]);
    }
  }

  // ---------------------------------------------------------------- one change per token

  function Changes(c: A.Config, s: State, ops: seq<Op>, raw: nat): nat
    decreases |ops|
  {
    if ops == [] then 0
    else (if Changing(c, s, ops[0]) == Some(raw) then 1 else 0) + Changes(c, Step(c, s, ops[0]), ops[1..], raw)
  }

  /** Without stale writes a token changes the password at most once, and not at all once it is used up. */
  lemma {:induction false} FreshChangesOnce(c: A.Config, s: State, ops: seq<Op>, raw: nat)
    requires NoStaleWrite(c, s, ops)
    ensures Changes(c, s, ops, raw) <= if A.UsedUp(s.accounts, raw) then 0 else 1
    decreases |ops|
  {
    if ops != [] {
      UsedStays(c, s, ops[0], raw);
      FreshChangesOnce(c, Step(c, s, ops[0]), ops[1..], raw);
    }
  }

  ghost predicate Recorded(s: State) { forall raw | raw in s.changed :: A.UsedUp(s.accounts, raw) }

  /** A write of a token that has changed a password already. */
  predicate Repeats(s: State, op: Op, raw: nat) { Writes(s, op) && s.inflight[op.call].raw == raw && raw in s.changed }

  predicate NoRepeat(c: A.Config, s: State, ops: seq<Op>, raw: nat)
    decreases |ops|
  {
    ops != [] ==> !Repeats(s, ops[0], raw) && NoRepeat(c, Step(c, s, ops[0]), ops[1..], raw)
  }

  /** Exactly when a token changes the password at most once: when no write comes after it has done so. An atomic
      reset never does. */
  lemma {:induction false} ChangesOnceIff(c: A.Config, s: State, ops: seq<Op>, raw: nat)
    requires Recorded(s)
    ensures Changes(c, s, ops, raw) + (if raw in s.changed then 1 else 0) <= 1 <==> NoRepeat(c, s, ops, raw)
    decreases |ops|
  {
    if ops != [] {
      var t := Step(c, s, ops[0]);
      forall r | r in t.changed ensures A.UsedUp(t.accounts, r) {
        UsedStays(c, s, ops[0], r);
      }
      UsedStays(c, s, ops[0], raw);
      ChangesOnceIff(c, t, ops[1..], raw);
    }
  }

  lemma CommitUses(a: A.State, r: Reset)
    requires r.raw in a.resets
    ensures r.raw in Commit(a, r).resets && A.UsedUp(Commit(a, r), r.raw)
    ensures var user := a.resets[r.raw].userId;
            user in a.users ==> user in Commit(a, r).users && Commit(a, r).users[user].password == r.password
    ensures Commit(a, r).resets[r.raw].userId == a.resets[r.raw].userId
  {}

  /** Two resets with one token, both checked before either writes, both change the password. */
  lemma InterleavedResetsChangeTwice(c: A.Config, s: State, raw: nat, first: string, second: string)
    requires A.Unused(s.accounts.resets, raw) && s.accounts.core.now < s.accounts.resets[raw].expiresAt
    requires s.accounts.resets[raw].userId in s.accounts.users
    ensures var ops := [Read(0, raw, first), Read(1, raw, second), Write(0), Write(1)];
            var t := Run(c, s, ops);
            && Changes(c, s, ops, raw) == 2 && !NoStaleWrite(c, s, ops)
            && s.accounts.resets[raw].userId in t.accounts.users
            && t.accounts.users[s.accounts.resets[raw].userId].password == second
  {
    var now := s.accounts.core.now;
    var a, b, d, e := Read(0, raw, first), Read(1, raw, second), Write(0), Write(1);
    var r0, r1 := Reset(raw, first, now), Reset(raw, second, now);
    var s1 := Step(c, s, a);
    assert s1 == s.(inflight := s.inflight[0 := r0]);
    var s2 := Step(c, s1, b);
    assert s2 == s.(inflight := s.inflight[0 := r0][1 := r1]);
    CommitUses(s.accounts, r0);
    var s3 := Step(c, s2, d);
    assert s3.accounts == Commit(s.accounts, r0) && s3.inflight[1] == r1;
    CommitUses(s3.accounts, r1);
    hide Commit;
    var s4 := Step(c, s3, e);
    assert s4.accounts == Commit(s3.accounts, r1);
    Unroll(c, s, a, b, d, e, raw);
  }

  lemma Unroll(c: A.Config, s: State, a: Op, b: Op, d: Op, e: Op, raw: nat)
    ensures var s3 := Step(c, Step(c, Step(c, s, a), b), d);
            var ops := [a, b, d, e];
            && Run(c, s, ops) == Step(c, s3, e)
            && (Stale(s3, e) ==> !NoStaleWrite(c, s, ops))
            && Changes(c, s, ops, raw)
               == (if Changing(c, s, a) == Some(raw) then 1 else 0)
                  + (if Changing(c, Step(c, s, a), b) == Some(raw) then 1 else 0)
                  + (if Changing(c, Step(c, Step(c, s, a), b), d) == Some(raw) then 1 else 0)
                  + (if Changing(c, s3, e) == Some(raw) then 1 else 0)
  {
    hide Step;
    hide Changing;
    hide Stale;
    var s1 := Step(c, s, a);
    var s2 := Step(c, s1, b);
    var s3 := Step(c, s2, d);
    assert [a, b, d, e][1..] == [b, d, e] && [b, d, e][1..] == [d, e] && [d, e][1..] == [e] && [e][1..] == [];
    assert Run(c, s3, [e]) == Step(c, s3, e) && Run(c, s2, [d, e]) == Run(c, s3, [e]);
    assert Run(c, s1, [b, d, e]) == Run(c, s2, [d, e]);
    assert NoStaleWrite(c, s3, [e]) ==> !Stale(s3, e);
    assert NoStaleWrite(c, s2, [d, e]) ==> NoStaleWrite(c, s3, [e]);
    assert NoStaleWrite(c, s1, [b, d, e]) ==> NoStaleWrite(c, s2, [d, e]);
    assert Changes(c, s3, [e], raw) == if Changing(c, s3, e) == Some(raw) then 1 else 0;
    assert Changes(c, s2, [d, e], raw) == (if Changing(c, s2, d) == Some(raw) then 1 else 0) + Changes(c, s3, [e], raw);
    assert Changes(c, s1, [b, d, e], raw) == (if Changing(c, s1, b) == Some(raw) then 1 else 0) + Changes(c, s2, [d, e], raw);
  }

  /** A token superseded while its reset is under way still changes the password, once. */
  lemma SupersededTokenStillChanges(c: A.Config, s: State, raw: nat, password: string, email: string, raws: seq<nat>)
    requires A.Unused(s.accounts.resets, raw) && s.accounts.core.now < s.accounts.resets[raw].expiresAt
    requires email in s.accounts.byEmail && s.accounts.resets[raw].userId == s.accounts.byEmail[email]
    requires A.Step(c, s.accounts, A.RequestReset(email, raws)).1.ResetIssued?
    ensures var s1 := Step(c, s, Read(0, raw, password));
            var s2 := Step(c, s1, Whole(A.RequestReset(email, raws)));
            A.UsedUp(s2.accounts, raw) && Changing(c, s2, Write(0)) == Some(raw)
  {
    var s1 := Step(c, s, Read(0, raw, password));
    assert s1.accounts == s.accounts && s1.inflight[0].raw == raw;
    A.IssuedExactlyWhen(s.accounts.resets, s.accounts.byEmail[email], s.accounts.core.now, c.resetTtl, raws);
  }
}
