/**
 Single use of refresh tokens when refreshes are cut into their read and write halves.

 An exchange counts when it leaves a live session holding a new token. A write is stale when it replaces a
 token other than the one its read saw.
 */
module RefreshReuse {
  import opened Prelude
  import opened AuthSessions

  predicate Live(s: State, tok: Token) {
    tok.sid in s.sessions && s.sessions[tok.sid].valid && s.sessions[tok.sid].token == Some(tok)
  }

  predicate LiveSession(s: State, sid: Sid) { sid in s.sessions && s.sessions[sid].valid }

  /** The token a step exchanges on a live session. */
  function Exchanged(c: Config, s: State, op: Op): Option<Token> {
    match op
    case Refresh(tok) => if Check(s, tok) == Fresh then Some(tok) else None
    case RefreshWrite(call) =>
      if call in s.inflight && LiveSession(s, s.inflight[call].sid) then Some(s.inflight[call]) else None
    case _ => None
  }

  predicate Stale(s: State, op: Op) {
    && op.RefreshWrite? && op.call in s.inflight
    && LiveSession(s, s.inflight[op.call].sid) && !Live(s, s.inflight[op.call])
  }

  predicate NoStaleWrite(c: Config, s: State, ops: seq<Op>)
    decreases |ops|
  {
    ops != [] ==> !Stale(s, ops[0]) && NoStaleWrite(c, Step(c, s, ops[0]).0, ops[1..])
  }

  /** No token is exchanged twice in a run, nor one of those used before it. */
  predicate SingleUse(c: Config, s: State, used: set<Token>, ops: seq<Op>)
    decreases |ops|
  {
    ops != [] ==>
      var tok := Exchanged(c, s, ops[0]);
      && (tok.Some? ==> tok.value !in used)
      && SingleUse(c, Step(c, s, ops[0]).0, if tok.Some? then used + {tok.value} else used, ops[1..])
  }

  /** Of the tokens of live sessions, those used are the ones no longer stored. */
  ghost predicate Accounted(s: State, used: set<Token>) {
    && used <= s.minted
    && (forall tok | tok in s.minted && LiveSession(s, tok.sid) :: tok in used <==> !Live(s, tok))
  }

  lemma StepAccounts(c: Config, s: State, used: set<Token>, op: Op)
    requires Inv(c, s) && Accounted(s, used) && !Stale(s, op)
    ensures var tok := Exchanged(c, s, op);
            Accounted(Step(c, s, op).0, if tok.Some? then used + {tok.value} else used)
  {}

  /** An exchange is the second of its token exactly when it is a stale write. */
  lemma ReuseIsStale(c: Config, s: State, used: set<Token>, op: Op)
    requires Inv(c, s) && Accounted(s, used)
    ensures Exchanged(c, s, op).Some? && Exchanged(c, s, op).value in used <==> Stale(s, op)
  {
    if op.RefreshWrite? && op.call in s.inflight {
      assert s.inflight[op.call] in s.minted;
    }
  }

  lemma {:induction false} SingleUseFrom(c: Config, s: State, used: set<Token>, ops: seq<Op>)
    requires Inv(c, s) && Accounted(s, used)
    ensures SingleUse(c, s, used, ops) <==> NoStaleWrite(c, s, ops)
    decreases |ops|
  {
    if ops != [] {
      ReuseIsStale(c, s, used, ops[0]);
      if !Stale(s, ops[0]) {
        StepAccounts(c, s, used, ops[0]);
        StepKeepsInv(c, s, ops[0]);
        var tok := Exchanged(c, s, ops[0]);
        SingleUseFrom(c, Step(c, s, ops[0]).0, if tok.Some? then used + {tok.value} else used, ops[1..]);
      }
    }
  }

  /** Exactly which interleaved runs exchange every refresh token at most once: those without a stale write. */
  lemma SingleUseIff(c: Config, ops: seq<Op>)
    ensures SingleUse(c, INIT, {}, ops) <==> NoStaleWrite(c, INIT, ops)
  {
    SingleUseFrom(c, INIT, {}, ops);
  }

  /** Atomic refreshes are never stale. */
  lemma {:induction false} AtomicIsSingleUse(c: Config, s: State, ops: seq<Op>)
    requires Atomic(ops)
    ensures NoStaleWrite(c, s, ops)
    decreases |ops|
  {
    if ops != [] {
      var rest := ops[1..];
      assert forall i | 0 <= i < |rest| :: rest[i] == ops[i + 1];
      AtomicIsSingleUse(c, Step(c, s, ops[0]).0, rest);
    }
  }
}
