/**
 Sessions and refresh-token rotation (`auth.service.ts`, `requireAuth.ts`, `sessionCleanup.ts`).

 The session table is a map. A signed refresh token is a value, and `minted` holds every token the
 server has ever signed, so "the signature verifies" is membership in that set. The stored hash of a
 token is the token itself (hashing is injective), the empty string it is overwritten with is `None`.

 `Refresh` is one atomic call. `RefreshRead` and `RefreshWrite` are the same call cut at its await
 points, so that other calls can be interleaved between the checks and the write.
 */
module AuthSessions {
  import opened Prelude

  type Uid = nat
  type Sid = nat

  /** `signTtl`: lifetime the JWT library gives a refresh token. `cleanupTtl`: what the cleanup job
      parsed from the same setting, `None` when it could not parse it. */
  datatype Config = Config(signTtl: nat, cleanupTtl: Option<nat>)

  datatype Token = Token(sub: Uid, sid: Sid, jti: nat, exp: int)
  datatype Access = Access(sub: Uid, sid: Option<Sid>)
  datatype Session = Session(userId: Uid, valid: bool, token: Option<Token>, updatedAt: int)

  datatype State = State(
    now: int, nextSid: Sid, nextJti: nat,
    sessions: map<Sid, Session>, minted: set<Token>, inflight: map<nat, Token>)

  datatype Verdict = Forged | Expired | Dead | Reused | Fresh

  datatype Outcome =
    | Issued(access: Access, refresh: Token)
    | JwtInvalid | SessionExpired | SessionInvalid | Reuse
    | Passed | NotInFlight | RowMissing
    | Revoked(count: nat) | Done

  datatype Op =
    | Create(user: Uid)
    | Refresh(tok: Token)
    | RefreshRead(call: nat, tok: Token)
    | RefreshWrite(call: nat)
    | Logout(tok: Token)
    | LogoutAll(user: Uid)
    | Cleanup
    | Tick(ms: nat)

  const INIT := State(0, 0, 0, map[], {}, map[])

  // ---------------------------------------------------------------- table statements

  function RevokeOne(sessions: map<Sid, Session>, now: int, sid: Sid): map<Sid, Session> {
    if sid in sessions
    then sessions[sid := sessions[sid].(valid := false, token := None, updatedAt := now)]
    else sessions
  }

  function OwnedBy(sessions: map<Sid, Session>, user: Uid): set<Sid> {
    set sid | sid in sessions && sessions[sid].userId == user
  }

  function RevokeUser(sessions: map<Sid, Session>, now: int, user: Uid): map<Sid, Session> {
    map sid | sid in sessions ::
      if sessions[sid].userId == user
      then sessions[sid].(valid := false, token := None, updatedAt := now)
      else sessions[sid]
  }

  /** The row filter of the cleanup job: invalid, or untouched for a whole TTL when one is known. */
  predicate Sweepable(c: Config, now: int, row: Session) {
    || !row.valid
    || (c.cleanupTtl.Some? && c.cleanupTtl.value > 0 && row.updatedAt <= now - c.cleanupTtl.value)
  }

  function Sweep(c: Config, s: State): State {
    s.(sessions := map sid | sid in s.sessions && !Sweepable(c, s.now, s.sessions[sid]) :: s.sessions[sid])
  }

  function NextToken(c: Config, s: State, user: Uid, sid: Sid): Token {
    Token(user, sid, s.nextJti, s.now + c.signTtl)
  }

  /** Write a freshly minted token into an existing row; `valid` is left as it is. */
  function Rotate(c: Config, s: State, user: Uid, sid: Sid): (State, Outcome)
    requires sid in s.sessions
  {
    var tok := NextToken(c, s, user, sid);
    (s.(nextJti := s.nextJti + 1, minted := s.minted + {tok},
        sessions := s.sessions[sid := s.sessions[sid].(token := Some(tok), updatedAt := s.now)]),
     Issued(Access(user, Some(sid)), tok))
  }

  /** Everything `refresh` decides before it writes. */
  function Check(s: State, tok: Token): Verdict {
    if tok !in s.minted then Forged
    else if tok.exp <= s.now then Expired
    else if tok.sid !in s.sessions || !s.sessions[tok.sid].valid then Dead
    else if s.sessions[tok.sid].token != Some(tok) then Reused
    else Fresh
  }

  /** The refusals of `refresh`, with the rows they revoke. */
  function Refuse(s: State, tok: Token, verdict: Verdict): (State, Outcome)
    requires verdict == Check(s, tok) && verdict != Fresh
  {
    match verdict
    case Forged => (s, JwtInvalid)
    case Expired => (s.(sessions := RevokeOne(s.sessions, s.now, tok.sid)), SessionExpired)
    case Dead => (s, SessionInvalid)
    case Reused => (s.(sessions := RevokeUser(s.sessions, s.now, s.sessions[tok.sid].userId)), Reuse)
  }

  // ---------------------------------------------------------------- the machine

  function Step(c: Config, s: State, op: Op): (State, Outcome) {
    match op
    case Create(user) =>
      var tok := NextToken(c, s, user, s.nextSid);
      (s.(nextSid := s.nextSid + 1, nextJti := s.nextJti + 1, minted := s.minted + {tok},
          sessions := s.sessions[s.nextSid := Session(user, true, Some(tok), s.now)]),
       Issued(Access(user, Some(s.nextSid)), tok))
    case Refresh(tok) =>
      if Check(s, tok) == Fresh then Rotate(c, s, tok.sub, tok.sid)
      else Refuse(s, tok, Check(s, tok))
    case RefreshRead(call, tok) =>
      if Check(s, tok) == Fresh then (s.(inflight := s.inflight[call := tok]), Passed)
      else Refuse(s, tok, Check(s, tok))
    case RefreshWrite(call) =>
      if call !in s.inflight then (s, NotInFlight)
      else
        var tok := s.inflight[call];
        var s1 := s.(inflight := s.inflight - {call});
        if tok.sid !in s.sessions then (s1, RowMissing) else Rotate(c, s1, tok.sub, tok.sid)
    case Logout(tok) =>
      (if tok in s.minted && s.now < tok.exp
       then s.(sessions := RevokeOne(s.sessions, s.now, tok.sid)) else s, Done)
    case LogoutAll(user) =>
      (s.(sessions := RevokeUser(s.sessions, s.now, user)), Revoked(|OwnedBy(s.sessions, user)|))
    case Cleanup => (Sweep(c, s), Done)
    case Tick(ms) => (s.(now := s.now + ms), Done)
  }

  function Run(c: Config, s: State, ops: seq<Op>): State
    decreases |ops|
  {
    if ops == [] then s else Run(c, Step(c, s, ops[0]).0, ops[1..])
  }

  /** The session part of `requireAuth`, for a verified access token whose user exists. */
  predicate Admits(s: State, access: Access) {
    access.sid.Some? ==>
      && access.sid.value in s.sessions
      && s.sessions[access.sid.value].userId == access.sub
      && s.sessions[access.sid.value].valid
  }

  predicate Atomic(ops: seq<Op>) {
    forall i | 0 <= i < |ops| :: !ops[i].RefreshRead? && !ops[i].RefreshWrite?
  }

  // ---------------------------------------------------------------- invariant

  ghost predicate TokensInv(c: Config, s: State) {
    && (forall t | t in s.minted :: t.sid < s.nextSid && t.jti < s.nextJti && t.exp <= s.now + c.signTtl)
    && (forall t, u | t in s.minted && u in s.minted && t.jti == u.jti :: t == u)
    && (forall k | k in s.inflight :: s.inflight[k] in s.minted)
  }

  ghost predicate RowsInv(s: State) {
    forall sid | sid in s.sessions ::
      && sid < s.nextSid
      && s.sessions[sid].updatedAt <= s.now
      && (s.sessions[sid].valid ==> s.sessions[sid].token.Some?)
      && (s.sessions[sid].token.Some? ==>
            s.sessions[sid].token.value in s.minted && s.sessions[sid].token.value.sid == sid)
  }

  /** Every minted token names its owner's session and outlives the row's last update by at most one TTL. */
  ghost predicate OwnersInv(c: Config, s: State) {
    forall t | t in s.minted && t.sid in s.sessions ::
      && t.sub == s.sessions[t.sid].userId
      && t.exp <= s.sessions[t.sid].updatedAt + c.signTtl
  }

  ghost predicate Inv(c: Config, s: State) { TokensInv(c, s) && RowsInv(s) && OwnersInv(c, s) }

  /** Sweeping rows away, or revoking rows in place, keeps the invariant. */
  lemma ShrinkKeepsInv(c: Config, s: State, sessions: map<Sid, Session>)
    requires Inv(c, s)
    requires forall sid | sid in sessions ::
               && sid in s.sessions
               && (|| sessions[sid] == s.sessions[sid]
                   || sessions[sid] == s.sessions[sid].(valid := false, token := None, updatedAt := s.now))
    ensures Inv(c, s.(sessions := sessions))
  {}

  lemma RotateKeepsInv(c: Config, s: State, tok: Token)
    requires Inv(c, s) && tok in s.minted && tok.sid in s.sessions
    ensures Inv(c, Rotate(c, s, tok.sub, tok.sid).0)
  {}

  lemma CreateKeepsInv(c: Config, s: State, user: Uid)
    requires Inv(c, s)
    ensures Inv(c, Step(c, s, Create(user)).0)
  {}

  lemma RefuseKeepsInv(c: Config, s: State, tok: Token)
    requires Inv(c, s) && Check(s, tok) != Fresh
    ensures Inv(c, Refuse(s, tok, Check(s, tok)).0)
  {
    var sessions := Refuse(s, tok, Check(s, tok)).0.sessions;
    hide Inv;
    ShrinkKeepsInv(c, s, sessions);
  }

  /** Taking a call on or off the calls under way, and letting time pass. */
  lemma FrameKeepsInv(c: Config, s: State, inflight: map<nat, Token>, now: int)
    requires Inv(c, s) && now >= s.now && forall k | k in inflight :: inflight[k] in s.minted
    ensures Inv(c, s.(inflight := inflight, now := now))
  {}

  lemma StepKeepsInv(c: Config, s: State, op: Op)
    requires Inv(c, s)
    ensures Inv(c, Step(c, s, op).0)
  {
    assert forall k | k in s.inflight :: s.inflight[k] in s.minted;
    hide Inv;
    match op
    case Create(user) => CreateKeepsInv(c, s, user);
    case Refresh(tok) =>
      if Check(s, tok) == Fresh { RotateKeepsInv(c, s, tok); } else { RefuseKeepsInv(c, s, tok); }
    case RefreshRead(call, tok) =>
      if Check(s, tok) == Fresh { FrameKeepsInv(c, s, s.inflight[call := tok], s.now); } else { RefuseKeepsInv(c, s, tok); }
    case RefreshWrite(call) =>
      if call in s.inflight {
        var s1 := s.(inflight := s.inflight - {call});
        FrameKeepsInv(c, s, s1.inflight, s.now);
        if s.inflight[call].sid in s.sessions {
          RotateKeepsInv(c, s1, s.inflight[call]);
        }
      }
    case Logout(tok) => ShrinkKeepsInv(c, s, RevokeOne(s.sessions, s.now, tok.sid));
    case LogoutAll(user) => ShrinkKeepsInv(c, s, RevokeUser(s.sessions, s.now, user));
    case Cleanup => ShrinkKeepsInv(c, s, Sweep(c, s).sessions);
    case Tick(ms) => FrameKeepsInv(c, s, s.inflight, s.now + ms);
  }

  lemma {:induction false} RunKeepsInv(c: Config, s: State, ops: seq<Op>)
    requires Inv(c, s)
    ensures Inv(c, Run(c, s, ops))
    decreases |ops|
  {
    if ops != [] {
      StepKeepsInv(c, s, ops[0]);
      RunKeepsInv(c, Step(c, s, ops[0]).0, ops[1..]);
    }
  }

  lemma {:induction false} RunAppend(c: Config, s: State, xs: seq<Op>, ys: seq<Op>)
    ensures Run(c, s, xs + ys) == Run(c, Run(c, s, xs), ys)
    decreases |xs|
  {
    if xs == [] {
      assert xs + ys == ys;
    } else {
      assert (xs + ys)[1..] == xs[1..] + ys;
      RunAppend(c, Step(c, s, xs[0]).0, xs[1..], ys);
    }
  }

  /** The atomic call is its two halves run back to back, so the cut loses nothing. */
  lemma RefreshIsReadThenWrite(c: Config, s: State, call: nat, tok: Token)
    requires Inv(c, s) && call !in s.inflight
    ensures var read := Step(c, s, RefreshRead(call, tok));
            var write := Step(c, read.0, RefreshWrite(call));
            var whole := Step(c, s, Refresh(tok));
            && write.0 == whole.0
            && whole.1 == (if read.1 == Passed then write.1 else read.1)
            && (read.1 == Passed <==> whole.1.Issued?)
  {
    assert s.inflight[call := tok] - {call} == s.inflight;
  }

  // ---------------------------------------------------------------- revocation is final

  /** The session was created once and is now revoked or gone. */
  predicate Gone(s: State, sid: Sid) {
    sid < s.nextSid && (sid !in s.sessions || !s.sessions[sid].valid)
  }

  lemma GoneStep(c: Config, s: State, op: Op, sid: Sid)
    requires Gone(s, sid)
    ensures Gone(Step(c, s, op).0, sid)
  {}

  /** Whatever is interleaved afterwards, in-flight writes included, the session stays dead, no
      refresh read lets a token naming it through, and `requireAuth` turns its access tokens away. */
  lemma {:induction false} RevocationIsFinal(c: Config, s: State, ops: seq<Op>, sid: Sid)
    requires Gone(s, sid)
    ensures Gone(Run(c, s, ops), sid)
    ensures forall tok: Token | tok.sid == sid :: Check(Run(c, s, ops), tok) !in {Reused, Fresh}
    ensures forall access: Access | access.sid == Some(sid) :: !Admits(Run(c, s, ops), access)
    decreases |ops|
  {
    if ops != [] {
      GoneStep(c, s, ops[0], sid);
      RevocationIsFinal(c, Step(c, s, ops[0]).0, ops[1..], sid);
    }
  }

  /** The token minted by a write that was in flight when the session was revoked is already dead. */
  lemma InFlightMintIsDead(c: Config, s: State, call: nat, ops: seq<Op>)
    requires Inv(c, s) && call in s.inflight && Gone(s, s.inflight[call].sid)
    ensures var (s1, out) := Step(c, s, RefreshWrite(call));
            && Gone(s1, s.inflight[call].sid)
            && (out.Issued? ==>
                  && out.refresh in s1.minted
                  && Check(Run(c, s1, ops), out.refresh) !in {Reused, Fresh}
                  && !Admits(Run(c, s1, ops), out.access))
  {
    var (s1, out) := Step(c, s, RefreshWrite(call));
    GoneStep(c, s, RefreshWrite(call), s.inflight[call].sid);
    RevocationIsFinal(c, s1, ops, s.inflight[call].sid);
  }

  /** Each way to revoke: which sessions it makes `Gone`, and that it leaves every other row alone. */
  lemma WhatRevokes(c: Config, s: State, tok: Token, user: Uid, sid: Sid)
    requires Inv(c, s) && sid in s.sessions
    ensures var t := Step(c, s, LogoutAll(user)).0;
            if s.sessions[sid].userId == user then Gone(t, sid) else sid in t.sessions && t.sessions[sid] == s.sessions[sid]
    ensures var t := Step(c, s, Logout(tok)).0;
            if tok in s.minted && s.now < tok.exp && tok.sid == sid then Gone(t, sid)
            else sid in t.sessions && t.sessions[sid] == s.sessions[sid]
    ensures Check(s, tok) == Expired ==>
              var t := Step(c, s, Refresh(tok)).0;
              if tok.sid == sid then Gone(t, sid) else sid in t.sessions && t.sessions[sid] == s.sessions[sid]
    ensures Check(s, tok) == Reused ==>
              var t := Step(c, s, Refresh(tok)).0;
              if s.sessions[sid].userId == tok.sub then Gone(t, sid) else sid in t.sessions && t.sessions[sid] == s.sessions[sid]
  {}

  // ---------------------------------------------------------------- single use

  /** A minted token that is not, and can never again be, the one its session stores. */
  predicate Spent(s: State, tok: Token) {
    tok in s.minted && (tok.sid in s.sessions ==> s.sessions[tok.sid].token != Some(tok))
  }

  lemma SpentStep(c: Config, s: State, op: Op, tok: Token)
    requires Inv(c, s) && Spent(s, tok)
    ensures Spent(Step(c, s, op).0, tok)
    ensures op.Refresh? && op.tok == tok ==> !Step(c, s, op).1.Issued?
    ensures op.RefreshRead? && op.tok == tok ==> Step(c, s, op).1 != Passed
  {}

  lemma ExchangeSpends(c: Config, s: State, tok: Token)
    requires Inv(c, s) && Step(c, s, Refresh(tok)).1.Issued?
    ensures Spent(Step(c, s, Refresh(tok)).0, tok)
  {}

  /** How often a run of calls exchanges `tok` for a new pair. */
  function Exchanges(c: Config, s: State, ops: seq<Op>, tok: Token): nat
    decreases |ops|
  {
    if ops == [] then 0
    else
      var (s1, out) := Step(c, s, ops[0]);
      (if ops[0] == Refresh(tok) && out.Issued? then 1 else 0) + Exchanges(c, s1, ops[1..], tok)
  }

  lemma {:induction false} SpentNeverExchanged(c: Config, s: State, ops: seq<Op>, tok: Token)
    requires Inv(c, s) && Spent(s, tok)
    ensures Exchanges(c, s, ops, tok) == 0
    decreases |ops|
  {
    if ops != [] {
      StepKeepsInv(c, s, ops[0]);
      SpentStep(c, s, ops[0], tok);
      SpentNeverExchanged(c, Step(c, s, ops[0]).0, ops[1..], tok);
    }
  }

  lemma {:induction false} ExchangedAtMostOnce(c: Config, s: State, ops: seq<Op>, tok: Token)
    requires Inv(c, s)
    ensures Exchanges(c, s, ops, tok) <= 1
    decreases |ops|
  {
    if ops != [] {
      var (s1, out) := Step(c, s, ops[0]);
      StepKeepsInv(c, s, ops[0]);
      if ops[0] == Refresh(tok) && out.Issued? {
        ExchangeSpends(c, s, tok);
        SpentNeverExchanged(c, s1, ops[1..], tok);
      } else {
        ExchangedAtMostOnce(c, s1, ops[1..], tok);
      }
    }
  }

  /** Cut into halves, two calls can both pass the check with one token: single use needs atomicity. */
  lemma SplitRefreshExchangesTwice(c: Config)
    requires c.signTtl > 0
    ensures var s0 := Step(c, INIT, Create(0)).0;
            var tok := Step(c, INIT, Create(0)).1.refresh;
            var s1 := Step(c, s0, RefreshRead(1, tok)).0;
            var s2 := Step(c, s1, RefreshRead(2, tok)).0;
            var s3 := Step(c, s2, RefreshWrite(1)).0;
            Step(c, s2, RefreshWrite(1)).1.Issued? && Step(c, s3, RefreshWrite(2)).1.Issued?
  {
    var s0 := Step(c, INIT, Create(0)).0;
    var tok := Step(c, INIT, Create(0)).1.refresh;
    assert Check(s0, tok) == Fresh;
    var s1 := Step(c, s0, RefreshRead(1, tok)).0;
    assert Check(s1, tok) == Fresh;
  }

  /** Over any run from the empty table, tokens name their owner's session, and replaying a superseded,
      unexpired token of a live session kills every session of that user, for good. */
  lemma ReplayRevokesEverything(c: Config, before: seq<Op>, tok: Token, after: seq<Op>, sid: Sid)
    requires var s := Run(c, INIT, before);
             && tok in s.minted && s.now < tok.exp
             && tok.sid in s.sessions && s.sessions[tok.sid].valid && s.sessions[tok.sid].token != Some(tok)
             && sid in s.sessions && s.sessions[sid].userId == tok.sub
    ensures var s := Run(c, INIT, before);
            && s.sessions[tok.sid].userId == tok.sub
            && Step(c, s, Refresh(tok)).1 == Reuse
            && Gone(Run(c, s, [Refresh(tok)] + after), sid)
  {
    var s := Run(c, INIT, before);
    RunKeepsInv(c, INIT, before);
    var s1 := Step(c, s, Refresh(tok)).0;
    assert Gone(s1, sid);
    assert ([Refresh(tok)] + after)[1..] == after;
    RevocationIsFinal(c, s1, after, sid);
  }
}
