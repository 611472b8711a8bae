/**
 The account lifecycle of `auth.service.ts` over all its tables: users, verification and reset tokens,
 login attempts, and the session table of `AuthSessions`. Every call is one step; the session calls,
 the two halves of an in-flight refresh included, may be interleaved with the others.

 The last part projects account runs onto the session and lockout machines, so what is proved there
 holds of whole account runs.
 */
module Accounts {
  import opened Prelude
  import AuthSessions
  import Lockout

  type Uid = AuthSessions.Uid

  datatype Config = Config(
    session: AuthSessions.Config, policy: Lockout.Policy,
    verificationRequired: bool, verificationTtl: nat, resetTtl: nat)

  datatype User = User(email: string, password: string, verifiedAt: Option<int>)

  /** A row of either one-time token table, keyed by the (unique) token. */
  datatype OneTime = OneTime(userId: Uid, expiresAt: int, usedAt: Option<int>)

  type TokenTable = map<nat, OneTime>

  /** `byEmail` is the unique index on the user's email. */
  datatype State = State(
    core: AuthSessions.State, attempts: Lockout.Table,
    nextUid: Uid, users: map<Uid, User>, byEmail: map<string, Uid>,
    resets: TokenTable, verifications: TokenTable)

  /** Sessions are created by `register` and `login` only. */
  type SessionCall = o: AuthSessions.Op | !o.Create? witness AuthSessions.Tick(0)

  datatype Op =
    | Register(email: string, password: string, raws: seq<nat>)
    | Login(email: string, password: string, ip: string)
    | VerifyEmail(raw: nat)
    | RequestReset(email: string, raws: seq<nat>)
    | ResetPassword(raw: nat, password: string)
    | OnSession(call: SessionCall)

  datatype Outcome =
    | EmailTaken | Registered(verification: Option<nat>, issued: Option<AuthSessions.Outcome>)
    | NoFreeToken
    | LoginLocked | InvalidCredentials | LoggedIn(session: AuthSessions.Outcome)
    | TokenInvalid | TokenExpired | Verified | PasswordChanged
    | UnknownEmail | ResetIssued(raw: nat)
    | Session(outcome: AuthSessions.Outcome)

  const INIT := State(AuthSessions.INIT, map[], 0, map[], map[], map[], map[])

  const TOKEN_ATTEMPTS := 5

  // ---------------------------------------------------------------- table statements

  function SanitizeIp(ip: string): string {
    if ip == "" then "unknown" else if |ip| <= 128 then ip else ip[..128]
  }

  predicate Unused(t: TokenTable, raw: nat) { raw in t && t[raw].usedAt.None? }

  /** `updateMany where { userId, usedAt: null }`. */
  function UseAll(t: TokenTable, user: Uid, now: int): TokenTable {
    map raw | raw in t :: if t[raw].userId == user && t[raw].usedAt.None? then t[raw].(usedAt := Some(now)) else t[raw]
  }

  function Use(t: TokenTable, raw: nat, now: int): TokenTable
    requires raw in t
  {
    t[raw := t[raw].(usedAt := Some(now))]
  }

  /** The first of the next `tries` random tokens that does not collide with a stored one. A collision fails the
      statement and with it the database transaction, in which every later create then fails for good. */
  function FirstFree(t: TokenTable, raws: seq<nat>, tries: nat, aborted: bool): Option<nat> {
    if tries == 0 || raws == [] || aborted then None
    else if raws[0] !in t then Some(raws[0])
    else FirstFree(t, raws[1..], tries - 1, true)
  }

  /** `createVerificationToken` / `createPasswordResetToken`; `None` when the transaction rolls back. */
  function Issue(t: TokenTable, user: Uid, now: int, ttl: nat, raws: seq<nat>): Option<(TokenTable, nat)> {
    var cleared := UseAll(t, user, now);
    var free := FirstFree(cleared, raws, TOKEN_ATTEMPTS, false);
    if free.None? then None else Some((cleared[free.value := OneTime(user, now + ttl, None)], free.value))
  }

  function Open(c: Config, s: State, user: Uid): (State, AuthSessions.Outcome) {
    var (core, out) := AuthSessions.Step(c.session, s.core, AuthSessions.Create(user));
    (s.(core := core), out)
  }

  predicate CredentialsPass(c: Config, s: State, email: string, password: string) {
    && email in s.byEmail && s.byEmail[email] in s.users
    && s.users[s.byEmail[email]].password == password
    && (c.verificationRequired ==> s.users[s.byEmail[email]].verifiedAt.Some?)
  }

  // ---------------------------------------------------------------- the calls

  function RegisterStep(c: Config, s: State, email: string, password: string, raws: seq<nat>): (State, Outcome) {
    if email in s.byEmail then (s, EmailTaken)
    else
      var user := s.nextUid;
      var verifiedAt := if c.verificationRequired then None else Some(s.core.now);
      var s1 := s.(nextUid := user + 1, users := s.users[user := User(email, password, verifiedAt)],
                   byEmail := s.byEmail[email := user]);
      if c.verificationRequired then
        var issued := Issue(s.verifications, user, s.core.now, c.verificationTtl, raws);
        if issued.None? then (s, NoFreeToken)
        else (s1.(verifications := issued.value.0), Registered(Some(issued.value.1), None))
      else
        var (s2, out) := Open(c, s1, user);
        (s2, Registered(None, Some(out)))
  }

  function LoginStep(c: Config, s: State, email: string, password: string, ip: string): (State, Outcome) {
    var pass := CredentialsPass(c, s, email, password);
    var (attempts, r) := Lockout.Step(c.policy, s.attempts, Lockout.Login((email, SanitizeIp(ip)), s.core.now, pass));
    var s1 := s.(attempts := attempts);
    match r
    case Locked => (s1, LoginLocked)
    case Failed => (s1, InvalidCredentials)
    case Succeeded =>
      if email in s.byEmail then var (s2, out) := Open(c, s1, s.byEmail[email]); (s2, LoggedIn(out))
      else (s1, InvalidCredentials)
  }

  function VerifyStep(s: State, raw: nat): (State, Outcome) {
    var now := s.core.now;
    if !Unused(s.verifications, raw) then (s, TokenInvalid)
    else if s.verifications[raw].expiresAt <= now then
      (s.(verifications := Use(s.verifications, raw, now)), TokenExpired)
    else
      var user := s.verifications[raw].userId;
      var s1 := s.(verifications := UseAll(Use(s.verifications, raw, now), user, now));
      (if user in s.users && s.users[user].verifiedAt.None?
       then s1.(users := s.users[user := s.users[user].(verifiedAt := Some(now))]) else s1, Verified)
  }

  function RequestResetStep(c: Config, s: State, email: string, raws: seq<nat>): (State, Outcome) {
    if email !in s.byEmail then (s, UnknownEmail)
    else
      var issued := Issue(s.resets, s.byEmail[email], s.core.now, c.resetTtl, raws);
      if issued.None? then (s, NoFreeToken)
      else (s.(resets := issued.value.0), ResetIssued(issued.value.1))
  }

  function ResetStep(s: State, raw: nat, password: string): (State, Outcome) {
    var now := s.core.now;
    if !Unused(s.resets, raw) then (s, TokenInvalid)
    else if s.resets[raw].expiresAt <= now then (s.(resets := Use(s.resets, raw, now)), TokenExpired)
    else
      var user := s.resets[raw].userId;
      var s1 := s.(resets := UseAll(Use(s.resets, raw, now), user, now),
                   core := s.core.(sessions := AuthSessions.RevokeUser(s.core.sessions, now, user)));
      (if user in s.users then s1.(users := s.users[user := s.users[user].(password := password)]) else s1,
       PasswordChanged)
  }

  function Step(c: Config, s: State, op: Op): (State, Outcome) {
    match op
    case Register(email, password, raws) => RegisterStep(c, s, email, password, raws)
    case Login(email, password, ip) => LoginStep(c, s, email, password, ip)
    case VerifyEmail(raw) => VerifyStep(s, raw)
    case RequestReset(email, raws) => RequestResetStep(c, s, email, raws)
    case ResetPassword(raw, password) => ResetStep(s, raw, password)
    case OnSession(call) =>
      var (core, out) := AuthSessions.Step(c.session, s.core, call);
      (s.(core := core), Session(out))
  }

  function Run(c: Config, s: State, ops: seq<Op>): State
    decreases |ops|
  {
    if ops == [] then s else Run(c, Step(c, s, ops[0]).0, ops[1..])
  }

  // ---------------------------------------------------------------- invariant

  ghost predicate TableInv(owners: set<Uid>, t: TokenTable) {
    && (forall raw | raw in t :: t[raw].userId in owners)
    && (forall a, b | Unused(t, a) && Unused(t, b) && t[a].userId == t[b].userId :: a == b)
  }

  ghost predicate UsersInv(c: Config, s: State) {
    && (forall u | u in s.users :: u < s.nextUid && (!c.verificationRequired ==> s.users[u].verifiedAt.Some?))
    && (forall e | e in s.byEmail :: s.byEmail[e] in s.users && s.users[s.byEmail[e]].email == e)
  }

  /** Every session belongs to a user whose email is verified. */
  ghost predicate SessionsVerified(s: State) {
    forall sid | sid in s.core.sessions ::
      && s.core.sessions[sid].userId in s.users
      && s.users[s.core.sessions[sid].userId].verifiedAt.Some?
  }

  ghost predicate Inv(c: Config, s: State) {
    && AuthSessions.Inv(c.session, s.core)
    && UsersInv(c, s) && SessionsVerified(s)
    && TableInv(s.users.Keys, s.resets) && TableInv(s.users.Keys, s.verifications)
  }

  lemma UseKeepsTable(owners: set<Uid>, t: TokenTable, raw: nat, user: Uid, now: int)
    requires TableInv(owners, t)
    ensures TableInv(owners, UseAll(t, user, now))
    ensures raw in t ==> TableInv(owners, Use(t, raw, now)) && TableInv(owners, UseAll(Use(t, raw, now), user, now))
  {
    if raw in t {
      var one := Use(t, raw, now);
      assert forall a | Unused(one, a) :: Unused(t, a);
      var all := UseAll(one, user, now);
      assert forall a | Unused(all, a) :: Unused(one, a);
    }
    var all := UseAll(t, user, now);
    assert forall a | Unused(all, a) :: Unused(t, a);
  }

  lemma IssueKeepsTable(owners: set<Uid>, t: TokenTable, user: Uid, now: int, ttl: nat, raws: seq<nat>)
    requires TableInv(owners, t) && user in owners
    requires Issue(t, user, now, ttl, raws).Some?
    ensures var (t1, raw) := Issue(t, user, now, ttl, raws).value;
            && TableInv(owners, t1)
            && raw !in t && Unused(t1, raw) && t1[raw].userId == user
            && (forall a | Unused(t1, a) && t1[a].userId == user :: a == raw)
  {
    var cleared := UseAll(t, user, now);
    IssuedExactlyWhen(t, user, now, ttl, raws);
    var (t1, raw) := Issue(t, user, now, ttl, raws).value;
    assert forall a | Unused(t1, a) && a != raw :: Unused(t, a) && t[a].userId != user;
  }

  /** Exactly when a token is issued: the first one drawn collides with none. The loop's other tries come to nothing. */
  lemma IssuedExactlyWhen(t: TokenTable, user: Uid, now: int, ttl: nat, raws: seq<nat>)
    ensures Issue(t, user, now, ttl, raws).Some? <==> raws != [] && raws[0] !in t
    ensures Issue(t, user, now, ttl, raws).Some? ==> Issue(t, user, now, ttl, raws).value.1 == raws[0]
  {
    if raws != [] {
      assert FirstFree(UseAll(t, user, now), raws[1..], TOKEN_ATTEMPTS - 1, true) == None;
    }
  }

  lemma RegisterKeepsInv(c: Config, s: State, email: string, password: string, raws: seq<nat>)
    requires Inv(c, s)
    ensures Inv(c, RegisterStep(c, s, email, password, raws).0)
  {
    hide AuthSessions.Inv;
    if email !in s.byEmail {
      var s1 := RegisterStep(c, s, email, password, raws).0;
      if c.verificationRequired {
        var issued := Issue(s.verifications, s.nextUid, s.core.now, c.verificationTtl, raws);
        if issued.Some? {
          assert TableInv(s1.users.Keys, s.verifications);
          IssueKeepsTable(s1.users.Keys, s.verifications, s.nextUid, s.core.now, c.verificationTtl, raws);
        }
      } else {
        AuthSessions.StepKeepsInv(c.session, s.core, AuthSessions.Create(s.nextUid));
      }
    }
  }

  lemma LoginKeepsInv(c: Config, s: State, email: string, password: string, ip: string)
    requires Inv(c, s)
    ensures Inv(c, LoginStep(c, s, email, password, ip).0)
  {
    hide AuthSessions.Inv;
    if email in s.byEmail {
      AuthSessions.StepKeepsInv(c.session, s.core, AuthSessions.Create(s.byEmail[email]));
    }
  }

  /** Overwriting a user's row with the same email and no less verified keeps the invariant. */
  lemma EditKeepsInv(c: Config, s: State, user: Uid, row: User)
    requires Inv(c, s) && user in s.users
    requires row.email == s.users[user].email && (s.users[user].verifiedAt.Some? ==> row.verifiedAt.Some?)
    ensures Inv(c, s.(users := s.users[user := row]))
  {
    assert s.users[user := row].Keys == s.users.Keys;
  }

  lemma VerifyKeepsInv(c: Config, s: State, raw: nat)
    requires Inv(c, s)
    ensures Inv(c, VerifyStep(s, raw).0)
  {
    hide AuthSessions.Inv;
    if raw in s.verifications {
      var user, now := s.verifications[raw].userId, s.core.now;
      UseKeepsTable(s.users.Keys, s.verifications, raw, user, now);
      var s1 := s.(verifications := UseAll(Use(s.verifications, raw, now), user, now));
      assert Inv(c, s1);
      EditKeepsInv(c, s1, user, s.users[user].(verifiedAt := Some(now)));
    }
  }

  lemma ResetKeepsInv(c: Config, s: State, raw: nat, password: string)
    requires Inv(c, s)
    ensures Inv(c, ResetStep(s, raw, password).0)
  {
    hide AuthSessions.Inv;
    if raw in s.resets {
      var user, now := s.resets[raw].userId, s.core.now;
      UseKeepsTable(s.users.Keys, s.resets, raw, user, now);
      AuthSessions.StepKeepsInv(c.session, s.core, AuthSessions.LogoutAll(user));
      var s1 := s.(resets := UseAll(Use(s.resets, raw, now), user, now),
                   core := s.core.(sessions := AuthSessions.RevokeUser(s.core.sessions, now, user)));
      assert Inv(c, s1);
      EditKeepsInv(c, s1, user, s.users[user].(password := password));
    }
  }

  lemma StepKeepsInv(c: Config, s: State, op: Op)
    requires Inv(c, s)
    ensures Inv(c, Step(c, s, op).0)
  {
    match op
    case Register(email, password, raws) => RegisterKeepsInv(c, s, email, password, raws);
    case Login(email, password, ip) => LoginKeepsInv(c, s, email, password, ip);
    case VerifyEmail(raw) => VerifyKeepsInv(c, s, raw);
    case RequestReset(email, raws) =>
      if email in s.byEmail && Issue(s.resets, s.byEmail[email], s.core.now, c.resetTtl, raws).Some? {
        IssueKeepsTable(s.users.Keys, s.resets, s.byEmail[email], s.core.now, c.resetTtl, raws);
      }
    case ResetPassword(raw, password) => ResetKeepsInv(c, s, raw, password);
    case OnSession(call) =>
      AuthSessions.StepKeepsInv(c.session, s.core, call);
      SessionCallsKeepOwners(c.session, s.core, call);
  }

  lemma SessionCallsKeepOwners(c: AuthSessions.Config, s: AuthSessions.State, call: SessionCall)
    ensures var s1 := AuthSessions.Step(c, s, call).0;
            forall sid | sid in s1.sessions :: sid in s.sessions && s1.sessions[sid].userId == s.sessions[sid].userId
  {}

  /** Over every run from the empty database, under one fixed configuration: at most one unused reset
      (and verification) token per user, and only verified users have sessions. */
  lemma {:induction false} RunKeepsInv(c: Config, s: State, ops: seq<Op>)
    requires Inv(c, s)
    ensures Inv(c, Run(c, s, ops))
    decreases |ops|
  {
    if ops != [] {
      StepKeepsInv(c, s, ops[0]);
      RunKeepsInv(c, Step(c, s, ops[0]).0, ops[1..]);
    }
  }

  lemma InitInv(c: Config)
    ensures Inv(c, INIT)
  {}

  /** The invariant in the terms of the promise, for every run from the empty database. */
  lemma ReachableAccounts(c: Config, ops: seq<Op>, a: nat, b: nat, sid: AuthSessions.Sid)
    ensures var s := Run(c, INIT, ops);
            && (Unused(s.resets, a) && Unused(s.resets, b) && s.resets[a].userId == s.resets[b].userId ==> a == b)
            && (sid in s.core.sessions ==>
                  && s.core.sessions[sid].userId in s.users
                  && s.users[s.core.sessions[sid].userId].verifiedAt.Some?)
  {
    InitInv(c);
    RunKeepsInv(c, INIT, ops);
  }

  // ---------------------------------------------------------------- one-time tokens

  predicate UsedUp(s: State, raw: nat) { raw in s.resets && s.resets[raw].usedAt.Some? }

  lemma UsedUpStep(c: Config, s: State, op: Op, raw: nat)
    requires UsedUp(s, raw)
    ensures UsedUp(Step(c, s, op).0, raw)
    ensures op.ResetPassword? && op.raw == raw ==> Step(c, s, op) == (s, TokenInvalid)
  {
    if op.RequestReset? && op.email in s.byEmail {
      IssuedExactlyWhen(s.resets, s.byEmail[op.email], s.core.now, c.resetTtl, op.raws);
    }
  }

  lemma {:induction false} UsedUpForever(c: Config, s: State, ops: seq<Op>, raw: nat)
    requires UsedUp(s, raw)
    ensures UsedUp(Run(c, s, ops), raw) && PasswordChanges(c, s, ops, raw) == 0
    decreases |ops|
  {
    if ops != [] {
      UsedUpStep(c, s, ops[0], raw);
      UsedUpForever(c, Step(c, s, ops[0]).0, ops[1..], raw);
    }
  }

  function PasswordChanges(c: Config, s: State, ops: seq<Op>, raw: nat): nat
    decreases |ops|
  {
    if ops == [] then 0
    else
      var (s1, out) := Step(c, s, ops[0]);
      (if ops[0].ResetPassword? && ops[0].raw == raw && out == PasswordChanged then 1 else 0)
      + PasswordChanges(c, s1, ops[1..], raw)
  }

  lemma {:induction false} TokenChangesPasswordAtMostOnce(c: Config, s: State, ops: seq<Op>, raw: nat)
    ensures PasswordChanges(c, s, ops, raw) <= 1
    decreases |ops|
  {
    if ops != [] {
      var (s1, out) := Step(c, s, ops[0]);
      if ops[0].ResetPassword? && ops[0].raw == raw && out == PasswordChanged {
        UsedUpForever(c, s1, ops[1..], raw);
      } else {
        TokenChangesPasswordAtMostOnce(c, s1, ops[1..], raw);
      }
    }
  }

  // ---------------------------------------------------------------- projections

  /** What one account call does to the session machine. */
  function CoreOps(c: Config, s: State, op: Op): seq<AuthSessions.Op> {
    match op
    case Register(email, _, _) =>
      if email !in s.byEmail && !c.verificationRequired then [AuthSessions.Create(s.nextUid)] else []
    case Login(email, _, _) => if Step(c, s, op).1.LoggedIn? then [AuthSessions.Create(s.byEmail[email])] else []
    case ResetPassword(raw, _) =>
      if Step(c, s, op).1 == PasswordChanged then [AuthSessions.LogoutAll(s.resets[raw].userId)] else []
    case OnSession(call) => [call]
    case _ => []
  }

  function CoreTrace(c: Config, s: State, ops: seq<Op>): seq<AuthSessions.Op>
    decreases |ops|
  {
    if ops == [] then [] else CoreOps(c, s, ops[0]) + CoreTrace(c, Step(c, s, ops[0]).0, ops[1..])
  }

  lemma CoreStep(c: Config, s: State, op: Op)
    ensures Step(c, s, op).0.core == AuthSessions.Run(c.session, s.core, CoreOps(c, s, op))
  {
    var xs := CoreOps(c, s, op);
    if xs != [] {
      assert xs[1..] == [];
    }
  }

  /** Every account run is, on the session table, a run of the session machine. */
  lemma {:induction false} CoreRun(c: Config, s: State, ops: seq<Op>)
    ensures Run(c, s, ops).core == AuthSessions.Run(c.session, s.core, CoreTrace(c, s, ops))
    decreases |ops|
  {
    if ops != [] {
      var s1 := Step(c, s, ops[0]).0;
      CoreStep(c, s, ops[0]);
      CoreRun(c, s1, ops[1..]);
      AuthSessions.RunAppend(c.session, s.core, CoreOps(c, s, ops[0]), CoreTrace(c, s1, ops[1..]));
    }
  }

  /** A successful reset, over any later run: the user's earlier sessions are dead for refresh and for
      `requireAuth`, an in-flight refresh included, and every reset token issued before it is used up. */
  lemma ResetIsFinal(c: Config, s: State, raw: nat, password: string, later: seq<Op>)
    requires Inv(c, s) && Step(c, s, ResetPassword(raw, password)).1 == PasswordChanged
    ensures var user := s.resets[raw].userId;
            var s1 := Step(c, s, ResetPassword(raw, password)).0;
            && user in s1.users && s1.users[user].password == password
            && (forall r | r in s1.resets && s1.resets[r].userId == user :: UsedUp(s1, r))
    ensures var user := s.resets[raw].userId;
            var s2 := Run(c, Step(c, s, ResetPassword(raw, password)).0, later);
            && (forall r | r in s.resets && s.resets[r].userId == user :: UsedUp(s2, r))
            && (forall tok: AuthSessions.Token | tok.sid in s.core.sessions && s.core.sessions[tok.sid].userId == user ::
                  AuthSessions.Check(s2.core, tok) !in {AuthSessions.Reused, AuthSessions.Fresh})
            && (forall access: AuthSessions.Access | access.sid.Some? && access.sid.value in s.core.sessions
                                                     && s.core.sessions[access.sid.value].userId == user ::
                  !AuthSessions.Admits(s2.core, access))
  {
    var user := s.resets[raw].userId;
    var s1 := Step(c, s, ResetPassword(raw, password)).0;
    var s2 := Run(c, s1, later);
    forall r | r in s.resets && s.resets[r].userId == user ensures UsedUp(s2, r) {
      UsedUpForever(c, s1, later, r);
    }
    CoreRun(c, s1, later);
    forall sid | sid in s.core.sessions && s.core.sessions[sid].userId == user
      ensures forall tok: AuthSessions.Token | tok.sid == sid ::
                AuthSessions.Check(s2.core, tok) !in {AuthSessions.Reused, AuthSessions.Fresh}
      ensures forall access: AuthSessions.Access | access.sid == Some(sid) :: !AuthSessions.Admits(s2.core, access)
    {
      assert AuthSessions.Gone(s1.core, sid);
      AuthSessions.RevocationIsFinal(c.session, s1.core, CoreTrace(c, s1, later), sid);
    }
  }

  /** The lockout calls an account run makes, each with its clock reading and verdict. */
  function LoginCalls(c: Config, s: State, ops: seq<Op>): seq<Lockout.Login>
    decreases |ops|
  {
    if ops == [] then []
    else
      (if ops[0].Login? then [LoginCall(c, s, ops[0])] else [])
      + LoginCalls(c, Step(c, s, ops[0]).0, ops[1..])
  }

  /** Logins from `key` answered "invalid credentials" over a run. */
  function BadLogins(c: Config, s: State, ops: seq<Op>, key: Lockout.Key): nat
    decreases |ops|
  {
    if ops == [] then 0
    else
      var (s1, out) := Step(c, s, ops[0]);
      (if ops[0].Login? && (ops[0].email, SanitizeIp(ops[0].ip)) == key && out == InvalidCredentials then 1 else 0)
      + BadLogins(c, s1, ops[1..], key)
  }

  predicate NoLogin(c: Config, s: State, ops: seq<Op>, key: Lockout.Key)
    decreases |ops|
  {
    ops != [] ==>
      var (s1, out) := Step(c, s, ops[0]);
      && !(ops[0].Login? && (ops[0].email, SanitizeIp(ops[0].ip)) == key && out.LoggedIn?)
      && NoLogin(c, s1, ops[1..], key)
  }

  function LoginCall(c: Config, s: State, op: Op): Lockout.Login
    requires op.Login?
  {
    Lockout.Login((op.email, SanitizeIp(op.ip)), s.core.now, CredentialsPass(c, s, op.email, op.password))
  }

  lemma SessionCallsKeepTime(c: AuthSessions.Config, s: AuthSessions.State, call: AuthSessions.Op)
    ensures AuthSessions.Step(c, s, call).0.now >= s.now
  {}

  lemma LoginIsLockoutStep(c: Config, s: State, op: Op)
    requires op.Login?
    ensures var (t1, r) := Lockout.Step(c.policy, s.attempts, LoginCall(c, s, op));
            && Step(c, s, op).0.attempts == t1
            && (Step(c, s, op).1 == InvalidCredentials <==> r == Lockout.Failed)
            && (Step(c, s, op).1.LoggedIn? <==> r == Lockout.Succeeded)
  {
    hide AuthSessions.Step;
  }

  lemma LockoutStep(c: Config, s: State, op: Op)
    ensures Step(c, s, op).0.core.now >= s.core.now
    ensures op.Login? ==>
              var (t1, r) := Lockout.Step(c.policy, s.attempts, LoginCall(c, s, op));
              && Step(c, s, op).0.attempts == t1
              && (Step(c, s, op).1 == InvalidCredentials <==> r == Lockout.Failed)
              && (Step(c, s, op).1.LoggedIn? <==> r == Lockout.Succeeded)
    ensures !op.Login? ==> Step(c, s, op).0.attempts == s.attempts
  {
    hide AuthSessions.Step;
    hide Lockout.Step;
    match op
    case Register(_, _, _) => SessionCallsKeepTime(c.session, s.core, AuthSessions.Create(s.nextUid));
    case Login(email, _, _) =>
      LoginIsLockoutStep(c, s, op);
      if email in s.byEmail {
        SessionCallsKeepTime(c.session, s.core, AuthSessions.Create(s.byEmail[email]));
      }
    case OnSession(call) => SessionCallsKeepTime(c.session, s.core, call);
    case _ =>
  }

  lemma {:induction false} LockoutRun(c: Config, s: State, ops: seq<Op>, key: Lockout.Key)
    ensures var calls := LoginCalls(c, s, ops);
            && Run(c, s, ops).attempts == Lockout.Run(c.policy, s.attempts, calls)
            && BadLogins(c, s, ops, key) == Lockout.Failures(c.policy, s.attempts, calls, key)
            && (NoLogin(c, s, ops, key) ==> Lockout.Successes(c.policy, s.attempts, calls, key) == 0)
    decreases |ops|
  {
    if ops != [] {
      var s1 := Step(c, s, ops[0]).0;
      LockoutStep(c, s, ops[0]);
      LockoutRun(c, s1, ops[1..], key);
      var rest := LoginCalls(c, s1, ops[1..]);
      if ops[0].Login? {
        assert LoginCalls(c, s, ops)[1..] == rest;
      } else {
        assert LoginCalls(c, s, ops) == rest;
      }
    }
  }

  lemma {:induction false} LoginCallsAreTimed(c: Config, s: State, ops: seq<Op>)
    ensures Run(c, s, ops).core.now >= s.core.now
    ensures Lockout.Timed(LoginCalls(c, s, ops))
    ensures Lockout.Within(LoginCalls(c, s, ops), s.core.now, Run(c, s, ops).core.now)
    decreases |ops|
  {
    if ops != [] {
      var s1 := Step(c, s, ops[0]).0;
      LockoutStep(c, s, ops[0]);
      LoginCallsAreTimed(c, s1, ops[1..]);
      var rest := LoginCalls(c, s1, ops[1..]);
      var calls := LoginCalls(c, s, ops);
      if ops[0].Login? {
        assert calls == [LoginCall(c, s, ops[0])] + rest;
      } else {
        assert calls == rest;
      }
    }
  }

  /** Whatever else goes on, one (email, IP) pair gets at most `maxAttempts` wrong guesses evaluated in
      any stretch of a run that is short enough and has no successful login of that pair. */
  lemma GuessesAreBounded(c: Config, before: seq<Op>, ops: seq<Op>, key: Lockout.Key)
    requires Lockout.Usable(c.policy)
    requires var s := Run(c, INIT, before);
             && Lockout.ShortSpan(c.policy, SpanOf(c, s, ops))
             && NoLogin(c, s, ops, key)
    ensures BadLogins(c, Run(c, INIT, before), ops, key) <= c.policy.maxAttempts
  {
    var s := Run(c, INIT, before);
    LockoutRun(c, INIT, before, key);
    LockoutRun(c, s, ops, key);
    LoginCallsAreTimed(c, INIT, before);
    LoginCallsAreTimed(c, s, ops);
    var xs, ys := LoginCalls(c, INIT, before), LoginCalls(c, s, ops);
    assert Lockout.Timed(xs + ys);
    Lockout.LockoutBound(c.policy, SpanOf(c, s, ops), xs, ys, key, s.core.now);
  }

  function SpanOf(c: Config, s: State, ops: seq<Op>): nat {
    var d := Run(c, s, ops).core.now - s.core.now;
    if d >= 0 then d else 0
  }
}
