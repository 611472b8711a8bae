/**
 What the account calls answer, in terms of the calls and answers before them.

 A log is kept from calls and answers alone: the password last set for each email, the emails verified, the one-time
 tokens handed out with their owner and expiry, and the user id each email's sessions were opened for. Every answer
 of every run of whole calls is what the log says; whether a login is locked out is `LockoutStreaks`' matter.
 */
module AccountAnswers {
  import opened Prelude
  import opened Accounts
  import S = AuthSessions
  import L = Lockout
  import SL = SessionLedger
  import LS = LockoutStreaks

  /** A one-time token handed out; it is open until it is used, replaced by a later one, or found expired. */
  datatype Slip = Slip(email: string, expiresAt: int, open: bool)

  type Slips = map<nat, Slip>

  datatype Log = Log(
    now: int, passwords: map<string, string>, verified: set<string>, resets: Slips, verifications: Slips,
    ids: map<string, Uid>)

  const BLANK := Log(0, map[], {}, map[], map[], map[])

  function Closed(slips: Slips, email: string): Slips {
    map raw | raw in slips :: if slips[raw].email == email then slips[raw].(open := false) else slips[raw]
  }

  /** A new token closes the earlier ones of its owner. */
  function Handed(slips: Slips, email: string, raw: nat, expiresAt: int): Slips {
    Closed(slips, email)[raw := Slip(email, expiresAt, true)]
  }

  function Shut(slips: Slips, raw: nat): Slips {
    if raw in slips then slips[raw := slips[raw].(open := false)] else slips
  }

  /** The user id of a session answered. */
  function Met(ids: map<string, Uid>, email: string, session: S.Outcome): map<string, Uid> {
    if session.Issued? then ids[email := session.access.sub] else ids
  }

  function NoteRegister(c: Config, l: Log, email: string, password: string, out: Outcome): Log {
    if !out.Registered? then l
    else
      l.(passwords := l.passwords[email := password],
         verifications := if out.verification.Some?
                          then Handed(l.verifications, email, out.verification.value, l.now + c.verificationTtl) else l.verifications,
         ids := if out.issued.Some? then Met(l.ids, email, out.issued.value) else l.ids)
  }

  function NoteVerify(l: Log, raw: nat, out: Outcome): Log {
    if raw !in l.verifications then l
    else if out == Verified then
      l.(verified := l.verified + {l.verifications[raw].email}, verifications := Closed(l.verifications, l.verifications[raw].email))
    else if out == TokenExpired then l.(verifications := Shut(l.verifications, raw))
    else l
  }

  function NoteReset(l: Log, raw: nat, password: string, out: Outcome): Log {
    if raw !in l.resets then l
    else if out == PasswordChanged then
      l.(passwords := l.passwords[l.resets[raw].email := password], resets := Closed(l.resets, l.resets[raw].email))
    else if out == TokenExpired then l.(resets := Shut(l.resets, raw))
    else l
  }

  function Note(c: Config, l: Log, op: Op, out: Outcome): Log {
    match op
    case Register(email, password, _) => NoteRegister(c, l, email, password, out)
    case Login(email, _, _) => if out.LoggedIn? then l.(ids := Met(l.ids, email, out.session)) else l
    case VerifyEmail(raw) => NoteVerify(l, raw, out)
    case RequestReset(email, _) =>
      if out.ResetIssued? then l.(resets := Handed(l.resets, email, out.raw, l.now + c.resetTtl)) else l
    case ResetPassword(raw, password) => NoteReset(l, raw, password, out)
    case OnSession(call) => if call.Tick? then l.(now := l.now + call.ms) else l
  }

  function Kept(c: Config, s: State, l: Log, ops: seq<Op>): Log
    decreases |ops|
  {
    if ops == [] then l else Kept(c, Step(c, s, ops[0]).0, Note(c, l, ops[0], Step(c, s, ops[0]).1), ops[1..])
  }

  // ---------------------------------------------------------------- what the log says

  /** What a one-time token answers: refused unless open, refused as expired from its last instant on. */
  function TokenAnswer(slips: Slips, raw: nat, now: int, good: Outcome): Outcome {
    if raw !in slips || !slips[raw].open then TokenInvalid
    else if slips[raw].expiresAt <= now then TokenExpired
    else good
  }

  /** The right password, last set for the email, and, where that is required, a verification token answered. */
  predicate MayLogIn(c: Config, l: Log, email: string, password: string) {
    && email in l.passwords && l.passwords[email] == password
    && (c.verificationRequired ==> email in l.verified)
  }

  /** A session of the one user whom all sessions of this email, and of no other email, are opened for. */
  ghost predicate OpenedFor(l: Log, email: string, session: S.Outcome) {
    && session.Issued?
    && session.access == S.Access(session.refresh.sub, Some(session.refresh.sid))
    && (email in l.ids ==> session.access.sub == l.ids[email])
    && (forall other | other in l.ids && other != email :: session.access.sub != l.ids[other])
  }

  ghost predicate RegisterSays(c: Config, l: Log, email: string, raws: seq<nat>, out: Outcome) {
    if email in l.passwords then out == EmailTaken
    else if !c.verificationRequired then
      out.Registered? && out.verification.None? && out.issued.Some? && OpenedFor(l, email, out.issued.value)
    else if raws == [] || raws[0] in l.verifications then out == NoFreeToken
    else out == Registered(Some(raws[0]), None)
  }

  ghost predicate LoginSays(c: Config, l: Log, locked: bool, email: string, password: string, out: Outcome) {
    if locked then out == LoginLocked
    else if MayLogIn(c, l, email, password) then out.LoggedIn? && OpenedFor(l, email, out.session)
    else out == InvalidCredentials
  }

  predicate RequestSays(l: Log, email: string, raws: seq<nat>, out: Outcome) {
    if email !in l.passwords then out == UnknownEmail
    else if raws == [] || raws[0] in l.resets then out == NoFreeToken
    else out == ResetIssued(raws[0])
  }

  ghost predicate Says(c: Config, l: Log, locked: bool, op: Op, out: Outcome) {
    match op
    case Register(email, _, raws) => RegisterSays(c, l, email, raws, out)
    case Login(email, password, _) => LoginSays(c, l, locked, email, password, out)
    case VerifyEmail(raw) => out == TokenAnswer(l.verifications, raw, l.now, Verified)
    case RequestReset(email, raws) => RequestSays(l, email, raws, out)
    case ResetPassword(raw, _) => out == TokenAnswer(l.resets, raw, l.now, PasswordChanged)
    case OnSession(_) => out.Session?
  }

  /** The lockout guard finds a running lock. */
  predicate Locks(s: State, email: string, ip: string) {
    (email, SanitizeIp(ip)) in s.attempts && L.IsLocked(s.attempts[(email, SanitizeIp(ip))], s.core.now)
  }

  predicate LockedOut(s: State, op: Op) { op.Login? && Locks(s, op.email, op.ip) }

  // ---------------------------------------------------------------- the log is right

  ghost predicate SlipsAgree(s: State, table: TokenTable, slips: Slips) {
    && table.Keys == slips.Keys
    && (forall raw | raw in slips ::
          && slips[raw].email in s.byEmail && s.byEmail[slips[raw].email] == table[raw].userId
          && slips[raw].expiresAt == table[raw].expiresAt
          && (slips[raw].open <==> table[raw].usedAt.None?))
  }

  ghost predicate UsersAgree(c: Config, s: State, l: Log)
    requires UsersInv(c, s)
  {
    && s.byEmail.Keys == l.passwords.Keys
    && (forall e | e in s.byEmail ::
          && s.users[s.byEmail[e]].password == l.passwords[e]
          && (c.verificationRequired ==> (e in l.verified <==> s.users[s.byEmail[e]].verifiedAt.Some?)))
    && (forall e | e in l.ids :: e in s.byEmail && l.ids[e] == s.byEmail[e])
    && l.verified <= l.passwords.Keys
  }

  ghost predicate Agrees(c: Config, s: State, l: Log)
    requires UsersInv(c, s)
  {
    && l.now == s.core.now && UsersAgree(c, s, l)
    && SlipsAgree(s, s.resets, l.resets) && SlipsAgree(s, s.verifications, l.verifications)
  }

  lemma ClosedAgrees(c: Config, s: State, table: TokenTable, slips: Slips, email: string, now: int)
    requires UsersInv(c, s) && SlipsAgree(s, table, slips) && email in s.byEmail
    ensures SlipsAgree(s, UseAll(table, s.byEmail[email], now), Closed(slips, email))
  {
    forall raw | raw in slips ensures table[raw].userId == s.byEmail[email] <==> slips[raw].email == email {
      assert s.users[s.byEmail[slips[raw].email]].email == slips[raw].email;
    }
  }

  lemma HandedAgrees(c: Config, s: State, table: TokenTable, slips: Slips, email: string, ttl: nat, now: int, raws: seq<nat>)
    requires UsersInv(c, s) && SlipsAgree(s, table, slips) && email in s.byEmail
    requires Issue(table, s.byEmail[email], now, ttl, raws).Some?
    ensures var (t, raw) := Issue(table, s.byEmail[email], now, ttl, raws).value;
            SlipsAgree(s, t, Handed(slips, email, raw, now + ttl))
  {
    ClosedAgrees(c, s, table, slips, email, now);
  }

  /** Using one token of an email and then the rest is closing them all. */
  lemma UsedAgrees(c: Config, s: State, table: TokenTable, slips: Slips, raw: nat, now: int)
    requires UsersInv(c, s) && SlipsAgree(s, table, slips) && raw in slips
    ensures raw in table && SlipsAgree(s, Use(table, raw, now), Shut(slips, raw))
    ensures SlipsAgree(s, UseAll(Use(table, raw, now), table[raw].userId, now), Closed(slips, slips[raw].email))
  {
    hide UsersInv;
    hide UseAll;
    var one := Use(table, raw, now);
    assert SlipsAgree(s, one, Shut(slips, raw));
    assert Closed(Shut(slips, raw), slips[raw].email) == Closed(slips, slips[raw].email);
    ClosedAgrees(c, s, one, Shut(slips, raw), slips[raw].email, now);
  }

  /** Slips are read through the unique index on emails, which only grows. */
  lemma FrameAgrees(s: State, t: State, table: TokenTable, slips: Slips)
    requires SlipsAgree(s, table, slips) && forall e | e in s.byEmail :: e in t.byEmail && t.byEmail[e] == s.byEmail[e]
    ensures SlipsAgree(t, table, slips)
  {}

  lemma OpenIs(c: Config, s: State, user: Uid)
    ensures var (t, out) := Open(c, s, user);
            && t == s.(core := t.core) && t.core.now == s.core.now
            && out.Issued? && out.access == S.Access(user, Some(out.refresh.sid)) && out.refresh.sub == user
  {}

  /** A session opened for the user of an email is noted as such. */
  lemma SessionAgrees(c: Config, s: State, t: State, l: Log, email: string, session: S.Outcome)
    requires UsersInv(c, s) && UsersInv(c, t) && UsersAgree(c, s, l) && email in s.byEmail
    requires t.byEmail == s.byEmail && t.users == s.users
    requires session.Issued? && session.access == S.Access(s.byEmail[email], Some(session.refresh.sid))
    requires session.refresh.sub == s.byEmail[email]
    ensures OpenedFor(l, email, session) && UsersAgree(c, t, l.(ids := Met(l.ids, email, session)))
  {
    forall other | other in l.ids && other != email ensures session.access.sub != l.ids[other] {
      assert s.users[s.byEmail[other]].email == other && s.users[s.byEmail[email]].email == email;
    }
  }

  lemma LoginAgrees(c: Config, s: State, l: Log, email: string, password: string, ip: string)
    requires UsersInv(c, s) && Agrees(c, s, l)
    ensures var (t, out) := LoginStep(c, s, email, password, ip);
            var m := if out.LoggedIn? then l.(ids := Met(l.ids, email, out.session)) else l;
            UsersInv(c, t) && Agrees(c, t, m) && LoginSays(c, l, Locks(s, email, ip), email, password, out)
  {
    hide UsersInv;
    hide UsersAgree;
    hide SlipsAgree;
    hide OpenedFor;
    hide Open;
    hide Met;
    hide L.FailureRow;
    hide SanitizeIp;
    var (t, out) := LoginStep(c, s, email, password, ip);
    CredentialsAgree(c, s, l, email, password);
    hide CredentialsPass;
    hide MayLogIn;
    if out.LoggedIn? {
      var key := (email, SanitizeIp(ip));
      var s1 := s.(attempts := L.Step(c.policy, s.attempts, L.Login(key, s.core.now, CredentialsPass(c, s, email, password))).0);
      OpenIs(c, s1, s.byEmail[email]);
      SameUsers(c, s, t, l, l);
      SessionAgrees(c, s, t, l, email, out.session);
    } else {
      SameUsers(c, s, t, l, l);
    }
    FrameAgrees(s, t, s.resets, l.resets);
    FrameAgrees(s, t, s.verifications, l.verifications);
  }

  lemma CredentialsAgree(c: Config, s: State, l: Log, email: string, password: string)
    requires UsersInv(c, s) && UsersAgree(c, s, l)
    ensures CredentialsPass(c, s, email, password) <==> MayLogIn(c, l, email, password)
    ensures CredentialsPass(c, s, email, password) ==> email in s.byEmail
  {}

  /** A new user row, under an email that had none. */
  lemma NewRowAgrees(c: Config, s: State, t: State, l: Log, m: Log, email: string, row: User)
    requires UsersInv(c, s) && UsersAgree(c, s, l) && email !in s.byEmail && row.email == email
    requires t.users == s.users[s.nextUid := row] && t.byEmail == s.byEmail[email := s.nextUid] && t.nextUid == s.nextUid + 1
    requires row.verifiedAt.Some? == !c.verificationRequired
    requires m.ids == l.ids && m.verified == l.verified && m.passwords == l.passwords[email := row.password]
    ensures UsersInv(c, t) && UsersAgree(c, t, m)
  {
    assert s.nextUid !in s.users;
  }

  lemma EmailsAgree(c: Config, s: State, l: Log)
    requires UsersInv(c, s) && UsersAgree(c, s, l)
    ensures s.byEmail.Keys == l.passwords.Keys
  {}

  lemma RegisterUnverified(c: Config, s: State, l: Log, email: string, password: string, raws: seq<nat>)
    requires UsersInv(c, s) && Agrees(c, s, l) && c.verificationRequired
    ensures var (t, out) := RegisterStep(c, s, email, password, raws);
            UsersInv(c, t) && Agrees(c, t, NoteRegister(c, l, email, password, out)) && RegisterSays(c, l, email, raws, out)
  {
    hide Issue;
    hide Handed;
    hide SlipsAgree;
    hide UsersAgree;
    hide UsersInv;
    var (t, out) := RegisterStep(c, s, email, password, raws);
    EmailsAgree(c, s, l);
    IssuedExactlyWhen(s.verifications, s.nextUid, s.core.now, c.verificationTtl, raws);
    KeysAgree(s, s.verifications, l.verifications);
    if out.Registered? {
      NewRowAgrees(c, s, t, l, NoteRegister(c, l, email, password, out), email, User(email, password, None));
      FrameAgrees(s, t, s.resets, l.resets);
      FrameAgrees(s, t, s.verifications, l.verifications);
      HandedAgrees(c, t, s.verifications, l.verifications, email, c.verificationTtl, s.core.now, raws);
    }
  }

  lemma KeysAgree(s: State, table: TokenTable, slips: Slips)
    requires SlipsAgree(s, table, slips)
    ensures table.Keys == slips.Keys
    ensures forall raw | raw in slips :: (slips[raw].open <==> Unused(table, raw)) && slips[raw].expiresAt == table[raw].expiresAt
    ensures forall raw | raw in slips :: slips[raw].email in s.byEmail && table[raw].userId == s.byEmail[slips[raw].email]
  {}

  lemma RegisterVerified(c: Config, s: State, l: Log, email: string, password: string, raws: seq<nat>)
    requires UsersInv(c, s) && Agrees(c, s, l) && !c.verificationRequired
    ensures var (t, out) := RegisterStep(c, s, email, password, raws);
            UsersInv(c, t) && Agrees(c, t, NoteRegister(c, l, email, password, out)) && RegisterSays(c, l, email, raws, out)
  {
    hide OpenedFor;
    hide Open;
    hide SlipsAgree;
    hide Met;
    hide UsersAgree;
    hide UsersInv;
    var (t, out) := RegisterStep(c, s, email, password, raws);
    EmailsAgree(c, s, l);
    if email !in s.byEmail {
      var row := User(email, password, Some(s.core.now));
      var s1 := s.(nextUid := s.nextUid + 1, users := s.users[s.nextUid := row], byEmail := s.byEmail[email := s.nextUid]);
      var m := l.(passwords := l.passwords[email := password]);
      OpenIs(c, s1, s.nextUid);
      NewRowAgrees(c, s, s1, l, m, email, row);
      NewRowAgrees(c, s, t, l, m, email, row);
      FrameAgrees(s, t, s.resets, l.resets);
      FrameAgrees(s, t, s.verifications, l.verifications);
      SessionAgrees(c, s1, t, m, email, out.issued.value);
      NotYetMet(l, m, email, out.issued.value);
    }
  }

  lemma NotYetMet(l: Log, m: Log, email: string, session: S.Outcome)
    requires l.ids == m.ids && OpenedFor(m, email, session)
    ensures OpenedFor(l, email, session)
  {}

  /** A write to the user row of one email. */
  lemma RowAgrees(c: Config, s: State, t: State, l: Log, m: Log, email: string, row: User)
    requires UsersInv(c, s) && UsersAgree(c, s, l) && email in s.byEmail
    requires t.users == s.users[s.byEmail[email] := row] && t.byEmail == s.byEmail && t.nextUid == s.nextUid
    requires row.email == email && (s.users[s.byEmail[email]].verifiedAt.Some? ==> row.verifiedAt.Some?)
    requires m.ids == l.ids && m.passwords == l.passwords[email := row.password]
    requires m.verified == l.verified || m.verified == l.verified + {email}
    requires c.verificationRequired ==> (email in m.verified <==> row.verifiedAt.Some?)
    ensures UsersInv(c, t) && UsersAgree(c, t, m)
  {
    forall e | e in s.byEmail && e != email ensures s.byEmail[e] != s.byEmail[email] {
      assert s.users[s.byEmail[e]].email == e && s.users[s.byEmail[email]].email == email;
    }
  }

  /** A token refused or found expired changes no user. */
  lemma VerifyRefusedAgrees(c: Config, s: State, l: Log, raw: nat)
    requires UsersInv(c, s) && Agrees(c, s, l) && VerifyStep(s, raw).1 != Verified
    ensures var (t, out) := VerifyStep(s, raw);
            && UsersInv(c, t) && Agrees(c, t, NoteVerify(l, raw, out)) && out == TokenAnswer(l.verifications, raw, l.now, Verified)
  {
    hide UsersAgree;
    hide SlipsAgree;
    hide Use;
    hide Shut;
    hide UsersInv;
    var (t, out) := VerifyStep(s, raw);
    var m := NoteVerify(l, raw, out);
    KeysAgree(s, s.verifications, l.verifications);
    SameUsers(c, s, t, l, m);
    if raw in l.verifications {
      UsedAgrees(c, s, s.verifications, l.verifications, raw, s.core.now);
    }
    FrameAgrees(s, t, t.verifications, m.verifications);
    FrameAgrees(s, t, s.resets, l.resets);
  }

  lemma ResetRefusedAgrees(c: Config, s: State, l: Log, raw: nat, password: string)
    requires UsersInv(c, s) && Agrees(c, s, l) && ResetStep(s, raw, password).1 != PasswordChanged
    ensures var (t, out) := ResetStep(s, raw, password);
            && UsersInv(c, t) && Agrees(c, t, NoteReset(l, raw, password, out)) && out == TokenAnswer(l.resets, raw, l.now, PasswordChanged)
  {
    hide UsersAgree;
    hide SlipsAgree;
    hide Use;
    hide Shut;
    hide UsersInv;
    var (t, out) := ResetStep(s, raw, password);
    var m := NoteReset(l, raw, password, out);
    KeysAgree(s, s.resets, l.resets);
    SameUsers(c, s, t, l, m);
    if raw in l.resets {
      UsedAgrees(c, s, s.resets, l.resets, raw, s.core.now);
    }
    FrameAgrees(s, t, t.resets, m.resets);
    FrameAgrees(s, t, s.verifications, l.verifications);
  }

  lemma VerifiesAgrees(c: Config, s: State, l: Log, raw: nat)
    requires UsersInv(c, s) && Agrees(c, s, l) && VerifyStep(s, raw).1 == Verified
    ensures var (t, out) := VerifyStep(s, raw);
            && UsersInv(c, t) && Agrees(c, t, NoteVerify(l, raw, out)) && out == TokenAnswer(l.verifications, raw, l.now, Verified)
  {
    hide UsersInv;
    hide UsersAgree;
    hide SlipsAgree;
    hide Use;
    hide UseAll;
    hide Closed;
    KeysAgree(s, s.verifications, l.verifications);
    UsedAgrees(c, s, s.verifications, l.verifications, raw, s.core.now);
    var email, t := l.verifications[raw].email, VerifyStep(s, raw).0;
    var m, user := NoteVerify(l, raw, Verified), s.byEmail[email];
    OwnerIs(c, s, email);
    FrameAgrees(s, t, t.verifications, m.verifications);
    FrameAgrees(s, t, s.resets, l.resets);
    VerifiedRow(c, s, t, l, m, email);
  }

  lemma VerifiedRow(c: Config, s: State, t: State, l: Log, m: Log, email: string)
    requires UsersInv(c, s) && UsersAgree(c, s, l) && email in s.byEmail && s.byEmail[email] in s.users
    requires var user := s.byEmail[email];
             t.users == if s.users[user].verifiedAt.None?
                        then s.users[user := s.users[user].(verifiedAt := Some(s.core.now))] else s.users
    requires t.byEmail == s.byEmail && t.nextUid == s.nextUid
    requires m.passwords == l.passwords && m.ids == l.ids && m.verified == l.verified + {email}
    ensures UsersInv(c, t) && UsersAgree(c, t, m)
  {
    var user := s.byEmail[email];
    var row := t.users[user];
    assert t.users == s.users[user := row];
    PasswordIs(c, s, l, email);
    assert m.passwords == l.passwords[email := row.password];
    OwnerIs(c, s, email);
    hide UsersInv;
    hide UsersAgree;
    RowAgrees(c, s, t, l, m, email, row);
  }

  lemma OwnerIs(c: Config, s: State, email: string)
    requires UsersInv(c, s) && email in s.byEmail
    ensures s.byEmail[email] in s.users && s.users[s.byEmail[email]].email == email
  {}

  lemma PasswordIs(c: Config, s: State, l: Log, email: string)
    requires UsersInv(c, s) && UsersAgree(c, s, l) && email in s.byEmail
    ensures email in l.passwords && s.users[s.byEmail[email]].password == l.passwords[email]
  {}

  lemma RequestResetAgrees(c: Config, s: State, l: Log, email: string, raws: seq<nat>)
    requires UsersInv(c, s) && Agrees(c, s, l)
    ensures var (t, out) := RequestResetStep(c, s, email, raws);
            var m := if out.ResetIssued? then l.(resets := Handed(l.resets, email, out.raw, l.now + c.resetTtl)) else l;
            UsersInv(c, t) && Agrees(c, t, m) && RequestSays(l, email, raws, out)
  {
    hide SlipsAgree;
    hide Issue;
    hide Handed;
    KeysAgree(s, s.resets, l.resets);
    var (t, out) := RequestResetStep(c, s, email, raws);
    if email in s.byEmail {
      IssuedExactlyWhen(s.resets, s.byEmail[email], s.core.now, c.resetTtl, raws);
      if raws != [] && raws[0] !in s.resets {
        HandedAgrees(c, s, s.resets, l.resets, email, c.resetTtl, s.core.now, raws);
      }
    }
    FrameAgrees(s, t, s.verifications, l.verifications);
    FrameAgrees(s, t, t.resets, if out.ResetIssued? then Handed(l.resets, email, out.raw, l.now + c.resetTtl) else l.resets);
  }

  lemma ResetsAgrees(c: Config, s: State, l: Log, raw: nat, password: string)
    requires UsersInv(c, s) && Agrees(c, s, l) && ResetStep(s, raw, password).1 == PasswordChanged
    ensures var (t, out) := ResetStep(s, raw, password);
            && UsersInv(c, t) && Agrees(c, t, NoteReset(l, raw, password, out))
            && out == TokenAnswer(l.resets, raw, l.now, PasswordChanged)
  {
    hide UsersInv;
    hide UsersAgree;
    hide SlipsAgree;
    hide Use;
    hide UseAll;
    hide Closed;
    KeysAgree(s, s.resets, l.resets);
    UsedAgrees(c, s, s.resets, l.resets, raw, s.core.now);
    var email, t := l.resets[raw].email, ResetStep(s, raw, password).0;
    var m := NoteReset(l, raw, password, PasswordChanged);
    VerifiedIs(c, s, l, email);
    OwnerIs(c, s, email);
    FrameAgrees(s, t, t.resets, m.resets);
    FrameAgrees(s, t, s.verifications, l.verifications);
    RowAgrees(c, s, t, l, m, email, t.users[s.byEmail[email]]);
  }

  lemma VerifiedIs(c: Config, s: State, l: Log, email: string)
    requires UsersInv(c, s) && UsersAgree(c, s, l) && email in s.byEmail
    ensures c.verificationRequired ==> (email in l.verified <==> s.users[s.byEmail[email]].verifiedAt.Some?)
  {}

  lemma SessionCallAgrees(c: Config, s: State, l: Log, call: SessionCall)
    requires UsersInv(c, s) && Agrees(c, s, l)
    ensures var op := OnSession(call);
            var (t, out) := Step(c, s, op);
            UsersInv(c, t) && Agrees(c, t, Note(c, l, op, out)) && out.Session?
  {
    hide SlipsAgree;
    hide UsersAgree;
    hide UsersInv;
    var (t, out) := Step(c, s, OnSession(call));
    assert t == s.(core := t.core);
    assert t.core.now == Note(c, l, OnSession(call), out).now;
    FrameAgrees(s, t, s.resets, l.resets);
    FrameAgrees(s, t, s.verifications, l.verifications);
    SameUsers(c, s, t, l, Note(c, l, OnSession(call), out));
  }

  lemma SameUsers(c: Config, s: State, t: State, l: Log, m: Log)
    requires UsersInv(c, s) && UsersAgree(c, s, l)
    requires m.passwords == l.passwords && m.verified == l.verified && m.ids == l.ids
    requires t.users == s.users && t.byEmail == s.byEmail && t.nextUid == s.nextUid
    ensures UsersInv(c, t) && UsersAgree(c, t, m)
  {}

  /** Each answer is what the log says, and the log noted with it is right again. */
  lemma StepAgrees(c: Config, s: State, l: Log, op: Op)
    requires Inv(c, s) && Agrees(c, s, l)
    ensures var (t, out) := Step(c, s, op);
            Inv(c, t) && Agrees(c, t, Note(c, l, op, out)) && Says(c, l, LockedOut(s, op), op, out)
  {
    hide AuthSessions.Inv;
    hide RegisterStep;
    hide LoginStep;
    hide VerifyStep;
    hide RequestResetStep;
    hide ResetStep;
    hide NoteRegister;
    hide NoteVerify;
    hide NoteReset;
    hide RegisterSays;
    hide LoginSays;
    hide RequestSays;
    hide TokenAnswer;
    hide Locks;
    hide Handed;
    hide Met;
    hide Agrees;
    hide UsersInv;
    StepKeepsInv(c, s, op);
    match op
    case Register(email, password, raws) =>
      if c.verificationRequired { RegisterUnverified(c, s, l, email, password, raws); }
      else { RegisterVerified(c, s, l, email, password, raws); }
    case Login(email, password, ip) => LoginAgrees(c, s, l, email, password, ip);
    case VerifyEmail(raw) =>
      if VerifyStep(s, raw).1 == Verified { VerifiesAgrees(c, s, l, raw); } else { VerifyRefusedAgrees(c, s, l, raw); }
    case RequestReset(email, raws) => RequestResetAgrees(c, s, l, email, raws);
    case ResetPassword(raw, password) =>
      if ResetStep(s, raw, password).1 == PasswordChanged { ResetsAgrees(c, s, l, raw, password); } else { ResetRefusedAgrees(c, s, l, raw, password); }
    case OnSession(call) =>
      SessionCallAgrees(c, s, l, call);
  }

  lemma {:induction false} RunAgrees(c: Config, s: State, l: Log, ops: seq<Op>)
    requires Inv(c, s) && Agrees(c, s, l)
    ensures Inv(c, Run(c, s, ops)) && Agrees(c, Run(c, s, ops), Kept(c, s, l, ops))
    decreases |ops|
  {
    if ops != [] {
      StepAgrees(c, s, l, ops[0]);
      RunAgrees(c, Step(c, s, ops[0]).0, Note(c, l, ops[0], Step(c, s, ops[0]).1), ops[1..]);
    }
  }

  /** After every run of whole calls from the empty database, every answer is what the calls and answers before it
      say. */
  lemma EveryAnswer(c: Config, before: seq<Op>, op: Op)
    ensures var s := Run(c, INIT, before);
            Says(c, Kept(c, INIT, BLANK, before), LockedOut(s, op), op, Step(c, s, op).1)
  {
    InitInv(c);
    RunAgrees(c, INIT, BLANK, before);
    StepAgrees(c, Run(c, INIT, before), Kept(c, INIT, BLANK, before), op);
  }

  /** A login that no lock refuses succeeds exactly with the password last set for the email, and, where verification
      is required, once one of its verification tokens has been answered. */
  lemma LogsInExactly(c: Config, before: seq<Op>, email: string, password: string, ip: string)
    ensures var s, l := Run(c, INIT, before), Kept(c, INIT, BLANK, before);
            var out := Step(c, s, Login(email, password, ip)).1;
            !LockedOut(s, Login(email, password, ip)) ==>
              && (out.LoggedIn? <==>
                    && email in l.passwords && l.passwords[email] == password
                    && (c.verificationRequired ==> email in l.verified))
              && (!out.LoggedIn? ==> out == InvalidCredentials)
  {
    EveryAnswer(c, before, Login(email, password, ip));
  }

  /** And a lock refuses it exactly while the streak of the (email, IP) it comes from is full and running out. */
  lemma LocksExactly(c: Config, before: seq<Op>, email: string, ip: string)
    requires L.Usable(c.policy)
    ensures var streaks := LS.Kept(c.policy, map[], map[], LoginCalls(c, INIT, before));
            Locks(Run(c, INIT, before), email, ip)
            <==> LS.Out(c.policy, streaks, (email, SanitizeIp(ip)), Run(c, INIT, before).core.now)
  {
    var key, now := (email, SanitizeIp(ip)), Run(c, INIT, before).core.now;
    LockoutRun(c, INIT, before, key);
    LS.EveryAnswer(c.policy, map[], map[], LoginCalls(c, INIT, before), L.Login(key, now, true));
  }

  /** An address stands for itself up to its first 128 characters, an absent one for "unknown". */
  lemma AddressesAreCut(a: string, b: string)
    ensures a != "" && b != "" ==>
              (SanitizeIp(a) == SanitizeIp(b) <==>
                a == b || (|a| >= 128 && |b| >= 128 && forall i | 0 <= i < 128 :: a[i] == b[i]))
    ensures SanitizeIp("") == SanitizeIp("unknown")
  {
    if a != "" && b != "" && SanitizeIp(a) == SanitizeIp(b) && a != b {
      assert |SanitizeIp(a)| == 128;
      forall i | 0 <= i < 128 ensures a[i] == b[i] {
        assert SanitizeIp(a)[i] == a[i] && SanitizeIp(b)[i] == b[i];
      }
    }
  }

  /** The session an answer hands over. */
  function Handover(out: Outcome): Option<S.Outcome> {
    match out
    case LoggedIn(session) => Some(session)
    case Registered(_, session) => session
    case _ => None
  }

  /** A session handed over by a login or a registration is good: its user exists, `requireAuth` admits its access
      token, and its refresh token gets another pair of the same user and session. */
  lemma HandoverIsGood(c: Config, before: seq<Op>, op: Op)
    requires c.session.signTtl > 0 && Handover(Step(c, Run(c, INIT, before), op).1).Some?
    ensures var (t, out) := Step(c, Run(c, INIT, before), op);
            var session := Handover(out).value;
            && session.Issued? && session.access.sub in t.users && S.Admits(t.core, session.access)
            && (var again := S.Step(c.session, t.core, S.Refresh(session.refresh)).1;
                again.Issued? && again.access == session.access && again.refresh.sub == session.refresh.sub)
  {
    hide Handover;
    var s := Run(c, INIT, before);
    var (t, out) := Step(c, s, op);
    var session, trace := Handover(out).value, CoreTrace(c, INIT, before);
    InitInv(c);
    RunKeepsInv(c, INIT, before);
    CoreRun(c, INIT, before);
    HandoverIsCreate(c, s, op);
    var call := S.Create(session.access.sub);
    SL.FreshGrantIsGood(c.session, trace, call);
    SL.GrantOpens(c.session, trace, call);
    hide Step;
    hide S.Step;
    hide Inv;
    hide S.Inv;
  }

  lemma HandoverIsCreate(c: Config, s: State, op: Op)
    requires Inv(c, s) && Handover(Step(c, s, op).1).Some?
    ensures var (t, out) := Step(c, s, op);
            var session := Handover(out).value;
            && session.Issued? && session.access.sub in t.users
            && S.Step(c.session, s.core, S.Create(session.access.sub)) == (t.core, session)
  {
    hide S.Inv;
    hide Issue;
    hide L.FailureRow;
  }
}
