/**
 `auth.service.ts`, `requireAuth.ts` and the query of `sessionCleanup.ts` statement by statement: a
 service object whose fields are the tables, and whose methods read and rewrite them in the order the
 source does. Each method is proved to be the corresponding step of `Accounts`.

 The clock reading and the random tokens of one call are fixed when the call starts.
 */
module AuthService {
  import opened Prelude
  import S = AuthSessions
  import L = Lockout
  import A = Accounts

  class Service {
    const cfg: A.Config
    var now: int
    var sessions: map<S.Sid, S.Session>
    var minted: set<S.Token>
    var nextSid: S.Sid
    var nextJti: nat
    var inflight: map<nat, S.Token>
    var attempts: L.Table
    var users: map<A.Uid, A.User>
    var byEmail: map<string, A.Uid>
    var nextUid: A.Uid
    var resets: A.TokenTable
    var verifications: A.TokenTable

    ghost function Core(): S.State
      reads this
    {
      S.State(now, nextSid, nextJti, sessions, minted, inflight)
    }

    ghost function View(): A.State
      reads this
    {
      A.State(Core(), attempts, nextUid, users, byEmail, resets, verifications)
    }

    constructor (cfg: A.Config)
      ensures this.cfg == cfg && View() == A.INIT
    {
      this.cfg := cfg;
      now, nextSid, nextJti, nextUid := 0, 0, 0, 0;
      sessions, minted, inflight, attempts := map[], {}, map[], map[];
      users, byEmail, resets, verifications := map[], map[], map[], map[];
    }

    // -------------------------------------------------------------- sessions

    method MintSessionTokens(user: A.Uid, sid: S.Sid) returns (access: S.Access, refresh: S.Token)
      modifies this`minted, this`nextJti
      ensures access == S.Access(user, Some(sid)) && refresh == S.NextToken(cfg.session, old(Core()), user, sid)
      ensures minted == old(minted) + {refresh} && nextJti == old(nextJti) + 1
    {
      access := S.Access(user, Some(sid));
      refresh := S.Token(user, sid, nextJti, now + cfg.session.signTtl);
      minted := minted + {refresh};
      nextJti := nextJti + 1;
    }

    method OpenSession(user: A.Uid) returns (out: S.Outcome)
      modifies this`minted, this`nextJti, this`nextSid, this`sessions
      ensures (View(), out) == A.Open(cfg, old(View()), user)
    {
      var sid := nextSid;
      nextSid := nextSid + 1;
      var access, refresh := MintSessionTokens(user, sid);
      sessions := sessions[sid := S.Session(user, true, Some(refresh), now)];
      out := S.Issued(access, refresh);
    }

    method Refresh(incoming: S.Token) returns (out: S.Outcome)
      modifies this`minted, this`nextJti, this`sessions
      ensures (View(), A.Session(out)) == A.Step(cfg, old(View()), A.OnSession(S.Refresh(incoming)))
    {
      if incoming !in minted {
        return S.JwtInvalid;
      }
      if incoming.exp <= now {
        sessions := S.RevokeOne(sessions, now, incoming.sid);
        return S.SessionExpired;
      }
      if incoming.sid !in sessions {
        return S.SessionInvalid;
      }
      var session := sessions[incoming.sid];
      if !session.valid {
        return S.SessionInvalid;
      }
      if session.token != Some(incoming) {
        sessions := S.RevokeUser(sessions, now, session.userId);
        return S.Reuse;
      }
      var access, refresh := MintSessionTokens(incoming.sub, incoming.sid);
      sessions := sessions[incoming.sid := sessions[incoming.sid].(token := Some(refresh), updatedAt := now)];
      out := S.Issued(access, refresh);
    }

    method Logout(incoming: S.Token)
      modifies this`sessions
      ensures View() == A.Step(cfg, old(View()), A.OnSession(S.Logout(incoming))).0
    {
      // A forged or expired token, and a row that is no longer there, are both ignored.
      if incoming in minted && now < incoming.exp && incoming.sid in sessions {
        sessions := sessions[incoming.sid := sessions[incoming.sid].(valid := false, token := None, updatedAt := now)];
      }
    }

    method LogoutAll(user: A.Uid) returns (count: nat)
      modifies this`sessions
      ensures (View(), A.Session(S.Revoked(count))) == A.Step(cfg, old(View()), A.OnSession(S.LogoutAll(user)))
      ensures sessions.Keys == old(sessions).Keys
      ensures forall sid | sid in sessions ::
                if old(sessions)[sid].userId == user then !sessions[sid].valid && sessions[sid].token.None?
                else sessions[sid] == old(sessions)[sid]
      ensures count == |S.OwnedBy(old(sessions), user)|
    {
      count := |S.OwnedBy(sessions, user)|;
      sessions := S.RevokeUser(sessions, now, user);
    }

    method CleanupExpiredSessions() returns (count: nat)
      modifies this`sessions
      ensures sessions == S.Sweep(cfg.session, old(Core())).sessions
      ensures View() == A.Step(cfg, old(View()), A.OnSession(S.Cleanup)).0
      ensures count == |old(sessions).Keys - sessions.Keys|
    {
      var doomed := set sid | sid in sessions && !sessions[sid].valid;
      if cfg.session.cleanupTtl.Some? && cfg.session.cleanupTtl.value > 0 {
        var updatedBefore := now - cfg.session.cleanupTtl.value;
        doomed := set sid | sid in sessions && (!sessions[sid].valid || sessions[sid].updatedAt <= updatedBefore);
      }
      assert forall sid | sid in sessions :: sid in doomed <==> S.Sweepable(cfg.session, now, sessions[sid]);
      hide S.Sweepable;
      assert doomed <= sessions.Keys;
      assert sessions.Keys - (sessions - doomed).Keys == doomed;
      sessions := sessions - doomed;
      count := |doomed|;
    }

    /** The checks of `requireAuth` for a verified access token. */
    method RequireAuth(access: S.Access) returns (admitted: bool)
      ensures admitted <==> access.sub in users && S.Admits(Core(), access)
    {
      if access.sub !in users {
        return false;
      }
      if access.sid.Some? {
        if access.sid.value !in sessions || sessions[access.sid.value].userId != access.sub {
          return false;
        }
        if !sessions[access.sid.value].valid {
          return false;
        }
      }
      return true;
    }

    // -------------------------------------------------------------- lockout

    method EnsureLoginNotLocked(key: L.Key) returns (ok: bool)
      modifies this`attempts
      ensures ok <==> !(key in old(attempts) && L.IsLocked(old(attempts)[key], now))
      ensures attempts == if ok then L.Guarded(cfg.policy, old(attempts), key, now) else old(attempts)
    {
      if key !in attempts {
        return true;
      }
      var attempt := attempts[key];
      if attempt.lockedUntil.Some? && attempt.lockedUntil.value > now {
        return false;
      }
      if attempt.lockedUntil.Some? || now - attempt.lastFailedAt > cfg.policy.windowMs {
        attempts := attempts - {key};
      }
      return true;
    }

    method RecordLoginFailure(key: L.Key)
      modifies this`attempts
      ensures attempts == old(attempts)[key := L.FailureRow(cfg.policy, L.Lookup(old(attempts), key), now)]
    {
      var within := key in attempts && now - attempts[key].lastFailedAt <= cfg.policy.windowMs;
      var failCount := if within then attempts[key].failCount + 1 else 1;
      var lockedUntil := None;
      if failCount >= cfg.policy.maxAttempts {
        lockedUntil := Some(now + cfg.policy.lockoutMs);
      }
      if key !in attempts {
        attempts := attempts[key := L.Attempt(failCount, now, now, lockedUntil)];
        return;
      }
      var attempt := attempts[key];
      if !within || attempt.lockedUntil.Some? {
        attempt := attempt.(failCount := 1, firstFailedAt := now, lastFailedAt := now, lockedUntil := lockedUntil);
      } else {
        attempt := attempt.(failCount := failCount, lastFailedAt := now, lockedUntil := lockedUntil);
      }
      attempts := attempts[key := attempt];
    }

    method Login(email: string, password: string, ip: string) returns (out: A.Outcome)
      modifies this
      ensures (View(), out) == A.Step(cfg, old(View()), A.Login(email, password, ip))
    {
      var key := (email, A.SanitizeIp(ip));
      var ok := EnsureLoginNotLocked(key);
      if !ok {
        return A.LoginLocked;
      }
      if email !in byEmail || byEmail[email] !in users {
        RecordLoginFailure(key);
        return A.InvalidCredentials;
      }
      var user := users[byEmail[email]];
      if user.password != password || (cfg.verificationRequired && user.verifiedAt.None?) {
        RecordLoginFailure(key);
        return A.InvalidCredentials;
      }
      attempts := attempts - {key};
      var issued := OpenSession(byEmail[email]);
      out := A.LoggedIn(issued);
    }

    // -------------------------------------------------------------- one-time tokens

    /** The retry loop shared by both kinds of token, inside the caller's transaction: `aborted` once a create has
        failed. */
    static method CreateToken(table: A.TokenTable, user: A.Uid, now: int, ttl: nat, raws: seq<nat>)
      returns (issued: Option<(A.TokenTable, nat)>)
      ensures issued == A.Issue(table, user, now, ttl, raws)
      ensures issued.Some? <==> raws != [] && raws[0] !in table
    {
      A.IssuedExactlyWhen(table, user, now, ttl, raws);
      var cleared := A.UseAll(table, user, now);
      var attempt, aborted := 0, false;
      while attempt < A.TOKEN_ATTEMPTS && attempt < |raws|
        invariant attempt <= |raws| && attempt <= A.TOKEN_ATTEMPTS
        invariant A.FirstFree(cleared, raws, A.TOKEN_ATTEMPTS, false)
                  == A.FirstFree(cleared, raws[attempt..], A.TOKEN_ATTEMPTS - attempt, aborted)
      {
        if aborted {
          return None;
        }
        if raws[attempt] !in cleared {
          return Some((cleared[raws[attempt] := A.OneTime(user, now + ttl, None)], raws[attempt]));
        }
        aborted := true;
        attempt := attempt + 1;
      }
      return None;
    }

    method Register(email: string, password: string, raws: seq<nat>) returns (out: A.Outcome)
      modifies this
      ensures (View(), out) == A.Step(cfg, old(View()), A.Register(email, password, raws))
    {
      if email in byEmail {
        return A.EmailTaken;
      }
      var user := nextUid;
      if cfg.verificationRequired {
        var issued := CreateToken(verifications, user, now, cfg.verificationTtl, raws);
        if issued.None? {
          return A.NoFreeToken;
        }
        verifications := issued.value.0;
        users := users[user := A.User(email, password, None)];
        out := A.Registered(Some(issued.value.1), None);
      } else {
        users := users[user := A.User(email, password, Some(now))];
        var session := OpenSession(user);
        out := A.Registered(None, Some(session));
      }
      byEmail := byEmail[email := user];
      nextUid := nextUid + 1;
    }

    method VerifyEmail(raw: nat) returns (out: A.Outcome)
      modifies this`verifications, this`users
      ensures (View(), out) == A.Step(cfg, old(View()), A.VerifyEmail(raw))
    {
      if raw !in verifications || verifications[raw].usedAt.Some? {
        return A.TokenInvalid;
      }
      var record := verifications[raw];
      if record.expiresAt <= now {
        verifications := A.Use(verifications, raw, now);
        return A.TokenExpired;
      }
      if record.userId in users && users[record.userId].verifiedAt.None? {
        users := users[record.userId := users[record.userId].(verifiedAt := Some(now))];
      }
      verifications := A.Use(verifications, raw, now);
      verifications := A.UseAll(verifications, record.userId, now);
      out := A.Verified;
    }

    method RequestPasswordReset(email: string, raws: seq<nat>) returns (out: A.Outcome)
      modifies this`resets
      ensures (View(), out) == A.Step(cfg, old(View()), A.RequestReset(email, raws))
    {
      if email !in byEmail {
        return A.UnknownEmail;
      }
      var issued := CreateToken(resets, byEmail[email], now, cfg.resetTtl, raws);
      if issued.None? {
        return A.NoFreeToken;
      }
      resets := issued.value.0;
      out := A.ResetIssued(issued.value.1);
    }

    method ResetPassword(raw: nat, password: string) returns (out: A.Outcome)
      modifies this`resets, this`users, this`sessions
      ensures (View(), out) == A.Step(cfg, old(View()), A.ResetPassword(raw, password))
    {
      if raw !in resets || resets[raw].usedAt.Some? {
        return A.TokenInvalid;
      }
      var record := resets[raw];
      if record.expiresAt <= now {
        resets := A.Use(resets, raw, now);
        return A.TokenExpired;
      }
      resets := A.Use(resets, raw, now);
      resets := A.UseAll(resets, record.userId, now);
      if record.userId in users {
        users := users[record.userId := users[record.userId].(password := password)];
      }
      sessions := S.RevokeUser(sessions, now, record.userId);
      out := A.PasswordChanged;
    }
  }
}
