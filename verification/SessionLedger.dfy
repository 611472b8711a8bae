/**
 What the session calls grant, in terms of their own answers.

 A ledger is kept from the calls and their answers alone: the clock, every refresh token answered so far, and for
 each session that nothing has ended since, its last token and when that was answered. Every answer of refresh and
 of `requireAuth`, in every interleaved run, is what the ledger says.
 */
module SessionLedger {
  import opened Prelude
  import opened AuthSessions

  datatype Entry = Entry(token: Token, at: int)

  datatype Ledger = Ledger(now: int, issued: set<Token>, open: map<Sid, Entry>)

  const BLANK := Ledger(0, {}, map[])

  /** The sessions a call ends, given its answer. */
  predicate Ends(c: Config, l: Ledger, op: Op, out: Outcome, sid: Sid)
    requires sid in l.open
  {
    match op
    case Logout(tok) => tok in l.issued && l.now < tok.exp && tok.sid == sid
    case LogoutAll(user) => l.open[sid].token.sub == user
    case Cleanup => c.cleanupTtl.Some? && c.cleanupTtl.value > 0 && l.open[sid].at <= l.now - c.cleanupTtl.value
    case Refresh(tok) => (out == SessionExpired && tok.sid == sid) || (out == Reuse && tok.sub == l.open[sid].token.sub)
    case RefreshRead(_, tok) => (out == SessionExpired && tok.sid == sid) || (out == Reuse && tok.sub == l.open[sid].token.sub)
    case _ => false
  }

  /** A token answered opens its session, or moves it on; one answered to a write under way opens none. */
  function Note(c: Config, l: Ledger, op: Op, out: Outcome): Ledger {
    var kept := map sid | sid in l.open && !Ends(c, l, op, out, sid) :: l.open[sid];
    Ledger(
      if op.Tick? then l.now + op.ms else l.now,
      if out.Issued? then l.issued + {out.refresh} else l.issued,
      if out.Issued? && (op.RefreshWrite? ==> out.refresh.sid in kept)
      then kept[out.refresh.sid := Entry(out.refresh, l.now)] else kept)
  }

  function Kept(c: Config, s: State, l: Ledger, ops: seq<Op>): Ledger
    decreases |ops|
  {
    if ops == [] then l else Kept(c, Step(c, s, ops[0]).0, Note(c, l, ops[0], Step(c, s, ops[0]).1), ops[1..])
  }

  lemma {:induction false} KeptAppend(c: Config, s: State, l: Ledger, xs: seq<Op>, ys: seq<Op>)
    ensures Kept(c, s, l, xs + ys) == Kept(c, Run(c, s, xs), Kept(c, s, l, xs), ys)
    decreases |xs|
  {
    if xs == [] {
      assert xs + ys == ys;
    } else {
      assert (xs + ys)[1..] == xs[1..] + ys;
      KeptAppend(c, Step(c, s, xs[0]).0, Note(c, l, xs[0], Step(c, s, xs[0]).1), xs[1..], ys);
    }
  }

  // ---------------------------------------------------------------- the ledger is right

  ghost predicate Tallies(s: State, l: Ledger) {
    && l.now == s.now && l.issued == s.minted
    && (forall sid :: sid in l.open <==> sid in s.sessions && s.sessions[sid].valid)
    && (forall sid | sid in l.open :: Some(l.open[sid].token) == s.sessions[sid].token && l.open[sid].at == s.sessions[sid].updatedAt)
  }

  /** Calls that answer no token: the sessions still valid are those the ledger keeps. */
  lemma EndingTallies(c: Config, s: State, l: Ledger, op: Op, out: Outcome, t: State)
    requires Tallies(s, l) && !out.Issued? && !op.Tick? && t.now == s.now && t.minted == s.minted
    requires forall sid | sid in t.sessions && t.sessions[sid].valid :: sid in s.sessions && s.sessions[sid].valid
    requires forall sid | sid in l.open ::
               if Ends(c, l, op, out, sid) then sid !in t.sessions || !t.sessions[sid].valid
               else sid in t.sessions && t.sessions[sid] == s.sessions[sid]
    ensures Tallies(t, Note(c, l, op, out))
  {
    NoteKeeps(c, l, op, out);
    hide Note;
    hide Ends;
  }

  lemma NoteKeeps(c: Config, l: Ledger, op: Op, out: Outcome)
    requires !out.Issued? && !op.Tick?
    ensures var n := Note(c, l, op, out);
            && n.now == l.now && n.issued == l.issued
            && (forall sid | sid in n.open :: sid in l.open && n.open[sid] == l.open[sid])
            && (forall sid | sid in l.open :: sid in n.open <==> !Ends(c, l, op, out, sid))
  {
    hide Ends;
  }

  lemma NothingEnds(c: Config, l: Ledger, op: Op, out: Outcome)
    requires out !in {SessionExpired, Reuse} && !op.Logout? && !op.LogoutAll? && !op.Cleanup?
    ensures forall sid | sid in l.open :: !Ends(c, l, op, out, sid)
    ensures Note(c, l, op, out).now == if op.Tick? then l.now + op.ms else l.now
    ensures !out.Issued? ==> Note(c, l, op, out).open == l.open && Note(c, l, op, out).issued == l.issued
  {}

  lemma OwnersAgree(c: Config, s: State, l: Ledger)
    requires Inv(c, s) && Tallies(s, l)
    ensures forall sid | sid in l.open :: l.open[sid].token.sub == s.sessions[sid].userId && l.open[sid].token.sid == sid
    ensures forall tok | tok in s.minted && tok.sid in s.sessions :: tok.sub == s.sessions[tok.sid].userId
  {}

  lemma CreateTallies(c: Config, s: State, l: Ledger, user: Uid)
    requires Inv(c, s) && Tallies(s, l)
    ensures Tallies(Step(c, s, Create(user)).0, Note(c, l, Create(user), Step(c, s, Create(user)).1))
  {
    NothingEnds(c, l, Create(user), Step(c, s, Create(user)).1);
    hide Ends;
  }

  lemma RotateTallies(c: Config, s: State, s1: State, l: Ledger, op: Op, tok: Token)
    requires Tallies(s, l) && s1 == s.(inflight := s1.inflight) && tok.sid in s.sessions
    requires op.RefreshWrite? || (op.Refresh? && s.sessions[tok.sid].valid)
    ensures Tallies(Rotate(c, s1, tok.sub, tok.sid).0, Note(c, l, op, Rotate(c, s1, tok.sub, tok.sid).1))
  {
    NothingEnds(c, l, op, Rotate(c, s1, tok.sub, tok.sid).1);
    hide Ends;
  }

  lemma RefuseTallies(c: Config, s: State, l: Ledger, op: Op)
    requires Inv(c, s) && Tallies(s, l) && (op.Refresh? || op.RefreshRead?) && Check(s, op.tok) != Fresh
    ensures var (t, out) := Refuse(s, op.tok, Check(s, op.tok)); Tallies(t, Note(c, l, op, out))
  {
    var (t, out) := Refuse(s, op.tok, Check(s, op.tok));
    OwnersAgree(c, s, l);
    hide Inv;
    EndingTallies(c, s, l, op, out, t);
  }

  lemma StepTallies(c: Config, s: State, l: Ledger, op: Op)
    requires Inv(c, s) && Tallies(s, l)
    ensures Tallies(Step(c, s, op).0, Note(c, l, op, Step(c, s, op).1))
  {
    var (t, out) := Step(c, s, op);
    OwnersAgree(c, s, l);
    match op
    case Create(user) => CreateTallies(c, s, l, user);
    case Refresh(tok) =>
      if Check(s, tok) == Fresh {
        RotateTallies(c, s, s, l, op, tok);
      } else {
        RefuseTallies(c, s, l, op);
      }
    case RefreshRead(_, tok) =>
      if Check(s, tok) == Fresh {
        NothingEnds(c, l, op, out);
      } else {
        RefuseTallies(c, s, l, op);
      }
    case RefreshWrite(call) =>
      if call in s.inflight && s.inflight[call].sid in s.sessions {
        RotateTallies(c, s, s.(inflight := s.inflight - {call}), l, op, s.inflight[call]);
      } else {
        NothingEnds(c, l, op, out);
      }
    case Logout(_) => EndingTallies(c, s, l, op, out, t);
    case LogoutAll(_) => EndingTallies(c, s, l, op, out, t);
    case Cleanup => EndingTallies(c, s, l, op, out, t);
    case Tick(_) => NothingEnds(c, l, op, out);
  }

  lemma {:induction false} RunTallies(c: Config, s: State, l: Ledger, ops: seq<Op>)
    requires Inv(c, s) && Tallies(s, l)
    ensures Inv(c, Run(c, s, ops)) && Tallies(Run(c, s, ops), Kept(c, s, l, ops))
    decreases |ops|
  {
    if ops != [] {
      StepTallies(c, s, l, ops[0]);
      StepKeepsInv(c, s, ops[0]);
      RunTallies(c, Step(c, s, ops[0]).0, Note(c, l, ops[0], Step(c, s, ops[0]).1), ops[1..]);
    }
  }

  /** The tables and the ledger after a run from the empty table. */
  function After(c: Config, ops: seq<Op>): State { Run(c, INIT, ops) }

  function LedgerOf(c: Config, ops: seq<Op>): Ledger { Kept(c, INIT, BLANK, ops) }

  lemma AfterTallies(c: Config, ops: seq<Op>)
    ensures Inv(c, After(c, ops)) && Tallies(After(c, ops), LedgerOf(c, ops))
  {
    RunTallies(c, INIT, BLANK, ops);
  }

  // ---------------------------------------------------------------- every answer is what the ledger says

  /** A new pair for `user` and `sid`: its refresh token was never answered before and lives one signing lifetime. */
  predicate GoodPair(c: Config, l: Ledger, out: Outcome, user: Uid, sid: Sid) {
    && out.Issued? && out.access == Access(user, Some(sid))
    && out.refresh.sub == user && out.refresh.sid == sid
    && out.refresh.exp == l.now + c.signTtl && out.refresh !in l.issued
  }

  /** What a refresh with `tok` is answered. */
  ghost predicate RefreshAnswer(c: Config, l: Ledger, tok: Token, out: Outcome) {
    if tok !in l.issued then out == JwtInvalid
    else if tok.exp <= l.now then out == SessionExpired
    else if tok.sid !in l.open then out == SessionInvalid
    else if l.open[tok.sid].token != tok then out == Reuse
    else GoodPair(c, l, out, tok.sub, tok.sid)
  }

  /** After every interleaved run: a refresh is granted exactly when its token is the last one answered for a session
      that nothing has ended, and has not expired; each refusal is the one its reason calls for. A first half passes
      its check exactly then. */
  lemma RefreshIsAnswered(c: Config, ops: seq<Op>, tok: Token, call: nat)
    ensures var s, l := After(c, ops), LedgerOf(c, ops);
            && RefreshAnswer(c, l, tok, Step(c, s, Refresh(tok)).1)
            && (var read := Step(c, s, RefreshRead(call, tok)).1;
                if read == Passed then Step(c, s, Refresh(tok)).1.Issued? else read == Step(c, s, Refresh(tok)).1)
  {
    AfterTallies(c, ops);
    OwnersAgree(c, After(c, ops), LedgerOf(c, ops));
    assert tok in After(c, ops).minted ==> tok.jti < After(c, ops).nextJti;
  }

  /** A session is opened for the user it was asked for, under an id no token ever named. */
  lemma CreateIsAnswered(c: Config, ops: seq<Op>, user: Uid)
    ensures var s, l := After(c, ops), LedgerOf(c, ops);
            var out := Step(c, s, Create(user)).1;
            && out.Issued? && GoodPair(c, l, out, user, out.refresh.sid)
            && out.refresh.sid !in l.open && forall tok | tok in l.issued :: tok.sid != out.refresh.sid
  {
    AfterTallies(c, ops);
  }

  /** `requireAuth` admits an access token exactly when it names no session, or an open one of its own user. */
  lemma AdmitsExactly(c: Config, ops: seq<Op>, access: Access)
    ensures var l := LedgerOf(c, ops);
            Admits(After(c, ops), access) <==>
              (access.sid.Some? ==> access.sid.value in l.open && l.open[access.sid.value].token.sub == access.sub)
  {
    AfterTallies(c, ops);
    OwnersAgree(c, After(c, ops), LedgerOf(c, ops));
  }

  // ---------------------------------------------------------------- what is granted lasts

  /** Nothing in the run ends the session. */
  predicate NeverEnds(c: Config, s: State, l: Ledger, ops: seq<Op>, sid: Sid)
    decreases |ops|
  {
    ops != [] ==>
      var out := Step(c, s, ops[0]).1;
      && sid in l.open && !Ends(c, l, ops[0], out, sid)
      && NeverEnds(c, Step(c, s, ops[0]).0, Note(c, l, ops[0], out), ops[1..], sid)
  }

  /** Nothing in the run is answered with another token of the session. */
  predicate NeverMovesOn(c: Config, s: State, ops: seq<Op>, sid: Sid)
    decreases |ops|
  {
    ops != [] ==>
      var out := Step(c, s, ops[0]).1;
      && !(out.Issued? && out.refresh.sid == sid)
      && NeverMovesOn(c, Step(c, s, ops[0]).0, ops[1..], sid)
  }

  lemma StepKeepsEntry(c: Config, s: State, l: Ledger, op: Op, sid: Sid)
    requires Inv(c, s) && Tallies(s, l) && sid in l.open
    ensures var out := Step(c, s, op).1;
            var l1 := Note(c, l, op, out);
            && (sid in l1.open <==> !Ends(c, l, op, out, sid))
            && (sid in l1.open ==> (l1.open[sid].token == l.open[sid].token <==> !(out.Issued? && out.refresh.sid == sid)))
            && (sid !in l1.open ==> Gone(Step(c, s, op).0, sid))
            && (sid in l1.open && l1.open[sid].token != l.open[sid].token ==> Spent(Step(c, s, op).0, l.open[sid].token))
  {
    StepTallies(c, s, l, op);
    assert l.open[sid].token in s.minted && l.open[sid].token.jti < s.nextJti;
    if op.RefreshWrite? && op.call in s.inflight {
      assert s.inflight[op.call] in s.minted;
    }
  }

  lemma {:induction false} SpentStays(c: Config, s: State, ops: seq<Op>, tok: Token)
    requires Inv(c, s) && Spent(s, tok)
    ensures Spent(Run(c, s, ops), tok)
    decreases |ops|
  {
    if ops != [] {
      StepKeepsInv(c, s, ops[0]);
      SpentStep(c, s, ops[0], tok);
      SpentStays(c, Step(c, s, ops[0]).0, ops[1..], tok);
    }
  }

  lemma {:induction false} EntryLasts(c: Config, s: State, l: Ledger, ops: seq<Op>, sid: Sid)
    requires Inv(c, s) && Tallies(s, l) && sid in l.open
    ensures var l1 := Kept(c, s, l, ops);
            && (sid in l1.open <==> NeverEnds(c, s, l, ops, sid))
            && (sid in l1.open && l1.open[sid].token == l.open[sid].token
                <==> NeverEnds(c, s, l, ops, sid) && NeverMovesOn(c, s, ops, sid))
    decreases |ops|
  {
    if ops != [] {
      var s1, l1 := Step(c, s, ops[0]).0, Note(c, l, ops[0], Step(c, s, ops[0]).1);
      var tok := l.open[sid].token;
      StepKeepsEntry(c, s, l, ops[0], sid);
      StepTallies(c, s, l, ops[0]);
      StepKeepsInv(c, s, ops[0]);
      RunTallies(c, s1, l1, ops[1..]);
      if sid !in l1.open {
        RevocationIsFinal(c, s1, ops[1..], sid);
      } else {
        EntryLasts(c, s1, l1, ops[1..], sid);
        if l1.open[sid].token != tok {
          SpentStays(c, s1, ops[1..], tok);
        }
      }
    }
  }

  lemma LedgerGrows(c: Config, before: seq<Op>, ops: seq<Op>)
    ensures After(c, before + ops) == Run(c, After(c, before), ops)
    ensures LedgerOf(c, before + ops) == Kept(c, After(c, before), LedgerOf(c, before), ops)
  {
    RunAppend(c, INIT, before, ops);
    KeptAppend(c, INIT, BLANK, before, ops);
  }

  /** A call that answers a pair opens the session with it, or moves it on; a write under way does so unless the
      session has been ended. */
  lemma GrantOpens(c: Config, before: seq<Op>, op: Op)
    requires Step(c, After(c, before), op).1.Issued?
    requires op.RefreshWrite? ==> Step(c, After(c, before), op).1.refresh.sid in LedgerOf(c, before).open
    ensures var s, l := After(c, before), LedgerOf(c, before + [op]);
            var out := Step(c, s, op).1;
            && out.access == Access(out.refresh.sub, Some(out.refresh.sid))
            && out.refresh.sid in l.open && l.open[out.refresh.sid].token == out.refresh
            && (op.Create? ==> out.refresh.sub == op.user)
            && (op.Refresh? ==> out.refresh.sub == op.tok.sub && out.refresh.sid == op.tok.sid)
  {
    var s, l := After(c, before), LedgerOf(c, before);
    var out := Step(c, s, op).1;
    LedgerGrows(c, before, [op]);
    assert Kept(c, s, l, [op]) == Note(c, l, op, out) by { assert [op][1..] == []; }
    AfterTallies(c, before);
  }

  /** Then, and over every later interleaved run: the session's user is admitted with it exactly until a call ends the
      session; and its token is good for another pair, of the same user and session, exactly until besides the session
      has moved on or the token has expired. */
  lemma GrantHoldsUntil(c: Config, before: seq<Op>, ops: seq<Op>, sid: Sid)
    requires sid in LedgerOf(c, before).open
    ensures var s, l, t := After(c, before), LedgerOf(c, before), After(c, before + ops);
            var tok := l.open[sid].token;
            && tok.sid == sid
            && (Admits(t, Access(tok.sub, Some(sid))) <==> NeverEnds(c, s, l, ops, sid))
            && (Step(c, t, Refresh(tok)).1.Issued? <==>
                  NeverEnds(c, s, l, ops, sid) && NeverMovesOn(c, s, ops, sid) && t.now < tok.exp)
            && (Step(c, t, Refresh(tok)).1.Issued? ==>
                  GoodPair(c, LedgerOf(c, before + ops), Step(c, t, Refresh(tok)).1, tok.sub, sid))
  {
    var s, l := After(c, before), LedgerOf(c, before);
    var tok, l1 := l.open[sid].token, LedgerOf(c, before + ops);
    AfterTallies(c, before);
    OwnersAgree(c, s, l);
    LedgerGrows(c, before, ops);
    AfterTallies(c, before + ops);
    OwnersAgree(c, After(c, before + ops), l1);
    EntryLasts(c, s, l, ops, sid);
    AdmitsExactly(c, before + ops, Access(tok.sub, Some(sid)));
    RefreshIsAnswered(c, before + ops, tok, 0);
    StillIssued(c, s, ops, tok);
    hide Step;
    hide Inv;
    hide NeverEnds;
    hide NeverMovesOn;
    assert sid in l1.open ==> l1.open[sid].token.sub == tok.sub;
  }

  /** So a pair just answered, to a session that is open, is good: it is admitted, and another one can be had for it. */
  lemma FreshGrantIsGood(c: Config, before: seq<Op>, op: Op)
    requires c.signTtl > 0 && Step(c, After(c, before), op).1.Issued?
    requires op.RefreshWrite? ==> Step(c, After(c, before), op).1.refresh.sid in LedgerOf(c, before).open
    ensures var (t, out) := Step(c, After(c, before), op);
            && Admits(t, out.access)
            && GoodPair(c, LedgerOf(c, before + [op]), Step(c, t, Refresh(out.refresh)).1, out.refresh.sub, out.refresh.sid)
  {
    var (t, out) := Step(c, After(c, before), op);
    var all := before + [op];
    GrantOpens(c, before, op);
    LedgerGrows(c, before, [op]);
    assert t == After(c, all) by { assert [op][1..] == []; }
    assert all + [] == all;
    GrantHoldsUntil(c, all, [], out.refresh.sid);
    AfterTallies(c, before);
    FreshExpiry(c, After(c, before), op);
  }

  lemma FreshExpiry(c: Config, s: State, op: Op)
    requires Step(c, s, op).1.Issued?
    ensures Step(c, s, op).1.refresh.exp == s.now + c.signTtl && Step(c, s, op).0.now == s.now
  {}

  lemma {:induction false} StillIssued(c: Config, s: State, ops: seq<Op>, tok: Token)
    requires tok in s.minted
    ensures tok in Run(c, s, ops).minted
    decreases |ops|
  {
    if ops != [] {
      StillIssued(c, Step(c, s, ops[0]).0, ops[1..], tok);
    }
  }
}
