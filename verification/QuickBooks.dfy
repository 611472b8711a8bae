/**
 QuickBooks connections (`quickbooks.service.ts`): a connect call creates a pending row with a one-time
 OAuth state, the callback that brings the state back makes the row the organization's active connection.

 States are drawn afresh and hashed injectively, so a stored hash is the state itself. `Callback` is one
 atomic call; `CallbackRead` and `CallbackCommit` are the same call cut at the token exchange, its network
 request, so that other calls can come in between. The commit is a transaction.
 */
module QuickBooks {
  import opened Prelude

  const OAUTH_STATE_TTL_MS: int := 10 * 60 * 1000

  type Org = nat
  type Realm = nat
  type Nonce = nat
  type Id = nat

  datatype Status = Pending | Active | Inactive | Errored

  datatype Connection = Connection(
    org: Org, realmId: Option<Realm>, status: Status, isActive: bool,
    oauthState: Option<Nonce>, oauthStateExpiresAt: Option<int>)

  /** A callback past its state check. */
  datatype Call = Call(id: Id, nonce: Nonce)

  /** An OAuth state that was handed out: for which organization, when, and on which row. */
  datatype Issue = Issue(org: Org, at: int, id: Id)

  datatype State = State(
    now: int, nextId: Id, connections: map<Id, Connection>, issued: map<Nonce, Issue>, inflight: map<nat, Call>)

  const INIT := State(0, 0, map[], map[], map[])

  /** `configured`, `keyed`: the settings the call needs are there. `exchanged`: the provider gave tokens. */
  datatype Op =
    | Connect(org: Org, nonce: Nonce, configured: bool)
    | Callback(nonce: Nonce, realm: Realm, keyed: bool, exchanged: bool)
    | CallbackRead(call: nat, nonce: Nonce, keyed: bool)
    | CallbackCommit(call: nat, realm: Realm)
    | Tick(ms: nat)

  datatype Outcome =
    | ConfigMissing | InvalidState | ExchangeFailed | NotInFlight
    | Issued(id: Id, expiresAt: int) | Reading(id: Id) | Connected(id: Id, nonce: Nonce) | Done

  // ---------------------------------------------------------------- the callback

  predicate Carries(connections: map<Id, Connection>, id: Id, nonce: Nonce) {
    id in connections && connections[id].oauthState == Some(nonce)
  }

  /** The row the state is looked up on. */
  ghost function Lookup(connections: map<Id, Connection>, nonce: Nonce): Option<Id> {
    if id :| Carries(connections, id, nonce) then Some(id) else None
  }

  predicate Expired(row: Connection, now: int) {
    row.oauthStateExpiresAt.None? || row.oauthStateExpiresAt.value < now
  }

  /** Another row of the organization that has the realm. */
  predicate Holds(connections: map<Id, Connection>, org: Org, realm: Realm, id: Id, other: Id) {
    other in connections && other != id && connections[other].org == org && connections[other].realmId == Some(realm)
  }

  function Release(connections: map<Id, Connection>, other: Id): map<Id, Connection>
    requires other in connections
  {
    connections[other := connections[other].(realmId := None, status := Inactive, isActive := false)]
  }

  function Deactivate(connections: map<Id, Connection>, org: Org, id: Id): map<Id, Connection> {
    map k | k in connections ::
      if connections[k].org == org && connections[k].isActive && k != id
      then connections[k].(isActive := false, status := Inactive)
      else connections[k]
  }

  function Activate(connections: map<Id, Connection>, id: Id, realm: Realm): map<Id, Connection>
    requires id in connections
  {
    connections[id := connections[id].(realmId := Some(realm), status := Active, isActive := true,
                                       oauthState := None, oauthStateExpiresAt := None)]
  }

  /** The transaction: the realm is taken from its other holder, the organization's other active rows are
      deactivated, the row is activated. */
  ghost function Commit(connections: map<Id, Connection>, id: Id, realm: Realm): map<Id, Connection>
    requires id in connections
  {
    var org := connections[id].org;
    var released := if other :| Holds(connections, org, realm, id, other) then Release(connections, other) else connections;
    Activate(Deactivate(released, org, id), id, realm)
  }

  ghost function Step(s: State, op: Op): (State, Outcome)
    requires Legal(s, op)
  {
    match op
    case Connect(org, nonce, configured) =>
      if !configured then (s, ConfigMissing)
      else
        var expiresAt := s.now + OAUTH_STATE_TTL_MS;
        var row := Connection(org, None, Pending, false, Some(nonce), Some(expiresAt));
        (s.(nextId := s.nextId + 1, connections := s.connections[s.nextId := row],
            issued := s.issued[nonce := Issue(org, s.now, s.nextId)]),
         Issued(s.nextId, expiresAt))
    case Callback(nonce, realm, keyed, exchanged) =>
      var found := Lookup(s.connections, nonce);
      if found.None? || Expired(s.connections[found.value], s.now) then (s, InvalidState)
      else if !keyed then (s, ConfigMissing)
      else if !exchanged then (s, ExchangeFailed)
      else (s.(connections := Commit(s.connections, found.value, realm)), Connected(found.value, nonce))
    case CallbackRead(call, nonce, keyed) =>
      var found := Lookup(s.connections, nonce);
      if found.None? || Expired(s.connections[found.value], s.now) then (s, InvalidState)
      else if !keyed then (s, ConfigMissing)
      else (s.(inflight := s.inflight[call := Call(found.value, nonce)]), Reading(found.value))
    case CallbackCommit(call, realm) =>
      if call !in s.inflight || s.inflight[call].id !in s.connections then (s, NotInFlight)
      else
        var c := s.inflight[call];
        (s.(connections := Commit(s.connections, c.id, realm), inflight := s.inflight - {call}), Connected(c.id, c.nonce))
    case Tick(ms) => (s.(now := s.now + ms), Done)
  }

  /** A state handed out is a new one. */
  predicate Legal(s: State, op: Op) { op.Connect? ==> op.nonce !in s.issued }

  ghost predicate LegalRun(s: State, ops: seq<Op>)
    decreases |ops|
  {
    ops != [] ==> Legal(s, ops[0]) && LegalRun(Step(s, ops[0]).0, ops[1..])
  }

  ghost function Run(s: State, ops: seq<Op>): State
    requires LegalRun(s, ops)
    decreases |ops|
  {
    if ops == [] then s else Run(Step(s, ops[0]).0, ops[1..])
  }

  // ---------------------------------------------------------------- the invariant

  ghost predicate OneActive(connections: map<Id, Connection>) {
    forall a, b | a in connections && b in connections && connections[a].isActive && connections[b].isActive
                  && connections[a].org == connections[b].org :: a == b
  }

  /** The unique key (organization, provider, realm). */
  ghost predicate OneHolder(connections: map<Id, Connection>) {
    forall a, b | a in connections && b in connections && connections[a].realmId.Some?
                  && connections[a].realmId == connections[b].realmId && connections[a].org == connections[b].org :: a == b
  }

  ghost predicate OneCarrier(connections: map<Id, Connection>) {
    forall a, b | a in connections && b in connections && connections[a].oauthState.Some?
                  && connections[a].oauthState == connections[b].oauthState :: a == b
  }

  predicate RowOk(row: Connection) {
    && (row.isActive <==> row.status == Active)
    && (row.isActive ==> row.realmId.Some?)
    && (row.oauthState.Some? ==> row.status == Pending && row.realmId.None?)
    && (row.oauthState.Some? <==> row.oauthStateExpiresAt.Some?)
  }

  ghost predicate TableOk(connections: map<Id, Connection>) {
    && OneActive(connections) && OneHolder(connections) && OneCarrier(connections)
    && forall id | id in connections :: RowOk(connections[id])
  }

  /** A carried state was handed out, for that organization, the state lifetime before its expiry. */
  ghost predicate CarriedOk(s: State) {
    forall id, x | Carries(s.connections, id, x) ::
      && x in s.issued && s.issued[x].org == s.connections[id].org && s.issued[x].id == id
      && s.connections[id].oauthStateExpiresAt == Some(s.issued[x].at + OAUTH_STATE_TTL_MS)
  }

  /** A callback under way read a row that carried its state, which no other row does, nor that row another state. */
  predicate CallOk(connections: map<Id, Connection>, issued: map<Nonce, Issue>, c: Call) {
    && c.id in connections && c.nonce in issued && issued[c.nonce].org == connections[c.id].org
    && connections[c.id].oauthState in {None, Some(c.nonce)}
    && (forall id | id in connections && connections[id].oauthState == Some(c.nonce) :: id == c.id)
  }

  ghost predicate Inv(s: State) {
    && TableOk(s.connections) && CarriedOk(s)
    && (forall id | id in s.connections :: id < s.nextId)
    && (forall c | c in s.inflight :: CallOk(s.connections, s.issued, s.inflight[c]))
  }

  /** What a commit does to row `k`. */
  predicate CommittedRow(before: Connection, after: Connection, target: bool, org: Org, realm: Realm) {
    if target then
      after == before.(realmId := Some(realm), status := Active, isActive := true,
                       oauthState := None, oauthStateExpiresAt := None)
    else if before.org != org then after == before
    else if before.realmId == Some(realm) then after == before.(realmId := None, status := Inactive, isActive := false)
    else if before.isActive then after == before.(status := Inactive, isActive := false)
    else after == before
  }

  ghost predicate Committed(before: map<Id, Connection>, after: map<Id, Connection>, id: Id, realm: Realm)
    requires id in before
  {
    after.Keys == before.Keys
    && forall k | k in before :: CommittedRow(before[k], after[k], k == id, before[id].org, realm)
  }

  /** A commit, row by row: there is at most one other holder to find. */
  lemma CommitRows(connections: map<Id, Connection>, id: Id, realm: Realm)
    requires OneHolder(connections) && id in connections
    ensures Committed(connections, Commit(connections, id, realm), id, realm)
  {
    var org := connections[id].org;
    forall k | k in connections && k != id && connections[k].org == org && connections[k].realmId == Some(realm)
      ensures Holds(connections, org, realm, id, k) {}
    if other :| Holds(connections, org, realm, id, other) {
      assert forall o | Holds(connections, org, realm, id, o) :: o == other;
    }
  }

  lemma CommittedKeepsUnique(before: map<Id, Connection>, after: map<Id, Connection>, id: Id, realm: Realm)
    requires TableOk(before) && id in before && Committed(before, after, id, realm)
    ensures OneActive(after) && OneHolder(after)
  {
    hide RowOk;
    hide OneCarrier;
  }

  lemma CommittedKeepsCarrier(before: map<Id, Connection>, after: map<Id, Connection>, id: Id, realm: Realm)
    requires TableOk(before) && id in before && Committed(before, after, id, realm)
    ensures OneCarrier(after) && forall k | k in after :: RowOk(after[k])
  {
    hide OneActive;
    hide OneHolder;
    forall k | k in after ensures RowOk(after[k]) { assert RowOk(before[k]); }
  }

  /** An accepted callback makes its row the organization's one active connection and the realm's one holder,
      takes the realm from the row that had it, and leaves other organizations alone. */
  lemma CommitEffect(connections: map<Id, Connection>, id: Id, realm: Realm)
    requires TableOk(connections) && id in connections
    ensures var after, org := Commit(connections, id, realm), connections[id].org;
            && TableOk(after) && after.Keys == connections.Keys
            && (forall k | k in after && after[k].org == org :: after[k].isActive <==> k == id)
            && (forall k | k in after && after[k].org == org :: after[k].realmId == Some(realm) <==> k == id)
            && (forall k | k in after && k != id && connections[k].realmId != Some(realm) ::
                  after[k].realmId == connections[k].realmId)
            && (forall k | k in after && connections[k].org != org :: after[k] == connections[k])
            && (forall k | k in after :: after[k].oauthState == if k == id then None else connections[k].oauthState)
            && (forall k | k in after && k != id :: after[k].oauthStateExpiresAt == connections[k].oauthStateExpiresAt)
            && (forall k | k in after :: after[k].org == connections[k].org)
  {
    CommitRows(connections, id, realm);
    CommittedKeepsUnique(connections, Commit(connections, id, realm), id, realm);
    CommittedKeepsCarrier(connections, Commit(connections, id, realm), id, realm);
    hide Commit;
    hide OneHolder;
    hide OneCarrier;
    hide OneActive;
  }

  lemma NewRowKeepsTable(connections: map<Id, Connection>, id: Id, row: Connection)
    requires TableOk(connections) && id !in connections && RowOk(row) && !row.isActive && row.realmId.None?
    requires row.oauthState.Some? && forall k | k in connections :: connections[k].oauthState != row.oauthState
    ensures TableOk(connections[id := row])
  {}

  lemma ConnectKeepsInv(s: State, org: Org, nonce: Nonce)
    requires Inv(s) && Legal(s, Connect(org, nonce, true))
    ensures Inv(Step(s, Connect(org, nonce, true)).0)
  {
    var t := Step(s, Connect(org, nonce, true)).0;
    forall k | k in s.connections ensures s.connections[k].oauthState != Some(nonce) {
      assert !Carries(s.connections, k, nonce);
    }
    NewRowKeepsTable(s.connections, s.nextId, t.connections[s.nextId]);
    hide TableOk;
    forall id, x | Carries(t.connections, id, x) ensures id == s.nextId || Carries(s.connections, id, x) {}
    forall c | c in t.inflight ensures CallOk(t.connections, t.issued, t.inflight[c]) {
      assert CallOk(s.connections, s.issued, s.inflight[c]);
    }
  }

  lemma CommitKeepsCall(connections: map<Id, Connection>, issued: map<Nonce, Issue>, id: Id, realm: Realm, c: Call)
    requires TableOk(connections) && id in connections && CallOk(connections, issued, c)
    ensures CallOk(Commit(connections, id, realm), issued, c)
  {
    hide Commit;
    hide TableOk;
    CommitEffect(connections, id, realm);
  }

  lemma CommitKeepsInv(s: State, t: State, id: Id, realm: Realm)
    requires Inv(s) && id in s.connections && t.connections == Commit(s.connections, id, realm)
    requires t.now == s.now && t.nextId == s.nextId && t.issued == s.issued
    requires forall c | c in t.inflight :: c in s.inflight && t.inflight[c] == s.inflight[c]
    ensures Inv(t)
  {
    hide Commit;
    hide TableOk;
    hide CallOk;
    CommitEffect(s.connections, id, realm);
    forall k, x | Carries(t.connections, k, x) ensures Carries(s.connections, k, x) && k != id {}
    forall c | c in t.inflight ensures CallOk(t.connections, t.issued, t.inflight[c]) {
      CommitKeepsCall(s.connections, s.issued, id, realm, s.inflight[c]);
    }
  }

  lemma LookupIs(s: State, nonce: Nonce)
    requires OneCarrier(s.connections)
    ensures Lookup(s.connections, nonce).Some? ==> Carries(s.connections, Lookup(s.connections, nonce).value, nonce)
    ensures forall id: Id | Carries(s.connections, id, nonce) :: Lookup(s.connections, nonce) == Some(id)
  {}

  lemma ReadKeepsInv(s: State, call: nat, nonce: Nonce)
    requires Inv(s)
    ensures Inv(Step(s, CallbackRead(call, nonce, true)).0)
  {
    LookupIs(s, nonce);
    var found := Lookup(s.connections, nonce);
    if found.Some? {
      var c := Call(found.value, nonce);
      assert CallOk(s.connections, s.issued, c) by {
        forall id | id in s.connections && s.connections[id].oauthState == Some(nonce) ensures id == found.value {
          assert Carries(s.connections, id, nonce);
        }
      }
    }
  }

  /** One step, split callbacks included, keeps all of it. */
  lemma StepKeepsInv(s: State, op: Op)
    requires Inv(s) && Legal(s, op)
    ensures Inv(Step(s, op).0)
  {
    hide Commit;
    match op
    case Connect(org, nonce, configured) =>
      if configured {
        ConnectKeepsInv(s, org, nonce);
      }
    case Callback(nonce, realm, keyed, exchanged) =>
      LookupIs(s, nonce);
      if Step(s, op).1.Connected? {
        CommitKeepsInv(s, Step(s, op).0, Lookup(s.connections, nonce).value, realm);
      }
    case CallbackRead(call, nonce, keyed) =>
      if keyed {
        ReadKeepsInv(s, call, nonce);
      }
    case CallbackCommit(call, realm) =>
      if call in s.inflight && s.inflight[call].id in s.connections {
        CommitKeepsInv(s, Step(s, op).0, s.inflight[call].id, realm);
      }
    case Tick(_) =>
      assert CarriedOk(Step(s, op).0);
  }

  /** Over every run, split callbacks included: at most one active connection per organization, active exactly
      when the status says so, then with a realm and no pending state, and a realm on at most one connection. */
  lemma {:induction false} RunKeepsInv(s: State, ops: seq<Op>)
    requires Inv(s) && LegalRun(s, ops)
    ensures Inv(Run(s, ops))
    decreases |ops|
  {
    if ops != [] {
      StepKeepsInv(s, ops[0]);
      RunKeepsInv(Step(s, ops[0]).0, ops[1..]);
    }
  }

  // ---------------------------------------------------------------- one use per state

  predicate Accepts(outcome: Outcome, nonce: Nonce) { outcome.Connected? && outcome.nonce == nonce }

  /** How often a run accepts a state. */
  ghost function Acceptances(s: State, ops: seq<Op>, nonce: Nonce): nat
    requires LegalRun(s, ops)
    decreases |ops|
  {
    if ops == [] then 0
    else
      var (t, out) := Step(s, ops[0]);
      (if Accepts(out, nonce) then 1 else 0) + Acceptances(t, ops[1..], nonce)
  }

  ghost predicate Carried(connections: map<Id, Connection>, nonce: Nonce) { exists id :: Carries(connections, id, nonce) }

  /** Not handed out yet, or handed out and still on its row. */
  ghost predicate Usable(s: State, nonce: Nonce) { nonce !in s.issued || Carried(s.connections, nonce) }

  /** A commit that finds its row still carrying the state it was read with. */
  ghost predicate FreshCommit(s: State, op: Op) {
    op.CallbackCommit? && op.call in s.inflight ==>
      var c := s.inflight[op.call];
      c.id in s.connections ==> s.connections[c.id].oauthState == Some(c.nonce)
  }

  /** A call of another state, or one that finds its own. */
  ghost predicate FreshFor(s: State, op: Op, nonce: Nonce) {
    op.CallbackCommit? && op.call in s.inflight && s.inflight[op.call].nonce == nonce ==> FreshCommit(s, op)
  }

  ghost predicate FreshCommits(s: State, ops: seq<Op>, nonce: Nonce)
    requires LegalRun(s, ops)
    decreases |ops|
  {
    ops != [] ==> FreshFor(s, ops[0], nonce) && FreshCommits(Step(s, ops[0]).0, ops[1..], nonce)
  }

  lemma CommitCarries(connections: map<Id, Connection>, issued: map<Nonce, Issue>, c: Call, realm: Realm, x: Nonce)
    requires TableOk(connections) && CallOk(connections, issued, c)
    ensures Carried(Commit(connections, c.id, realm), x) <==> x != c.nonce && Carried(connections, x)
  {
    hide Commit;
    CommitEffect(connections, c.id, realm);
    hide TableOk;
    var after := Commit(connections, c.id, realm);
    forall k: Id ensures Carries(after, k, x) <==> k != c.id && Carries(connections, k, x) {}
    if x != c.nonce && Carried(connections, x) {
      var k :| Carries(connections, k, x);
      assert Carries(after, k, x);
    }
  }

  lemma ConnectCarries(s: State, org: Org, nonce: Nonce, x: Nonce)
    requires Inv(s) && Legal(s, Connect(org, nonce, true))
    ensures Usable(Step(s, Connect(org, nonce, true)).0, x) <==> Usable(s, x)
  {
    var t := Step(s, Connect(org, nonce, true)).0;
    forall k: Id ensures Carries(t.connections, k, x) <==> Carries(s.connections, k, x) || (k == s.nextId && x == nonce) {}
    if Carried(s.connections, x) {
      var k :| Carries(s.connections, k, x);
      assert Carries(t.connections, k, x);
    }
    assert Carries(t.connections, s.nextId, nonce);
  }

  lemma FoundIsCallOk(s: State, nonce: Nonce)
    requires Inv(s)
    ensures Lookup(s.connections, nonce).Some? ==>
              CallOk(s.connections, s.issued, Call(Lookup(s.connections, nonce).value, nonce))
              && Carried(s.connections, nonce)
  {
    LookupIs(s, nonce);
    if Carried(s.connections, nonce) {
      forall id | id in s.connections && s.connections[id].oauthState == Some(nonce)
        ensures Some(id) == Lookup(s.connections, nonce)
      {
        assert Carries(s.connections, id, nonce);
      }
    }
  }

  /** An acceptance uses the state up, and unless its commit is stale it needs it usable; nothing else makes a
      state more or less usable. */
  lemma StepUses(s: State, op: Op, nonce: Nonce)
    requires Inv(s) && Legal(s, op)
    ensures var (t, out) := Step(s, op);
            && (Accepts(out, nonce) ==> !Usable(t, nonce) && (FreshFor(s, op, nonce) <==> Usable(s, nonce)))
            && (!Accepts(out, nonce) ==> (Usable(t, nonce) <==> Usable(s, nonce)) && FreshFor(s, op, nonce))
  {
    hide Commit;
    hide TableOk;
    hide CallOk;
    hide CarriedOk;
    match op
    case Connect(org, x, configured) =>
      if configured {
        ConnectCarries(s, org, x, nonce);
      }
    case Callback(x, realm, _, _) =>
      FoundIsCallOk(s, x);
      if Lookup(s.connections, x).Some? {
        CommitCarries(s.connections, s.issued, Call(Lookup(s.connections, x).value, x), realm, nonce);
      }
    case CallbackRead(_, _, _) =>
    case CallbackCommit(call, realm) =>
      if call in s.inflight {
        CommitCarries(s.connections, s.issued, s.inflight[call], realm, nonce);
        CarriedHere(s, s.inflight[call]);
      }
    case Tick(_) =>
  }

  lemma CarriedHere(s: State, c: Call)
    requires CallOk(s.connections, s.issued, c)
    ensures c.id in s.connections && c.nonce in s.issued
    ensures Carried(s.connections, c.nonce) <==> s.connections[c.id].oauthState == Some(c.nonce)
  {
    assert s.connections[c.id].oauthState == Some(c.nonce) ==> Carries(s.connections, c.id, c.nonce);
  }

  /** Exactly when a run accepts a state at most once: when each of its commits still finds the state on its
      row. A state that is used up already is then never accepted. */
  lemma {:induction false} AcceptedOnceIff(s: State, ops: seq<Op>, nonce: Nonce)
    requires Inv(s) && LegalRun(s, ops)
    ensures Acceptances(s, ops, nonce) <= (if Usable(s, nonce) then 1 else 0) <==> FreshCommits(s, ops, nonce)
    decreases |ops|
  {
    if ops != [] {
      var t := Step(s, ops[0]).0;
      StepUses(s, ops[0], nonce);
      StepKeepsInv(s, ops[0]);
      AcceptedOnceIff(t, ops[1..], nonce);
    }
  }

  /** Atomic callbacks have no commit to go stale. */
  lemma {:induction false} AtomicAcceptsOnce(s: State, ops: seq<Op>, nonce: Nonce)
    requires Inv(s) && LegalRun(s, ops) && forall i | 0 <= i < |ops| :: !ops[i].CallbackCommit?
    ensures FreshCommits(s, ops, nonce) && Acceptances(s, ops, nonce) <= 1
    decreases |ops|
  {
    if ops != [] {
      var t := Step(s, ops[0]).0;
      StepKeepsInv(s, ops[0]);
      var rest := ops[1..];
      assert forall i | 0 <= i < |rest| :: rest[i] == ops[i + 1];
      AtomicAcceptsOnce(t, rest, nonce);
    }
    AcceptedOnceIff(s, ops, nonce);
  }

  lemma {:induction false} UsableUntilAccepted(s: State, ops: seq<Op>, nonce: Nonce)
    requires Inv(s) && LegalRun(s, ops)
    ensures Usable(Run(s, ops), nonce) <==> Usable(s, nonce) && Acceptances(s, ops, nonce) == 0
    decreases |ops|
  {
    if ops != [] {
      StepUses(s, ops[0], nonce);
      StepKeepsInv(s, ops[0]);
      UsableUntilAccepted(Step(s, ops[0]).0, ops[1..], nonce);
    }
  }

  lemma InitInv()
    ensures Inv(INIT)
  {}

  /** The state was handed out, has not been accepted before, and is not past its ten minutes; the last instant still
      counts. */
  ghost predicate Open(ops: seq<Op>, nonce: Nonce)
    requires LegalRun(INIT, ops)
  {
    var s := Run(INIT, ops);
    nonce in s.issued && Acceptances(INIT, ops, nonce) == 0 && s.now <= s.issued[nonce].at + OAUTH_STATE_TTL_MS
  }

  lemma OpenIsFound(ops: seq<Op>, nonce: Nonce)
    requires LegalRun(INIT, ops)
    ensures var s := Run(INIT, ops);
            var found := Lookup(s.connections, nonce);
            && Inv(s)
            && (Open(ops, nonce) <==> found.Some? && !Expired(s.connections[found.value], s.now))
            && (Open(ops, nonce) ==> found == Some(s.issued[nonce].id))
  {
    var s := Run(INIT, ops);
    InitInv();
    RunKeepsInv(INIT, ops);
    UsableUntilAccepted(INIT, ops, nonce);
    LookupIs(s, nonce);
    if Carried(s.connections, nonce) {
      var id :| Carries(s.connections, id, nonce);
    }
  }

  /** After any run, split callbacks included: a callback is accepted exactly when its state is open, the key is set and
      the provider gave tokens, and then for the row the state was handed out with. It is refused for the first of
      these that fails, and changes nothing; a failed exchange can be tried again. */
  lemma AcceptedExactlyWhen(ops: seq<Op>, nonce: Nonce, realm: Realm, keyed: bool, exchanged: bool)
    requires LegalRun(INIT, ops)
    ensures var s := Run(INIT, ops);
            var (t, out) := Step(s, Callback(nonce, realm, keyed, exchanged));
            && (Accepts(out, nonce) <==> Open(ops, nonce) && keyed && exchanged)
            && (!Open(ops, nonce) ==> out == InvalidState)
            && (Open(ops, nonce) && !keyed ==> out == ConfigMissing)
            && (Open(ops, nonce) && keyed && !exchanged ==> out == ExchangeFailed)
            && (!Accepts(out, nonce) ==> t == s)
            && (Accepts(out, nonce) ==> out.id == s.issued[nonce].id)
            && (out == ExchangeFailed ==> Accepts(Step(t, Callback(nonce, realm, true, true)).1, nonce))
    ensures var s := Run(INIT, ops);
            forall call ::
              var (t, out) := Step(s, CallbackRead(call, nonce, keyed));
              && (out.Reading? <==> Open(ops, nonce) && keyed)
              && (!out.Reading? ==> t == s && out == if Open(ops, nonce) then ConfigMissing else InvalidState)
  {
    OpenIsFound(ops, nonce);
    hide Commit;
    hide Open;
    hide Inv;
  }

  /** What an acceptance leaves: the row the state was handed out with is its organization's one active connection and
      its realm's one holder, and carries no state; organizations other than its own are as they were. */
  lemma AcceptanceConnects(ops: seq<Op>, nonce: Nonce, realm: Realm)
    requires LegalRun(INIT, ops) && Open(ops, nonce)
    ensures var s, t := Run(INIT, ops), Step(Run(INIT, ops), Callback(nonce, realm, true, true)).0;
            var id, org := s.issued[nonce].id, s.issued[nonce].org;
            && t.connections.Keys == s.connections.Keys && id in t.connections
            && t.connections[id] == Connection(org, Some(realm), Active, true, None, None)
            && (forall k | k in t.connections && t.connections[k].org == org && k != id ::
                  && !t.connections[k].isActive && t.connections[k].realmId != Some(realm)
                  && (s.connections[k].isActive || s.connections[k].realmId == Some(realm) || t.connections[k] == s.connections[k]))
            && (forall k | k in t.connections && t.connections[k].org != org :: t.connections[k] == s.connections[k])
  {
    OpenIsFound(ops, nonce);
    var s, id := Run(INIT, ops), Run(INIT, ops).issued[nonce].id;
    LookupIs(s, nonce);
    assert Carries(s.connections, id, nonce);
    CommitRows(s.connections, id, realm);
    CommitEffect(s.connections, id, realm);
    hide Commit;
    hide Open;
  }

  /** A connect call hands out its state on a new pending row of the organization, for ten minutes; without the settings
      it changes nothing. */
  lemma ConnectHandsOut(ops: seq<Op>, org: Org, nonce: Nonce, configured: bool)
    requires LegalRun(INIT, ops) && Legal(Run(INIT, ops), Connect(org, nonce, configured))
    ensures var s := Run(INIT, ops);
            var (t, out) := Step(s, Connect(org, nonce, configured));
            if !configured then out == ConfigMissing && t == s
            else
              && out == Issued(out.id, s.now + 600_000) && out.id !in s.connections
              && t.connections.Keys == s.connections.Keys + {out.id}
              && (forall k | k in s.connections :: t.connections[k] == s.connections[k])
              && t.connections[out.id] == Connection(org, None, Pending, false, Some(nonce), Some(out.expiresAt))
              && nonce in t.issued && t.issued[nonce].org == org && t.issued[nonce].id == out.id && t.issued[nonce].at == s.now
  {
    InitInv();
    RunKeepsInv(INIT, ops);
    var s := Run(INIT, ops);
    assert s.nextId !in s.connections;
  }

  /** Two callbacks that both read the state before either commits are both accepted, each with its realm. */
  lemma SplitCallbackAcceptsTwice()
    ensures var ops := [Connect(0, 7, true), CallbackRead(0, 7, true), CallbackRead(1, 7, true),
                        CallbackCommit(0, 100), CallbackCommit(1, 200)];
            LegalRun(INIT, ops) && Acceptances(INIT, ops, 7) == 2
  {
    var o0, o1, o2 := Connect(0, 7, true), CallbackRead(0, 7, true), CallbackRead(1, 7, true);
    var o3, o4 := CallbackCommit(0, 100), CallbackCommit(1, 200);
    var s1 := Step(INIT, o0).0;
    var row := Connection(0, None, Pending, false, Some(7), Some(OAUTH_STATE_TTL_MS));
    assert s1 == State(0, 1, map[0 := row], map[7 := Issue(0, 0, 0)], map[]);
    assert Carries(s1.connections, 0, 7);
    var s2 := Step(s1, o1).0;
    assert s2 == s1.(inflight := map[0 := Call(0, 7)]);
    var s3 := Step(s2, o2).0;
    assert s3.connections == s1.connections && s3.inflight == map[0 := Call(0, 7), 1 := Call(0, 7)];
    hide Commit;
    var s4 := Step(s3, o3).0;
    InitInv();
    StepKeepsInv(INIT, o0);
    CommitEffect(s3.connections, 0, 100);
    assert s4.inflight == map[1 := Call(0, 7)];
    var ops := [o0, o1, o2, o3, o4];
    assert ops[1..] == [o1, o2, o3, o4] && [o1, o2, o3, o4][1..] == [o2, o3, o4];
    assert [o2, o3, o4][1..] == [o3, o4] && [o3, o4][1..] == [o4] && [o4][1..] == [];
    var s5 := Step(s4, o4).0;
    assert LegalRun(s4, [o4]) && Acceptances(s4, [o4], 7) == 1 by { assert LegalRun(s5, []); }
    assert LegalRun(s3, [o3, o4]) && Acceptances(s3, [o3, o4], 7) == 2;
    assert LegalRun(s2, [o2, o3, o4]) && Acceptances(s2, [o2, o3, o4], 7) == 2;
    assert LegalRun(s1, [o1, o2, o3, o4]) && Acceptances(s1, [o1, o2, o3, o4], 7) == 2;
  }

  lemma CommittedIsUnique(
    before: map<Id, Connection>, a: map<Id, Connection>, b: map<Id, Connection>, id: Id, realm: Realm)
    requires id in before && Committed(before, a, id, realm) && Committed(before, b, id, realm)
    ensures a == b
  {
    forall k | k in before ensures a[k] == b[k] {
      assert CommittedRow(before[k], a[k], k == id, before[id].org, realm);
    }
  }

  // ---------------------------------------------------------------- the service

  /** The connection table and the calls over it. What was handed out is history, kept for the proofs. */
  class Service {
    var now: int
    var nextId: Id
    var connections: map<Id, Connection>
    var inflight: map<nat, Call>
    ghost var issued: map<Nonce, Issue>

    ghost function View(): State
      reads this
    {
      State(now, nextId, connections, issued, inflight)
    }

    constructor ()
      ensures View() == INIT
    {
      now, nextId, connections, issued, inflight := 0, 0, map[], map[], map[];
    }

    method CreateConnectUrl(org: Org, nonce: Nonce, configured: bool) returns (out: Outcome)
      requires nonce !in issued
      modifies this
      ensures (View(), out) == Step(old(View()), Connect(org, nonce, configured))
    {
      if !configured {
        return ConfigMissing;
      }
      var stateExpiresAt := now + OAUTH_STATE_TTL_MS;
      connections := connections[nextId := Connection(org, None, Pending, false, Some(nonce), Some(stateExpiresAt))];
      issued := issued[nonce := Issue(org, now, nextId)];
      out := Issued(nextId, stateExpiresAt);
      nextId := nextId + 1;
    }

    /** The state check of the callback. */
    method FindState(nonce: Nonce) returns (found: Option<Id>)
      requires OneCarrier(connections)
      ensures found.Some? <==> Lookup(connections, nonce).Some? && !Expired(connections[Lookup(connections, nonce).value], now)
      ensures found.Some? ==> found == Lookup(connections, nonce)
    {
      LookupIs(View(), nonce);
      if id :| id in connections && connections[id].oauthState == Some(nonce) {
        assert Carries(connections, id, nonce);
        if connections[id].oauthStateExpiresAt.None? || connections[id].oauthStateExpiresAt.value < now {
          return None;
        }
        return Some(id);
      }
      found := None;
    }

    method CommitConnection(id: Id, realm: Realm)
      requires OneHolder(connections) && id in connections
      modifies this`connections
      ensures connections == Commit(old(connections), id, realm)
    {
      CommitRows(connections, id, realm);
      var org := connections[id].org;
      if existing :| existing in connections && existing != id && connections[existing].org == org
                     && connections[existing].realmId == Some(realm) {
        connections := connections[existing := connections[existing].(realmId := None, status := Inactive, isActive := false)];
      }
      connections := map k | k in connections ::
        if connections[k].org == org && connections[k].isActive && k != id
        then connections[k].(isActive := false, status := Inactive) else connections[k];
      connections := connections[id := connections[id].(realmId := Some(realm), status := Active, isActive := true,
                                                        oauthState := None, oauthStateExpiresAt := None)];
      CommittedIsUnique(old(connections), connections, Commit(old(connections), id, realm), id, realm);
    }

    method HandleCallback(nonce: Nonce, realm: Realm, keyed: bool, exchanged: bool) returns (out: Outcome)
      requires Inv(View())
      modifies this`connections
      ensures (View(), out) == Step(old(View()), Callback(nonce, realm, keyed, exchanged))
      ensures Inv(View())
    {
      StepKeepsInv(View(), Callback(nonce, realm, keyed, exchanged));
      LookupIs(View(), nonce);
      var connection := FindState(nonce);
      if connection.None? {
        return InvalidState;
      }
      if !keyed {
        return ConfigMissing;
      }
      if !exchanged {
        return ExchangeFailed;
      }
      CommitConnection(connection.value, realm);
      out := Connected(connection.value, nonce);
    }
  }
}
