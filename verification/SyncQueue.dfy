/**
 The sync job queue (`syncJobs.ts`) and its producer (`handleQuickBooksWebhook`): any number of workers,
 each at some statement of `processPendingSyncJobs`, interleaved statement by statement with each other
 and with the producers. A database statement either happens or throws without effect; a worker can
 also stop dead anywhere.

 Jobs are never deleted: a job's id is its index. `starts`, `fails` and `processed` are the history the
 theorems speak of; no step reads them.
 */
module SyncQueue {
  import opened Prelude

  type Jid = nat

  datatype Config = Config(maxAttempts: nat, retryBaseMs: nat)

  datatype Kind = Webhook | Manual
  datatype Status = Pending | Processing | Completed | Failed

  /** Organization, connection, type and payload; the payload is its idempotency key ("" when it has
      none) and the event it wraps. */
  datatype Key = Key(org: nat, connection: Option<nat>, kind: Kind, idem: string, event: nat)

  datatype Job = Job(
    key: Key, status: Status, attempts: nat, scheduledAt: Option<int>, starts: seq<int>, fails: seq<int>)

  /** Where a worker stands. `attempts` is what it read back after its claim. */
  datatype Phase =
    | Idle
    | Looping(todo: seq<Jid>)
    | Claimed(job: Jid, todo: seq<Jid>)
    | Running(job: Jid, attempts: nat, todo: seq<Jid>)
    | Decided(job: Jid, attempts: nat, duplicate: bool, todo: seq<Jid>)
    | Failing(job: Jid, attempts: nat, todo: seq<Jid>)
  {
    predicate Owns(j: Jid) { !Idle? && !Looping? && job == j }
  }

  datatype State = State(
    now: int, jobs: seq<Job>, workers: map<nat, Phase>, finders: map<nat, Key>, processed: seq<Jid>)

  datatype Op =
    | Query(w: nat, todo: seq<Jid>)
    | Claim(w: nat)
    | ReadBack(w: nat)
    | Handle(w: nat, throws: bool)
    | Complete(w: nat, throws: bool)
    | MarkFailed(w: nat, throws: bool)
    | EndRun(w: nat)
    | Crash(w: nat)
    | Enqueue(key: Key)
    | EnqueueFind(call: nat, key: Key)
    | EnqueueCreate(call: nat)
    | Tick(ms: nat)

  const INIT := State(0, [], map[], map[], [])

  function PhaseOf(s: State, w: nat): Phase {
    if w in s.workers then s.workers[w] else Idle
  }

  function At(s: State, w: nat, p: Phase): State { s.(workers := s.workers[w := p]) }

  function Pow2(n: nat): nat { if n == 0 then 1 else 2 * Pow2(n - 1) }

  /** `retryBaseMs * max(1, 2 ** max(0, attempt - 1))`. */
  function RetryDelay(c: Config, attempt: int): nat {
    var p := Pow2(if attempt >= 1 then attempt - 1 else 0);
    c.retryBaseMs * (if p > 1 then p else 1)
  }

  predicate Due(job: Job, now: int) {
    job.status == Pending && (job.scheduledAt.None? || job.scheduledAt.value <= now)
  }

  predicate Distinct(todo: seq<Jid>) {
    forall i, j | 0 <= i < j < |todo| :: todo[i] != todo[j]
  }

  /** What the candidate query may return: distinct due jobs. (Which of them, and in what order, is left open.) */
  predicate Candidates(s: State, todo: seq<Jid>) {
    Distinct(todo) && forall i | 0 <= i < |todo| :: todo[i] < |s.jobs| && Due(s.jobs[todo[i]], s.now)
  }

  /** Another completed job of the same organization, connection, type and payload. */
  predicate HasDuplicate(s: State, j: Jid)
    requires j < |s.jobs|
  {
    && s.jobs[j].key.idem != ""
    && exists k | 0 <= k < |s.jobs| :: k != j && s.jobs[k].status == Completed && s.jobs[k].key == s.jobs[j].key
  }

  /** The producer's check: an unfailed job with the same payload. */
  predicate AlreadyQueued(s: State, key: Key) {
    exists k | 0 <= k < |s.jobs| :: s.jobs[k].key == key && s.jobs[k].status != Failed
  }

  function NewJob(s: State, key: Key): Job { Job(key, Pending, 0, Some(s.now), [], []) }

  function SetJob(s: State, j: Jid, job: Job): State
    requires j < |s.jobs|
  {
    s.(jobs := s.jobs[j := job])
  }

  function Claiming(job: Job, now: int): Job {
    job.(status := Processing, attempts := job.attempts + 1, starts := job.starts + [now])
  }

  /** The row `markFailed` leaves, given the attempt count the worker read. */
  function Retried(c: Config, job: Job, attempts: nat, now: int): Job {
    if attempts < c.maxAttempts
    then job.(status := Pending, scheduledAt := Some(now + RetryDelay(c, attempts)), fails := job.fails + [now])
    else job.(status := Failed, fails := job.fails + [now])
  }

  function WorkerStep(c: Config, s: State, op: Op): State
    requires op.Query? || op.Claim? || op.ReadBack? || op.Handle? || op.Complete? || op.MarkFailed?
             || op.EndRun? || op.Crash?
  {
    var p := PhaseOf(s, op.w);
    match op
    case Query(w, todo) => if p.Idle? && Candidates(s, todo) then At(s, w, Looping(todo)) else s
    case Claim(w) =>
      if !p.Looping? || p.todo == [] || p.todo[0] >= |s.jobs| then s
      else if s.jobs[p.todo[0]].status != Pending then At(s, w, Looping(p.todo[1..]))
      else At(SetJob(s, p.todo[0], Claiming(s.jobs[p.todo[0]], s.now)), w, Claimed(p.todo[0], p.todo[1..]))
    case ReadBack(w) =>
      if !p.Claimed? || p.job >= |s.jobs| then s
      else At(s, w, Running(p.job, s.jobs[p.job].attempts, p.todo))
    case Handle(w, throws) =>
      if !p.Running? || p.job >= |s.jobs| then s
      else if throws || s.jobs[p.job].key.kind == Manual then At(s, w, Failing(p.job, p.attempts, p.todo))
      else At(s, w, Decided(p.job, p.attempts, HasDuplicate(s, p.job), p.todo))
    case Complete(w, throws) =>
      if !p.Decided? || p.job >= |s.jobs| then s
      else if throws then At(s, w, Failing(p.job, p.attempts, p.todo))
      else
        At(SetJob(s, p.job, s.jobs[p.job].(status := Completed)), w, Looping(p.todo))
        .(processed := if p.duplicate then s.processed else s.processed + [p.job])
    case MarkFailed(w, throws) =>
      if !p.Failing? || p.job >= |s.jobs| then s
      else if throws then At(s, w, Idle)
      else At(SetJob(s, p.job, Retried(c, s.jobs[p.job], p.attempts, s.now)), w, Looping(p.todo))
    case EndRun(w) => if p.Looping? && p.todo == [] then At(s, w, Idle) else s
    case Crash(w) => At(s, w, Idle)
  }

  function Step(c: Config, s: State, op: Op): State {
    match op
    case Enqueue(key) => if AlreadyQueued(s, key) then s else s.(jobs := s.jobs + [NewJob(s, key)])
    case EnqueueFind(call, key) => if AlreadyQueued(s, key) then s else s.(finders := s.finders[call := key])
    case EnqueueCreate(call) =>
      if call !in s.finders then s
      else s.(jobs := s.jobs + [NewJob(s, s.finders[call])], finders := s.finders - {call})
    case Tick(ms) => s.(now := s.now + ms)
    case _ => WorkerStep(c, s, op)
  }

  function Run(c: Config, s: State, ops: seq<Op>): State
    decreases |ops|
  {
    if ops == [] then s else Run(c, Step(c, s, ops[0]), ops[1..])
  }

  lemma {:induction false} RunAppend(c: Config, s: State, xs: seq<Op>, ys: seq<Op>)
    ensures Run(c, s, xs + ys) == Run(c, Run(c, s, xs), ys)
    decreases |xs|
  {
    if xs == [] {
      assert xs + ys == ys;
    } else {
      assert (xs + ys)[1..] == xs[1..] + ys;
      RunAppend(c, Step(c, s, xs[0]), xs[1..], ys);
    }
  }

  lemma RunOneMore(c: Config, s: State, xs: seq<Op>, op: Op)
    ensures Run(c, s, xs + [op]) == Step(c, Run(c, s, xs), op)
  {
    RunAppend(c, s, xs, [op]);
    assert [op][1..] == [];
    assert Run(c, Run(c, s, xs), [op]) == Run(c, Step(c, Run(c, s, xs), op), []);
  }

  /** Extend a run from the empty queue by one statement; concrete runs are built with this. */
  lemma Then(c: Config, ops: seq<Op>, s: State, op: Op) returns (ops1: seq<Op>, s1: State)
    requires s == Run(c, INIT, ops)
    ensures ops1 == ops + [op] && s1 == Step(c, s, op) == Run(c, INIT, ops1)
  {
    RunOneMore(c, INIT, ops, op);
    ops1, s1 := ops + [op], Step(c, s, op);
  }

  // ---------------------------------------------------------------- safety for any number of workers

  ghost predicate JobInv(c: Config, job: Job) {
    match job.status
    case Pending => job.attempts < c.maxAttempts
    case Processing => 1 <= job.attempts <= c.maxAttempts
    case Completed => 1 <= job.attempts <= c.maxAttempts
    case Failed => job.attempts == c.maxAttempts
  }

  ghost predicate PhaseInv(s: State, p: Phase) {
    && (!p.Idle? ==> forall i | 0 <= i < |p.todo| :: p.todo[i] < |s.jobs|)
    && (!p.Idle? && !p.Looping? ==> p.job < |s.jobs| && s.jobs[p.job].status == Processing)
    && (p.Running? || p.Decided? || p.Failing? ==> p.attempts == s.jobs[p.job].attempts)
  }

  /** A job being processed has at most one owner. */
  ghost predicate OneOwner(s: State) {
    forall v, w, j | v in s.workers && w in s.workers && s.workers[v].Owns(j) && s.workers[w].Owns(j) :: v == w
  }

  ghost predicate Inv(c: Config, s: State) {
    && (forall j | 0 <= j < |s.jobs| :: JobInv(c, s.jobs[j]))
    && (forall w | w in s.workers :: PhaseInv(s, s.workers[w]))
    && OneOwner(s)
  }

  /** Rewriting one job keeps the invariant when it stays legal and its owner, if any, is the worker at hand. */
  lemma SetKeepsInv(c: Config, s: State, w: nat, j: Jid, job: Job, p: Phase)
    requires Inv(c, s) && j < |s.jobs| && JobInv(c, job)
    requires PhaseInv(SetJob(s, j, job), p)
    requires forall v | v in s.workers && v != w :: !s.workers[v].Owns(j)
    requires forall k | p.Owns(k) :: k == j || (w in s.workers && s.workers[w].Owns(k))
    ensures Inv(c, At(SetJob(s, j, job), w, p))
  {
    var s1 := At(SetJob(s, j, job), w, p);
    forall v | v in s1.workers ensures PhaseInv(s1, s1.workers[v]) {
      if v != w {
        assert PhaseInv(s, s.workers[v]);
      }
    }
  }

  lemma MoveKeepsInv(c: Config, s: State, w: nat, p: Phase)
    requires Inv(c, s) && PhaseInv(s, p)
    requires forall k | p.Owns(k) :: w in s.workers && s.workers[w].Owns(k)
    ensures Inv(c, At(s, w, p))
  {}

  lemma CreateKeepsInv(c: Config, s: State, key: Key)
    requires Inv(c, s) && c.maxAttempts > 0
    ensures Inv(c, s.(jobs := s.jobs + [NewJob(s, key)]))
  {
    var s1 := s.(jobs := s.jobs + [NewJob(s, key)]);
    forall w | w in s1.workers ensures PhaseInv(s1, s1.workers[w]) {
      assert PhaseInv(s, s.workers[w]);
    }
  }

  lemma ClaimKeepsInv(c: Config, s: State, w: nat)
    requires Inv(c, s)
    ensures Inv(c, Step(c, s, Claim(w)))
  {
    var p := PhaseOf(s, w);
    if p.Looping? && p.todo != [] {
      assert PhaseInv(s, p);
      var j := p.todo[0];
      if s.jobs[j].status == Pending {
        forall v | v in s.workers ensures !s.workers[v].Owns(j) { assert PhaseInv(s, s.workers[v]); }
        SetKeepsInv(c, s, w, j, Claiming(s.jobs[j], s.now), Claimed(j, p.todo[1..]));
      } else {
        MoveKeepsInv(c, s, w, Looping(p.todo[1..]));
      }
    }
  }

  lemma FinishKeepsInv(c: Config, s: State, op: Op)
    requires Inv(c, s) && (op.Complete? || op.MarkFailed?)
    ensures Inv(c, Step(c, s, op))
  {
    var w := op.w;
    var p := PhaseOf(s, w);
    if (op.Complete? && p.Decided?) || (op.MarkFailed? && p.Failing?) {
      assert PhaseInv(s, p) && JobInv(c, s.jobs[p.job]) && p.Owns(p.job);
      if op.throws {
        MoveKeepsInv(c, s, w, if op.Complete? then Failing(p.job, p.attempts, p.todo) else Idle);
      } else {
        var job := if op.Complete? then s.jobs[p.job].(status := Completed)
                   else Retried(c, s.jobs[p.job], p.attempts, s.now);
        SetKeepsInv(c, s, w, p.job, job, Looping(p.todo));
      }
    }
  }

  lemma StepKeepsInv(c: Config, s: State, op: Op)
    requires Inv(c, s) && c.maxAttempts > 0
    ensures Inv(c, Step(c, s, op))
  {
    match op
    case Enqueue(key) => CreateKeepsInv(c, s, key);
    case EnqueueFind(_, _) =>
    case EnqueueCreate(call) => if call in s.finders { CreateKeepsInv(c, s, s.finders[call]); }
    case Tick(_) =>
    case Claim(w) => ClaimKeepsInv(c, s, w);
    case Complete(_, _) => FinishKeepsInv(c, s, op);
    case MarkFailed(_, _) => FinishKeepsInv(c, s, op);
    case _ =>
      var p := PhaseOf(s, op.w);
      assert PhaseInv(s, p);
      if Step(c, s, op) != s { MoveKeepsInv(c, s, op.w, PhaseOf(Step(c, s, op), op.w)); }
  }

  lemma {:induction false} RunKeepsInv(c: Config, s: State, ops: seq<Op>)
    requires Inv(c, s) && c.maxAttempts > 0
    ensures Inv(c, Run(c, s, ops))
    decreases |ops|
  {
    if ops != [] {
      StepKeepsInv(c, s, ops[0]);
      RunKeepsInv(c, Step(c, s, ops[0]), ops[1..]);
    }
  }

  /** Queue safety, over every interleaving from the empty queue. */
  lemma QueueIsSafe(c: Config, ops: seq<Op>, j: Jid, v: nat, w: nat)
    requires c.maxAttempts > 0 && j < |Run(c, INIT, ops).jobs|
    ensures var s := Run(c, INIT, ops);
            && (PhaseOf(s, v).Owns(j) && PhaseOf(s, w).Owns(j) ==> v == w)
            && (PhaseOf(s, v).Owns(j) ==> s.jobs[j].status == Processing)
            && (s.jobs[j].status == Pending ==> s.jobs[j].attempts < c.maxAttempts)
            && (s.jobs[j].status == Failed ==> s.jobs[j].attempts == c.maxAttempts)
            && s.jobs[j].attempts <= c.maxAttempts
  {
    RunKeepsInv(c, INIT, ops);
    var s := Run(c, INIT, ops);
    assert v in s.workers ==> PhaseInv(s, s.workers[v]);
    assert JobInv(c, s.jobs[j]);
  }

  lemma FinishedStep(c: Config, s: State, op: Op, j: Jid)
    requires Inv(c, s) && j < |s.jobs| && s.jobs[j].status in {Completed, Failed}
    ensures j < |Step(c, s, op).jobs| && Step(c, s, op).jobs[j] == s.jobs[j]
  {
    if op.Complete? || op.MarkFailed? {
      assert PhaseInv(s, PhaseOf(s, op.w));
    }
  }

  /** Completed and failed rows never change again. */
  lemma {:induction false} FinishedIsFinal(c: Config, s: State, ops: seq<Op>, j: Jid)
    requires Inv(c, s) && c.maxAttempts > 0 && j < |s.jobs| && s.jobs[j].status in {Completed, Failed}
    ensures j < |Run(c, s, ops).jobs| && Run(c, s, ops).jobs[j] == s.jobs[j]
    decreases |ops|
  {
    if ops != [] {
      FinishedStep(c, s, ops[0], j);
      StepKeepsInv(c, s, ops[0]);
      FinishedIsFinal(c, Step(c, s, ops[0]), ops[1..], j);
    }
  }

  /** A job being processed by no worker. */
  ghost predicate Orphan(s: State, j: Jid) {
    j < |s.jobs| && s.jobs[j].status == Processing && forall w | w in s.workers :: !s.workers[w].Owns(j)
  }

  lemma OrphanStep(c: Config, s: State, op: Op, j: Jid)
    requires Orphan(s, j)
    ensures Orphan(Step(c, s, op), j) && Step(c, s, op).jobs[j] == s.jobs[j]
  {}

  /** A worker that stops dead leaves its job being processed, and no later run ever touches it again. */
  lemma {:induction false} CrashOrphans(c: Config, s: State, w: nat, ops: seq<Op>, j: Jid)
    requires Inv(c, s) && (PhaseOf(s, w).Owns(j) || Orphan(s, j))
    ensures var t := Step(c, s, Crash(w));
            && PhaseOf(t, w).Idle? && t.jobs == s.jobs
            && Orphan(Run(c, t, ops), j) && Run(c, t, ops).jobs[j] == s.jobs[j]
  {
    assert w in s.workers ==> PhaseInv(s, s.workers[w]);
    OrphanStays(c, Step(c, s, Crash(w)), ops, j);
  }

  lemma {:induction false} OrphanStays(c: Config, s: State, ops: seq<Op>, j: Jid)
    requires Orphan(s, j)
    ensures Orphan(Run(c, s, ops), j) && Run(c, s, ops).jobs[j] == s.jobs[j]
    decreases |ops|
  {
    if ops != [] {
      OrphanStep(c, s, ops[0], j);
      OrphanStays(c, Step(c, s, ops[0]), ops[1..], j);
    }
  }

  // ---------------------------------------------------------------- bounded work

  /** All attempts the table records. */
  function Attempts(jobs: seq<Job>): nat {
    if jobs == [] then 0 else Attempts(jobs[..|jobs| - 1]) + jobs[|jobs| - 1].attempts
  }

  lemma {:induction false} AttemptsUpdate(jobs: seq<Job>, j: nat, job: Job)
    requires j < |jobs|
    ensures Attempts(jobs[j := job]) == Attempts(jobs) - jobs[j].attempts + job.attempts
  {
    var n := |jobs| - 1;
    if j < n {
      AttemptsUpdate(jobs[..n], j, job);
      assert jobs[j := job][..n] == jobs[..n][j := job];
    } else {
      assert jobs[j := job][..n] == jobs[..n];
    }
  }

  lemma AttemptsAppend(jobs: seq<Job>, job: Job)
    ensures Attempts(jobs + [job]) == Attempts(jobs) + job.attempts
  {
    assert (jobs + [job])[..|jobs|] == jobs;
  }

  lemma {:induction false} AttemptsBound(c: Config, jobs: seq<Job>)
    requires forall j | 0 <= j < |jobs| :: JobInv(c, jobs[j])
    ensures Attempts(jobs) <= c.maxAttempts * |jobs|
  {
    if jobs != [] {
      AttemptsBound(c, jobs[..|jobs| - 1]);
      assert JobInv(c, jobs[|jobs| - 1]);
      assert c.maxAttempts * |jobs| == c.maxAttempts * (|jobs| - 1) + c.maxAttempts;
    }
  }

  predicate Claims(s: State, op: Op) {
    op.Claim? && var p := PhaseOf(s, op.w);
                 p.Looping? && p.todo != [] && p.todo[0] < |s.jobs| && s.jobs[p.todo[0]].status == Pending
  }

  function ClaimCount(c: Config, s: State, ops: seq<Op>): nat
    decreases |ops|
  {
    if ops == [] then 0 else (if Claims(s, ops[0]) then 1 else 0) + ClaimCount(c, Step(c, s, ops[0]), ops[1..])
  }

  lemma StepCounts(c: Config, s: State, op: Op)
    ensures Attempts(Step(c, s, op).jobs) == Attempts(s.jobs) + if Claims(s, op) then 1 else 0
  {
    match op
    case Enqueue(key) => AttemptsAppend(s.jobs, NewJob(s, key));
    case EnqueueCreate(call) => if call in s.finders { AttemptsAppend(s.jobs, NewJob(s, s.finders[call])); }
    case EnqueueFind(_, _) =>
    case Tick(_) =>
    case Claim(w) =>
      if Claims(s, op) {
        var j := PhaseOf(s, w).todo[0];
        AttemptsUpdate(s.jobs, j, Claiming(s.jobs[j], s.now));
      }
    case Complete(w, _) =>
      var p := PhaseOf(s, w);
      if p.Decided? && p.job < |s.jobs| { AttemptsUpdate(s.jobs, p.job, s.jobs[p.job].(status := Completed)); }
    case MarkFailed(w, _) =>
      var p := PhaseOf(s, w);
      if p.Failing? && p.job < |s.jobs| { AttemptsUpdate(s.jobs, p.job, Retried(c, s.jobs[p.job], p.attempts, s.now)); }
    case _ =>
  }

  /** Every claim is recorded as exactly one attempt, and nothing else is. */
  lemma {:induction false} ClaimsAreRecorded(c: Config, s: State, ops: seq<Op>)
    ensures Attempts(Run(c, s, ops).jobs) == Attempts(s.jobs) + ClaimCount(c, s, ops)
    decreases |ops|
  {
    if ops != [] {
      StepCounts(c, s, ops[0]);
      ClaimsAreRecorded(c, Step(c, s, ops[0]), ops[1..]);
    }
  }

  /** However the workers are interleaved, the queue hands out at most `maxAttempts` claims per job: each
      claim takes one from the sum of `maxAttempts - attempts`, which never goes below zero. */
  lemma ClaimsAreBounded(c: Config, ops: seq<Op>)
    requires c.maxAttempts > 0
    ensures var jobs := Run(c, INIT, ops).jobs;
            ClaimCount(c, INIT, ops) == Attempts(jobs) <= c.maxAttempts * |jobs|
  {
    RunKeepsInv(c, INIT, ops);
    ClaimsAreRecorded(c, INIT, ops);
    AttemptsBound(c, Run(c, INIT, ops).jobs);
  }
}
