/**
 Backoff spacing of the sync queue. The claim re-checks a job's status but not its schedule, so the
 spacing is a property of one scheduler whose runs do not overlap (`scheduleSyncJobWorker`), here one
 worker, with any producers beside it. With two workers it is false, and a run shows it.
 */
module SyncBackoff {
  import opened Prelude
  import opened SyncQueue

  /** The worker a statement belongs to, if any. */
  function WorkerOf(op: Op): Option<nat> {
    if op.Enqueue? || op.EnqueueFind? || op.EnqueueCreate? || op.Tick? then None else Some(op.w)
  }

  predicate WorkersBelow(ops: seq<Op>, n: nat) {
    forall i | 0 <= i < |ops| :: WorkerOf(ops[i]).Some? ==> WorkerOf(ops[i]).value < n
  }

  /** The delay after failure `k + 1`: the base, doubled k times. */
  function Wait(base: nat, k: nat): nat {
    if k == 0 then base else 2 * Wait(base, k - 1)
  }

  lemma {:induction false} WaitIsPower(base: nat, k: nat)
    ensures Wait(base, k) == base * Pow2(k) && Pow2(k) >= 1
  {
    if k > 0 {
      WaitIsPower(base, k - 1);
      assert base * (2 * Pow2(k - 1)) == 2 * (base * Pow2(k - 1));
    }
  }

  /** `retryDelayMs` of a positive attempt count is that delay. */
  lemma DelayDoubles(c: Config, attempt: nat)
    requires attempt >= 1
    ensures RetryDelay(c, attempt) == Wait(c.retryBaseMs, attempt - 1)
  {
    WaitIsPower(c.retryBaseMs, attempt - 1);
  }

  /** How a job's history fits its row. */
  ghost predicate History(c: Config, now: int, job: Job) {
    && |job.starts| == job.attempts
    && |job.fails| == (if job.status in {Processing, Completed} then job.attempts - 1 else job.attempts)
    && (forall k | 0 <= k < |job.starts| :: job.starts[k] <= now)
    && (forall k {:trigger job.starts[k]} | 0 <= k < |job.fails| :: job.starts[k] <= job.fails[k])
    && (forall k | 0 < k < |job.starts| :: job.starts[k] >= job.fails[k - 1] + Wait(c.retryBaseMs, k - 1))
    && (job.status == Pending && job.attempts > 0 ==>
          job.scheduledAt == Some(job.fails[job.attempts - 1] + Wait(c.retryBaseMs, job.attempts - 1)))
  }

  /** The scheduler's list names each job once, and what is still pending in it is due. */
  ghost predicate ListIsDue(s: State, p: Phase) {
    !p.Idle? ==>
      && Distinct(p.todo)
      && (forall i | 0 <= i < |p.todo| && p.todo[i] < |s.jobs| :: s.jobs[p.todo[i]].status == Pending ==> Due(s.jobs[p.todo[i]], s.now))
      && (!p.Looping? ==> p.job !in p.todo)
  }

  ghost predicate Solo(c: Config, s: State) {
    && Inv(c, s)
    && (forall w | w in s.workers :: w == 0)
    && (forall j | 0 <= j < |s.jobs| :: History(c, s.now, s.jobs[j]))
    && ListIsDue(s, PhaseOf(s, 0))
  }

  lemma ClaimKeepsHistory(c: Config, now: int, job: Job)
    requires JobInv(c, job) && History(c, now, job) && Due(job, now)
    ensures History(c, now, Claiming(job, now))
  {}

  lemma RetryKeepsHistory(c: Config, now: int, job: Job)
    requires JobInv(c, job) && History(c, now, job) && job.status == Processing
    ensures History(c, now, Retried(c, job, job.attempts, now))
  {
    DelayDoubles(c, job.attempts);
  }

  lemma ClaimKeepsSolo(c: Config, s: State)
    requires Solo(c, s) && c.maxAttempts > 0
    ensures Solo(c, Step(c, s, Claim(0)))
  {
    var p := PhaseOf(s, 0);
    StepKeepsInv(c, s, Claim(0));
    if p.Looping? && p.todo != [] {
      assert PhaseInv(s, p);
      var j := p.todo[0];
      var rest := p.todo[1..];
      assert forall i | 0 <= i < |rest| :: rest[i] == p.todo[i + 1];
      assert History(c, s.now, s.jobs[j]) && JobInv(c, s.jobs[j]);
      if s.jobs[j].status == Pending {
        assert Due(s.jobs[j], s.now);
        ClaimKeepsHistory(c, s.now, s.jobs[j]);
      }
    }
  }

  lemma CompleteKeepsSolo(c: Config, s: State, throws: bool)
    requires Solo(c, s) && c.maxAttempts > 0
    ensures Solo(c, Step(c, s, Complete(0, throws)))
  {
    var p := PhaseOf(s, 0);
    StepKeepsInv(c, s, Complete(0, throws));
    assert PhaseInv(s, p);
    if p.Decided? {
      assert History(c, s.now, s.jobs[p.job]) && JobInv(c, s.jobs[p.job]);
    }
  }

  lemma MarkFailedKeepsSolo(c: Config, s: State, throws: bool)
    requires Solo(c, s) && c.maxAttempts > 0
    ensures Solo(c, Step(c, s, MarkFailed(0, throws)))
  {
    var p := PhaseOf(s, 0);
    StepKeepsInv(c, s, MarkFailed(0, throws));
    assert PhaseInv(s, p);
    if p.Failing? {
      assert History(c, s.now, s.jobs[p.job]) && JobInv(c, s.jobs[p.job]);
      RetryKeepsHistory(c, s.now, s.jobs[p.job]);
    }
  }

  lemma ProducerKeepsSolo(c: Config, s: State, op: Op)
    requires Solo(c, s) && c.maxAttempts > 0 && WorkerOf(op).None?
    ensures Solo(c, Step(c, s, op))
  {
    StepKeepsInv(c, s, op);
    assert PhaseInv(s, PhaseOf(s, 0));
  }

  lemma StepKeepsSolo(c: Config, s: State, op: Op)
    requires Solo(c, s) && c.maxAttempts > 0
    requires WorkerOf(op).Some? ==> WorkerOf(op).value == 0
    ensures Solo(c, Step(c, s, op))
  {
    if WorkerOf(op).None? {
      ProducerKeepsSolo(c, s, op);
    } else if op.Claim? {
      ClaimKeepsSolo(c, s);
    } else if op.Complete? {
      CompleteKeepsSolo(c, s, op.throws);
    } else if op.MarkFailed? {
      MarkFailedKeepsSolo(c, s, op.throws);
    } else {
      StepKeepsInv(c, s, op);
      assert PhaseInv(s, PhaseOf(s, 0));
    }
  }

  lemma {:induction false} RunKeepsSolo(c: Config, s: State, ops: seq<Op>)
    requires Solo(c, s) && c.maxAttempts > 0 && WorkersBelow(ops, 1)
    ensures Solo(c, Run(c, s, ops))
    decreases |ops|
  {
    if ops != [] {
      StepKeepsSolo(c, s, ops[0]);
      assert forall i | 0 <= i < |ops[1..]| :: ops[1..][i] == ops[i + 1];
      RunKeepsSolo(c, Step(c, s, ops[0]), ops[1..]);
    }
  }

  /** Attempt k + 1 starts no earlier than failure k plus the doubled delay, so the wait since the first
      failure grows as the sum of all delays. */
  ghost predicate Spaced(c: Config, job: Job) {
    && |job.starts| <= |job.fails| + 1
    && (forall k | 0 < k < |job.starts| :: job.starts[k] >= job.fails[k - 1] + c.retryBaseMs * Pow2(k - 1))
    && (forall k | 0 < k < |job.starts| :: job.starts[k] >= job.fails[0] + c.retryBaseMs * (Pow2(k) - 1))
  }

  lemma {:induction false} DelaysAddUp(c: Config, now: int, job: Job, k: nat)
    requires JobInv(c, job) && History(c, now, job) && 0 < k < |job.starts|
    ensures job.starts[k] >= job.fails[0] + Wait(c.retryBaseMs, k) - c.retryBaseMs
  {
    if k > 1 {
      DelaysAddUp(c, now, job, k - 1);
      assert job.fails[k - 1] >= job.starts[k - 1];
    }
    assert job.starts[k] >= job.fails[k - 1] + Wait(c.retryBaseMs, k - 1);
  }

  lemma HistoryIsSpaced(c: Config, now: int, job: Job)
    requires JobInv(c, job) && History(c, now, job)
    ensures Spaced(c, job)
  {
    var b := c.retryBaseMs;
    forall k | 0 < k < |job.starts|
      ensures job.starts[k] >= job.fails[k - 1] + b * Pow2(k - 1)
      ensures job.starts[k] >= job.fails[0] + b * (Pow2(k) - 1)
    {
      DelaysAddUp(c, now, job, k);
      WaitIsPower(b, k - 1);
      WaitIsPower(b, k);
      assert b * (Pow2(k) - 1) == b * Pow2(k) - b;
    }
  }

  ghost predicate AllSpaced(c: Config, s: State) {
    forall j | 0 <= j < |s.jobs| :: Spaced(c, s.jobs[j])
  }

  lemma OneSchedulerIsSpaced(c: Config, ops: seq<Op>)
    requires c.maxAttempts > 0 && WorkersBelow(ops, 1)
    ensures AllSpaced(c, Run(c, INIT, ops))
  {
    RunKeepsSolo(c, INIT, ops);
    var s := Run(c, INIT, ops);
    forall j | 0 <= j < |s.jobs| ensures Spaced(c, s.jobs[j]) {
      HistoryIsSpaced(c, s.now, s.jobs[j]);
    }
  }

  // ---------------------------------------------------------------- two workers

  const ANY_KEY := Key(0, None, Webhook, "a", 0)

  /** Both workers list the one job, and worker 0 claims it. */
  lemma BothListIt(c: Config) returns (ops: seq<Op>, s: State)
    ensures WorkersBelow(ops, 2) && s == Run(c, INIT, ops)
    ensures s == State(0, [Claiming(NewJob(INIT, ANY_KEY), 0)], map[0 := Claimed(0, []), 1 := Looping([0])], map[], [])
  {
    ops, s := Then(c, [], INIT, Enqueue(ANY_KEY));
    assert s == State(0, [NewJob(INIT, ANY_KEY)], map[], map[], []);
    var todo: seq<Jid> := [0];
    ops, s := Then(c, ops, s, Query(0, todo));
    assert s == State(0, [NewJob(INIT, ANY_KEY)], map[0 := Looping(todo)], map[], []);
    ops, s := Then(c, ops, s, Query(1, todo));
    assert s == State(0, [NewJob(INIT, ANY_KEY)], map[0 := Looping(todo), 1 := Looping(todo)], map[], []);
    ops, s := Then(c, ops, s, Claim(0));
    assert todo[1..] == [];
    assert s.jobs == [Claiming(NewJob(INIT, ANY_KEY), 0)];
  }

  /** Worker 0's handler throws, and the job goes back to pending. */
  lemma OneFailsIt(c: Config) returns (ops: seq<Op>, s: State, job: Job)
    requires c.maxAttempts >= 2
    ensures WorkersBelow(ops, 2) && s == Run(c, INIT, ops)
    ensures job.status == Pending && job.starts == [0] && job.fails == [0]
    ensures s == State(0, [job], map[0 := Looping([]), 1 := Looping([0])], map[], [])
  {
    ops, s := BothListIt(c);
    job := s.jobs[0];
    ops, s := Then(c, ops, s, ReadBack(0));
    ops, s := Then(c, ops, s, Handle(0, true));
    assert s == State(0, [job], map[0 := Failing(0, 1, []), 1 := Looping([0])], map[], []);
    ops, s := Then(c, ops, s, MarkFailed(0, false));
    job := Retried(c, job, 1, 0);
  }

  /** Worker 1 then claims it from its stale list at once. */
  lemma StaleListStartsEarly(c: Config) returns (ops: seq<Op>)
    requires c.maxAttempts >= 2 && c.retryBaseMs > 0
    ensures WorkersBelow(ops, 2) && !AllSpaced(c, Run(c, INIT, ops))
  {
    var s: State, job: Job;
    ops, s, job := OneFailsIt(c);
    ops, s := Then(c, ops, s, Claim(1));
    assert s.jobs == [Claiming(job, 0)];
    SecondStartIsEarly(c, s.jobs[0]);
  }

  lemma SecondStartIsEarly(c: Config, job: Job)
    requires c.retryBaseMs > 0 && job.starts == [0, 0] && job.fails == [0]
    ensures !Spaced(c, job)
  {
    var k := 1;
    WaitIsPower(c.retryBaseMs, k - 1);
    assert job.starts[k] < job.fails[k - 1] + c.retryBaseMs * Pow2(k - 1);
  }

  /** Every recorded start is an attempt. */
  ghost predicate StartsCounted(s: State) { forall j | 0 <= j < |s.jobs| :: |s.jobs[j].starts| == s.jobs[j].attempts }

  lemma StepCountsStarts(c: Config, s: State, op: Op)
    requires StartsCounted(s)
    ensures StartsCounted(Step(c, s, op))
  {}

  lemma {:induction false} RunCountsStarts(c: Config, s: State, ops: seq<Op>)
    requires StartsCounted(s)
    ensures StartsCounted(Run(c, s, ops))
    decreases |ops|
  {
    if ops != [] {
      StepCountsStarts(c, s, ops[0]);
      RunCountsStarts(c, Step(c, s, ops[0]), ops[1..]);
    }
  }

  /** With a single attempt nothing is ever retried. */
  lemma OneAttemptIsSpaced(c: Config, ops: seq<Op>)
    requires c.maxAttempts == 1
    ensures AllSpaced(c, Run(c, INIT, ops))
  {
    RunKeepsInv(c, INIT, ops);
    RunCountsStarts(c, INIT, ops);
  }

  /** Backoff spacing holds of every run of `n` workers exactly when there is at most one, or nothing is retried. */
  lemma SpacingIff(c: Config, n: nat)
    requires c.maxAttempts >= 1 && c.retryBaseMs > 0
    ensures (forall ops | WorkersBelow(ops, n) :: AllSpaced(c, Run(c, INIT, ops))) <==> n <= 1 || c.maxAttempts == 1
  {
    if c.maxAttempts == 1 {
      forall ops | WorkersBelow(ops, n) ensures AllSpaced(c, Run(c, INIT, ops)) {
        OneAttemptIsSpaced(c, ops);
      }
    } else if n <= 1 {
      forall ops | WorkersBelow(ops, n) ensures AllSpaced(c, Run(c, INIT, ops)) {
        assert WorkersBelow(ops, 1);
        OneSchedulerIsSpaced(c, ops);
      }
    } else {
      var ops := StaleListStartsEarly(c);
      assert WorkersBelow(ops, n) && !AllSpaced(c, Run(c, INIT, ops));
    }
  }
}
