/**
 Duplicate suppression in the sync queue: the producer looks for an unfailed job before it creates one,
 and the handler looks for a completed one before it processes. Either can race. Each payload is
 processed at most once when one of the two races is excluded, and not otherwise.
 */
module SyncDedup {
  import opened Prelude
  import opened SyncQueue
  import opened SyncBackoff

  predicate AtomicEnqueue(ops: seq<Op>) {
    forall i | 0 <= i < |ops| :: !ops[i].EnqueueFind? && !ops[i].EnqueueCreate?
  }

  /** At most one job of each identifiable payload has completed as "processed". */
  ghost predicate ProcessedOnce(s: State) {
    forall i, j | 0 <= i < j < |s.processed| && s.processed[i] < |s.jobs| && s.processed[j] < |s.jobs| ::
      s.jobs[s.processed[i]].key.idem != "" ==> s.jobs[s.processed[i]].key != s.jobs[s.processed[j]].key
  }

  ghost predicate ProcessedCompleted(s: State) {
    forall i | 0 <= i < |s.processed| :: s.processed[i] < |s.jobs| && s.jobs[s.processed[i]].status == Completed
  }

  // ---------------------------------------------------------------- one scheduler, racing producers

  /** While the only worker holds a "not a duplicate" verdict, no other job of that payload is completed. */
  ghost predicate VerdictHolds(s: State, p: Phase) {
    p.Decided? && !p.duplicate && p.job < |s.jobs| ==> !HasDuplicate(s, p.job)
  }

  ghost predicate SoloOnce(c: Config, s: State) {
    && Inv(c, s)
    && (forall w | w in s.workers :: w == 0)
    && VerdictHolds(s, PhaseOf(s, 0))
    && ProcessedCompleted(s) && ProcessedOnce(s)
  }

  lemma CompleteOnce(c: Config, s: State, throws: bool)
    requires SoloOnce(c, s) && c.maxAttempts > 0
    ensures SoloOnce(c, Step(c, s, Complete(0, throws)))
  {
    var p := PhaseOf(s, 0);
    StepKeepsInv(c, s, Complete(0, throws));
    assert PhaseInv(s, p);
    if p.Decided? && !throws && !p.duplicate {
      var key := s.jobs[p.job].key;
      forall i | 0 <= i < |s.processed| ensures key.idem != "" ==> s.jobs[s.processed[i]].key != key {
        assert s.jobs[s.processed[i]].status == Completed;
      }
    }
  }

  /** Claiming or failing a job completes nothing and disturbs no verdict. */
  lemma UnfinishedOnce(c: Config, s: State, op: Op)
    requires SoloOnce(c, s) && c.maxAttempts > 0 && (op.Claim? || op.MarkFailed?) && op.w == 0
    ensures SoloOnce(c, Step(c, s, op))
  {
    StepKeepsInv(c, s, op);
    assert PhaseInv(s, PhaseOf(s, 0));
    SameOutcomes(s, Step(c, s, op));
  }

  /** Only rows that are not completed have changed, and keys never do. */
  lemma SameOutcomes(s: State, s1: State)
    requires ProcessedCompleted(s) && s1.processed == s.processed && |s.jobs| <= |s1.jobs|
    requires forall j | 0 <= j < |s.jobs| :: s1.jobs[j].key == s.jobs[j].key
    requires forall j | 0 <= j < |s.jobs| && s.jobs[j].status == Completed :: s1.jobs[j].status == Completed
    ensures ProcessedCompleted(s1)
    ensures ProcessedOnce(s) ==> ProcessedOnce(s1)
  {
    forall i | 0 <= i < |s.processed| ensures s.processed[i] < |s.jobs| && s1.jobs[s.processed[i]].status == Completed {
      assert s.jobs[s.processed[i]].status == Completed;
    }
  }

  lemma CreateOnce(c: Config, s: State, key: Key)
    requires SoloOnce(c, s) && c.maxAttempts > 0
    ensures SoloOnce(c, s.(jobs := s.jobs + [NewJob(s, key)]))
  {
    var s1 := s.(jobs := s.jobs + [NewJob(s, key)]);
    CreateKeepsInv(c, s, key);
    SameOutcomes(s, s1);
    assert PhaseInv(s, PhaseOf(s, 0));
  }

  lemma StepKeepsSoloOnce(c: Config, s: State, op: Op)
    requires SoloOnce(c, s) && c.maxAttempts > 0
    requires WorkerOf(op).Some? ==> WorkerOf(op).value == 0
    ensures SoloOnce(c, Step(c, s, op))
  {
    if op.Complete? {
      CompleteOnce(c, s, op.throws);
    } else if op.Claim? || op.MarkFailed? {
      UnfinishedOnce(c, s, op);
    } else if op.Enqueue? {
      CreateOnce(c, s, op.key);
    } else if op.EnqueueCreate? {
      if op.call in s.finders { CreateOnce(c, s, s.finders[op.call]); }
    } else {
      StepKeepsInv(c, s, op);
      assert Step(c, s, op).jobs == s.jobs;
    }
  }

  lemma {:induction false} OneSchedulerProcessesOnce(c: Config, s: State, ops: seq<Op>)
    requires SoloOnce(c, s) && c.maxAttempts > 0 && WorkersBelow(ops, 1)
    ensures SoloOnce(c, Run(c, s, ops))
    decreases |ops|
  {
    if ops != [] {
      StepKeepsSoloOnce(c, s, ops[0]);
      assert forall i | 0 <= i < |ops[1..]| :: ops[1..][i] == ops[i + 1];
      OneSchedulerProcessesOnce(c, Step(c, s, ops[0]), ops[1..]);
    }
  }

  // ---------------------------------------------------------------- any workers, atomic producers

  ghost predicate OneUnfailedPerKey(s: State) {
    forall i, j | 0 <= i < j < |s.jobs| && s.jobs[i].key == s.jobs[j].key ::
      s.jobs[i].status == Failed || s.jobs[j].status == Failed
  }

  ghost predicate CrowdOnce(c: Config, s: State) {
    && Inv(c, s) && OneUnfailedPerKey(s) && s.finders == map[]
    && ProcessedCompleted(s)
    && (forall i, j | 0 <= i < j < |s.processed| :: s.processed[i] != s.processed[j])
  }

  lemma CrowdFrame(c: Config, s: State, s1: State)
    requires CrowdOnce(c, s) && Inv(c, s1) && s1.finders == map[] && s1.processed == s.processed && |s1.jobs| == |s.jobs|
    requires forall j | 0 <= j < |s.jobs| :: s1.jobs[j].key == s.jobs[j].key
    requires forall j | 0 <= j < |s.jobs| && s.jobs[j].status in {Completed, Failed} :: s1.jobs[j].status == s.jobs[j].status
    ensures CrowdOnce(c, s1)
  {
    SameOutcomes(s, s1);
    forall i, j | 0 <= i < j < |s1.jobs| && s1.jobs[i].key == s1.jobs[j].key
      ensures s1.jobs[i].status == Failed || s1.jobs[j].status == Failed
    {
      assert s.jobs[i].key == s.jobs[j].key;
    }
  }

  lemma CompleteInCrowd(c: Config, s: State, w: nat, throws: bool)
    requires CrowdOnce(c, s) && c.maxAttempts > 0
    ensures CrowdOnce(c, Step(c, s, Complete(w, throws)))
  {
    var s1 := Step(c, s, Complete(w, throws));
    StepKeepsInv(c, s, Complete(w, throws));
    assert PhaseInv(s, PhaseOf(s, w));
    CrowdFrame(c, s, s1.(processed := s.processed));
    assert forall i | 0 <= i < |s.processed| :: s.jobs[s.processed[i]].status == Completed;
  }

  lemma EnqueueInCrowd(c: Config, s: State, key: Key)
    requires CrowdOnce(c, s) && c.maxAttempts > 0
    ensures CrowdOnce(c, Step(c, s, Enqueue(key)))
  {
    var s1 := Step(c, s, Enqueue(key));
    if !AlreadyQueued(s, key) {
      CreateKeepsInv(c, s, key);
      SameOutcomes(s, s1);
      assert forall i | 0 <= i < |s.jobs| && s.jobs[i].key == key :: s.jobs[i].status == Failed;
    }
  }

  lemma StepKeepsCrowdOnce(c: Config, s: State, op: Op)
    requires CrowdOnce(c, s) && c.maxAttempts > 0 && !op.EnqueueFind? && !op.EnqueueCreate?
    ensures CrowdOnce(c, Step(c, s, op))
  {
    if op.Complete? {
      CompleteInCrowd(c, s, op.w, op.throws);
    } else if op.Enqueue? {
      EnqueueInCrowd(c, s, op.key);
    } else {
      StepKeepsInv(c, s, op);
      if op.MarkFailed? {
        assert PhaseInv(s, PhaseOf(s, op.w));
      }
      CrowdFrame(c, s, Step(c, s, op));
    }
  }

  /** With an atomic find-then-create, over every interleaving of any number of workers. */
  lemma {:induction false} OneUnfailedJobPerPayload(c: Config, s: State, ops: seq<Op>)
    requires CrowdOnce(c, s) && c.maxAttempts > 0 && AtomicEnqueue(ops)
    ensures CrowdOnce(c, Run(c, s, ops))
    decreases |ops|
  {
    if ops != [] {
      StepKeepsCrowdOnce(c, s, ops[0]);
      assert forall i | 0 <= i < |ops[1..]| :: ops[1..][i] == ops[i + 1];
      OneUnfailedJobPerPayload(c, Step(c, s, ops[0]), ops[1..]);
    }
  }

  lemma UnfailedMeansOnce(c: Config, s: State)
    requires CrowdOnce(c, s)
    ensures ProcessedOnce(s)
  {
    forall i, j | 0 <= i < j < |s.processed| && s.jobs[s.processed[i]].key.idem != ""
      ensures s.jobs[s.processed[i]].key != s.jobs[s.processed[j]].key
    {
      assert s.processed[i] != s.processed[j];
      assert s.jobs[s.processed[i]].status == Completed && s.jobs[s.processed[j]].status == Completed;
    }
  }

  // ---------------------------------------------------------------- both races

  /** Two producers both find nothing and both create: two pending jobs of one payload. */
  lemma RacingProducers(c: Config) returns (ops: seq<Op>, s: State)
    ensures WorkersBelow(ops, 0) && s == Run(c, INIT, ops)
    ensures s == State(0, [NewJob(INIT, ANY_KEY), NewJob(INIT, ANY_KEY)], map[], map[], [])
    ensures !OneUnfailedPerKey(s)
  {
    ops, s := Then(c, [], INIT, EnqueueFind(0, ANY_KEY));
    ops, s := Then(c, ops, s, EnqueueFind(1, ANY_KEY));
    assert s == State(0, [], map[], map[0 := ANY_KEY, 1 := ANY_KEY], []);
    ops, s := Then(c, ops, s, EnqueueCreate(0));
    ops, s := Then(c, ops, s, EnqueueCreate(1));
    var i, j := 0, 1;
    assert s.jobs[i].key == s.jobs[j].key;
  }

  /** Worker `w` claims the pending job `j`. */
  lemma TakeUp(c: Config, ops0: seq<Op>, s0: State, w: nat, j: Jid) returns (ops: seq<Op>, s: State)
    requires s0 == Run(c, INIT, ops0) && WorkersBelow(ops0, 2) && w < 2
    requires PhaseOf(s0, w) == Idle && j < |s0.jobs| && Due(s0.jobs[j], s0.now)
    ensures s == Run(c, INIT, ops) && WorkersBelow(ops, 2)
    ensures s == At(SetJob(s0, j, Claiming(s0.jobs[j], s0.now)), w, Claimed(j, []))
  {
    var todo: seq<Jid> := [j];
    ops, s := Then(c, ops0, s0, Query(w, todo));
    assert s == At(s0, w, Looping(todo));
    ops, s := Then(c, ops, s, Claim(w));
    assert todo[1..] == [];
    assert s0.workers[w := Looping(todo)][w := Claimed(j, [])] == s0.workers[w := Claimed(j, [])];
  }

  /** It then reads the job back and finds no completed twin. */
  lemma GetVerdict(c: Config, ops0: seq<Op>, s0: State, w: nat, j: Jid) returns (ops: seq<Op>, s: State)
    requires s0 == Run(c, INIT, ops0) && WorkersBelow(ops0, 2) && w < 2
    requires PhaseOf(s0, w) == Claimed(j, []) && j < |s0.jobs| && s0.jobs[j].key.kind == Webhook
    requires forall k | 0 <= k < |s0.jobs| :: s0.jobs[k].status != Completed
    ensures s == Run(c, INIT, ops) && WorkersBelow(ops, 2)
    ensures s == At(s0, w, Decided(j, s0.jobs[j].attempts, false, []))
  {
    ops, s := Then(c, ops0, s0, ReadBack(w));
    var p := Running(j, s0.jobs[j].attempts, []);
    assert s == At(s0, w, p);
    ops, s := Then(c, ops, s, Handle(w, false));
    assert !HasDuplicate(s, j);
    var q := Decided(j, s0.jobs[j].attempts, false, []);
    assert s0.workers[w := p][w := q] == s0.workers[w := q];
  }

  lemma BothDecide(c: Config) returns (ops: seq<Op>, s: State)
    ensures WorkersBelow(ops, 2) && s == Run(c, INIT, ops)
    ensures var job := Claiming(NewJob(INIT, ANY_KEY), 0);
            s == State(0, [job, job], map[0 := Decided(0, 1, false, []), 1 := Decided(1, 1, false, [])], map[], [])
  {
    var made, job := NewJob(INIT, ANY_KEY), Claiming(NewJob(INIT, ANY_KEY), 0);
    ops, s := RacingProducers(c);
    ops, s := TakeUp(c, ops, s, 0, 0);
    assert s == State(0, [job, made], map[0 := Claimed(0, [])], map[], []);
    ops, s := GetVerdict(c, ops, s, 0, 0);
    assert s == State(0, [job, made], map[0 := Decided(0, 1, false, [])], map[], []);
    ops, s := TakeUp(c, ops, s, 1, 1);
    assert s == State(0, [job, job], map[0 := Decided(0, 1, false, []), 1 := Claimed(1, [])], map[], []);
    ops, s := GetVerdict(c, ops, s, 1, 1);
  }

  /** Two workers take one each, both find no completed twin, and both complete as processed. */
  lemma ProcessedTwice(c: Config) returns (ops: seq<Op>)
    ensures WorkersBelow(ops, 2) && !ProcessedOnce(Run(c, INIT, ops))
  {
    var s: State;
    ops, s := BothDecide(c);
    ops, s := Then(c, ops, s, Complete(0, false));
    ops, s := Then(c, ops, s, Complete(1, false));
    assert s.processed == [0, 1];
    var i, j := 0, 1;
    assert s.jobs[s.processed[i]].key == s.jobs[s.processed[j]].key && s.jobs[s.processed[i]].key.idem == "a";
  }

  /** Runs of `n` workers, producers atomic or not. */
  predicate Admissible(ops: seq<Op>, n: nat, atomic: bool) {
    WorkersBelow(ops, n) && (atomic ==> AtomicEnqueue(ops))
  }

  /** Each payload is processed at most once in every run exactly when there is at most one worker or the
      producers' find-then-create is atomic. */
  lemma ProcessedOnceIff(c: Config, n: nat, atomic: bool)
    requires c.maxAttempts > 0
    ensures (forall ops | Admissible(ops, n, atomic) :: ProcessedOnce(Run(c, INIT, ops))) <==> n <= 1 || atomic
  {
    if n <= 1 {
      forall ops | Admissible(ops, n, atomic) ensures ProcessedOnce(Run(c, INIT, ops)) {
        assert WorkersBelow(ops, 1);
        OneSchedulerProcessesOnce(c, INIT, ops);
      }
    } else if atomic {
      forall ops | Admissible(ops, n, atomic) ensures ProcessedOnce(Run(c, INIT, ops)) {
        OneUnfailedJobPerPayload(c, INIT, ops);
        UnfailedMeansOnce(c, Run(c, INIT, ops));
      }
    } else {
      var ops := ProcessedTwice(c);
      assert Admissible(ops, n, atomic) && !ProcessedOnce(Run(c, INIT, ops));
    }
  }
}
