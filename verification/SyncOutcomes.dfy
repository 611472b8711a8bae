/**
 What becomes of a job: which jobs are processed, which are only taken for duplicates, and what one pass of a worker
 over a due job leaves. `SyncDedup` says what is processed at most once; here is what is processed at least.
 */
module SyncOutcomes {
  import opened Prelude
  import opened SyncQueue
  import opened SyncBackoff
  import D = SyncDedup

  /** The fields the handler compares. */
  predicate SamePayload(a: Key, b: Key) {
    a.org == b.org && a.connection == b.connection && a.kind == b.kind && a.idem == b.idem && a.event == b.event
  }

  /** Job `k` makes job `j` a duplicate. */
  predicate Twin(s: State, j: Jid, k: Jid) {
    && j < |s.jobs| && k < |s.jobs| && k != j
    && s.jobs[j].key.idem != "" && SamePayload(s.jobs[j].key, s.jobs[k].key)
    && s.jobs[k].status == Completed
  }

  ghost predicate HasTwin(s: State, j: Jid) { exists k: Jid :: Twin(s, j, k) }

  lemma DuplicateHasTwin(s: State, j: Jid)
    requires j < |s.jobs|
    ensures HasDuplicate(s, j) <==> HasTwin(s, j)
  {
    if HasDuplicate(s, j) {
      var k :| 0 <= k < |s.jobs| && k != j && s.jobs[k].status == Completed && s.jobs[k].key == s.jobs[j].key;
      assert Twin(s, j, k);
    }
    if HasTwin(s, j) {
      var k: Jid :| Twin(s, j, k);
      assert s.jobs[k].key == s.jobs[j].key;
    }
  }

  // ---------------------------------------------------------------- nothing completes for nothing

  /** Job `i` was processed, and stands for job `j`: it is `j`, or has its identifiable payload. */
  predicate StandsFor(s: State, i: Jid, j: Jid) {
    && i < |s.jobs| && j < |s.jobs| && i in s.processed
    && (i == j || (s.jobs[j].key.idem != "" && SamePayload(s.jobs[j].key, s.jobs[i].key)))
  }

  ghost predicate Represented(s: State, j: Jid) { exists i: Jid :: StandsFor(s, i, j) }

  /** Whoever holds the verdict "duplicate" has a completed twin, and every completed job is a webhook and has been
      processed, itself or one that stands for it. */
  ghost predicate Accounted(s: State) {
    && (forall w | w in s.workers && s.workers[w].Decided? :: s.workers[w].job < |s.jobs|
          && s.jobs[s.workers[w].job].key.kind == Webhook
          && (s.workers[w].duplicate ==> HasTwin(s, s.workers[w].job)))
    && (forall j: Jid | j < |s.jobs| && s.jobs[j].status == Completed :: s.jobs[j].key.kind == Webhook && Represented(s, j))
  }

  /** Completed rows stay, keys stay, what was processed stays. */
  predicate Grows(s: State, t: State) {
    && |s.jobs| <= |t.jobs| && s.processed <= t.processed
    && (forall j: Jid | j < |s.jobs| :: t.jobs[j].key == s.jobs[j].key)
    && (forall j: Jid | j < |s.jobs| && s.jobs[j].status == Completed :: t.jobs[j].status == Completed)
  }

  lemma GrowsKeeps(s: State, t: State, j: Jid)
    requires Grows(s, t) && j < |s.jobs|
    ensures HasTwin(s, j) ==> HasTwin(t, j)
    ensures Represented(s, j) ==> Represented(t, j)
  {
    if HasTwin(s, j) {
      var k: Jid :| Twin(s, j, k);
      assert Twin(t, j, k);
    }
    if Represented(s, j) {
      var i: Jid :| StandsFor(s, i, j);
      assert StandsFor(t, i, j);
    }
  }

  lemma StepGrows(c: Config, s: State, op: Op)
    requires Inv(c, s)
    ensures Grows(s, Step(c, s, op))
  {
    if op.Claim? || op.ReadBack? || op.Handle? || op.Complete? || op.MarkFailed? {
      assert PhaseInv(s, PhaseOf(s, op.w));
    }
  }

  lemma TwinRepresents(s: State, j: Jid)
    requires Accounted(s) && HasTwin(s, j)
    ensures Represented(s, j)
  {
    var k: Jid :| Twin(s, j, k);
    var i: Jid :| StandsFor(s, i, k);
    assert StandsFor(s, i, j);
  }

  /** Verdicts are given by the handler, to webhooks; any other is an old one. */
  lemma NewVerdict(c: Config, s: State, op: Op, w: nat)
    requires Inv(c, s) && PhaseOf(Step(c, s, op), w).Decided?
    ensures var p := PhaseOf(Step(c, s, op), w);
            || PhaseOf(s, w) == p
            || (p.job < |s.jobs| && s.jobs[p.job].key.kind == Webhook && (p.duplicate ==> HasDuplicate(s, p.job)))
  {
    hide HasDuplicate;
    hide Inv;
  }

  /** Jobs are completed by workers that hold a verdict. */
  lemma NewlyCompleted(c: Config, s: State, op: Op, j: Jid)
    requires Inv(c, s)
    requires j < |Step(c, s, op).jobs| && Step(c, s, op).jobs[j].status == Completed
    ensures || (j < |s.jobs| && s.jobs[j].status == Completed)
            || (&& op.Complete? && op.w in s.workers && s.workers[op.w].Decided? && s.workers[op.w].job == j < |s.jobs|
                && Step(c, s, op).processed == if s.workers[op.w].duplicate then s.processed else s.processed + [j])
  {
    hide HasDuplicate;
    hide Inv;
  }

  lemma StepKeepsAccounted(c: Config, s: State, op: Op)
    requires Inv(c, s) && Accounted(s)
    ensures Accounted(Step(c, s, op))
  {
    var t := Step(c, s, op);
    StepGrows(c, s, op);
    forall w | w in t.workers && t.workers[w].Decided?
      ensures t.workers[w].job < |t.jobs| && t.jobs[t.workers[w].job].key.kind == Webhook
      ensures t.workers[w].duplicate ==> HasTwin(t, t.workers[w].job)
    {
      var j := t.workers[w].job;
      NewVerdict(c, s, op, w);
      DuplicateHasTwin(s, j);
      GrowsKeeps(s, t, j);
      hide Step;
      hide HasTwin;
      hide HasDuplicate;
    }
    forall j: Jid | j < |t.jobs| && t.jobs[j].status == Completed ensures t.jobs[j].key.kind == Webhook && Represented(t, j) {
      NewlyCompleted(c, s, op, j);
      hide Step;
      GrowsKeeps(s, t, j);
      if s.jobs[j].status != Completed {
        if s.workers[op.w].duplicate {
          TwinRepresents(s, j);
        } else {
          assert StandsFor(t, j, j);
        }
      }
      hide HasTwin;
      hide Represented;
    }
  }

  lemma {:induction false} RunKeepsAccounted(c: Config, s: State, ops: seq<Op>)
    requires Inv(c, s) && Accounted(s) && c.maxAttempts > 0
    ensures Inv(c, Run(c, s, ops)) && Accounted(Run(c, s, ops))
    decreases |ops|
  {
    if ops != [] {
      StepKeepsAccounted(c, s, ops[0]);
      StepKeepsInv(c, s, ops[0]);
      RunKeepsAccounted(c, Step(c, s, ops[0]), ops[1..]);
    }
  }

  /** Over every run of any number of workers: a step that completes a job without processing it finds another
      completed job of the same organization, connection, type, idempotency key and event, and the key is not
      empty. */
  lemma SkippedExactlyTwins(c: Config, ops: seq<Op>, op: Op, j: Jid)
    requires c.maxAttempts > 0
    requires var s := Run(c, INIT, ops);
             j < |s.jobs| && s.jobs[j].status != Completed && Step(c, s, op).jobs[j].status == Completed
    ensures var s := Run(c, INIT, ops);
            var t := Step(c, s, op);
            && s.jobs[j].key.kind == Webhook
            && (t.processed == s.processed + [j] || (t.processed == s.processed && HasTwin(s, j)))
  {
    RunKeepsAccounted(c, INIT, ops);
    var s := Run(c, INIT, ops);
    assert PhaseInv(s, PhaseOf(s, op.w));
  }

  /** So every completed job was processed, itself or, when its payload is identifiable, one with the same payload. */
  lemma CompletedIsRepresented(c: Config, ops: seq<Op>, j: Jid)
    requires c.maxAttempts > 0 && j < |Run(c, INIT, ops).jobs| && Run(c, INIT, ops).jobs[j].status == Completed
    ensures var s := Run(c, INIT, ops);
            && s.jobs[j].key.kind == Webhook && Represented(s, j)
            && (s.jobs[j].key.idem == "" ==> j in s.processed)
  {
    RunKeepsAccounted(c, INIT, ops);
    var s := Run(c, INIT, ops);
    var i: Jid :| StandsFor(s, i, j);
  }

  /** With one scheduler, exactly one job of every completed identifiable payload was processed. */
  lemma ExactlyOneIsProcessed(c: Config, ops: seq<Op>, j: Jid) returns (i: Jid)
    requires c.maxAttempts > 0 && WorkersBelow(ops, 1)
    requires j < |Run(c, INIT, ops).jobs| && Run(c, INIT, ops).jobs[j].status == Completed
    requires Run(c, INIT, ops).jobs[j].key.idem != ""
    ensures var s := Run(c, INIT, ops);
            && i < |s.jobs| && i in s.processed && SamePayload(s.jobs[i].key, s.jobs[j].key)
            && multiset(s.processed)[i] == 1
            && forall k | k in s.processed && k < |s.jobs| && SamePayload(s.jobs[k].key, s.jobs[j].key) :: k == i
  {
    var s := Run(c, INIT, ops);
    CompletedIsRepresented(c, ops, j);
    D.OneSchedulerProcessesOnce(c, INIT, ops);
    i :| StandsFor(s, i, j);
    var a :| 0 <= a < |s.processed| && s.processed[a] == i;
    forall k | k in s.processed && k < |s.jobs| && SamePayload(s.jobs[k].key, s.jobs[j].key) ensures k == i {
      var b :| 0 <= b < |s.processed| && s.processed[b] == k;
      assert s.jobs[k].key == s.jobs[i].key;
      assert a == b;
    }
    OnlyOnce(s.processed, a);
  }

  lemma OnlyOnce(xs: seq<Jid>, a: nat)
    requires a < |xs| && forall b | 0 <= b < |xs| && xs[b] == xs[a] :: b == a
    ensures multiset(xs)[xs[a]] == 1
  {
    var x := xs[a];
    assert xs == xs[..a] + [x] + xs[a + 1..];
    assert x !in xs[..a] && x !in xs[a + 1..];
  }

  // ---------------------------------------------------------------- one pass over a due job

  /** All the statements a worker can execute for one job; the machine skips those its luck rules out. */
  function Pass(w: nat, j: Jid, handlerThrows: bool, completeThrows: bool, markThrows: bool): seq<Op> {
    [Query(w, [j]), Claim(w), ReadBack(w), Handle(w, handlerThrows), Complete(w, completeThrows), MarkFailed(w, markThrows)]
  }

  /** What the pass leaves of the row `before`. */
  predicate PassRow(c: Config, now: int, before: Job, after: Job, good: bool, markThrows: bool) {
    && after.key == before.key && after.attempts == before.attempts + 1 && after.starts == before.starts + [now]
    && (if good then after.status == Completed && after.scheduledAt == before.scheduledAt && after.fails == before.fails
        else if markThrows then after.status == Processing && after.scheduledAt == before.scheduledAt && after.fails == before.fails
        else
          && after.fails == before.fails + [now]
          && (if before.attempts + 1 < c.maxAttempts
              then after.status == Pending && after.scheduledAt == Some(now + Wait(c.retryBaseMs, before.attempts))
              else after.status == Failed))
  }

  lemma Unroll(c: Config, s: State, xs: seq<Op>)
    requires |xs| == 6
    ensures Run(c, s, xs)
            == Step(c, Step(c, Step(c, Step(c, Step(c, Step(c, s, xs[0]), xs[1]), xs[2]), xs[3]), xs[4]), xs[5])
  {
    hide Step;
    RunOneMore(c, s, [], xs[0]);
    RunOneMore(c, s, xs[..1], xs[1]);
    RunOneMore(c, s, xs[..2], xs[2]);
    RunOneMore(c, s, xs[..3], xs[3]);
    RunOneMore(c, s, xs[..4], xs[4]);
    RunOneMore(c, s, xs[..5], xs[5]);
    assert [] + [xs[0]] == xs[..1] && xs[..1] + [xs[1]] == xs[..2] && xs[..2] + [xs[2]] == xs[..3];
    assert xs[..3] + [xs[3]] == xs[..4] && xs[..4] + [xs[4]] == xs[..5] && xs[..5] + [xs[5]] == xs;
  }

  /** An idle worker's pass over a due job: it completes exactly when it is a webhook and nothing throws, as processed
      unless it has a completed twin; otherwise it waits the doubled delay, or has failed at the last attempt. No
      other row changes. */
  lemma PassSettles(c: Config, s: State, w: nat, j: Jid, handlerThrows: bool, completeThrows: bool, markThrows: bool)
    requires PhaseOf(s, w).Idle? && j < |s.jobs| && Due(s.jobs[j], s.now)
    ensures var t := Run(c, s, Pass(w, j, handlerThrows, completeThrows, markThrows));
            var good := s.jobs[j].key.kind == Webhook && !handlerThrows && !completeThrows;
            && |t.jobs| == |s.jobs| && (forall k | 0 <= k < |s.jobs| && k != j :: t.jobs[k] == s.jobs[k])
            && PassRow(c, s.now, s.jobs[j], t.jobs[j], good, markThrows)
            && t.processed == (if good && !HasTwin(s, j) then s.processed + [j] else s.processed)
  {
    var todo, job := [j], Claiming(s.jobs[j], s.now);
    var xs := Pass(w, j, handlerThrows, completeThrows, markThrows);
    Unroll(c, s, xs);
    var s1 := Step(c, s, xs[0]);
    assert s1 == At(s, w, Looping(todo));
    var s2 := Step(c, s1, xs[1]);
    assert todo[1..] == [] && PhaseOf(s2, w) == Claimed(j, []) && s2.jobs == s.jobs[j := job] && s2.processed == s.processed;
    var s3 := Step(c, s2, xs[2]);
    assert PhaseOf(s3, w) == Running(j, job.attempts, []) && s3.jobs == s2.jobs && s3.now == s.now;
    assert HasDuplicate(s3, j) <==> HasTwin(s, j) by { SameTwins(s, s3, j, job); }
    DelayDoubles(c, job.attempts);
    hide HasDuplicate;
    hide HasTwin;
    hide RetryDelay;
    PassEnds(c, s3, w, j, job.attempts, handlerThrows, completeThrows, markThrows);
  }

  /** Claiming a job makes no difference to its twins. */
  lemma SameTwins(s: State, t: State, j: Jid, job: Job)
    requires j < |s.jobs| && t.jobs == s.jobs[j := job] && job.key == s.jobs[j].key
    ensures HasDuplicate(t, j) <==> HasTwin(s, j)
  {
    DuplicateHasTwin(t, j);
    forall k: Jid ensures Twin(t, j, k) <==> Twin(s, j, k) {}
  }

  lemma PassEnds(c: Config, s: State, w: nat, j: Jid, n: nat, handlerThrows: bool, completeThrows: bool, markThrows: bool)
    requires j < |s.jobs| && PhaseOf(s, w) == Running(j, n, [])
    ensures var t := Step(c, Step(c, Step(c, s, Handle(w, handlerThrows)), Complete(w, completeThrows)), MarkFailed(w, markThrows));
            var good := s.jobs[j].key.kind == Webhook && !handlerThrows && !completeThrows;
            var row := s.jobs[j];
            && t.jobs == s.jobs[j := if good then row.(status := Completed) else if markThrows then row else Retried(c, row, n, s.now)]
            && t.processed == (if good && !HasDuplicate(s, j) then s.processed + [j] else s.processed)
  {
    hide HasDuplicate;
    hide Retried;
    var a := Step(c, s, Handle(w, handlerThrows));
    assert a.jobs == s.jobs && a.now == s.now && a.processed == s.processed;
    var b := Step(c, a, Complete(w, completeThrows));
    assert s.jobs == s.jobs[j := s.jobs[j]];
  }

  // ---------------------------------------------------------------- what producers add

  /** A delivery adds one job, due at once, exactly when no unfailed job has its payload; either way no other row
      changes. Both forms of the producer look for the same. */
  lemma DeliveryAdds(c: Config, s: State, key: Key, call: nat)
    ensures var t := Step(c, s, Enqueue(key));
            var queued := exists k: Jid :: k < |s.jobs| && SamePayload(s.jobs[k].key, key) && s.jobs[k].status != Failed;
            && (queued ==> t == s)
            && (!queued ==>
                  && t == s.(jobs := t.jobs) && |t.jobs| == |s.jobs| + 1 && t.jobs[..|s.jobs|] == s.jobs
                  && SamePayload(t.jobs[|s.jobs|].key, key) && t.jobs[|s.jobs|].status == Pending
                  && t.jobs[|s.jobs|].attempts == 0 && Due(t.jobs[|s.jobs|], s.now))
            && (var found := Step(c, s, EnqueueFind(call, key));
                if queued then found == s
                else Step(c, found, EnqueueCreate(call)) == t.(finders := s.finders - {call}))
  {
    if k :| 0 <= k < |s.jobs| && s.jobs[k].key == key && s.jobs[k].status != Failed {
      assert SamePayload(s.jobs[k].key, key);
    }
    if k: Jid :| k < |s.jobs| && SamePayload(s.jobs[k].key, key) && s.jobs[k].status != Failed {
      assert s.jobs[k].key == key;
    }
  }
}
