/**
 `processPendingSyncJobs` and the guarded tick of `scheduleSyncJobWorker` as sequential code. The state
 a run of the method leaves is proved to be that of a fixed run of worker 0 in the interleaved machine
 of `SyncQueue`, so everything proved there about all interleavings holds of the code.

 What the outside decides is a parameter: the rows the query returns, how long statements take, and
 which of them throw.
 */
module SyncWorker {
  import opened Prelude
  import opened SyncQueue
  import opened SyncBackoff

  /** The luck of one candidate: time passing before its claim and after it, and what throws. */
  datatype Fate = Fate(before: nat, after: nat, handlerThrows: bool, completeThrows: bool, markThrows: bool)

  /** The statements executed for one candidate. The machine ignores those that its phase rules out: all
      after a claim that matched no row, the second half of a try block that threw, and so on. */
  function Statements(f: Fate): seq<Op> {
    [Tick(f.before), Claim(0), ReadBack(0), Tick(f.after),
     Handle(0, f.handlerThrows), Complete(0, f.completeThrows), MarkFailed(0, f.markThrows)]
  }

  /** The statements of the loop; an exception out of `markFailed` ends it. */
  function Loop(c: Config, s: State, fates: seq<Fate>): seq<Op>
    decreases |fates|
  {
    if PhaseOf(s, 0).Idle? then []
    else if fates == [] then [EndRun(0)]
    else Statements(fates[0]) + Loop(c, Run(c, s, Statements(fates[0])), fates[1..])
  }

  function WholeRun(c: Config, s: State, candidates: seq<Jid>, fates: seq<Fate>): seq<Op> {
    [Query(0, candidates)] + Loop(c, Step(c, s, Query(0, candidates)), fates)
  }

  lemma {:induction false} LoopIsSolo(c: Config, s: State, fates: seq<Fate>)
    ensures WorkersBelow(Loop(c, s, fates), 1)
    decreases |fates|
  {
    if fates != [] {
      LoopIsSolo(c, Run(c, s, Statements(fates[0])), fates[1..]);
    }
  }

  /** Runs of the code are runs of one scheduler: `SpacingIff` and `ProcessedOnceIff` apply to them. */
  lemma WholeRunIsSolo(c: Config, s: State, candidates: seq<Jid>, fates: seq<Fate>)
    ensures WorkersBelow(WholeRun(c, s, candidates, fates), 1)
  {
    LoopIsSolo(c, Step(c, s, Query(0, candidates)), fates);
  }

  function CompletedJobs(jobs: seq<Job>): nat {
    if jobs == [] then 0
    else CompletedJobs(jobs[..|jobs| - 1]) + if jobs[|jobs| - 1].status == Completed then 1 else 0
  }

  lemma {:induction false} CompletedUpdate(jobs: seq<Job>, j: nat, job: Job)
    requires j < |jobs| && jobs[j].status != Completed
    ensures CompletedJobs(jobs[j := job]) == CompletedJobs(jobs) + if job.status == Completed then 1 else 0
  {
    var n := |jobs| - 1;
    if j < n {
      CompletedUpdate(jobs[..n], j, job);
      assert jobs[j := job][..n] == jobs[..n][j := job];
    } else {
      assert jobs[j := job][..n] == jobs[..n];
    }
  }

  lemma RunTwo(c: Config, s: State, a: Op, b: Op)
    ensures Run(c, s, [a, b]) == Step(c, Step(c, s, a), b)
  {
    RunOneMore(c, s, [a], b);
    RunOneMore(c, s, [], a);
    assert [a, b] == [a] + [b] && [] + [a] == [a];
  }

  /** The statements of one candidate, one after the other. */
  lemma RunStatements(c: Config, s: State, f: Fate)
    ensures var a := Step(c, Step(c, s, Tick(f.before)), Claim(0));
            var b := Step(c, Step(c, a, ReadBack(0)), Tick(f.after));
            Run(c, s, Statements(f)) ==
              Step(c, Step(c, Step(c, b, Handle(0, f.handlerThrows)), Complete(0, f.completeThrows)), MarkFailed(0, f.markThrows))
  {
    hide SyncQueue.Step;
    var a := Run(c, s, [Tick(f.before), Claim(0)]);
    var b := Run(c, a, [ReadBack(0), Tick(f.after)]);
    var d := Run(c, b, [Handle(0, f.handlerThrows), Complete(0, f.completeThrows)]);
    RunTwo(c, s, Tick(f.before), Claim(0));
    RunTwo(c, a, ReadBack(0), Tick(f.after));
    RunTwo(c, b, Handle(0, f.handlerThrows), Complete(0, f.completeThrows));
    var xs, ys := [Tick(f.before), Claim(0)], [ReadBack(0), Tick(f.after)];
    var zs := [Handle(0, f.handlerThrows), Complete(0, f.completeThrows)];
    RunAppend(c, s, xs, ys);
    RunAppend(c, s, xs + ys, zs);
    RunOneMore(c, s, xs + ys + zs, MarkFailed(0, f.markThrows));
    assert Statements(f) == xs + ys + zs + [MarkFailed(0, f.markThrows)];
  }

  /** A worker between jobs skips every statement about a job. */
  lemma LoopingSkips(c: Config, s: State, f: Fate)
    requires PhaseOf(s, 0).Looping?
    ensures Step(c, s, ReadBack(0)) == Step(c, s, Handle(0, f.handlerThrows)) == Step(c, s, Complete(0, f.completeThrows))
            == Step(c, s, MarkFailed(0, f.markThrows)) == s
    ensures PhaseOf(Step(c, s, Tick(f.after)), 0) == PhaseOf(s, 0)
  {}

  lemma FailingSkips(c: Config, s: State, throws: bool)
    requires PhaseOf(s, 0).Failing?
    ensures Step(c, s, Complete(0, throws)) == s
  {}

  lemma BeginAndEnd(c: Config, s: State, candidates: seq<Jid>)
    ensures PhaseOf(s, 0).Idle? && Candidates(s, candidates) ==> Step(c, s, Query(0, candidates)) == At(s, 0, Looping(candidates))
    ensures PhaseOf(s, 0) == Looping([]) ==> Run(c, s, [EndRun(0)]) == At(s, 0, Idle)
  {
    RunOneMore(c, s, [], EndRun(0));
    assert [] + [EndRun(0)] == [EndRun(0)];
  }

  class Scheduler {
    const cfg: Config
    var now: int
    var jobs: seq<Job>
    var running: bool
    ghost var workers: map<nat, Phase>
    ghost var finders: map<nat, Key>
    ghost var processed: seq<Jid>

    ghost function View(): State
      reads this
    {
      State(now, jobs, workers, finders, processed)
    }

    constructor (cfg: Config)
      ensures this.cfg == cfg && View() == INIT && !running
    {
      this.cfg := cfg;
      now, jobs, running := 0, [], false;
      workers, finders, processed := map[], map[], [];
    }

    /** The conditional update that claims a candidate; false when it matched no row. */
    method ClaimJob(id: Jid, ghost todo: seq<Jid>) returns (claimed: bool)
      requires id < |jobs| && PhaseOf(View(), 0) == Looping([id] + todo)
      modifies this`jobs, this`workers
      ensures View() == Step(cfg, old(View()), Claim(0))
      ensures claimed <==> old(jobs)[id].status == Pending
      ensures jobs == if claimed then old(jobs)[id := Claiming(old(jobs)[id], now)] else old(jobs)
      ensures PhaseOf(View(), 0) == if claimed then Claimed(id, todo) else Looping(todo)
    {
      assert ([id] + todo)[1..] == todo;
      claimed := jobs[id].status == Pending;
      if claimed {
        jobs := jobs[id := jobs[id].(status := Processing, attempts := jobs[id].attempts + 1, starts := jobs[id].starts + [now])];
        workers := workers[0 := Claimed(id, todo)];
      } else {
        workers := workers[0 := Looping(todo)];
      }
    }

    /** `processJob`: "duplicate" or "processed", or an exception. */
    method ProcessJob(id: Jid, handlerThrows: bool) returns (threw: bool, duplicate: bool)
      requires id < |jobs|
      ensures threw <==> handlerThrows || jobs[id].key.kind == Manual
      ensures !threw ==> (duplicate <==> HasDuplicate(View(), id))
    {
      if jobs[id].key.kind == Manual {
        return true, false;
      }
      if handlerThrows {
        return true, false;
      }
      duplicate := jobs[id].key.idem != "" && exists k | 0 <= k < |jobs| ::
                     k != id && jobs[k].status == Completed && jobs[k].key == jobs[id].key;
      threw := false;
    }

    /** Read the claimed row back, let time pass, and handle it. */
    method HandleJob(id: Jid, fate: Fate, ghost todo: seq<Jid>) returns (attempts: nat, threw: bool, duplicate: bool)
      requires id < |jobs| && PhaseOf(View(), 0) == Claimed(id, todo)
      modifies this`now, this`workers
      ensures View() == Step(cfg, Step(cfg, Step(cfg, old(View()), ReadBack(0)), Tick(fate.after)), Handle(0, fate.handlerThrows))
      ensures PhaseOf(View(), 0) == if threw then Failing(id, attempts, todo) else Decided(id, attempts, duplicate, todo)
    {
      attempts := jobs[id].attempts;
      workers := workers[0 := Running(id, attempts, todo)];
      now := now + fate.after;
      threw, duplicate := ProcessJob(id, fate.handlerThrows);
      workers := workers[0 := if threw then Failing(id, attempts, todo) else Decided(id, attempts, duplicate, todo)];
    }

    /** `markCompleted`, which may throw like any statement. */
    method MarkCompleted(id: Jid, throws: bool, ghost attempts: nat, ghost duplicate: bool, ghost todo: seq<Jid>)
      requires id < |jobs| && PhaseOf(View(), 0) == Decided(id, attempts, duplicate, todo)
      modifies this`jobs, this`workers, this`processed
      ensures View() == Step(cfg, old(View()), Complete(0, throws))
      ensures jobs == if throws then old(jobs) else old(jobs)[id := old(jobs)[id].(status := Completed)]
      ensures PhaseOf(View(), 0) == if throws then Failing(id, attempts, todo) else Looping(todo)
    {
      if !throws {
        jobs := jobs[id := jobs[id].(status := Completed)];
        workers := workers[0 := Looping(todo)];
        processed := if duplicate then processed else processed + [id];
      } else {
        workers := workers[0 := Failing(id, attempts, todo)];
      }
    }

    /** `markFailed`: back to pending after the backoff delay, or failed for good. */
    method MarkJobFailed(id: Jid, attempts: nat, throws: bool, ghost todo: seq<Jid>)
      requires id < |jobs| && PhaseOf(View(), 0) == Failing(id, attempts, todo)
      modifies this`jobs, this`workers
      ensures View() == Step(cfg, old(View()), MarkFailed(0, throws))
      ensures jobs == if throws then old(jobs) else old(jobs)[id := Retried(cfg, old(jobs)[id], attempts, now)]
      ensures PhaseOf(View(), 0) == if throws then Idle else Looping(todo)
    {
      if throws {
        workers := workers[0 := Idle];
      } else {
        if attempts < cfg.maxAttempts {
          var nextAttemptAt := now + RetryDelay(cfg, attempts);
          jobs := jobs[id := jobs[id].(status := Pending, scheduledAt := Some(nextAttemptAt), fails := jobs[id].fails + [now])];
        } else {
          jobs := jobs[id := jobs[id].(status := Failed, fails := jobs[id].fails + [now])];
        }
        workers := workers[0 := Looping(todo)];
      }
    }

    /** The try/catch around one claimed job. */
    method Settle(id: Jid, fate: Fate, ghost todo: seq<Jid>) returns (completed: bool, aborted: bool)
      requires id < |jobs| && PhaseOf(View(), 0) == Claimed(id, todo) && jobs[id].status == Processing
      modifies this`now, this`jobs, this`workers, this`processed
      ensures var s := Step(cfg, Step(cfg, Step(cfg, old(View()), ReadBack(0)), Tick(fate.after)), Handle(0, fate.handlerThrows));
              View() == Step(cfg, Step(cfg, s, Complete(0, fate.completeThrows)), MarkFailed(0, fate.markThrows))
      ensures |jobs| == |old(jobs)|
      ensures CompletedJobs(jobs) == CompletedJobs(old(jobs)) + if completed then 1 else 0
      ensures PhaseOf(View(), 0) == if aborted then Idle else Looping(todo)
    {
      hide SyncQueue.Step;
      var attempts, failed, duplicate := HandleJob(id, fate, todo);
      if failed {
        FailingSkips(cfg, View(), fate.completeThrows);
      } else {
        MarkCompleted(id, fate.completeThrows, attempts, duplicate, todo);
        failed := fate.completeThrows;
      }
      if !failed {
        LoopingSkips(cfg, View(), fate);
        CompletedUpdate(old(jobs), id, jobs[id]);
        return true, false;
      }
      MarkJobFailed(id, attempts, fate.markThrows, todo);
      if !fate.markThrows {
        CompletedUpdate(old(jobs), id, jobs[id]);
      }
      return false, fate.markThrows;
    }

    /** The loop body. */
    method ProcessCandidate(id: Jid, fate: Fate, ghost todo: seq<Jid>) returns (completed: bool, aborted: bool)
      requires id < |jobs| && PhaseOf(View(), 0) == Looping([id] + todo)
      modifies this`now, this`jobs, this`workers, this`processed
      ensures View() == Run(cfg, old(View()), Statements(fate))
      ensures |jobs| == |old(jobs)|
      ensures CompletedJobs(jobs) == CompletedJobs(old(jobs)) + if completed then 1 else 0
      ensures PhaseOf(View(), 0) == if aborted then Idle else Looping(todo)
    {
      RunStatements(cfg, View(), fate);
      now := now + fate.before;
      assert View() == Step(cfg, old(View()), Tick(fate.before));
      hide SyncQueue.Step;
      var claimed := ClaimJob(id, todo);
      if claimed {
        CompletedUpdate(old(jobs), id, jobs[id]);
        completed, aborted := Settle(id, fate, todo);
      } else {
        LoopingSkips(cfg, View(), fate);
        PassTime(fate);
        completed, aborted := false, false;
      }
    }

    /** The statements of a candidate that was not claimed: only time passes. */
    method PassTime(fate: Fate)
      requires PhaseOf(View(), 0).Looping?
      modifies this`now
      ensures now == old(now) + fate.after
      ensures var s := Step(cfg, Step(cfg, Step(cfg, old(View()), ReadBack(0)), Tick(fate.after)), Handle(0, fate.handlerThrows));
              View() == Step(cfg, Step(cfg, s, Complete(0, fate.completeThrows)), MarkFailed(0, fate.markThrows))
    {
      LoopingSkips(cfg, View(), fate);
      now := now + fate.after;
      LoopingSkips(cfg, View(), fate);
    }

    /** The result counts the jobs this call completed. */
    method ProcessPendingSyncJobs(candidates: seq<Jid>, fates: seq<Fate>) returns (count: nat)
      requires PhaseOf(View(), 0) == Idle && Candidates(View(), candidates) && |fates| == |candidates|
      modifies this`now, this`jobs, this`workers, this`processed
      ensures View() == Run(cfg, old(View()), WholeRun(cfg, old(View()), candidates, fates))
      ensures PhaseOf(View(), 0) == Idle
      ensures CompletedJobs(jobs) == CompletedJobs(old(jobs)) + count
    {
      hide SyncQueue.Step;
      BeginAndEnd(cfg, View(), candidates);
      workers := workers[0 := Looping(candidates)];
      ghost var start := View();
      assert WholeRun(cfg, old(View()), candidates, fates)[1..] == Loop(cfg, start, fates);
      count := 0;
      var i := 0;
      while i < |candidates|
        invariant i <= |candidates| && |jobs| == |old(jobs)|
        invariant CompletedJobs(jobs) == CompletedJobs(old(jobs)) + count
        invariant PhaseOf(View(), 0) == Looping(candidates[i..])
        invariant Run(cfg, start, Loop(cfg, start, fates)) == Run(cfg, View(), Loop(cfg, View(), fates[i..]))
      {
        var id, fate := candidates[i], fates[i];
        ghost var here, rest := View(), fates[i..];
        assert candidates[i..] == [id] + candidates[i + 1..];
        assert rest[0] == fate && rest[1..] == fates[i + 1..];
        var completed, aborted := ProcessCandidate(id, fate, candidates[i + 1..]);
        RunAppend(cfg, here, Statements(fate), Loop(cfg, View(), fates[i + 1..]));
        i := i + 1;
        if completed {
          count := count + 1;
        }
        if aborted {
          return;
        }
      }
      assert fates[i..] == [] && candidates[i..] == [];
      BeginAndEnd(cfg, View(), []);
      workers := workers[0 := Idle];
    }

    /** One timer tick: skipped while a run is in progress, and the flag is cleared however the run ends. */
    method OnTimer(candidates: seq<Jid>, fates: seq<Fate>)
      requires !running ==> PhaseOf(View(), 0) == Idle && Candidates(View(), candidates) && |fates| == |candidates|
      modifies this
      ensures running == old(running)
      ensures if running then View() == old(View())
              else View() == Run(cfg, old(View()), WholeRun(cfg, old(View()), candidates, fates))
    {
      if running {
        return;
      }
      running := true;
      var count := ProcessPendingSyncJobs(candidates, fates);
      running := false;
    }
  }
}
