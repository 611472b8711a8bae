/**
 What the lockout answers, in terms of the answers before: each key's streak is its failures since its last success,
 lockout or lapse. Every login of every run is refused exactly while a full streak is running out.
 */
module LockoutStreaks {
  import opened Prelude
  import opened Lockout

  datatype Streak = Streak(count: nat, first: int, last: int)

  type Log = map<Key, Streak>

  predicate Full(p: Policy, k: Streak) { k.count >= p.maxAttempts }

  /** A failure that comes within the window of the one before goes on with its streak, unless that was full. */
  function Longer(p: Policy, log: Log, key: Key, at: int): Streak {
    if key in log && !Full(p, log[key]) && at - log[key].last <= p.windowMs
    then Streak(log[key].count + 1, log[key].first, at)
    else Streak(1, at, at)
  }

  function Note(p: Policy, log: Log, call: Login, r: Result): Log {
    match r
    case Locked => log
    case Succeeded => log - {call.key}
    case Failed => log[call.key := Longer(p, log, call.key, call.at)]
  }

  function Kept(p: Policy, t: Table, log: Log, calls: seq<Login>): Log
    decreases |calls|
  {
    if calls == [] then log
    else Kept(p, Step(p, t, calls[0]).0, Note(p, log, calls[0], Step(p, t, calls[0]).1), calls[1..])
  }

  /** Locked out: the streak is full, and less than the lockout has passed since its last failure. */
  predicate Out(p: Policy, log: Log, key: Key, now: int) {
    key in log && Full(p, log[key]) && now < log[key].last + p.lockoutMs
  }

  /** The row says what the streak is. */
  ghost predicate Agrees(p: Policy, t: Table, log: Log) {
    t.Keys == log.Keys
    && forall k | k in log ::
         t[k] == Attempt(log[k].count, log[k].first, log[k].last,
                         if Full(p, log[k]) then Some(log[k].last + p.lockoutMs) else None)
  }

  lemma StepAgrees(p: Policy, t: Table, log: Log, call: Login)
    requires Usable(p) && Agrees(p, t, log)
    ensures var (t1, r) := Step(p, t, call);
            && r == (if Out(p, log, call.key, call.at) then Locked else if call.good then Succeeded else Failed)
            && Agrees(p, t1, Note(p, log, call, r))
  {}

  /** After every run of logins, whatever their clock readings: the table holds exactly the streaks, and a further
      login is refused exactly when it is locked out. */
  lemma {:induction false} EveryAnswer(p: Policy, t: Table, log: Log, calls: seq<Login>, call: Login)
    requires Usable(p) && Agrees(p, t, log)
    ensures var (u, after) := (Run(p, t, calls), Kept(p, t, log, calls));
            && Agrees(p, u, after)
            && Step(p, u, call).1
               == (if Out(p, after, call.key, call.at) then Locked else if call.good then Succeeded else Failed)
    decreases |calls|
  {
    if calls == [] {
      StepAgrees(p, t, log, call);
    } else {
      StepAgrees(p, t, log, calls[0]);
      EveryAnswer(p, Step(p, t, calls[0]).0, Note(p, log, calls[0], Step(p, t, calls[0]).1), calls[1..], call);
    }
  }
}
