// Workers sharing the job queue. A worker settles the job it claimed strictly before its lease
// ends, or never; the queue itself checks nothing of the kind.
module JobsProtocol {
  import opened Common
  import opened Jobs

  datatype Held = Held(job: Job, until: int)

  // What happened to a job, in order.
  datatype Event =
    | Enqueued(id: nat, at: int)
    | Claimed(id: nat, worker: int, attempt: int, at: int)
    | Failed(id: nat, attempt: int, at: int)
    | Died(id: nat, attempt: int, at: int)
    | Finished(id: nat, at: int)
    | Restarted(id: nat, at: int)

  datatype System = System(jobs: Table, holders: map<int, Held>, clock: int, log: seq<Event>)

  datatype Op =
    | Wait(seconds: nat)
    | Submit(spec: Spec, id: nat)
    | Take(worker: int, kinds: seq<string>, id: nat)
    | Settle(worker: int, outcome: Option<string>)
    | Vanish(worker: int)
    | Restart(id: nat)
    | Purge(olderThan: int)

  function Start(clock: int): System { System(map[], map[], clock, []) }

  predicate Enabled(s: System, op: Op) {
    match op
    case Submit(_, id) => IsNextId(s.jobs, id)
    case Take(worker, kinds, id) => worker !in s.holders && IsNext(s.jobs, id, s.clock, kinds)
    case Settle(worker, _) => worker in s.holders && s.clock < s.holders[worker].until
    case _ => true
  }

  function SettleEvent(job: Job, outcome: Option<string>, now: int): Event {
    if outcome.None? then Finished(job.id, now)
    else if job.LastChance() then Died(job.id, job.attempts, now)
    else Failed(job.id, job.attempts, now)
  }

  function Settled(jobs: Table, job: Job, outcome: Option<string>, now: int): Table {
    match outcome
    case None => DoneStep(jobs, job.id, now)
    case Some(cause) => FailStep(jobs, job, cause, now)
  }

  function Step(s: System, op: Op): System
    requires Enabled(s, op)
  {
    match op
    case Wait(seconds) => s.(clock := s.clock + seconds)
    case Submit(spec, id) =>
      var (jobs, r) := EnqueueStep(s.jobs, spec, s.clock, id);
      if r.Ok? then s.(jobs := jobs, log := s.log + [Enqueued(id, s.clock)]) else s
    case Take(worker, kinds, id) =>
      var jobs := ClaimStep(s.jobs, id, s.clock);
      s.(jobs := jobs, holders := s.holders[worker := Held(JobOf(id, jobs[id]), s.clock + LEASE)],
         log := s.log + [Claimed(id, worker, jobs[id].attempts, s.clock)])
    case Settle(worker, outcome) =>
      var job := s.holders[worker].job;
      s.(jobs := Settled(s.jobs, job, outcome, s.clock), holders := s.holders - {worker},
         log := s.log + [SettleEvent(job, outcome, s.clock)])
    case Vanish(worker) => s.(holders := s.holders - {worker})
    case Restart(id) =>
      var (jobs, failure) := RetryStep(s.jobs, id, s.clock);
      if failure.None? then s.(jobs := jobs, log := s.log + [Restarted(id, s.clock)]) else s
    case Purge(olderThan) => s.(jobs := PurgeStep(s.jobs, s.clock - olderThan))
  }

  // ---- reading the log ----

  function LastEvent(log: seq<Event>, id: nat): Option<Event>
    decreases |log|
  {
    if log == [] then None
    else if log[|log| - 1].id == id then Some(log[|log| - 1])
    else LastEvent(log[..|log| - 1], id)
  }

  // How often a job was claimed since it was enqueued or restarted.
  function Claims(log: seq<Event>, id: nat): nat
    decreases |log|
  {
    if log == [] then 0
    else
      var e, earlier := log[|log| - 1], log[..|log| - 1];
      if e.id != id then Claims(earlier, id)
      else if e.Enqueued? || e.Restarted? then 0
      else if e.Claimed? then Claims(earlier, id) + 1
      else Claims(earlier, id)
  }

  // The life of a job: enqueued, then claimed again and again, each claim at least a backoff
  // after the failure or a whole lease after the unsettled claim before it; settled at most
  // once a claim, within the lease; restarted only from the dead.
  predicate Follows(last: Option<Event>, e: Event) {
    match e
    case Enqueued(_, _) => last.None? || last.value.Finished?
    case Claimed(_, _, k, at) =>
      && last.Some?
      && (match last.value
          case Enqueued(_, _) => k == 1
          case Restarted(_, since) => k == 1 && at >= since
          case Failed(_, before, since) => k == before + 1 && at >= since + Backoff(before)
          case Claimed(_, _, before, since) => k == before + 1 && at >= since + LEASE
          case _ => false)
    case Failed(_, k, at) => ClaimOpen(last, k, at)
    case Died(_, k, at) => ClaimOpen(last, k, at)
    case Finished(_, at) => last.Some? && last.value.Claimed? && ClaimOpen(last, last.value.attempt, at)
    case Restarted(_, at) => last.Some? && last.value.Died? && at >= last.value.at
  }

  predicate ClaimOpen(last: Option<Event>, k: int, at: int) {
    last.Some? && last.value.Claimed? && last.value.attempt == k && last.value.at <= at < last.value.at + LEASE
  }

  predicate Legal(log: seq<Event>) {
    forall i :: 0 <= i < |log| ==> Follows(LastEvent(log[..i], log[i].id), log[i])
  }

  // ---- the invariant ----

  // The row says what happened to it last.
  predicate Fits(r: Row, e: Event) {
    && 1 <= r.maxAttempts
    && match e
       case Enqueued(_, _) => Waiting(r) && r.leaseUntil == None && r.attempts == 0
       case Restarted(_, at) => Waiting(r) && r.leaseUntil == None && r.attempts == 0 && r.runAfter == at
       case Claimed(_, _, k, at) => Waiting(r) && r.leaseUntil == Some(at + LEASE) && r.attempts == k
       case Failed(_, k, at) =>
         Waiting(r) && r.leaseUntil == None && r.attempts == k < r.maxAttempts && r.runAfter == at + Backoff(k)
       case Died(_, k, at) => r.doneAt == None && r.deadAt == Some(at) && r.leaseUntil == None && r.attempts == k >= r.maxAttempts
       case Finished(_, at) => r.doneAt == Some(at) && r.deadAt == None && r.leaseUntil == None
  }

  predicate RowExplained(s: System, id: nat) {
    var last := LastEvent(s.log, id);
    if id in s.jobs then
      && last.Some? && Fits(s.jobs[id], last.value) && last.value.at <= s.clock
      && s.jobs[id].attempts == Claims(s.log, id)
    else last.None? || last.value.Finished?
  }

  predicate Live(s: System, worker: int) {
    worker in s.holders && s.clock < s.holders[worker].until
  }

  // A live holder's job is as it was when it claimed it, and nobody touched it since.
  predicate HoldGood(s: System, worker: int)
    requires worker in s.holders
  {
    var h := s.holders[worker];
    && h.job.id in s.jobs && h.job == JobOf(h.job.id, s.jobs[h.job.id])
    && LastEvent(s.log, h.job.id) == Some(Claimed(h.job.id, worker, h.job.attempts, h.until - LEASE))
  }

  ghost predicate Inv(s: System) {
    && TableOk(s.jobs)
    && Legal(s.log)
    && (forall id: nat {:trigger RowExplained(s, id)} :: RowExplained(s, id))
    && (forall w: int {:trigger Live(s, w)} :: Live(s, w) ==> HoldGood(s, w))
  }

  lemma LastSnoc(log: seq<Event>, e: Event, id: nat)
    ensures LastEvent(log + [e], id) == if e.id == id then Some(e) else LastEvent(log, id)
    ensures Claims(log + [e], id) ==
      if e.id != id then Claims(log, id)
      else if e.Enqueued? || e.Restarted? then 0
      else Claims(log, id) + if e.Claimed? then 1 else 0
  {
    assert (log + [e])[..|log|] == log;
  }

  lemma LegalSnoc(log: seq<Event>, e: Event)
    requires Legal(log) && Follows(LastEvent(log, e.id), e)
    ensures Legal(log + [e])
  {
    hide Follows, LastEvent;
    var more := log + [e];
    forall i | 0 <= i < |more| ensures Follows(LastEvent(more[..i], more[i].id), more[i]) {
      if i < |log| { assert more[..i] == log[..i]; } else { assert more[..i] == log; }
    }
  }

  lemma {:induction false} LastIsOf(log: seq<Event>, id: nat)
    ensures LastEvent(log, id).Some? ==> LastEvent(log, id).value.id == id
    decreases |log|
  {
    if log != [] { LastIsOf(log[..|log| - 1], id); }
  }

  // One job changes, for the reason logged; everything else stays.
  lemma OneJobChanges(s: System, t: System, id: nat, e: Event)
    requires Inv(s) && e.id == id && t.log == s.log + [e] && t.clock == s.clock
    requires id in t.jobs && t.jobs == s.jobs[id := t.jobs[id]]
    requires TableOk(t.jobs) && Follows(LastEvent(s.log, id), e)
    requires Fits(t.jobs[id], e) && e.at == s.clock && t.jobs[id].attempts == Claims(t.log, id)
    requires forall w :: Live(t, w) && t.holders[w].job.id != id ==> w in s.holders && t.holders[w] == s.holders[w]
    requires forall w :: Live(t, w) && t.holders[w].job.id == id ==> HoldGood(t, w)
    ensures Inv(t)
  {
    hide Fits, Follows, Legal, LastEvent, Claims, TableOk;
    LegalSnoc(s.log, e);
    forall k: nat ensures RowExplained(t, k) {
      LastSnoc(s.log, e, k);
      assert RowExplained(s, k);
    }
    forall w: int | Live(t, w) ensures HoldGood(t, w) {
      var h := t.holders[w];
      if h.job.id != id {
        assert Live(s, w);
        LastSnoc(s.log, e, h.job.id);
      }
    }
  }

  lemma SubmitKeeps(s: System, spec: Spec, id: nat)
    requires Inv(s) && IsNextId(s.jobs, id)
    ensures Inv(Step(s, Submit(spec, id)))
  {
    var t := Step(s, Submit(spec, id));
    if t != s {
      var e := Enqueued(id, s.clock);
      LastSnoc(s.log, e, id);
      assert RowExplained(s, id);
      hide LastEvent, Claims, Legal;
      forall w | Live(t, w) ensures t.holders[w].job.id != id { assert Live(s, w); }
      OneJobChanges(s, t, id, e);
    }
  }

  lemma TakeKeeps(s: System, worker: int, kinds: seq<string>, id: nat)
    requires Inv(s) && Enabled(s, Take(worker, kinds, id))
    ensures Inv(Step(s, Take(worker, kinds, id)))
  {
    var t := Step(s, Take(worker, kinds, id));
    var e := Claimed(id, worker, t.jobs[id].attempts, s.clock);
    LastSnoc(s.log, e, id);
    assert RowExplained(s, id);
    hide LastEvent, Claims, Legal;
    forall w | Live(t, w) && w != worker ensures t.holders[w].job.id != id { assert Live(s, w); }
    OneJobChanges(s, t, id, e);
  }

  lemma SettleKeeps(s: System, worker: int, outcome: Option<string>)
    requires Inv(s) && Enabled(s, Settle(worker, outcome))
    ensures Inv(Step(s, Settle(worker, outcome)))
  {
    var t := Step(s, Settle(worker, outcome));
    assert Live(s, worker);
    var job := s.holders[worker].job;
    var e := SettleEvent(job, outcome, s.clock);
    LastSnoc(s.log, e, job.id);
    assert RowExplained(s, job.id);
    hide LastEvent, Claims, Legal;
    forall w | Live(t, w) ensures t.holders[w].job.id != job.id { assert Live(s, w); }
    OneJobChanges(s, t, job.id, e);
  }

  lemma RestartKeeps(s: System, id: nat)
    requires Inv(s)
    ensures Inv(Step(s, Restart(id)))
  {
    var t := Step(s, Restart(id));
    if t != s {
      var e := Restarted(id, s.clock);
      LastSnoc(s.log, e, id);
      assert RowExplained(s, id);
      hide LastEvent, Claims, Legal;
      forall w | Live(t, w) ensures t.holders[w].job.id != id { assert Live(s, w); }
      OneJobChanges(s, t, id, e);
    }
  }

  lemma PurgeKeeps(s: System, olderThan: int)
    requires Inv(s)
    ensures Inv(Step(s, Purge(olderThan)))
  {
    hide LastEvent, Claims, Legal;
    var t := Step(s, Purge(olderThan));
    forall id: nat ensures RowExplained(t, id) { assert RowExplained(s, id); }
    forall w: int | Live(t, w) ensures HoldGood(t, w) {
      assert Live(s, w);
      assert RowExplained(s, s.holders[w].job.id);
    }
  }

  lemma StepKeepsInv(s: System, op: Op)
    requires Inv(s) && Enabled(s, op)
    ensures Inv(Step(s, op))
  {
    match op
    case Submit(spec, id) => SubmitKeeps(s, spec, id);
    case Take(worker, kinds, id) => TakeKeeps(s, worker, kinds, id);
    case Settle(worker, outcome) => SettleKeeps(s, worker, outcome);
    case Restart(id) => RestartKeeps(s, id);
    case Purge(olderThan) => PurgeKeeps(s, olderThan);
    case Wait(_) => QuietKeeps(s, Step(s, op));
    case Vanish(_) => QuietKeeps(s, Step(s, op));
  }

  lemma QuietKeeps(s: System, t: System)
    requires Inv(s) && t.jobs == s.jobs && t.log == s.log && s.clock <= t.clock
    requires forall w <- t.holders :: w in s.holders && t.holders[w] == s.holders[w]
    ensures Inv(t)
  {
    hide LastEvent, Claims, Legal, Fits;
    forall id: nat ensures RowExplained(t, id) { assert RowExplained(s, id); }
    forall w: int | Live(t, w) ensures HoldGood(t, w) { assert Live(s, w); }
  }

  // ---- every run ----

  ghost predicate Allowed(s: System, ops: seq<Op>)
    decreases |ops|
  {
    ops != [] ==> Enabled(s, ops[0]) && Allowed(Step(s, ops[0]), ops[1..])
  }

  ghost function Run(s: System, ops: seq<Op>): System
    requires Allowed(s, ops)
    decreases |ops|
  {
    if ops == [] then s else Run(Step(s, ops[0]), ops[1..])
  }

  lemma {:induction false} RunKeepsInv(s: System, ops: seq<Op>)
    requires Inv(s) && Allowed(s, ops)
    ensures Inv(Run(s, ops))
    decreases |ops|
  {
    if ops != [] {
      StepKeepsInv(s, ops[0]);
      hide Inv, Step;
      RunKeepsInv(Step(s, ops[0]), ops[1..]);
    }
  }

  lemma StartGood(clock: int)
    ensures Inv(Start(clock))
  {}

  // No interleaving gives two workers the same job while both could still settle it.
  lemma NoTwoHolders(clock: int, ops: seq<Op>, v: int, w: int)
    requires Allowed(Start(clock), ops)
    ensures var s := Run(Start(clock), ops);
            v != w && Live(s, v) && Live(s, w) ==> s.holders[v].job.id != s.holders[w].job.id
  {
    StartGood(clock);
    RunKeepsInv(Start(clock), ops);
    hide RowExplained, Legal;
  }

  // What a live holder holds is still waiting, leased to it until the time it thinks, and
  // unchanged since it was claimed; no other worker can claim it before then.
  lemma HolderHolds(clock: int, ops: seq<Op>, w: int, kinds: seq<string>)
    requires Allowed(Start(clock), ops) && Live(Run(Start(clock), ops), w)
    ensures var s := Run(Start(clock), ops);
            var h := s.holders[w];
            && h.job.id in s.jobs && Waiting(s.jobs[h.job.id]) && s.jobs[h.job.id].leaseUntil == Some(h.until)
            && h.job == JobOf(h.job.id, s.jobs[h.job.id])
            && !Claimable(s.jobs[h.job.id], s.clock, kinds)
  {
    var s := Run(Start(clock), ops);
    StartGood(clock);
    RunKeepsInv(Start(clock), ops);
    assert RowExplained(s, s.holders[w].job.id);
  }

  // Every job led a legal life, its row says how far it got, and a job that is gone was done.
  lemma EveryLifeLegal(clock: int, ops: seq<Op>, id: nat)
    requires Allowed(Start(clock), ops)
    ensures var s := Run(Start(clock), ops);
            && Legal(s.log)
            && (id !in s.jobs && LastEvent(s.log, id).Some? ==> LastEvent(s.log, id).value.Finished?)
            && (id in s.jobs ==> LastEvent(s.log, id).Some? && Fits(s.jobs[id], LastEvent(s.log, id).value)
                                 && s.jobs[id].attempts == Claims(s.log, id))
  {
    StartGood(clock);
    RunKeepsInv(Start(clock), ops);
    assert RowExplained(Run(Start(clock), ops), id);
    hide Fits, Legal, LastEvent, Claims;
  }

  // ---- five classes ----

  predicate Delayed(r: Row, now: int) { Waiting(r) && Unleased(r, now) && r.runAfter > now }

  function DelayedIds(jobs: Table, now: int): set<nat> { set id | id in jobs && Delayed(jobs[id], now) }

  predicate DoneOrDead(jobs: Table) {
    forall id <- jobs :: !(jobs[id].doneAt.Some? && jobs[id].deadAt.Some?)
  }

  lemma Count3(a: set<nat>, b: set<nat>, c: set<nat>)
    requires a !! b && a !! c && b !! c
    ensures |a + b + c| == |a| + |b| + |c|
  {
    assert a + b !! c;
  }

  lemma CountBoth(a: set<nat>, b: set<nat>)
    ensures |a + b| == |a| + |b| <==> a !! b
  {
    assert |a + b| == |a| + |b| - |a * b|;
    if a !! b {
      assert a * b == {};
    } else {
      var k :| k in a && k in b;
      assert k in a * b;
    }
  }

  function OpenIds(jobs: Table): set<nat> { set id | id in jobs && Waiting(jobs[id]) }

  lemma OpenCounted(jobs: Table, now: int)
    ensures |OpenIds(jobs)| == |ReadyIds(jobs, now)| + |LeasedIds(jobs, now)| + |DelayedIds(jobs, now)|
  {
    var a, b, c := ReadyIds(jobs, now), LeasedIds(jobs, now), DelayedIds(jobs, now);
    Count3(a, b, c);
    assert OpenIds(jobs) == a + b + c;
  }

  // Each row is in exactly one class, so the four counts and the delayed rows make up the table,
  // as long as no row is both done and dead.
  lemma DepthCountsEverything(jobs: Table, now: int)
    ensures DoneOrDead(jobs) <==>
      var d := DepthOf(jobs, now); d.ready + d.leased + d.deadLetter + d.done + |DelayedIds(jobs, now)| == |jobs|
  {
    var open, c, d := OpenIds(jobs), DeadIds(jobs), DoneIds(jobs);
    OpenCounted(jobs, now);
    CountBoth(c, d);
    ClosedApart(jobs);
    assert jobs.Keys == open + (c + d);
    CountBoth(open, c + d);
    hide OpenIds, DeadIds, DoneIds, ReadyIds, LeasedIds, DelayedIds, DoneOrDead;
    assert |jobs| == |jobs.Keys|;
  }

  lemma ClosedApart(jobs: Table)
    ensures DoneOrDead(jobs) <==> DeadIds(jobs) !! DoneIds(jobs)
    ensures OpenIds(jobs) !! DeadIds(jobs) + DoneIds(jobs)
  {
    if DeadIds(jobs) !! DoneIds(jobs) {
      forall id | id in jobs ensures !(jobs[id].doneAt.Some? && jobs[id].deadAt.Some?) {
        assert !(id in DeadIds(jobs) && id in DoneIds(jobs));
      }
    }
  }

  lemma EveryRunCounts(clock: int, ops: seq<Op>)
    requires Allowed(Start(clock), ops)
    ensures var s := Run(Start(clock), ops);
            && DoneOrDead(s.jobs)
            && var d := DepthOf(s.jobs, s.clock);
               d.ready + d.leased + d.deadLetter + d.done + |DelayedIds(s.jobs, s.clock)| == |s.jobs|
  {
    var s := Run(Start(clock), ops);
    StartGood(clock);
    RunKeepsInv(Start(clock), ops);
    forall id | id in s.jobs ensures !(s.jobs[id].doneAt.Some? && s.jobs[id].deadAt.Some?) {
      assert RowExplained(s, id);
    }
    hide Inv, Legal, DepthOf, DelayedIds;
    DepthCountsEverything(s.jobs, s.clock);
  }

  // ---- attempts ----

  // In every run, a job that waits unclaimed has an attempt left.
  lemma WaitingHasBudget(clock: int, ops: seq<Op>, id: nat)
    requires Allowed(Start(clock), ops) && id in Run(Start(clock), ops).jobs
    ensures var r := Run(Start(clock), ops).jobs[id];
            Waiting(r) && r.leaseUntil.None? ==> 0 <= r.attempts < r.maxAttempts
  {
    EveryLifeLegal(clock, ops, id);
    hide Legal, LastEvent, Claims;
  }

  predicate Within(s: System, id: nat) {
    id in s.jobs ==> s.jobs[id].attempts <= s.jobs[id].maxAttempts
  }

  // Nowhere along the run is the job's maximum exceeded.
  ghost predicate NeverOverspent(s: System, ops: seq<Op>, id: nat)
    requires Allowed(s, ops)
    decreases |ops|
  {
    Within(s, id) && (ops != [] ==> NeverOverspent(Step(s, ops[0]), ops[1..], id))
  }

  // The job is claimed although its attempts are used up.
  predicate LateClaim(s: System, op: Op, id: nat)
    requires Enabled(s, op)
  {
    op.Take? && op.id == id && s.jobs[id].attempts >= s.jobs[id].maxAttempts
  }

  ghost predicate NoLateClaim(s: System, ops: seq<Op>, id: nat)
    requires Allowed(s, ops)
    decreases |ops|
  {
    ops != [] ==> !LateClaim(s, ops[0], id) && NoLateClaim(Step(s, ops[0]), ops[1..], id)
  }

  // That can only be when the lease of its last chance has run out.
  lemma LateClaimIsExpiry(s: System, op: Op, id: nat)
    requires Inv(s) && Enabled(s, op) && LateClaim(s, op, id)
    ensures var r, last := s.jobs[id], LastEvent(s.log, id);
            && r.leaseUntil.Some? && r.leaseUntil.value <= s.clock
            && last.Some? && last.value.Claimed? && last.value.attempt == r.attempts && last.value.at == r.leaseUntil.value - LEASE
  {
    assert RowExplained(s, id);
    hide Legal, LastEvent, Claims;
  }

  lemma StepWithin(s: System, op: Op, id: nat)
    requires Inv(s) && Enabled(s, op) && Within(s, id)
    ensures Within(Step(s, op), id) <==> !LateClaim(s, op, id)
  {
    hide Legal, LastEvent, Claims, KeysUnique, KeyInUse, IsNextId;
    assert RowExplained(s, id);
    if op.Settle? { assert Live(s, op.worker); }
  }

  lemma {:induction false} OverspentIff(s: System, ops: seq<Op>, id: nat)
    requires Inv(s) && Within(s, id) && Allowed(s, ops)
    ensures NeverOverspent(s, ops, id) <==> NoLateClaim(s, ops, id)
    decreases |ops|
  {
    if ops != [] {
      StepWithin(s, ops[0], id);
      StepKeepsInv(s, ops[0]);
      hide Inv, Step, Within, LateClaim;
      if !LateClaim(s, ops[0], id) { OverspentIff(Step(s, ops[0]), ops[1..], id); }
      NotWithin(Step(s, ops[0]), ops[1..], id);
    }
  }

  lemma NotWithin(s: System, ops: seq<Op>, id: nat)
    requires Allowed(s, ops)
    ensures !Within(s, id) ==> !NeverOverspent(s, ops, id)
  {}

  // In every run, a job's attempts never exceed its maximum if and only if it is never claimed
  // again after the lease of its last chance ran out. What happens to other jobs, and to its own
  // earlier leases, does not matter.
  lemma NeverOverspentIff(clock: int, ops: seq<Op>, id: nat)
    requires Allowed(Start(clock), ops)
    ensures NeverOverspent(Start(clock), ops, id) <==> NoLateClaim(Start(clock), ops, id)
  {
    StartGood(clock);
    OverspentIff(Start(clock), ops, id);
  }

  lemma {:induction false} EndsWithin(s: System, ops: seq<Op>, id: nat)
    requires Allowed(s, ops) && NeverOverspent(s, ops, id)
    ensures Within(Run(s, ops), id)
    decreases |ops|
  {
    hide Step, Within;
    if ops != [] { EndsWithin(Step(s, ops[0]), ops[1..], id); }
  }

  // Such a job goes dead with exactly its maximum of claims.
  lemma ExactlyMaxAttempts(clock: int, ops: seq<Op>, id: nat)
    requires Allowed(Start(clock), ops) && NoLateClaim(Start(clock), ops, id)
    requires id in Run(Start(clock), ops).jobs && Run(Start(clock), ops).jobs[id].deadAt.Some?
    ensures Claims(Run(Start(clock), ops).log, id) == Run(Start(clock), ops).jobs[id].maxAttempts
  {
    NeverOverspentIff(clock, ops, id);
    EndsWithin(Start(clock), ops, id);
    EveryLifeLegal(clock, ops, id);
    hide Legal, LastEvent, Claims;
  }

  // In any run at all, a dead job was claimed at least that often.
  lemma DeadWasTried(clock: int, ops: seq<Op>, id: nat)
    requires Allowed(Start(clock), ops)
    requires id in Run(Start(clock), ops).jobs && Run(Start(clock), ops).jobs[id].deadAt.Some?
    ensures Claims(Run(Start(clock), ops).log, id) >= Run(Start(clock), ops).jobs[id].maxAttempts
  {
    EveryLifeLegal(clock, ops, id);
    hide Legal, LastEvent, Claims;
  }

  // A lease that runs out costs an attempt that nothing caps: a job can be claimed more often
  // than its maximum.
  lemma ExpiryOverspends()
    ensures exists ops :: Allowed(Start(0), ops) && var s := Run(Start(0), ops); 1 in s.jobs && s.jobs[1].attempts > s.jobs[1].maxAttempts
  {
    var spec := Spec("k", Some(""), "", None, 1);
    var ops := [Submit(spec, 1), Take(1, [], 1), Wait(LEASE), Take(2, [], 1)];
    var s1 := Step(Start(0), ops[0]);
    assert s1.jobs == map[1 := NewRow(spec, "", 0)];
    var s2 := Step(s1, ops[1]);
    var s3 := Step(s2, ops[2]);
    var s4 := Step(s3, ops[3]);
    assert ops[1..][1..] == [Wait(LEASE), Take(2, [], 1)] && [Wait(LEASE), Take(2, [], 1)][1..] == [Take(2, [], 1)];
    assert Allowed(s4, []) && Run(s4, []) == s4;
    assert Allowed(s3, [Take(2, [], 1)]) && Run(s3, [Take(2, [], 1)]) == s4;
    assert Allowed(s2, [Wait(LEASE), Take(2, [], 1)]) && Run(s2, [Wait(LEASE), Take(2, [], 1)]) == s4;
    assert Allowed(s1, ops[1..]) && Run(s1, ops[1..]) == s4;
    assert Allowed(Start(0), ops) && Run(Start(0), ops) == s4;
  }

  // Whenever it comes, a settlement keeps the classes apart exactly when its job is gone, or the
  // outcome is a success and the job is not dead, or a failure and either the job is not done or
  // this was not its last chance.
  lemma SettlementKeepsApartIff(jobs: Table, job: Job, outcome: Option<string>, now: int)
    requires DoneOrDead(jobs)
    ensures DoneOrDead(Settled(jobs, job, outcome, now)) <==>
      (job.id in jobs ==>
        match outcome
        case None => jobs[job.id].deadAt.None?
        case Some(_) => jobs[job.id].doneAt.None? || !job.LastChance())
  {
    var after := Settled(jobs, job, outcome, now);
    if job.id in jobs {
      assert forall k <- jobs :: k != job.id ==> after[k] == jobs[k];
      assert job.id in after;
    }
  }

  // A worker that reports success after its lease ran out can so leave a job both done and dead,
  // and counted twice.
  lemma LateSettlementBreaksCount()
    ensures var spec := Spec("k", Some(""), "", None, 1);
            var enqueued := map[1 := NewRow(spec, "", 0)];
            var first := ClaimStep(enqueued, 1, 0);
            var second := ClaimStep(first, 1, LEASE);
            var failed := FailStep(second, JobOf(1, second[1]), "", LEASE);
            var late := DoneStep(failed, 1, LEASE + 1);
            && IsNext(enqueued, 1, 0, []) && IsNext(first, 1, LEASE, [])
            && late[1].doneAt.Some? && late[1].deadAt.Some?
            && var d := DepthOf(late, LEASE + 1); d.ready + d.leased + d.deadLetter + d.done > |late|
  {
    var late := map[1 := Row("k", "", 0, None, 2, 1, "", "", 0, Some(LEASE + 1), Some(LEASE))];
    assert DeadIds(late) == {1} && DoneIds(late) == {1} && |late| == 1;
  }

  // ---- restarting ----

  lemma RestartRefusedIff(s: System, id: nat)
    requires Inv(s)
    ensures RetryStep(s.jobs, id, s.clock).1.None? <==>
      && id in s.jobs && s.jobs[id].deadAt.Some?
      && !(s.jobs[id].idemKey != "" && KeyInUse(s.jobs, s.jobs[id].idemKey))
  {
    if id in s.jobs { assert RowExplained(s, id); }
  }

  // A restarted job was dead, with nothing waiting under its key, and is as good as new: claimable
  // at once, with all its attempts before it.
  lemma RestartRestores(s: System, id: nat)
    requires Inv(s) && id in s.jobs && Step(s, Restart(id)) != s
    ensures var t := Step(s, Restart(id));
            && Claims(t.log, id) == 0 && t.jobs[id].maxAttempts == s.jobs[id].maxAttempts
            && Claimable(t.jobs[id], s.clock, [s.jobs[id].kind])
            && s.jobs[id].deadAt.Some? && !(s.jobs[id].idemKey != "" && KeyInUse(s.jobs, s.jobs[id].idemKey))
  {
    assert RowExplained(s, id);
    RestartRefusedIff(s, id);
    LastSnoc(s.log, Restarted(id, s.clock), id);
  }

  // ---- the delivery worker ----

  // What Once does to the queue is a claim, the time the delivery takes, and a settlement.
  lemma OnceIsAProtocolStep(s: System, worker: int, kinds: seq<string>, id: nat, seconds: nat, outcome: Option<string>)
    requires worker !in s.holders && IsNext(s.jobs, id, s.clock, kinds) && seconds < LEASE
    ensures var ops := [Take(worker, kinds, id), Wait(seconds), Settle(worker, outcome)];
            var claimed := ClaimStep(s.jobs, id, s.clock);
            && Allowed(s, ops)
            && Run(s, ops).jobs == Settled(claimed, JobOf(id, claimed[id]), outcome, s.clock + seconds)
            && Run(s, ops).holders == s.holders
  {
    var ops := [Take(worker, kinds, id), Wait(seconds), Settle(worker, outcome)];
    var s1 := Step(s, ops[0]);
    var s2 := Step(s1, ops[1]);
    var s3 := Step(s2, ops[2]);
    assert ops[1..][1..] == [ops[2]] && [ops[2]][1..] == [];
    assert Allowed(s3, []) && Run(s3, []) == s3;
    assert Allowed(s2, [ops[2]]) && Run(s2, [ops[2]]) == s3;
    assert Allowed(s1, ops[1..]) && Run(s1, ops[1..]) == s3;
    assert s.holders[worker := s1.holders[worker]] - {worker} == s.holders;
  }
}
