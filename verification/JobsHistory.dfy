// What the queue's rows say about the calls made to it, in numbers and fields.
module JobsHistory {
  import opened Common
  import opened Jobs
  import opened JobsProtocol

  // ---- the waiting time ----

  function Power(n: nat): nat { if n == 0 then 1 else Power(n - 1) * 2 }

  function Capped(wait: nat): nat { if wait > 21600 then 21600 else wait }

  // Half a minute, doubled with every failure after the first, at most six hours.
  lemma {:induction false} BackoffIs(k: int)
    ensures Backoff(k) == if k < 1 then 30 else Capped(30 * Power(k - 1))
  {
    if k >= 1 { GrownIs(k); }
  }

  lemma {:induction false} GrownIs(k: nat)
    requires k >= 1
    ensures Grown(k) == 30 * Power(k - 1)
  {
    if k > 1 { GrownIs(k - 1); }
  }

  lemma {:induction false} ClaimsCounted(log: seq<Event>, id: nat)
    requires Legal(log)
    ensures var last := LastEvent(log, id);
            last.Some? ==>
              && (last.value.Claimed? ==> last.value.attempt == Claims(log, id) >= 1)
              && (last.value.Failed? ==> last.value.attempt == Claims(log, id) >= 1)
              && (last.value.Died? ==> last.value.attempt == Claims(log, id) >= 1)
              && (last.value.Enqueued? || last.value.Restarted? ==> Claims(log, id) == 0)
    decreases |log|
  {
    if log != [] {
      var earlier, e := log[..|log| - 1], log[|log| - 1];
      forall i | 0 <= i < |earlier| ensures Follows(LastEvent(earlier[..i], earlier[i].id), earlier[i]) {
        assert earlier[..i] == log[..i] && earlier[i] == log[i];
      }
      ClaimsCounted(earlier, id);
      assert log[..|log| - 1] == earlier && Follows(LastEvent(earlier, e.id), e);
      hide Legal;
    }
  }

  // In every run, a job waits as long after its latest failure as the number of its claims says,
  // is leased for five minutes after its latest claim, and dies of the last attempt it has.
  lemma WaitsInNumbers(clock: int, ops: seq<Op>, id: nat)
    requires Allowed(Start(clock), ops) && id in Run(Start(clock), ops).jobs
    ensures var s := Run(Start(clock), ops);
            var r, last, claims := s.jobs[id], LastEvent(s.log, id), Claims(s.log, id);
            && last.Some?
            && (match last.value
                case Failed(_, k, at) =>
                  && 1 <= k == claims < r.maxAttempts
                  && r.runAfter == at + Capped(30 * Power(k - 1)) && r.leaseUntil == None
                case Claimed(_, _, k, at) => k == claims && r.leaseUntil == Some(at + 300)
                case Died(_, k, at) => r.maxAttempts <= k == claims && r.deadAt == Some(at) && r.doneAt == None
                case Restarted(_, at) => claims == 0 && r.runAfter == at && r.deadAt == None && r.leaseUntil == None
                case Finished(_, at) => r.doneAt == Some(at) && r.deadAt == None
                case Enqueued(_, _) => claims == 0 && r.leaseUntil == None)
  {
    EveryLifeLegal(clock, ops, id);
    var s := Run(Start(clock), ops);
    ClaimsCounted(s.log, id);
    var e := LastEvent(s.log, id).value;
    if e.Failed? { BackoffIs(e.attempt); }
    hide Legal, LastEvent, Claims, Backoff, Power;
  }

  // ---- one call at a time ----

  predicate Open(r: Row) { r.doneAt == None && r.deadAt == None }

  predicate Free(r: Row, now: int) { match r.leaseUntil case None => true case Some(until) => until <= now }

  // Numbers go up by one from the largest, starting at one.
  lemma NextIdTells(jobs: Table, id: nat)
    requires TableOk(jobs) && IsNextId(jobs, id)
    ensures jobs == map[] ==> id == 1
    ensures jobs != map[] ==> id > 1 && id - 1 in jobs && forall k <- jobs :: k <= id - 1
  {
    if jobs != map[] {
      var k :| k in jobs;
      assert 1 <= k < id;
    }
  }

  // A call is refused for a missing kind, a payload that cannot be encoded, or a key that a job
  // neither done nor dead has; otherwise the job is stored as it was given.
  lemma EnqueueTells(jobs: Table, spec: Spec, now: int, id: nat)
    requires IsNextId(jobs, id)
    ensures var (after, r) := EnqueueStep(jobs, spec, now, id);
            var taken := spec.idemKey != "" &&
              exists k <- jobs :: Open(jobs[k]) && jobs[k].idemKey == spec.idemKey;
            && (r.Ok? <==> spec.kind != "" && spec.payload.Some? && !taken)
            && (r == Err(NoKind) <==> spec.kind == "")
            && (r == Err(Unencodable) <==> spec.kind != "" && spec.payload == None)
            && (r == Err(Duplicate) <==> spec.kind != "" && spec.payload.Some? && taken)
            && (r.Err? ==> after == jobs)
            && (r.Ok? ==>
                  && r.value == id && id !in jobs && after.Keys == jobs.Keys + {id} && (forall k <- jobs :: after[k] == jobs[k])
                  && after[id].kind == spec.kind && Some(after[id].payload) == spec.payload && after[id].idemKey == spec.idemKey
                  && after[id].runAfter == (match spec.runAfter case Some(at) => at case None => now)
                  && after[id].maxAttempts == (if spec.maxAttempts > 0 then spec.maxAttempts else 5)
                  && after[id].attempts == 0 && after[id].createdAt == now && after[id].lastError == ""
                  && after[id].leaseUntil == None && after[id].doneAt == None && after[id].deadAt == None)
  {
    if spec.kind != "" && spec.payload.Some? && spec.idemKey != "" {
      assert KeyInUse(jobs, spec.idemKey) <==>
        exists k <- jobs :: Open(jobs[k]) && jobs[k].idemKey == spec.idemKey;
    }
  }

  // A claim takes a job that is neither done nor dead, is due, is not leased and is of a wanted
  // kind, and none of those is due earlier; it is handed out as it stands, one attempt later.
  lemma ClaimTells(jobs: Table, id: nat, now: int, kinds: seq<string>)
    requires IsNext(jobs, id, now, kinds)
    ensures var r, after := jobs[id], ClaimStep(jobs, id, now);
            var job := JobOf(id, after[id]);
            && Open(r) && r.runAfter <= now && Free(r, now) && (kinds == [] || r.kind in kinds)
            && (forall k <- jobs :: Open(jobs[k]) && (kinds == [] || jobs[k].kind in kinds) && Free(jobs[k], now) ==>
                  r.runAfter <= jobs[k].runAfter)
            && after == jobs[id := r.(leaseUntil := Some(now + 300), attempts := r.attempts + 1)]
            && job.id == id && job.kind == r.kind && job.payload == r.payload && job.idemKey == r.idemKey
            && job.attempts == r.attempts + 1 && job.maxAttempts == r.maxAttempts
            && job.lastError == r.lastError && job.runAfter == r.runAfter && job.createdAt == r.createdAt
  {
    forall k | k in jobs && Open(jobs[k]) && (kinds == [] || jobs[k].kind in kinds) && Free(jobs[k], now)
      ensures jobs[id].runAfter <= jobs[k].runAfter
    {
      if jobs[k].runAfter <= now { assert Claimable(jobs[k], now, kinds); }
    }
  }

  // A failure of the last attempt ends the job; any other puts it off. Either way its error is
  // noted and it is no longer leased, and no other job changes.
  lemma FailTells(jobs: Table, job: Job, cause: string, now: int)
    requires job.id in jobs
    ensures var r, after := jobs[job.id], FailStep(jobs, job, cause, now);
            && after == jobs[job.id := after[job.id]]
            && (job.attempts >= job.maxAttempts ==>
                  after[job.id] == r.(deadAt := Some(now), lastError := cause, leaseUntil := None))
            && (1 <= job.attempts < job.maxAttempts ==>
                  after[job.id] == r.(runAfter := now + Capped(30 * Power(job.attempts - 1)), lastError := cause, leaseUntil := None))
  {
    if 1 <= job.attempts { BackoffIs(job.attempts); }
    hide Backoff, Power;
  }

  // The counts, each as the number of rows in a plain condition.
  lemma DepthTells(jobs: Table, now: int)
    ensures var d := DepthOf(jobs, now);
            && d.ready == |set id | id in jobs && Open(jobs[id]) && jobs[id].runAfter <= now && Free(jobs[id], now)|
            && d.leased == |set id | id in jobs && Open(jobs[id]) && !Free(jobs[id], now)|
            && d.deadLetter == |set id | id in jobs && jobs[id].deadAt != None|
            && d.done == |set id | id in jobs && jobs[id].doneAt != None|
  {
    assert ReadyIds(jobs, now) == set id | id in jobs && Open(jobs[id]) && jobs[id].runAfter <= now && Free(jobs[id], now);
    assert LeasedIds(jobs, now) == set id | id in jobs && Open(jobs[id]) && !Free(jobs[id], now);
    assert DeadIds(jobs) == set id | id in jobs && jobs[id].deadAt != None;
    assert DoneIds(jobs) == set id | id in jobs && jobs[id].doneAt != None;
  }

  // ---- what a job was enqueued with ----

  // The call that stored the job now under this id, and when.
  ghost function Origin(s: System, ops: seq<Op>, id: nat, before: Option<(Spec, int)>): Option<(Spec, int)>
    requires Allowed(s, ops)
    decreases |ops|
  {
    if ops == [] then before
    else
      var stored := ops[0].Submit? && ops[0].id == id && id in Step(s, ops[0]).jobs;
      Origin(Step(s, ops[0]), ops[1..], id, if stored then Some((ops[0].spec, s.clock)) else before)
  }

  // The row still says what the call said, and until somebody claims it, when it is due.
  predicate AsGiven(s: System, id: nat, given: Option<(Spec, int)>) {
    id in s.jobs ==>
      && given.Some?
      && var (r, spec, at) := (s.jobs[id], given.value.0, given.value.1);
         && r.kind == spec.kind != "" && Some(r.payload) == spec.payload && r.idemKey == spec.idemKey && r.createdAt == at
         && r.maxAttempts == (if spec.maxAttempts > 0 then spec.maxAttempts else 5)
         && (LastEvent(s.log, id) == Some(Enqueued(id, at)) ==>
               r.runAfter == (match spec.runAfter case Some(due) => due case None => at))
  }

  lemma StepAsGiven(s: System, op: Op, id: nat, given: Option<(Spec, int)>)
    requires Inv(s) && Enabled(s, op) && AsGiven(s, id, given)
    ensures var stored := op.Submit? && op.id == id && id in Step(s, op).jobs;
            AsGiven(Step(s, op), id, if stored then Some((op.spec, s.clock)) else given)
  {
    hide LastEvent, Claims, Legal, KeysUnique, KeyInUse, RowExplained, Backoff;
    var t := Step(s, op);
    if op.Settle? { assert Live(s, op.worker); }
    if t.log != s.log { LastSnoc(s.log, t.log[|s.log|], id); }
  }

  lemma {:induction false} RunAsGiven(s: System, ops: seq<Op>, id: nat, given: Option<(Spec, int)>)
    requires Inv(s) && Allowed(s, ops) && AsGiven(s, id, given)
    ensures AsGiven(Run(s, ops), id, Origin(s, ops, id, given))
    decreases |ops|
  {
    if ops != [] {
      StepAsGiven(s, ops[0], id, given);
      StepKeepsInv(s, ops[0]);
      hide Inv, Step, AsGiven;
      var stored := ops[0].Submit? && ops[0].id == id && id in Step(s, ops[0]).jobs;
      RunAsGiven(Step(s, ops[0]), ops[1..], id, if stored then Some((ops[0].spec, s.clock)) else given);
    }
  }

  // In every run, every job in the table has the kind, the payload, the key and the number of
  // attempts it was enqueued with, and is due when the call said until it is claimed first.
  lemma EveryJobAsGiven(clock: int, ops: seq<Op>, id: nat)
    requires Allowed(Start(clock), ops)
    ensures AsGiven(Run(Start(clock), ops), id, Origin(Start(clock), ops, id, None))
  {
    StartGood(clock);
    RunAsGiven(Start(clock), ops, id, None);
  }

  // A worker that can still settle its job holds what that call gave.
  lemma HandedAsGiven(clock: int, ops: seq<Op>, w: int)
    requires Allowed(Start(clock), ops) && Live(Run(Start(clock), ops), w)
    ensures var job := Run(Start(clock), ops).holders[w].job;
            var given := Origin(Start(clock), ops, job.id, None);
            && given.Some?
            && job.kind == given.value.0.kind && Some(job.payload) == given.value.0.payload && job.idemKey == given.value.0.idemKey
            && job.maxAttempts == (if given.value.0.maxAttempts > 0 then given.value.0.maxAttempts else 5)
            && job.createdAt == given.value.1 && job.attempts == Claims(Run(Start(clock), ops).log, job.id)
  {
    var job := Run(Start(clock), ops).holders[w].job;
    HolderHolds(clock, ops, w, []);
    EveryJobAsGiven(clock, ops, job.id);
    EveryLifeLegal(clock, ops, job.id);
    hide Run, Origin, Legal, LastEvent, Claims;
  }

  // A job leaves the table only by a purge, once it was done before the moment that names.
  lemma OnlyPurgesForget(s: System, op: Op, id: nat)
    requires Enabled(s, op) && id in s.jobs
    ensures id !in Step(s, op).jobs <==>
              op.Purge? && s.jobs[id].doneAt.Some? && s.jobs[id].doneAt.value < s.clock - op.olderThan
  {
    hide LastEvent, Claims, Legal, KeysUnique, KeyInUse, RowExplained, Backoff;
  }
}
