// internal/jobs: a queue of jobs that workers lease. Times are Unix seconds; the null text
// columns are empty strings, which is what the code stores as null.
module Jobs {
  import opened Common

  const DEFAULT_MAX_ATTEMPTS := 5
  const LEASE := 300
  const BASE_BACKOFF := 30
  const MAX_BACKOFF := 21600

  datatype Row = Row(
    kind: string,
    payload: string,
    runAfter: int,
    leaseUntil: Option<int>,
    attempts: int,
    maxAttempts: int,
    idemKey: string,
    lastError: string,
    createdAt: int,
    doneAt: Option<int>,
    deadAt: Option<int>)

  type Table = map<nat, Row>

  datatype Job = Job(id: nat, kind: string, payload: string, attempts: int, maxAttempts: int, idemKey: string,
                     lastError: string, runAfter: int, createdAt: int)
  {
    predicate LastChance() { attempts >= maxAttempts }
  }

  // payload: None when it cannot be encoded. runAfter: None for the zero time.
  datatype Spec = Spec(kind: string, payload: Option<string>, idemKey: string, runAfter: Option<int>, maxAttempts: int)

  datatype Failure = NoKind | Unencodable | Duplicate | NoJob | Constraint

  datatype Depth = Depth(ready: nat, leased: nat, deadLetter: nat, done: nat)

  // ---- the rows ----

  predicate Waiting(r: Row) { r.doneAt.None? && r.deadAt.None? }

  // The unique index: one waiting row to a key.
  predicate KeyInUse(jobs: Table, key: string) {
    exists id <- jobs :: Waiting(jobs[id]) && jobs[id].idemKey == key
  }

  predicate KeysUnique(jobs: Table) {
    forall a <- jobs, b <- jobs :: Waiting(jobs[a]) && Waiting(jobs[b]) && jobs[a].idemKey == jobs[b].idemKey != "" ==> a == b
  }

  // integer primary key: one more than the largest, 1 in an empty table.
  predicate IsNextId(jobs: Table, id: nat) {
    && id >= 1 && (forall k <- jobs :: k < id)
    && (id == 1 || id - 1 in jobs)
  }

  predicate Unleased(r: Row, now: int) { r.leaseUntil.None? || r.leaseUntil.value <= now }

  predicate Claimable(r: Row, now: int, kinds: seq<string>) {
    Waiting(r) && r.runAfter <= now && Unleased(r, now) && (kinds == [] || r.kind in kinds)
  }

  // order by run_after limit 1: which of several equally early rows is not said.
  predicate IsNext(jobs: Table, id: nat, now: int, kinds: seq<string>) {
    && id in jobs && Claimable(jobs[id], now, kinds)
    && (forall k <- jobs :: Claimable(jobs[k], now, kinds) ==> jobs[id].runAfter <= jobs[k].runAfter)
  }

  // What the schema keeps true of the table.
  ghost predicate TableOk(jobs: Table) {
    KeysUnique(jobs) && forall id <- jobs :: id >= 1
  }

  // ---- the updates ----

  function NewRow(spec: Spec, payload: string, now: int): Row {
    Row(spec.kind, payload, if spec.runAfter.Some? then spec.runAfter.value else now, None, 0,
        if spec.maxAttempts <= 0 then DEFAULT_MAX_ATTEMPTS else spec.maxAttempts, spec.idemKey, "", now, None, None)
  }

  function EnqueueStep(jobs: Table, spec: Spec, now: int, id: nat): (Table, Result<nat, Failure>) {
    if spec.kind == "" then (jobs, Err(NoKind))
    else if spec.payload.None? then (jobs, Err(Unencodable))
    else if spec.idemKey != "" && KeyInUse(jobs, spec.idemKey) then (jobs, Err(Duplicate))
    else (jobs[id := NewRow(spec, spec.payload.value, now)], Ok(id))
  }

  function Lease(r: Row, now: int): Row {
    r.(leaseUntil := Some(now + LEASE), attempts := r.attempts + 1)
  }

  function JobOf(id: nat, r: Row): Job {
    Job(id, r.kind, r.payload, r.attempts, r.maxAttempts, r.idemKey, r.lastError, r.runAfter, r.createdAt)
  }

  function ClaimStep(jobs: Table, id: nat, now: int): Table
    requires id in jobs
  {
    jobs[id := Lease(jobs[id], now)]
  }

  function DoneStep(jobs: Table, id: nat, now: int): Table {
    if id in jobs then jobs[id := jobs[id].(doneAt := Some(now), leaseUntil := None)] else jobs
  }

  // Doubling from the base, never above the cap.
  function Grown(attempt: nat): nat
    requires attempt >= 1
  {
    if attempt == 1 then BASE_BACKOFF else 2 * Grown(attempt - 1)
  }

  function Backoff(attempt: int): nat {
    var grown := Grown(if attempt < 1 then 1 else attempt);
    if grown > MAX_BACKOFF then MAX_BACKOFF else grown
  }

  function FailStep(jobs: Table, job: Job, cause: string, now: int): Table {
    if job.id !in jobs then jobs
    else if job.LastChance() then
      jobs[job.id := jobs[job.id].(deadAt := Some(now), lastError := cause, leaseUntil := None)]
    else
      jobs[job.id := jobs[job.id].(runAfter := now + Backoff(job.attempts), lastError := cause, leaseUntil := None)]
  }

  function Revived(r: Row, now: int): Row {
    r.(deadAt := None, attempts := 0, runAfter := now, leaseUntil := None)
  }

  // A revived row may find its key taken by a job that was enqueued after it died.
  function RetryStep(jobs: Table, id: nat, now: int): (Table, Option<Failure>) {
    if id !in jobs || jobs[id].deadAt.None? then (jobs, Some(NoJob))
    else if jobs[id].doneAt.None? && jobs[id].idemKey != "" && KeyInUse(jobs, jobs[id].idemKey) then (jobs, Some(Constraint))
    else (jobs[id := Revived(jobs[id], now)], None)
  }

  predicate Purged(r: Row, before: int) { r.doneAt.Some? && r.doneAt.value < before }

  function PurgeStep(jobs: Table, before: int): Table {
    map id | id in jobs && !Purged(jobs[id], before) :: jobs[id]
  }

  // ---- counting ----

  predicate Ready(r: Row, now: int) { Waiting(r) && r.runAfter <= now && Unleased(r, now) }
  predicate Leased(r: Row, now: int) { Waiting(r) && r.leaseUntil.Some? && r.leaseUntil.value > now }

  function ReadyIds(jobs: Table, now: int): set<nat> { set id | id in jobs && Ready(jobs[id], now) }
  function LeasedIds(jobs: Table, now: int): set<nat> { set id | id in jobs && Leased(jobs[id], now) }
  function DeadIds(jobs: Table): set<nat> { set id | id in jobs && jobs[id].deadAt.Some? }
  function DoneIds(jobs: Table): set<nat> { set id | id in jobs && jobs[id].doneAt.Some? }

  function DepthOf(jobs: Table, now: int): Depth {
    Depth(|ReadyIds(jobs, now)|, |LeasedIds(jobs, now)|, |DeadIds(jobs)|, |DoneIds(jobs)|)
  }

  // Only the rows outside left.
  ghost function DepthBut(jobs: Table, now: int, left: set<nat>): Depth {
    Depth(|ReadyIds(jobs, now) - left|, |LeasedIds(jobs, now) - left|, |DeadIds(jobs) - left|, |DoneIds(jobs) - left|)
  }

  lemma NobodySeen(jobs: Table, now: int)
    ensures DepthBut(jobs, now, jobs.Keys) == Depth(0, 0, 0, 0)
  {
    assert ReadyIds(jobs, now) - jobs.Keys == {} && LeasedIds(jobs, now) - jobs.Keys == {};
    assert DeadIds(jobs) - jobs.Keys == {} && DoneIds(jobs) - jobs.Keys == {};
  }

  lemma AllSeen(jobs: Table, now: int)
    ensures DepthBut(jobs, now, {}) == DepthOf(jobs, now)
  {
    assert ReadyIds(jobs, now) - {} == ReadyIds(jobs, now) && LeasedIds(jobs, now) - {} == LeasedIds(jobs, now);
    assert DeadIds(jobs) - {} == DeadIds(jobs) && DoneIds(jobs) - {} == DoneIds(jobs);
  }

  lemma OneSeen(jobs: Table, now: int, left: set<nat>, k: nat)
    requires k in left && left <= jobs.Keys
    ensures var before, r := DepthBut(jobs, now, left), jobs[k];
            DepthBut(jobs, now, left - {k}) == Depth(
              before.ready + if Ready(r, now) then 1 else 0,
              before.leased + if Leased(r, now) then 1 else 0,
              before.deadLetter + if r.deadAt.Some? then 1 else 0,
              before.done + if r.doneAt.Some? then 1 else 0)
  {
    hide Ready, Leased;
    OneLess(ReadyIds(jobs, now), left, k);
    OneLess(LeasedIds(jobs, now), left, k);
    OneLess(DeadIds(jobs), left, k);
    OneLess(DoneIds(jobs), left, k);
  }

  lemma OneLess(counted: set<nat>, left: set<nat>, k: nat)
    requires k in left
    ensures |counted - (left - {k})| == |counted - left| + if k in counted then 1 else 0
  {
    if k in counted {
      assert counted - (left - {k}) == (counted - left) + {k};
    } else {
      assert counted - (left - {k}) == counted - left;
    }
  }

  function PurgedIds(jobs: Table, before: int): set<nat> { set id | id in jobs && Purged(jobs[id], before) }

  lemma PurgeCounts(jobs: Table, before: int)
    ensures jobs - PurgedIds(jobs, before) == PurgeStep(jobs, before)
    ensures |jobs| == |PurgeStep(jobs, before)| + |PurgedIds(jobs, before)|
    ensures TableOk(jobs) ==> TableOk(PurgeStep(jobs, before))
  {
    var gone, left := PurgedIds(jobs, before), PurgeStep(jobs, before);
    assert jobs - gone == left;
    assert jobs.Keys == gone + left.Keys && gone !! left.Keys;
    assert |jobs| == |jobs.Keys| && |left| == |left.Keys|;
  }

  // ---- the queue ----

  class Queue {
    var jobs: Table

    ghost predicate Valid()
      reads this
    {
      TableOk(jobs)
    }

    constructor ()
      ensures Valid() && jobs == map[]
    {
      jobs := map[];
    }

    method NextId() returns (id: nat)
      requires Valid()
      ensures IsNextId(jobs, id)
    {
      id := 1;
      var left := jobs.Keys;
      while left != {}
        invariant left <= jobs.Keys
        invariant id >= 1 && (id == 1 || id - 1 in jobs)
        invariant forall k <- jobs :: k !in left ==> k < id
        decreases |left|
      {
        var k :| k in left;
        if k >= id { id := k + 1; }
        left := left - {k};
      }
    }

    method Enqueue(spec: Spec, now: int) returns (r: Result<nat, Failure>)
      requires Valid()
      modifies this
      ensures Valid()
      ensures exists id :: IsNextId(old(jobs), id) && (jobs, r) == EnqueueStep(old(jobs), spec, now, id)
    {
      var id := NextId();
      assert (EnqueueStep(jobs, spec, now, id).0, EnqueueStep(jobs, spec, now, id).1) == EnqueueStep(jobs, spec, now, id);
      if spec.kind == "" { return Err(NoKind); }
      var attempts := spec.maxAttempts;
      if attempts <= 0 { attempts := DEFAULT_MAX_ATTEMPTS; }
      if spec.payload.None? { return Err(Unencodable); }
      var runAfter := now;
      if spec.runAfter.Some? { runAfter := spec.runAfter.value; }
      if spec.idemKey != "" && KeyInUse(jobs, spec.idemKey) { return Err(Duplicate); }
      jobs := jobs[id := Row(spec.kind, spec.payload.value, runAfter, None, 0, attempts, spec.idemKey, "", now, None, None)];
      r := Ok(id);
    }

    method Claim(now: int, kinds: seq<string>) returns (r: Result<Job, Failure>)
      requires Valid()
      modifies this
      ensures Valid()
      ensures r.Err? ==> jobs == old(jobs) && r.error == NoJob && forall k <- jobs :: !Claimable(jobs[k], now, kinds)
      ensures r.Ok? ==>
        && IsNext(old(jobs), r.value.id, now, kinds)
        && jobs == ClaimStep(old(jobs), r.value.id, now) && r.value == JobOf(r.value.id, jobs[r.value.id])
    {
      var found, id := false, 0;
      var left := jobs.Keys;
      while left != {}
        invariant left <= jobs.Keys
        invariant jobs == old(jobs)
        invariant found ==> id in jobs && Claimable(jobs[id], now, kinds)
        invariant forall k <- jobs :: k !in left && Claimable(jobs[k], now, kinds) ==>
                    found && jobs[id].runAfter <= jobs[k].runAfter
        decreases |left|
      {
        var k :| k in left;
        if Claimable(jobs[k], now, kinds) && (!found || jobs[k].runAfter < jobs[id].runAfter) {
          found, id := true, k;
        }
        left := left - {k};
      }
      if !found { return Err(NoJob); }
      jobs := jobs[id := jobs[id].(leaseUntil := Some(now + LEASE), attempts := jobs[id].attempts + 1)];
      r := Ok(JobOf(id, jobs[id]));
    }

    method Done(id: nat, now: int)
      requires Valid()
      modifies this
      ensures Valid()
      ensures jobs == DoneStep(old(jobs), id, now)
    {
      if id in jobs {
        jobs := jobs[id := jobs[id].(doneAt := Some(now), leaseUntil := None)];
      }
    }

    method Fail(job: Job, cause: string, now: int)
      requires Valid()
      modifies this
      ensures Valid()
      ensures jobs == FailStep(old(jobs), job, cause, now)
    {
      if job.id !in jobs { return; }
      if job.LastChance() {
        jobs := jobs[job.id := jobs[job.id].(deadAt := Some(now), lastError := cause, leaseUntil := None)];
        return;
      }
      var retryAt := now + Backoff(job.attempts);
      jobs := jobs[job.id := jobs[job.id].(runAfter := retryAt, lastError := cause, leaseUntil := None)];
    }

    method Retry(id: nat, now: int) returns (failure: Option<Failure>)
      requires Valid()
      modifies this
      ensures Valid()
      ensures (jobs, failure) == RetryStep(old(jobs), id, now)
    {
      if id !in jobs || jobs[id].deadAt.None? { return Some(NoJob); }
      if jobs[id].doneAt.None? && jobs[id].idemKey != "" && KeyInUse(jobs, jobs[id].idemKey) { return Some(Constraint); }
      jobs := jobs[id := jobs[id].(deadAt := None, attempts := 0, runAfter := now, leaseUntil := None)];
      failure := None;
    }

    method CountDepth(now: int) returns (d: Depth)
      ensures d == DepthOf(jobs, now)
    {
      hide DepthBut, DepthOf, ReadyIds, LeasedIds, DeadIds, DoneIds;
      hide Ready, Leased;
      var ready, leased, deadLetter, done := 0, 0, 0, 0;
      var left := jobs.Keys;
      NobodySeen(jobs, now);
      while left != {}
        invariant left <= jobs.Keys
        invariant Depth(ready, leased, deadLetter, done) == DepthBut(jobs, now, left)
        decreases |left|
      {
        var k :| k in left;
        OneSeen(jobs, now, left, k);
        if Ready(jobs[k], now) { ready := ready + 1; }
        if Leased(jobs[k], now) { leased := leased + 1; }
        if jobs[k].deadAt.Some? { deadLetter := deadLetter + 1; }
        if jobs[k].doneAt.Some? { done := done + 1; }
        left := left - {k};
      }
      AllSeen(jobs, now);
      d := Depth(ready, leased, deadLetter, done);
    }

    method PurgeDone(olderThan: int, now: int) returns (n: nat)
      requires Valid()
      modifies this
      ensures Valid()
      ensures jobs == PurgeStep(old(jobs), now - olderThan)
      ensures |old(jobs)| == |jobs| + n
    {
      hide PurgedIds, PurgeStep, TableOk;
      var gone := PurgedIds(jobs, now - olderThan);
      PurgeCounts(jobs, now - olderThan);
      n := |gone|;
      jobs := jobs - gone;
    }
  }

  // internal/web/delivery.go: what a delivery worker does with one job. It takes some time
  // from claiming it to knowing the outcome.
  class Deliverer {
    const queue: Queue

    constructor (queue: Queue)
      ensures this.queue == queue
    {
      this.queue := queue;
    }

    // outcome: None for a delivery that worked, or the error it ended with.
    method Once(kinds: seq<string>, claimedAt: int, settledAt: int, outcome: Job -> Option<string>) returns (worked: bool)
      requires queue.Valid()
      modifies queue
      ensures queue.Valid()
      ensures !worked ==> queue.jobs == old(queue.jobs) && forall k <- queue.jobs :: !Claimable(queue.jobs[k], claimedAt, kinds)
      ensures worked ==> exists id ::
        && IsNext(old(queue.jobs), id, claimedAt, kinds)
        && var claimed := ClaimStep(old(queue.jobs), id, claimedAt);
           var job := JobOf(id, claimed[id]);
           queue.jobs == match outcome(job)
                         case None => DoneStep(claimed, id, settledAt)
                         case Some(cause) => FailStep(claimed, job, cause, settledAt)
    {
      var claimed := queue.Claim(claimedAt, kinds);
      if claimed.Err? { return false; }
      var job := claimed.value;
      match outcome(job) {
        case Some(cause) => queue.Fail(job, cause, settledAt);
        case None => queue.Done(job.id, settledAt);
      }
      worked := true;
    }
  }

  // ---- the waiting time ----

  lemma {:induction false} GrownAt(attempt: nat)
    requires attempt >= 1
    ensures Grown(attempt) >= BASE_BACKOFF
    ensures attempt > 10 ==> Grown(attempt) > MAX_BACKOFF
  {
    if attempt == 1 {
    } else {
      GrownAt(attempt - 1);
      if attempt == 11 {
        assert Grown(2) == 60 && Grown(4) == 240 && Grown(6) == 960 && Grown(8) == 3840 && Grown(10) == 15360;
      }
    }
  }

  // The wait never shrinks and never passes the cap, which the eleventh attempt reaches.
  lemma {:induction false} BackoffGrows(a: int, b: int)
    requires a <= b
    ensures BASE_BACKOFF <= Backoff(a) <= Backoff(b) <= MAX_BACKOFF
    ensures b > 10 ==> Backoff(b) == MAX_BACKOFF
    decreases b - a
  {
    GrownAt(if a < 1 then 1 else a);
    GrownAt(if b < 1 then 1 else b);
    if a < b {
      BackoffGrows(a, b - 1);
      GrownAt(if b - 1 < 1 then 1 else b - 1);
    }
  }
}
