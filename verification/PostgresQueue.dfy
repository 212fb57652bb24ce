/** jobs/job_queue_postgres.go: every interleaving of workers, enqueuers and cancellers on one job
    table. Each SQL statement is one atomic step; the Go code between two statements runs in its own
    process and is a phase of that process. A statement may fail, which leaves the table as it was,
    and a worker may crash in any phase. An event that is not enabled changes nothing. */
module PostgresQueue {
  import opened Common
  import opened RetryPolicies
  import opened JobTypes

  type Table = map<JobId, Entry>

  /** Where a worker stands between its claim of a job and its last write for it. */
  datatype Phase =
    | Claimed(id: JobId)
    | Executing(id: JobId)
    | Succeeded(id: JobId)
    | HandlerFailed(id: JobId, failure: string)
    | Retrying(id: JobId, failure: string, retryCount: int, next: int)
    | Failing(id: JobId, failure: string)

  /** What an observer sees beyond the table: handler runs, and failures returned to pending. */
  datatype Observation = HandlerRun(id: JobId) | ReturnedToPending(id: JobId)

  /** Enqueuers and cancellers that have done their check and not yet their write. */
  datatype World = World(
    table: Table,
    workers: map<nat, Phase>,
    enqueuers: map<nat, Entry>,
    cancellers: map<nat, JobId>,
    log: seq<Observation>)

  datatype Event =
    | EnqueueCheck(caller: nat, job: Option<Job>, delay: int, now: int, ok: bool)
    | EnqueueInsert(caller: nat, now: int, ok: bool)
    | Claim(worker: nat, id: JobId, now: int, locked: set<JobId>)
    | ReadJob(worker: nat, readOk: bool, parseOk: bool)
    | HandlerReturns(worker: nat, result: Option<string>)
    | ReadRetryCount(worker: nat, ok: bool, now: int, backoff: int)
    | WriteRetry(worker: nat, ok: bool)
    | WriteFailed(worker: nat, ok: bool, now: int)
    | WriteCompleted(worker: nat, ok: bool, now: int)
    | CancelCheck(caller: nat, id: JobId, ok: bool)
    | CancelWrite(caller: nat, ok: bool, now: int)
    | Crash(worker: nat)

  // ------------------------------------------------------------------ the statements

  /** The row INSERTed for a new job. */
  function NewRow(job: Job, delay: int, now: int): Entry
  {
    Entry(job, Pending, now, None, None, None, 0, if delay > 0 then Some(now + delay) else None)
  }

  predicate Claimable(t: Table, id: JobId, now: int)
  {
    id in t && t[id].status.Pending? && Due(t[id], now)
  }

  /** The row the claiming UPDATE picks: the oldest due pending one that no other statement has locked. */
  predicate Picks(t: Table, id: JobId, now: int, locked: set<JobId>)
  {
    && Claimable(t, id, now) && id !in locked
    && forall other :: other in t && other !in locked && Claimable(t, other, now) ==>
         t[id].enqueuedAt <= t[other].enqueuedAt
  }

  // Each UPDATE ... WHERE job_id = id has no effect when there is no such row.

  function SetRunning(t: Table, id: JobId, now: int): Table
  {
    if id in t then t[id := t[id].(status := Running, startedAt := Some(now))] else t
  }

  function SetRetry(t: Table, id: JobId, failure: string, retryCount: int, next: int): Table
  {
    if id in t then
      t[id := t[id].(status := Pending, error := Some(failure), retryCount := retryCount, nextRetry := Some(next))]
    else t
  }

  function SetFailed(t: Table, id: JobId, failure: string, now: int): Table
  {
    if id in t then t[id := t[id].(status := Failed, error := Some(failure), finishedAt := Some(now))] else t
  }

  function SetFinished(t: Table, id: JobId, status: Status, now: int): Table
  {
    if id in t then t[id := t[id].(status := status, finishedAt := Some(now))] else t
  }

  /** The job's own policy, or the queue's default when the job sets no retries. */
  function Effective(defaults: RetryPolicy, policy: RetryPolicy): RetryPolicy
  {
    if policy.maxRetries == 0 then defaults else policy
  }

  const UNPARSABLE := "failed to parse job metadata"

  // ------------------------------------------------------------------ the steps

  function SetPhase(s: World, w: nat, p: Phase): World { s.(workers := s.workers[w := p]) }

  function Release(s: World, w: nat, t: Table): World { s.(table := t, workers := s.workers - {w}) }

  predicate IsWorkerEvent(e: Event)
  {
    e.ReadJob? || e.HandlerReturns? || e.ReadRetryCount? || e.WriteRetry? || e.WriteFailed? || e.WriteCompleted?
  }

  /** A statement or call of a worker that holds a job. */
  function WorkerStep(defaults: RetryPolicy, s: World, e: Event): World
    requires IsWorkerEvent(e) && e.worker in s.workers
  {
    var w, p := e.worker, s.workers[e.worker];
    match e
    case ReadJob(_, readOk, parseOk) =>
      if !p.Claimed? then s
      else if !readOk || p.id !in s.table then Release(s, w, s.table)
      else if !parseOk then SetPhase(s, w, Failing(p.id, UNPARSABLE))
      else SetPhase(s, w, Executing(p.id)).(log := s.log + [HandlerRun(p.id)])
    case HandlerReturns(_, result) =>
      if !p.Executing? then s
      else if result.None? then SetPhase(s, w, Succeeded(p.id))
      else SetPhase(s, w, HandlerFailed(p.id, result.value))
    case ReadRetryCount(_, ok, now, backoff) =>
      if !p.HandlerFailed? then s
      else if !ok || p.id !in s.table then SetPhase(s, w, Failing(p.id, p.failure))
      else
        var n := s.table[p.id].retryCount + 1;
        if n <= Effective(defaults, s.table[p.id].job.policy).maxRetries
        then SetPhase(s, w, Retrying(p.id, p.failure, n, now + backoff))
        else SetPhase(s, w, Failing(p.id, p.failure))
    case WriteRetry(_, ok) =>
      if !p.Retrying? then s
      else if !ok then SetPhase(s, w, Failing(p.id, p.failure))
      else Release(s, w, SetRetry(s.table, p.id, p.failure, p.retryCount, p.next))
             .(log := s.log + [ReturnedToPending(p.id)])
    case WriteFailed(_, ok, now) =>
      if !p.Failing? then s
      else Release(s, w, if ok then SetFailed(s.table, p.id, p.failure, now) else s.table)
    case WriteCompleted(_, ok, now) =>
      if !p.Succeeded? then s
      else Release(s, w, if ok then SetFinished(s.table, p.id, Completed, now) else s.table)
  }

  function Step(defaults: RetryPolicy, s: World, e: Event): World
  {
    match e
    case EnqueueCheck(c, job, delay, now, ok) =>
      if c in s.enqueuers || job.None? || job.value.id.text == "" || !ok || job.value.id in s.table then s
      else s.(enqueuers := s.enqueuers[c := NewRow(job.value, delay, now)])
    case EnqueueInsert(c, now, ok) =>
      if c !in s.enqueuers then s
      else
        var row := s.enqueuers[c].(enqueuedAt := now);
        var done := s.(enqueuers := s.enqueuers - {c});
        // The primary key makes a second INSERT of an id fail.
        if !ok || row.job.id in s.table then done else done.(table := s.table[row.job.id := row])
    case Claim(w, id, now, locked) =>
      if w in s.workers || !Picks(s.table, id, now, locked) then s
      else SetPhase(s.(table := SetRunning(s.table, id, now)), w, Claimed(id))
    case CancelCheck(c, id, ok) =>
      if c in s.cancellers || id.text == "" || !ok || id !in s.table || !s.table[id].status.Pending? then s
      else s.(cancellers := s.cancellers[c := id])
    case CancelWrite(c, ok, now) =>
      if c !in s.cancellers then s
      else
        var t := if ok then SetFinished(s.table, s.cancellers[c], Cancelled, now) else s.table;
        s.(table := t, cancellers := s.cancellers - {c})
    case Crash(w) => s.(workers := s.workers - {w})
    case _ => if e.worker in s.workers then WorkerStep(defaults, s, e) else s
  }

  function Run(defaults: RetryPolicy, s: World, events: seq<Event>): World
    decreases |events|
  {
    if events == [] then s else Run(defaults, Step(defaults, s, events[0]), events[1..])
  }

  const START := World(map[], map[], map[], map[], [])

  // ------------------------------------------------------------------ the invariant

  function Count(log: seq<Observation>, o: Observation): nat { multiset(log)[o] }

  function RetryLimit(defaults: RetryPolicy, policy: RetryPolicy): nat
  {
    var n := Effective(defaults, policy).maxRetries;
    if n < 0 then 0 else n
  }

  /** No two workers hold the same job. */
  predicate Exclusive(workers: map<nat, Phase>)
  {
    forall w, v :: w in workers && v in workers && workers[w].id == workers[v].id ==> w == v
  }

  /** A held job is not pending; a retry count that a worker is about to write is one more than the one in
      the table; and before a claimed job's handler is called, its runs are its past retries. */
  predicate PhaseOk(defaults: RetryPolicy, t: Table, log: seq<Observation>, p: Phase)
  {
    && p.id in t && !t[p.id].status.Pending?
    && (p.Retrying? ==>
          && p.retryCount == t[p.id].retryCount + 1
          && p.retryCount <= RetryLimit(defaults, t[p.id].job.policy))
    && (p.Claimed? ==> Count(log, HandlerRun(p.id)) <= t[p.id].retryCount)
  }

  predicate Held(defaults: RetryPolicy, t: Table, log: seq<Observation>, workers: map<nat, Phase>)
  {
    forall w :: w in workers ==> PhaseOk(defaults, t, log, workers[w])
  }

  /** The table's retry count is the number of failures returned to pending, within the policy's limit, and
      the handler has run at most once more than that; while the job is pending, not even once more. */
  predicate RowOk(defaults: RetryPolicy, id: JobId, row: Entry, log: seq<Observation>)
  {
    && row.job.id == id
    && row.retryCount == Count(log, ReturnedToPending(id)) <= RetryLimit(defaults, row.job.policy)
    && Count(log, HandlerRun(id)) <= row.retryCount + (if row.status.Pending? then 0 else 1)
  }

  predicate Rows(defaults: RetryPolicy, t: Table, log: seq<Observation>)
  {
    && (forall id :: id in t ==> RowOk(defaults, id, t[id], log))
    && (forall o :: o in log ==> o.id in t)
  }

  predicate Inv(defaults: RetryPolicy, s: World)
  {
    Exclusive(s.workers) && Held(defaults, s.table, s.log, s.workers) && Rows(defaults, s.table, s.log)
  }

  // ------------------------------------------------------------------ every step keeps it

  /** t' differs from t in the row of id only. */
  predicate OnlyRow(t: Table, t': Table, id: JobId)
  {
    && t'.Keys == t.Keys && forall x :: x in t && x != id ==> t'[x] == t[x]
  }

  /** What one worker does to its own job does not disturb the others. */
  lemma HeldElsewhere(defaults: RetryPolicy, t: Table, log: seq<Observation>, workers: map<nat, Phase>, w: nat,
                      t': Table, o: seq<Observation>)
    requires Exclusive(workers) && Held(defaults, t, log, workers)
    requires w in workers && OnlyRow(t, t', workers[w].id)
    requires |o| <= 1 && forall x :: x in o ==> x.id == workers[w].id
    ensures Exclusive(workers - {w}) && Held(defaults, t', log + o, workers - {w})
  {
    forall v | v in workers - {w} ensures PhaseOk(defaults, t', log + o, workers[v]) {
      assert PhaseOk(defaults, t, log, workers[v]) && workers[v].id != workers[w].id;
      CountOther(log, o, HandlerRun(workers[v].id));
    }
  }

  lemma HeldPlus(defaults: RetryPolicy, t: Table, log: seq<Observation>, workers: map<nat, Phase>, w: nat, p: Phase)
    requires Held(defaults, t, log, workers - {w}) && PhaseOk(defaults, t, log, p)
    ensures Held(defaults, t, log, workers[w := p])
  {
    var after := workers[w := p];
    forall v | v in after ensures PhaseOk(defaults, t, log, after[v]) {
      assert v != w ==> v in workers - {w};
    }
  }

  lemma ExclusivePlus(workers: map<nat, Phase>, w: nat, p: Phase)
    requires Exclusive(workers) && w in workers && workers[w].id == p.id
    ensures Exclusive(workers[w := p])
  {
  }

  lemma CountOther(log: seq<Observation>, o: seq<Observation>, x: Observation)
    requires x !in o
    ensures Count(log + o, x) == Count(log, x)
  {
  }

  lemma CountAppend(log: seq<Observation>, o: Observation)
    ensures forall x :: Count(log + [o], x) == Count(log, x) + (if x == o then 1 else 0)
  {
  }

  /** A worker goes to another phase of the same job. */
  lemma PhaseChangeKeepsInv(defaults: RetryPolicy, s: World, w: nat, p: Phase)
    requires Inv(defaults, s) && w in s.workers && p.id == s.workers[w].id
    requires PhaseOk(defaults, s.table, s.log, p)
    ensures Inv(defaults, SetPhase(s, w, p))
  {
    ExclusivePlus(s.workers, w, p);
    HeldElsewhere(defaults, s.table, s.log, s.workers, w, s.table, []);
    assert s.log + [] == s.log;
    HeldPlus(defaults, s.table, s.log, s.workers, w, p);
  }

  lemma HandlerRunKeepsRows(defaults: RetryPolicy, t: Table, log: seq<Observation>, id: JobId)
    requires Rows(defaults, t, log) && PhaseOk(defaults, t, log, Claimed(id))
    ensures Rows(defaults, t, log + [HandlerRun(id)])
  {
    CountAppend(log, HandlerRun(id));
    forall x | x in t ensures RowOk(defaults, x, t[x], log + [HandlerRun(id)]) {
      assert RowOk(defaults, x, t[x], log);
    }
  }

  /** The handler of a claimed job is called. */
  lemma HandlerCallKeepsInv(defaults: RetryPolicy, s: World, w: nat, id: JobId)
    requires Inv(defaults, s) && w in s.workers && s.workers[w] == Claimed(id)
    ensures Inv(defaults, SetPhase(s, w, Executing(id)).(log := s.log + [HandlerRun(id)]))
  {
    assert PhaseOk(defaults, s.table, s.log, s.workers[w]);
    HandlerRunKeepsRows(defaults, s.table, s.log, id);
    ExclusivePlus(s.workers, w, Executing(id));
    HeldElsewhere(defaults, s.table, s.log, s.workers, w, s.table, [HandlerRun(id)]);
    HeldPlus(defaults, s.table, s.log + [HandlerRun(id)], s.workers, w, Executing(id));
  }

  /** A worker lets go of its job after a write that does not make the job pending. */
  lemma EndKeepsInv(defaults: RetryPolicy, s: World, w: nat, t: Table)
    requires Inv(defaults, s) && w in s.workers && OnlyRow(s.table, t, s.workers[w].id)
    requires var id := s.workers[w].id;
             id in s.table ==>
               t[id].job == s.table[id].job && t[id].retryCount == s.table[id].retryCount && !t[id].status.Pending?
    ensures Inv(defaults, Release(s, w, t))
  {
    HeldElsewhere(defaults, s.table, s.log, s.workers, w, t, []);
    assert s.log + [] == s.log;
    assert PhaseOk(defaults, s.table, s.log, s.workers[w]);
    forall x | x in t ensures RowOk(defaults, x, t[x], s.log) {
      assert RowOk(defaults, x, s.table[x], s.log);
    }
  }

  lemma RetryKeepsRows(defaults: RetryPolicy, t: Table, log: seq<Observation>, p: Phase)
    requires Rows(defaults, t, log) && p.Retrying? && PhaseOk(defaults, t, log, p)
    ensures Rows(defaults, SetRetry(t, p.id, p.failure, p.retryCount, p.next), log + [ReturnedToPending(p.id)])
  {
    var t', log' := SetRetry(t, p.id, p.failure, p.retryCount, p.next), log + [ReturnedToPending(p.id)];
    CountAppend(log, ReturnedToPending(p.id));
    forall x | x in t' ensures RowOk(defaults, x, t'[x], log') {
      assert RowOk(defaults, x, t[x], log);
    }
  }

  /** A worker returns its failed job to pending. */
  lemma ReturnKeepsInv(defaults: RetryPolicy, s: World, w: nat, p: Phase)
    requires Inv(defaults, s) && w in s.workers && s.workers[w] == p && p.Retrying?
    ensures Inv(defaults,
            Release(s, w, SetRetry(s.table, p.id, p.failure, p.retryCount, p.next))
            .(log := s.log + [ReturnedToPending(p.id)]))
  {
    var t, o := SetRetry(s.table, p.id, p.failure, p.retryCount, p.next), [ReturnedToPending(p.id)];
    assert Rows(defaults, t, s.log + o) by {
      assert PhaseOk(defaults, s.table, s.log, p);
      RetryKeepsRows(defaults, s.table, s.log, p);
    }
    assert Exclusive(s.workers - {w}) && Held(defaults, t, s.log + o, s.workers - {w}) by {
      assert OnlyRow(s.table, t, p.id);
      HeldElsewhere(defaults, s.table, s.log, s.workers, w, t, o);
    }
  }

  lemma ReadJobKeepsInv(defaults: RetryPolicy, s: World, e: Event)
    requires Inv(defaults, s) && e.ReadJob? && e.worker in s.workers && s.workers[e.worker].Claimed?
    ensures Inv(defaults, WorkerStep(defaults, s, e))
  {
    var w, p := e.worker, s.workers[e.worker];
    assert PhaseOk(defaults, s.table, s.log, p);
    if !e.readOk {
      EndKeepsInv(defaults, s, w, s.table);
    } else if e.parseOk {
      HandlerCallKeepsInv(defaults, s, w, p.id);
    } else {
      PhaseChangeKeepsInv(defaults, s, w, Failing(p.id, UNPARSABLE));
    }
  }

  lemma ReadRetryCountKeepsInv(defaults: RetryPolicy, s: World, e: Event)
    requires Inv(defaults, s) && e.ReadRetryCount? && e.worker in s.workers && s.workers[e.worker].HandlerFailed?
    ensures Inv(defaults, WorkerStep(defaults, s, e))
  {
    var w, p := e.worker, s.workers[e.worker];
    assert PhaseOk(defaults, s.table, s.log, p) && RowOk(defaults, p.id, s.table[p.id], s.log);
    PhaseChangeKeepsInv(defaults, s, w, WorkerStep(defaults, s, e).workers[w]);
  }

  lemma ReadStepKeepsInv(defaults: RetryPolicy, s: World, e: Event)
    requires Inv(defaults, s) && (e.ReadJob? || e.HandlerReturns? || e.ReadRetryCount?) && e.worker in s.workers
    ensures Inv(defaults, WorkerStep(defaults, s, e))
  {
    var w, p := e.worker, s.workers[e.worker];
    if e.ReadJob? && p.Claimed? {
      ReadJobKeepsInv(defaults, s, e);
    } else if e.ReadRetryCount? && p.HandlerFailed? {
      ReadRetryCountKeepsInv(defaults, s, e);
    } else if e.HandlerReturns? && p.Executing? {
      assert PhaseOk(defaults, s.table, s.log, p);
      PhaseChangeKeepsInv(defaults, s, w,
        if e.result.None? then Succeeded(p.id) else HandlerFailed(p.id, e.result.value));
    }
  }

  lemma WriteRetryKeepsInv(defaults: RetryPolicy, s: World, e: Event)
    requires Inv(defaults, s) && e.WriteRetry? && e.worker in s.workers && s.workers[e.worker].Retrying?
    ensures Inv(defaults, WorkerStep(defaults, s, e))
  {
    var w, p := e.worker, s.workers[e.worker];
    assert PhaseOk(defaults, s.table, s.log, p);
    if e.ok {
      ReturnKeepsInv(defaults, s, w, p);
    } else {
      PhaseChangeKeepsInv(defaults, s, w, Failing(p.id, p.failure));
    }
  }

  lemma WriteEndKeepsInv(defaults: RetryPolicy, s: World, w: nat, ok: bool, t: Table)
    requires Inv(defaults, s) && w in s.workers && OnlyRow(s.table, t, s.workers[w].id)
    requires var id := s.workers[w].id;
             id in s.table ==>
               t[id].job == s.table[id].job && t[id].retryCount == s.table[id].retryCount && !t[id].status.Pending?
    ensures Inv(defaults, Release(s, w, if ok then t else s.table))
  {
    if ok {
      EndKeepsInv(defaults, s, w, t);
    } else {
      assert PhaseOk(defaults, s.table, s.log, s.workers[w]);
      EndKeepsInv(defaults, s, w, s.table);
    }
  }

  lemma WriteFailedKeepsInv(defaults: RetryPolicy, s: World, e: Event)
    requires Inv(defaults, s) && e.WriteFailed? && e.worker in s.workers && s.workers[e.worker].Failing?
    ensures Inv(defaults, WorkerStep(defaults, s, e))
  {
    var p := s.workers[e.worker];
    WriteEndKeepsInv(defaults, s, e.worker, e.ok, SetFailed(s.table, p.id, p.failure, e.now));
  }

  lemma WriteCompletedKeepsInv(defaults: RetryPolicy, s: World, e: Event)
    requires Inv(defaults, s) && e.WriteCompleted? && e.worker in s.workers && s.workers[e.worker].Succeeded?
    ensures Inv(defaults, WorkerStep(defaults, s, e))
  {
    WriteEndKeepsInv(defaults, s, e.worker, e.ok, SetFinished(s.table, s.workers[e.worker].id, Completed, e.now));
  }

  lemma WriteStepKeepsInv(defaults: RetryPolicy, s: World, e: Event)
    requires Inv(defaults, s) && (e.WriteRetry? || e.WriteFailed? || e.WriteCompleted?) && e.worker in s.workers
    ensures Inv(defaults, WorkerStep(defaults, s, e))
  {
    var p := s.workers[e.worker];
    if e.WriteRetry? && p.Retrying? {
      WriteRetryKeepsInv(defaults, s, e);
    } else if e.WriteFailed? && p.Failing? {
      WriteFailedKeepsInv(defaults, s, e);
    } else if e.WriteCompleted? && p.Succeeded? {
      WriteCompletedKeepsInv(defaults, s, e);
    }
  }

  lemma CrashKeepsInv(defaults: RetryPolicy, s: World, w: nat)
    requires Inv(defaults, s)
    ensures Inv(defaults, s.(workers := s.workers - {w}))
  {
    if w in s.workers {
      HeldElsewhere(defaults, s.table, s.log, s.workers, w, s.table, []);
      assert s.log + [] == s.log;
    } else {
      assert s.workers - {w} == s.workers;
    }
  }

  lemma ClaimKeepsRows(defaults: RetryPolicy, t: Table, log: seq<Observation>, id: JobId, now: int)
    requires Rows(defaults, t, log) && id in t && t[id].status.Pending?
    ensures Rows(defaults, SetRunning(t, id, now), log)
    ensures PhaseOk(defaults, SetRunning(t, id, now), log, Claimed(id))
  {
    assert RowOk(defaults, id, t[id], log);
    forall x | x in t ensures RowOk(defaults, x, SetRunning(t, id, now)[x], log) {
      assert RowOk(defaults, x, t[x], log);
    }
  }

  lemma ClaimKeepsInv(defaults: RetryPolicy, s: World, w: nat, id: JobId, now: int)
    requires Inv(defaults, s) && w !in s.workers && id in s.table && s.table[id].status.Pending?
    ensures Inv(defaults, SetPhase(s.(table := SetRunning(s.table, id, now)), w, Claimed(id)))
  {
    ClaimKeepsRows(defaults, s.table, s.log, id, now);
    forall v | v in s.workers
      ensures s.workers[v].id != id && PhaseOk(defaults, SetRunning(s.table, id, now), s.log, s.workers[v])
    {
      assert PhaseOk(defaults, s.table, s.log, s.workers[v]);
    }
  }

  lemma CancelKeepsInv(defaults: RetryPolicy, s: World, id: JobId, now: int)
    requires Inv(defaults, s)
    ensures Inv(defaults, s.(table := SetFinished(s.table, id, Cancelled, now)))
  {
    var t := SetFinished(s.table, id, Cancelled, now);
    forall v | v in s.workers ensures PhaseOk(defaults, t, s.log, s.workers[v]) {
      assert PhaseOk(defaults, s.table, s.log, s.workers[v]);
    }
    forall x | x in t ensures RowOk(defaults, x, t[x], s.log) {
      assert RowOk(defaults, x, s.table[x], s.log);
    }
  }

  lemma InsertKeepsInv(defaults: RetryPolicy, s: World, row: Entry)
    requires Inv(defaults, s) && row.job.id !in s.table && row.retryCount == 0
    ensures Inv(defaults, s.(table := s.table[row.job.id := row]))
  {
    var t := s.table[row.job.id := row];
    forall v | v in s.workers ensures PhaseOk(defaults, t, s.log, s.workers[v]) {
      assert PhaseOk(defaults, s.table, s.log, s.workers[v]);
    }
    assert HandlerRun(row.job.id) !in s.log && ReturnedToPending(row.job.id) !in s.log;
    forall x | x in t ensures RowOk(defaults, x, t[x], s.log) {
      if x != row.job.id {
        assert RowOk(defaults, x, s.table[x], s.log);
      }
    }
  }

  /** The row an enqueuer is about to insert has never been retried. */
  predicate NewRows(s: World)
  {
    forall c :: c in s.enqueuers ==> s.enqueuers[c].retryCount == 0
  }

  lemma StepKeepsNewRows(defaults: RetryPolicy, s: World, e: Event)
    requires NewRows(s)
    ensures NewRows(Step(defaults, s, e))
  {
  }

  /** Enqueuers, cancellers, claims and crashes. */
  lemma CallerStepKeepsInv(defaults: RetryPolicy, s: World, e: Event)
    requires Inv(defaults, s) && NewRows(s) && !IsWorkerEvent(e)
    ensures Inv(defaults, Step(defaults, s, e))
  {
    match e
    case EnqueueCheck(c, job, delay, now, ok) =>
    case EnqueueInsert(c, now, ok) =>
      if c in s.enqueuers && s.enqueuers[c].job.id !in s.table {
        InsertKeepsInv(defaults, s, s.enqueuers[c].(enqueuedAt := now));
      }
    case Claim(w, id, now, locked) =>
      if w !in s.workers && Picks(s.table, id, now, locked) {
        ClaimKeepsInv(defaults, s, w, id, now);
      }
    case CancelCheck(c, id, ok) =>
    case CancelWrite(c, ok, now) =>
      if c in s.cancellers {
        CancelKeepsInv(defaults, s, s.cancellers[c], now);
      }
    case Crash(w) => CrashKeepsInv(defaults, s, w);
  }

  lemma WorkerStepKeepsInv(defaults: RetryPolicy, s: World, e: Event)
    requires Inv(defaults, s) && IsWorkerEvent(e) && e.worker in s.workers
    ensures Inv(defaults, WorkerStep(defaults, s, e))
  {
    if e.WriteRetry? || e.WriteFailed? || e.WriteCompleted? {
      WriteStepKeepsInv(defaults, s, e);
    } else {
      ReadStepKeepsInv(defaults, s, e);
    }
  }

  lemma StepOfWorker(defaults: RetryPolicy, s: World, e: Event)
    requires IsWorkerEvent(e)
    ensures Step(defaults, s, e) == if e.worker in s.workers then WorkerStep(defaults, s, e) else s
  {
  }

  lemma StepKeepsInv(defaults: RetryPolicy, s: World, e: Event)
    requires Inv(defaults, s) && NewRows(s)
    ensures Inv(defaults, Step(defaults, s, e))
  {
    if !IsWorkerEvent(e) {
      CallerStepKeepsInv(defaults, s, e);
    } else {
      StepOfWorker(defaults, s, e);
      if e.worker in s.workers {
        WorkerStepKeepsInv(defaults, s, e);
      }
    }
  }

  lemma {:induction false} RunKeepsInv(defaults: RetryPolicy, s: World, events: seq<Event>)
    requires Inv(defaults, s) && NewRows(s)
    ensures Inv(defaults, Run(defaults, s, events)) && NewRows(Run(defaults, s, events))
    decreases |events|
  {
    if events != [] {
      StepKeepsInv(defaults, s, events[0]);
      StepKeepsNewRows(defaults, s, events[0]);
      RunKeepsInv(defaults, Step(defaults, s, events[0]), events[1..]);
    }
  }

  /** In every interleaving no two workers hold the same job, and a held job is never pending. */
  lemma MutualExclusion(defaults: RetryPolicy, events: seq<Event>, w: nat, v: nat)
    ensures var s := Run(defaults, START, events);
            && (w in s.workers && v in s.workers && s.workers[w].id == s.workers[v].id ==> w == v)
            && (w in s.workers ==> s.workers[w].id in s.table && !s.table[s.workers[w].id].status.Pending?)
  {
    RunKeepsInv(defaults, START, events);
    var s := Run(defaults, START, events);
    assert w in s.workers ==> PhaseOk(defaults, s.table, s.log, s.workers[w]);
  }

  /** No retry is lost or counted twice: retry_count is the number of failures returned to pending, and the
      handler runs at most once more often than the effective policy allows retries. */
  lemma RetryAccounting(defaults: RetryPolicy, events: seq<Event>, id: JobId)
    requires id in Run(defaults, START, events).table
    ensures var s := Run(defaults, START, events);
            && s.table[id].retryCount == Count(s.log, ReturnedToPending(id))
            && Count(s.log, HandlerRun(id)) <= RetryLimit(defaults, s.table[id].job.policy) + 1
  {
    RunKeepsInv(defaults, START, events);
    var s := Run(defaults, START, events);
    assert RowOk(defaults, id, s.table[id], s.log);
  }

  // ------------------------------------------------------------------ cancellation

  predicate Unheld(s: World, id: JobId)
  {
    forall w :: w in s.workers ==> s.workers[w].id != id
  }

  /** id is cancelled and no worker is going to write its row. */
  predicate CancelledForGood(s: World, id: JobId)
  {
    id in s.table && s.table[id].status.Cancelled? && Unheld(s, id)
  }

  lemma CancelledForGoodStep(defaults: RetryPolicy, s: World, e: Event, id: JobId)
    requires CancelledForGood(s, id)
    ensures CancelledForGood(Step(defaults, s, e), id)
  {
  }

  lemma {:induction false} CancelledForGoodRun(defaults: RetryPolicy, s: World, events: seq<Event>, id: JobId)
    requires CancelledForGood(s, id)
    ensures CancelledForGood(Run(defaults, s, events), id)
    decreases |events|
  {
    if events != [] {
      CancelledForGoodStep(defaults, s, events[0], id);
      CancelledForGoodRun(defaults, Step(defaults, s, events[0]), events[1..], id);
    }
  }

  /** From any phase the worker can still write the row and let go of it. */
  function WayOut(p: Phase, w: nat): seq<Event>
  {
    match p
    case Claimed(_) => [ReadJob(w, true, false), WriteFailed(w, true, 0)]
    case Executing(_) => [HandlerReturns(w, None), WriteCompleted(w, true, 0)]
    case Succeeded(_) => [WriteCompleted(w, true, 0)]
    case HandlerFailed(_, _) => [ReadRetryCount(w, false, 0, 0), WriteFailed(w, true, 0)]
    case Retrying(_, _, _, _) => [WriteRetry(w, false), WriteFailed(w, true, 0)]
    case Failing(_, _) => [WriteFailed(w, true, 0)]
  }

  lemma WayOutOverwrites(defaults: RetryPolicy, s: World, w: nat)
    requires w in s.workers && s.workers[w].id in s.table
    ensures var s' := Run(defaults, s, WayOut(s.workers[w], w));
            s.workers[w].id in s'.table && !s'.table[s.workers[w].id].status.Cancelled?
  {
    var events := WayOut(s.workers[w], w);
    var s1 := Step(defaults, s, events[0]);
    if |events| == 1 {
      assert events[1..] == [];
    } else {
      assert events[1..] == [events[1]] && events[1..][1..] == [];
      assert Run(defaults, s1, events[1..]) == Step(defaults, s1, events[1]);
    }
  }

  /** The write of a Cancel lasts exactly when no worker holds the job at that moment: a cancel that was
      checked before the claim and written after it is overwritten by the worker. */
  lemma CancelLastsExactlyWhenUnheld(defaults: RetryPolicy, s: World, c: nat, now: int)
    requires Inv(defaults, s) && c in s.cancellers && s.cancellers[c] in s.table
    ensures var id, s' := s.cancellers[c], Step(defaults, s, CancelWrite(c, true, now));
            Unheld(s, id) <==>
            forall events :: id in Run(defaults, s', events).table &&
              Run(defaults, s', events).table[id].status.Cancelled?
  {
    var id, s' := s.cancellers[c], Step(defaults, s, CancelWrite(c, true, now));
    if Unheld(s, id) {
      forall events
        ensures id in Run(defaults, s', events).table && Run(defaults, s', events).table[id].status.Cancelled?
      {
        CancelledForGoodRun(defaults, s', events, id);
      }
    } else {
      var w :| w in s.workers && s.workers[w].id == id;
      WayOutOverwrites(defaults, s', w);
      assert !Run(defaults, s', WayOut(s'.workers[w], w)).table[id].status.Cancelled?;
    }
  }

  // ------------------------------------------------------------------ what a worker's step leaves alone

  predicate Extends(log: seq<Observation>, log': seq<Observation>, id: JobId)
  {
    log' == log || log' == log + [HandlerRun(id)] || log' == log + [ReturnedToPending(id)]
  }

  /** What one step of a worker does to it: it stays with its job in some phase, or lets go of it. */
  predicate WorkerEffect(s: World, s': World, w: nat)
    requires w in s.workers
  {
    var id := s.workers[w].id;
    && s'.cancellers == s.cancellers
    && Extends(s.log, s'.log, id)
    && (forall x :: x in s.table && x != id ==> x in s'.table && s'.table[x] == s.table[x])
    && (id in s.table ==> id in s'.table && s'.table[id].job == s.table[id].job)
    && (if w in s'.workers then s'.workers[w].id == id && s'.workers == s.workers[w := s'.workers[w]]
        else s'.workers == s.workers - {w})
  }

  lemma PhaseEffect(s: World, w: nat, p: Phase, log: seq<Observation>)
    requires w in s.workers && s.workers[w].id == p.id && Extends(s.log, log, p.id)
    ensures WorkerEffect(s, s, w) && WorkerEffect(s, SetPhase(s, w, p).(log := log), w)
  {
    assert s.workers == s.workers[w := s.workers[w]];
  }

  lemma ReleaseEffect(s: World, w: nat, t: Table, log: seq<Observation>)
    requires w in s.workers && OnlyRow(s.table, t, s.workers[w].id)
    requires var id := s.workers[w].id; id in s.table ==> t[id].job == s.table[id].job
    requires Extends(s.log, log, s.workers[w].id)
    ensures WorkerEffect(s, Release(s, w, t).(log := log), w)
  {
  }

  lemma ReadEffect(defaults: RetryPolicy, s: World, e: Event)
    requires (e.ReadJob? || e.HandlerReturns? || e.ReadRetryCount?) && e.worker in s.workers
    ensures WorkerEffect(s, WorkerStep(defaults, s, e), e.worker)
  {
    var w, s' := e.worker, WorkerStep(defaults, s, e);
    if w in s'.workers {
      PhaseEffect(s, w, s'.workers[w], s'.log);
    } else {
      ReleaseEffect(s, w, s'.table, s'.log);
    }
  }

  lemma WriteEffect(defaults: RetryPolicy, s: World, e: Event)
    requires (e.WriteRetry? || e.WriteFailed? || e.WriteCompleted?) && e.worker in s.workers
    ensures WorkerEffect(s, WorkerStep(defaults, s, e), e.worker)
  {
    var w, s' := e.worker, WorkerStep(defaults, s, e);
    if w in s'.workers {
      PhaseEffect(s, w, s'.workers[w], s'.log);
    } else {
      ReleaseEffect(s, w, s'.table, s'.log);
    }
  }

  lemma WorkerStepEffect(defaults: RetryPolicy, s: World, e: Event)
    requires IsWorkerEvent(e) && e.worker in s.workers
    ensures WorkerEffect(s, Step(defaults, s, e), e.worker)
  {
    if e.ReadJob? || e.HandlerReturns? || e.ReadRetryCount? {
      ReadEffect(defaults, s, e);
    } else {
      WriteEffect(defaults, s, e);
    }
  }

  // ------------------------------------------------------------------ running again after a cancel

  /** The worker can still bring the job's handler to run: it has not called it yet, or the job has a retry
      left that the worker is about to write or may come to write. */
  predicate MayRunAgain(defaults: RetryPolicy, t: Table, p: Phase)
  {
    match p
    case Claimed(_) => true
    case Retrying(_, _, _, _) => true
    case Executing(id) => RetryLeft(defaults, t, id)
    case HandlerFailed(id, _) => RetryLeft(defaults, t, id)
    case _ => false
  }

  predicate RetryLeft(defaults: RetryPolicy, t: Table, id: JobId)
  {
    id in t && t[id].retryCount + 1 <= Effective(defaults, t[id].job.policy).maxRetries
  }

  /** No holder of id can bring it to run again. */
  predicate HoldersAreDone(defaults: RetryPolicy, s: World, id: JobId)
  {
    forall w :: w in s.workers && s.workers[w].id == id ==> !MayRunAgain(defaults, s.table, s.workers[w])
  }

  predicate Done(defaults: RetryPolicy, s: World, id: JobId)
  {
    id in s.table && !s.table[id].status.Pending? && HoldersAreDone(defaults, s, id)
  }

  lemma DoneHolderStep(defaults: RetryPolicy, s: World, e: Event, id: JobId)
    requires Done(defaults, s, id) && IsWorkerEvent(e) && e.worker in s.workers && s.workers[e.worker].id == id
    ensures var s', w := WorkerStep(defaults, s, e), e.worker;
            && id in s'.table && !s'.table[id].status.Pending? && s'.log == s.log
            && s'.table[id].retryCount == s.table[id].retryCount && s'.table[id].job == s.table[id].job
            && (w in s'.workers ==> !MayRunAgain(defaults, s'.table, s'.workers[w]))
  {
    assert !MayRunAgain(defaults, s.table, s.workers[e.worker]);
  }

  lemma CountOfOthers(log: seq<Observation>, log': seq<Observation>, other: JobId, id: JobId)
    requires other != id && Extends(log, log', other)
    ensures Count(log', HandlerRun(id)) == Count(log, HandlerRun(id))
  {
    CountAppend(log, HandlerRun(other));
    CountAppend(log, ReturnedToPending(other));
  }

  lemma DoneWorkerStep(defaults: RetryPolicy, s: World, e: Event, id: JobId)
    requires Done(defaults, s, id) && IsWorkerEvent(e) && e.worker in s.workers
    ensures var s' := Step(defaults, s, e);
            Done(defaults, s', id) && Count(s'.log, HandlerRun(id)) == Count(s.log, HandlerRun(id))
  {
    var w, s' := e.worker, Step(defaults, s, e);
    WorkerStepEffect(defaults, s, e);
    if s.workers[w].id == id {
      DoneHolderStep(defaults, s, e, id);
    } else {
      CountOfOthers(s.log, s'.log, s.workers[w].id, id);
    }
    HoldersStayDone(defaults, s, s', w, id);
  }

  lemma HoldersStayDone(defaults: RetryPolicy, s: World, s': World, w: nat, id: JobId)
    requires HoldersAreDone(defaults, s, id) && w in s.workers && WorkerEffect(s, s', w) && id in s.table
    requires id in s'.table
    requires s'.table[id].retryCount == s.table[id].retryCount && s'.table[id].job == s.table[id].job
    requires w in s'.workers && s.workers[w].id == id ==> !MayRunAgain(defaults, s'.table, s'.workers[w])
    ensures HoldersAreDone(defaults, s', id)
  {
  }

  lemma DoneStep(defaults: RetryPolicy, s: World, e: Event, id: JobId)
    requires Done(defaults, s, id)
    ensures var s' := Step(defaults, s, e);
            Done(defaults, s', id) && Count(s'.log, HandlerRun(id)) == Count(s.log, HandlerRun(id))
  {
    if IsWorkerEvent(e) && e.worker in s.workers {
      DoneWorkerStep(defaults, s, e, id);
    }
  }

  lemma {:induction false} DoneRun(defaults: RetryPolicy, s: World, events: seq<Event>, id: JobId)
    requires Done(defaults, s, id)
    ensures Count(Run(defaults, s, events).log, HandlerRun(id)) == Count(s.log, HandlerRun(id))
    decreases |events|
  {
    if events != [] {
      DoneStep(defaults, s, events[0], id);
      DoneRun(defaults, Step(defaults, s, events[0]), events[1..], id);
    }
  }

  function Distance(p: Phase): nat
  {
    match p
    case Executing(_) => 3
    case HandlerFailed(_, _) => 2
    case Retrying(_, _, _, _) => 1
    case _ => 0
  }

  /** What the worker does next on the way to another run of the handler. */
  function TowardsRun(p: Phase, w: nat): Event
  {
    match p
    case Claimed(_) => ReadJob(w, true, true)
    case Executing(_) => HandlerReturns(w, Some(""))
    case HandlerFailed(_, _) => ReadRetryCount(w, true, 0, 0)
    case _ => WriteRetry(w, true)
  }

  lemma {:induction false} RunsAgain(defaults: RetryPolicy, s: World, w: nat) returns (events: seq<Event>)
    requires w in s.workers && s.workers[w].id in s.table && MayRunAgain(defaults, s.table, s.workers[w])
    ensures var o := HandlerRun(s.workers[w].id); Count(Run(defaults, s, events).log, o) == Count(s.log, o) + 1
    decreases Distance(s.workers[w])
  {
    var p := s.workers[w];
    var e := TowardsRun(p, w);
    var s' := Step(defaults, s, e);
    if p.Claimed? {
      events := [e];
      assert events[1..] == [];
      CountAppend(s.log, HandlerRun(p.id));
    } else if p.Retrying? {
      events := [e, Claim(w, p.id, p.next, s.table.Keys - {p.id}), ReadJob(w, true, true)];
      CountAppend(s.log, ReturnedToPending(p.id));
      ClaimAndRun(defaults, s', w, p.id, p.next, s.table.Keys - {p.id});
      assert events[1..] == [events[1], events[2]];
    } else {
      var rest := RunsAgain(defaults, s', w);
      events := [e] + rest;
      assert events[1..] == rest;
    }
  }

  lemma ClaimAndRun(defaults: RetryPolicy, s: World, w: nat, id: JobId, now: int, locked: set<JobId>)
    requires w !in s.workers && Claimable(s.table, id, now) && locked == s.table.Keys - {id}
    ensures var events := [Claim(w, id, now, locked), ReadJob(w, true, true)];
            Count(Run(defaults, s, events).log, HandlerRun(id)) == Count(s.log, HandlerRun(id)) + 1
  {
    var events := [Claim(w, id, now, locked), ReadJob(w, true, true)];
    assert Picks(s.table, id, now, locked);
    var s1 := Step(defaults, s, events[0]);
    assert events[1..] == [events[1]] && events[1..][1..] == [];
    assert Run(defaults, s, events) == Run(defaults, s1, events[1..]) == Step(defaults, s1, events[1]);
    CountAppend(s.log, HandlerRun(id));
  }

  /** After the write of a Cancel the handler never runs again exactly when no worker holds the job in a
      phase from which it can: a worker that has called the handler for the last time may still overwrite the
      status, and does not run the job again. */
  lemma CancelledNeverRunsExactlyWhenHoldersAreDone(defaults: RetryPolicy, s: World, c: nat, now: int)
    requires Inv(defaults, s) && c in s.cancellers && s.cancellers[c] in s.table
    ensures var id, s' := s.cancellers[c], Step(defaults, s, CancelWrite(c, true, now));
            HoldersAreDone(defaults, s, id) <==>
            forall events :: Count(Run(defaults, s', events).log, HandlerRun(id)) == Count(s'.log, HandlerRun(id))
  {
    var id, s' := s.cancellers[c], Step(defaults, s, CancelWrite(c, true, now));
    if HoldersAreDone(defaults, s, id) {
      forall events ensures Count(Run(defaults, s', events).log, HandlerRun(id)) == Count(s'.log, HandlerRun(id)) {
        DoneRun(defaults, s', events, id);
      }
    } else {
      var w :| w in s.workers && s.workers[w].id == id && MayRunAgain(defaults, s.table, s.workers[w]);
      var events := RunsAgain(defaults, s', w);
      assert Count(Run(defaults, s', events).log, HandlerRun(id)) != Count(s'.log, HandlerRun(id));
    }
  }

  /** A job is enqueued, a Cancel checks it, and a worker claims it. */
  function CheckThenClaim(job: Job, c: nat, w: nat, now: int): seq<Event>
  {
    [EnqueueCheck(c, Some(job), 0, now, true), EnqueueInsert(c, now, true),
     CancelCheck(c, job.id, true), Claim(w, job.id, now, {})]
  }

  function CheckedAndClaimed(job: Job, c: nat, w: nat, now: int): World
  {
    World(SetRunning(map[job.id := NewRow(job, 0, now)], job.id, now),
          map[w := Claimed(job.id)], map[], map[c := job.id], [])
  }

  lemma ReachesCheckedAndClaimed(defaults: RetryPolicy, job: Job, c: nat, w: nat, now: int)
    requires job.id.text != ""
    ensures Run(defaults, START, CheckThenClaim(job, c, w, now)) == CheckedAndClaimed(job, c, w, now)
    ensures Inv(defaults, CheckedAndClaimed(job, c, w, now))
  {
    RunKeepsInv(defaults, START, CheckThenClaim(job, c, w, now));
    RunFour(defaults, START, CheckThenClaim(job, c, w, now));
    Enqueued(defaults, job, c, now);
    CheckedThenClaimed(defaults, World(map[job.id := NewRow(job, 0, now)], map[], map[], map[], []), job.id, c, w, now);
  }

  /** The Cancel that was checked before the claim is written after it: the row says cancelled, and the
      handler runs all the same. */
  lemma CancelledAfterClaimRuns(defaults: RetryPolicy, job: Job, c: nat, w: nat, now: int)
    requires job.id.text != ""
    ensures var s := Run(defaults, START, CheckThenClaim(job, c, w, now));
            var s' := Step(defaults, s, CancelWrite(c, true, now));
            && Inv(defaults, s) && c in s.cancellers && s.cancellers[c] == job.id
            && job.id in s'.table && s'.table[job.id].status.Cancelled? && s'.log == []
            && Step(defaults, s', ReadJob(w, true, true)).log == [HandlerRun(job.id)]
  {
    ReachesCheckedAndClaimed(defaults, job, c, w, now);
  }

  lemma RunFour(defaults: RetryPolicy, s: World, events: seq<Event>)
    requires |events| == 4
    ensures Run(defaults, s, events)
         == Step(defaults, Step(defaults, Step(defaults, Step(defaults, s, events[0]),
            events[1]), events[2]), events[3])
  {
    var s1 := Step(defaults, s, events[0]);
    var s2 := Step(defaults, s1, events[1]);
    var s3 := Step(defaults, s2, events[2]);
    assert events[1..][1..][1..][1..] == [];
    assert Run(defaults, s3, events[1..][1..][1..]) == Step(defaults, s3, events[3]);
    assert Run(defaults, s2, events[1..][1..]) == Run(defaults, s3, events[1..][1..][1..]);
  }

  lemma Enqueued(defaults: RetryPolicy, job: Job, c: nat, now: int)
    requires job.id.text != ""
    ensures Step(defaults, Step(defaults, START, EnqueueCheck(c, Some(job), 0, now, true)), EnqueueInsert(c, now, true))
         == World(map[job.id := NewRow(job, 0, now)], map[], map[], map[], [])
  {
    var s1 := Step(defaults, START, EnqueueCheck(c, Some(job), 0, now, true));
    assert s1.enqueuers - {c} == map[];
  }

  lemma CheckedThenClaimed(defaults: RetryPolicy, s: World, id: JobId, c: nat, w: nat, now: int)
    requires s.table.Keys == {id} && Claimable(s.table, id, now) && id.text != "" && s.workers == map[]
    requires s.cancellers == map[]
    ensures Step(defaults, Step(defaults, s, CancelCheck(c, id, true)), Claim(w, id, now, {}))
         == s.(table := SetRunning(s.table, id, now), workers := map[w := Claimed(id)], cancellers := map[c := id])
  {
    assert Picks(s.table, id, now, {});
  }
}
