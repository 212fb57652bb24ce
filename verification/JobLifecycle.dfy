/** One lifecycle behind both job queues: a job's handler outcomes alone decide its status and its
    retry count, in any interleaving of either queue. */
module JobLifecycle {
  import opened Common
  import opened RetryPolicies
  import opened JobTypes
  import MemoryQueue
  import Memory = MemoryQueueRuns
  import Postgres = PostgresQueue

  datatype Life = Life(status: Status, retryCount: int)

  const NEW := Life(Pending, 0)

  /** One handler run: success completes the job; failure retries it while the policy allows. */
  function Advance(policy: RetryPolicy, l: Life, failed: bool): Life
  {
    if !failed then Life(Completed, l.retryCount)
    else if l.retryCount + 1 <= policy.maxRetries then Life(Pending, l.retryCount + 1)
    else Life(Failed, l.retryCount)
  }

  function After(policy: RetryPolicy, l: Life, outcomes: seq<bool>): Life
    decreases |outcomes|
  {
    if outcomes == [] then l else After(policy, Advance(policy, l, outcomes[0]), outcomes[1..])
  }

  lemma AfterSplit(policy: RetryPolicy, l: Life, first: seq<bool>, rest: seq<bool>)
    requires |first| <= 1
    ensures After(policy, l, first + rest) == After(policy, After(policy, l, first), rest)
  {
    if first == [] {
      assert first + rest == rest;
    } else {
      assert (first + rest)[1..] == rest && first[1..] == [];
    }
  }

  lemma AfterOne(policy: RetryPolicy, l: Life, o: seq<bool>)
    requires |o| <= 1
    ensures After(policy, l, o) == if o == [] then l else Advance(policy, l, o[0])
  {
    assert o == [] || o[1..] == [];
  }

  /** A job that sets its own retries. */
  predicate OwnPolicy(policy: RetryPolicy) { !policy.kind.NoRetry? && policy.maxRetries > 0 }

  // ------------------------------------------------------------------ the memory queue

  /** The outcome this event reports for id, if any. */
  function MemoryOutcome(s: Memory.System, e: Memory.Event, id: JobId): seq<bool>
  {
    if Memory.Finished(s, e) == Some(id) then [e.failure.Some?] else []
  }

  function MemoryOutcomes(s: Memory.System, events: seq<Memory.Event>, id: JobId): seq<bool>
    decreases |events|
  {
    if events == [] then []
    else MemoryOutcome(s, events[0], id) + MemoryOutcomes(Memory.Step(s, events[0]), events[1..], id)
  }

  /** The status the memory queue shows for a finished job: dead letters are what fails for good. */
  function Shown(status: Status, deadLetterEnabled: bool): Status
  {
    if status == Failed && deadLetterEnabled then DeadLettered else status
  }

  /** id has this retry count; while it waits or runs its life is pending, afterwards its status shows it; and
      it is among the dead letters exactly when it failed for good and dead-lettering is on. */
  predicate MemoryMatches(s: Memory.System, id: JobId, policy: RetryPolicy, l: Life)
  {
    && id in s.q.jobs && s.q.jobs[id].job.policy == policy && s.q.jobs[id].retryCount == l.retryCount
    && (id in s.q.deadLettered <==> l.status == Failed && s.q.deadLetterEnabled)
    && (if Memory.Live(s.q, id) then l.status == Pending
        else s.q.jobs[id].status == Shown(l.status, s.q.deadLetterEnabled) && l.status != DeadLettered)
  }

  /** Nobody cancels, requeues or purges id. */
  predicate LeftAlone(e: Memory.Event, id: JobId)
  {
    !((e.CancelEvent? || e.RequeueEvent? || e.PurgeEvent?) && e.id == id)
  }

  predicate KeepsProcessing(q: MemoryQueue.Queue, q': MemoryQueue.Queue, id: JobId)
    requires id in q.jobs
  {
    && id in q'.processing && id in q'.jobs && id !in q'.deadLettered
    && q'.jobs[id].job == q.jobs[id].job && q'.jobs[id].retryCount == q.jobs[id].retryCount
  }

  /** A job that is being processed keeps its place and its retry count until its run finishes. */
  lemma WorkerFrame(s: Memory.System, e: Memory.Event, id: JobId)
    requires id in s.q.processing && id in s.q.jobs && id !in s.q.deadLettered
    requires s.q.queue != [] ==> s.q.queue[0] != id
    requires e.DequeueEvent? || e.MarkRunningEvent? || e.FinishEvent?
    requires e.FinishEvent? && e.worker in s.holds ==> s.holds[e.worker].id != id
    ensures KeepsProcessing(s.q, Memory.Step(s, e).q, id)
  {
  }

  lemma CallerFrame(s: Memory.System, e: Memory.Event, id: JobId)
    requires id in s.q.processing && id in s.q.jobs && id !in s.q.deadLettered
    requires !(e.DequeueEvent? || e.MarkRunningEvent? || e.FinishEvent?)
    ensures KeepsProcessing(s.q, Memory.Step(s, e).q, id)
  {
  }

  lemma ProcessingStep(s: Memory.System, e: Memory.Event, id: JobId)
    requires Memory.Inv(s) && id in s.q.processing && Memory.Finished(s, e) != Some(id)
    ensures id in s.q.jobs && KeepsProcessing(s.q, Memory.Step(s, e).q, id)
  {
    assert MemoryQueue.Placed(id, s.q.jobs[id], id in s.q.queue, id in s.q.processing, id in s.q.deadLettered);
    if s.q.queue != [] {
      assert s.q.queue[0] in s.q.queue;
    }
    if e.FinishEvent? && e.worker in s.holds && s.holds[e.worker].Dequeued? {
      assert Memory.Step(s, e) == s;
    } else if e.DequeueEvent? || e.MarkRunningEvent? || e.FinishEvent? {
      WorkerFrame(s, e, id);
    } else {
      CallerFrame(s, e, id);
    }
  }

  lemma MemoryStepMatches(s: Memory.System, e: Memory.Event, id: JobId, policy: RetryPolicy, l: Life)
    requires Memory.Inv(s) && MemoryMatches(s, id, policy, l) && OwnPolicy(policy)
    requires LeftAlone(e, id)
    ensures MemoryMatches(Memory.Step(s, e), id, policy, After(policy, l, MemoryOutcome(s, e, id)))
  {
    var o := MemoryOutcome(s, e, id);
    if Memory.Finished(s, e) == Some(id) {
      assert o[1..] == [];
      FinishMatches(s, e, id, policy, l);
    } else if id in s.q.processing {
      ProcessingStep(s, e, id);
      ConfigConstant(s, e);
    } else if Memory.HandedOut(s, e) == Some(id) {
      assert id == s.q.queue[0] && id in s.q.queue;
      MemoryQueue.DistinctHead(s.q.queue);
    } else if id in s.q.deadLettered {
      DeadLetterStays(s, e, id);
      ConfigConstant(s, e);
    } else {
      Memory.StepLeavesUntouched(s, e, id);
      ConfigConstant(s, e);
    }
  }

  /** A dead letter stays as it is until it is requeued or purged. */
  lemma DeadLetterStays(s: Memory.System, e: Memory.Event, id: JobId)
    requires Memory.Inv(s) && id in s.q.deadLettered && LeftAlone(e, id)
    ensures var q' := Memory.Step(s, e).q;
            && id in q'.deadLettered && id in q'.jobs && q'.jobs[id] == s.q.jobs[id] && !Memory.Live(q', id)
  {
    assert MemoryQueue.Placed(id, s.q.jobs[id], id in s.q.queue, id in s.q.processing, id in s.q.deadLettered);
    DeadLetterFrame(s, e, id);
    Memory.StepKeepsInv(s, e);
    var q' := Memory.Step(s, e).q;
    assert MemoryQueue.Placed(id, q'.jobs[id], id in q'.queue, id in q'.processing, id in q'.deadLettered);
  }

  lemma DeadLetterFrame(s: Memory.System, e: Memory.Event, id: JobId)
    requires Memory.Held(s) && id in s.q.deadLettered && id in s.q.jobs && id !in s.q.processing && LeftAlone(e, id)
    ensures var q' := Memory.Step(s, e).q; id in q'.deadLettered && id in q'.jobs && q'.jobs[id] == s.q.jobs[id]
  {
    if (e.MarkRunningEvent? || e.FinishEvent?) && e.worker in s.holds {
      assert Memory.HoldOk(s.q, s.holds[e.worker]);
    }
  }

  lemma ConfigConstant(s: Memory.System, e: Memory.Event)
    ensures Memory.Step(s, e).q.deadLetterEnabled == s.q.deadLetterEnabled
  {
  }

  lemma FinishMatches(s: Memory.System, e: Memory.Event, id: JobId, policy: RetryPolicy, l: Life)
    requires Memory.Inv(s) && MemoryMatches(s, id, policy, l) && OwnPolicy(policy) && Memory.Finished(s, e) == Some(id)
    ensures MemoryMatches(Memory.Step(s, e), id, policy, Advance(policy, l, e.failure.Some?))
  {
    assert Memory.HoldOk(s.q, s.holds[e.worker]);
    assert MemoryQueue.Placed(id, s.q.jobs[id], id in s.q.queue, id in s.q.processing, id in s.q.deadLettered);
  }

  lemma {:induction false} MemoryFollowsLifecycle(s: Memory.System, events: seq<Memory.Event>, id: JobId,
                                                  policy: RetryPolicy, l: Life)
    requires Memory.Inv(s) && MemoryMatches(s, id, policy, l) && OwnPolicy(policy)
    requires forall e :: e in events ==> LeftAlone(e, id)
    ensures MemoryMatches(Memory.Run(s, events), id, policy, After(policy, l, MemoryOutcomes(s, events, id)))
    decreases |events|
  {
    if events != [] {
      var s', o := Memory.Step(s, events[0]), MemoryOutcome(s, events[0], id);
      assert events[0] in events && forall e :: e in events[1..] ==> e in events;
      MemoryStepMatches(s, events[0], id, policy, l);
      Memory.StepKeepsInv(s, events[0]);
      MemoryFollowsLifecycle(s', events[1..], id, policy, After(policy, l, o));
      AfterSplit(policy, l, o, MemoryOutcomes(s', events[1..], id));
    }
  }

  // ------------------------------------------------------------------ the Postgres queue

  /** The outcome this event reports for id: the return of its handler. */
  function PostgresOutcome(s: Postgres.World, e: Postgres.Event, id: JobId): seq<bool>
  {
    if e.HandlerReturns? && e.worker in s.workers && s.workers[e.worker] == Postgres.Executing(id)
    then [e.result.Some?] else []
  }

  function PostgresOutcomes(defaults: RetryPolicy, s: Postgres.World, events: seq<Postgres.Event>, id: JobId): seq<bool>
    decreases |events|
  {
    if events == [] then []
    else
      var s' := Postgres.Step(defaults, s, events[0]);
      PostgresOutcome(s, events[0], id) + PostgresOutcomes(defaults, s', events[1..], id)
  }

  predicate Holds(s: Postgres.World, w: nat, id: JobId) { w in s.workers && s.workers[w].id == id }

  /** Nobody cancels id, and the worker that holds id, if any, does not crash and has its statements succeed.
      What fails for other workers does not matter. */
  predicate Faultless(s: Postgres.World, e: Postgres.Event, id: JobId)
  {
    match e
    case ReadJob(w, readOk, parseOk) => Holds(s, w, id) ==> readOk && parseOk
    case ReadRetryCount(w, ok, _, _) => Holds(s, w, id) ==> ok
    case WriteRetry(w, ok) => Holds(s, w, id) ==> ok
    case WriteFailed(w, ok, _) => Holds(s, w, id) ==> ok
    case WriteCompleted(w, ok, _) => Holds(s, w, id) ==> ok
    case Crash(w) => !Holds(s, w, id)
    case CancelCheck(_, x, _) => x != id
    case _ => true
  }

  predicate FaultlessRun(defaults: RetryPolicy, s: Postgres.World, events: seq<Postgres.Event>, id: JobId)
    decreases |events|
  {
    events != [] ==>
      && Faultless(s, events[0], id)
      && FaultlessRun(defaults, Postgres.Step(defaults, s, events[0]), events[1..], id)
  }

  /** What the life of a job is while a worker holds it, from the worker's phase and the row. */
  function LifeInPhase(policy: RetryPolicy, row: Entry, p: Postgres.Phase): Life
  {
    match p
    case Claimed(_) => Life(Pending, row.retryCount)
    case Executing(_) => Life(Pending, row.retryCount)
    case Succeeded(_) => Life(Completed, row.retryCount)
    case HandlerFailed(_, _) => Advance(policy, Life(Pending, row.retryCount), true)
    case Retrying(_, _, n, _) => Life(Pending, n)
    case Failing(_, _) => Life(Failed, row.retryCount)
  }

  /** l is the life of the job, from its row and, if a worker holds it, from that worker's phase. */
  predicate LifeIs(policy: RetryPolicy, row: Entry, workers: map<nat, Postgres.Phase>, id: JobId, l: Life)
  {
    && (forall w :: w in workers && workers[w].id == id ==> l == LifeInPhase(policy, row, workers[w]))
    && ((forall w :: w in workers ==> workers[w].id != id) ==> l == Life(row.status, row.retryCount))
  }

  predicate NoCanceller(s: Postgres.World, id: JobId)
  {
    forall c :: c in s.cancellers ==> s.cancellers[c] != id
  }

  predicate PostgresMatches(s: Postgres.World, id: JobId, policy: RetryPolicy, l: Life)
  {
    && id in s.table && s.table[id].job.policy == policy
    && NoCanceller(s, id) && LifeIs(policy, s.table[id], s.workers, id, l)
  }

  /** Without faults the life of the job follows the outcome of its handler. */
  lemma HolderStepLife(defaults: RetryPolicy, s: Postgres.World, e: Postgres.Event, id: JobId, policy: RetryPolicy)
    requires Postgres.IsWorkerEvent(e) && e.worker in s.workers && s.workers[e.worker].id == id && id in s.table
    requires s.table[id].job.policy == policy && OwnPolicy(policy) && Faultless(s, e, id)
    requires var p := s.workers[e.worker]; p.Retrying? ==> p.retryCount == s.table[id].retryCount + 1
    ensures var s', p, o := Postgres.Step(defaults, s, e), s.workers[e.worker], PostgresOutcome(s, e, id);
            var l := if o == [] then LifeInPhase(policy, s.table[id], p)
                     else Advance(policy, LifeInPhase(policy, s.table[id], p), o[0]);
            && id in s'.table
            && l == if e.worker in s'.workers then LifeInPhase(policy, s'.table[id], s'.workers[e.worker])
                    else Life(s'.table[id].status, s'.table[id].retryCount)
  {
  }

  lemma LifeAfterHolder(policy: RetryPolicy, workers: map<nat, Postgres.Phase>, w: nat, id: JobId,
                        workers': map<nat, Postgres.Phase>, row: Entry, l: Life)
    requires w in workers && workers[w].id == id && Postgres.Exclusive(workers)
    requires w in workers' ==>
               workers'[w].id == id && workers' == workers[w := workers'[w]]
               && l == LifeInPhase(policy, row, workers'[w])
    requires w !in workers' ==> workers' == workers - {w} && l == Life(row.status, row.retryCount)
    ensures LifeIs(policy, row, workers', id, l)
  {
  }

  /** A step of the worker that holds id. */
  lemma HolderStepMatches(defaults: RetryPolicy, s: Postgres.World, e: Postgres.Event, id: JobId, policy: RetryPolicy,
                          l: Life)
    requires Postgres.Inv(defaults, s) && PostgresMatches(s, id, policy, l) && OwnPolicy(policy) && Faultless(s, e, id)
    requires Postgres.IsWorkerEvent(e) && e.worker in s.workers && s.workers[e.worker].id == id
    ensures PostgresMatches(Postgres.Step(defaults, s, e), id, policy, After(policy, l, PostgresOutcome(s, e, id)))
  {
    var o, s' := PostgresOutcome(s, e, id), Postgres.Step(defaults, s, e);
    AfterOne(policy, l, o);
    assert Postgres.PhaseOk(defaults, s.table, s.log, s.workers[e.worker]);
    assert l == LifeInPhase(policy, s.table[id], s.workers[e.worker]);
    HolderStepLife(defaults, s, e, id, policy);
    Postgres.WorkerStepEffect(defaults, s, e);
    LifeAfterHolder(policy, s.workers, e.worker, id, s'.workers, s'.table[id], After(policy, l, o));
  }

  lemma LifeAfterOther(policy: RetryPolicy, workers: map<nat, Postgres.Phase>, w: nat, id: JobId,
                       workers': map<nat, Postgres.Phase>, row: Entry, l: Life)
    requires w in workers && workers[w].id != id && LifeIs(policy, row, workers, id, l)
    requires w in workers' ==> workers'[w].id != id && workers' == workers[w := workers'[w]]
    requires w !in workers' ==> workers' == workers - {w}
    ensures LifeIs(policy, row, workers', id, l)
  {
    if forall v :: v in workers' ==> workers'[v].id != id {
      forall v | v in workers ensures workers[v].id != id {
        assert v != w ==> v in workers' && workers'[v] == workers[v];
      }
    }
  }

  /** A step of a worker that does not hold id. */
  lemma OtherStepMatches(defaults: RetryPolicy, s: Postgres.World, e: Postgres.Event, id: JobId, policy: RetryPolicy,
                         l: Life)
    requires PostgresMatches(s, id, policy, l) && Postgres.IsWorkerEvent(e) && e.worker in s.workers
    requires s.workers[e.worker].id != id
    ensures PostgresMatches(Postgres.Step(defaults, s, e), id, policy, l)
  {
    var s' := Postgres.Step(defaults, s, e);
    Postgres.WorkerStepEffect(defaults, s, e);
    LifeAfterOther(policy, s.workers, e.worker, id, s'.workers, s.table[id], l);
  }

  /** A step of an enqueuer, or of a canceller of another job. */
  lemma CallerStepMatches(defaults: RetryPolicy, s: Postgres.World, e: Postgres.Event, id: JobId, policy: RetryPolicy,
                          l: Life)
    requires PostgresMatches(s, id, policy, l) && Faultless(s, e, id)
    requires e.EnqueueCheck? || e.EnqueueInsert? || e.CancelCheck? || e.CancelWrite?
    ensures PostgresMatches(Postgres.Step(defaults, s, e), id, policy, l)
  {
    var s' := Postgres.Step(defaults, s, e);
    assert s'.workers == s.workers && s'.table[id] == s.table[id];
  }

  /** The crash of a worker that does not hold id. */
  lemma CrashMatches(defaults: RetryPolicy, s: Postgres.World, w: nat, id: JobId, policy: RetryPolicy, l: Life)
    requires PostgresMatches(s, id, policy, l) && !Holds(s, w, id)
    ensures PostgresMatches(Postgres.Step(defaults, s, Postgres.Crash(w)), id, policy, l)
  {
    if w in s.workers {
      LifeAfterOther(policy, s.workers, w, id, s.workers - {w}, s.table[id], l);
    } else {
      assert s.workers - {w} == s.workers;
    }
  }

  lemma LifeAfterClaim(policy: RetryPolicy, workers: map<nat, Postgres.Phase>, w: nat, id: JobId, claimed: JobId,
                       row: Entry, row': Entry, l: Life)
    requires w !in workers && LifeIs(policy, row, workers, id, l)
    requires if claimed == id
             then row.status.Pending? && row'.retryCount == row.retryCount &&
                  forall v :: v in workers ==> workers[v].id != id
             else row' == row
    ensures LifeIs(policy, row', workers[w := Postgres.Claimed(claimed)], id, l)
  {
    var after := workers[w := Postgres.Claimed(claimed)];
    assert w in after && after[w].id == claimed;
    if forall v :: v in after ==> after[v].id != id {
      forall v | v in workers ensures workers[v].id != id {
        assert v in after && after[v] == workers[v];
      }
    }
  }

  lemma ClaimMatches(defaults: RetryPolicy, s: Postgres.World, e: Postgres.Event, id: JobId, policy: RetryPolicy,
                     l: Life)
    requires Postgres.Inv(defaults, s) && PostgresMatches(s, id, policy, l) && e.Claim?
    ensures PostgresMatches(Postgres.Step(defaults, s, e), id, policy, l)
  {
    if e.worker !in s.workers && Postgres.Picks(s.table, e.id, e.now, e.locked) {
      forall w | w in s.workers && e.id == id ensures s.workers[w].id != id {
        assert Postgres.PhaseOk(defaults, s.table, s.log, s.workers[w]);
      }
      LifeAfterClaim(policy, s.workers, e.worker, id, e.id, s.table[id], Postgres.SetRunning(s.table, e.id, e.now)[id],
        l);
    }
  }

  lemma PostgresStepMatches(defaults: RetryPolicy, s: Postgres.World, e: Postgres.Event, id: JobId, policy: RetryPolicy,
                            l: Life)
    requires Postgres.Inv(defaults, s) && PostgresMatches(s, id, policy, l) && OwnPolicy(policy) && Faultless(s, e, id)
    ensures PostgresMatches(Postgres.Step(defaults, s, e), id, policy, After(policy, l, PostgresOutcome(s, e, id)))
  {
    if e.Claim? {
      ClaimMatches(defaults, s, e, id, policy, l);
    } else if e.Crash? {
      CrashMatches(defaults, s, e.worker, id, policy, l);
    } else if !Postgres.IsWorkerEvent(e) {
      CallerStepMatches(defaults, s, e, id, policy, l);
    } else if e.worker !in s.workers {
    } else if s.workers[e.worker].id == id {
      HolderStepMatches(defaults, s, e, id, policy, l);
    } else {
      OtherStepMatches(defaults, s, e, id, policy, l);
    }
  }

  lemma {:induction false} PostgresFollowsLifecycle(defaults: RetryPolicy, s: Postgres.World,
                                                    events: seq<Postgres.Event>,
                                                    id: JobId, policy: RetryPolicy, l: Life)
    requires Postgres.Inv(defaults, s) && Postgres.NewRows(s) && PostgresMatches(s, id, policy, l) && OwnPolicy(policy)
    requires FaultlessRun(defaults, s, events, id)
    ensures PostgresMatches(Postgres.Run(defaults, s, events), id, policy,
              After(policy, l, PostgresOutcomes(defaults, s, events, id)))
    decreases |events|
  {
    if events != [] {
      var s', o := Postgres.Step(defaults, s, events[0]), PostgresOutcome(s, events[0], id);
      PostgresStepMatches(defaults, s, events[0], id, policy, l);
      Postgres.StepKeepsInv(defaults, s, events[0]);
      Postgres.StepKeepsNewRows(defaults, s, events[0]);
      PostgresFollowsLifecycle(defaults, s', events[1..], id, policy, After(policy, l, o));
      AfterSplit(policy, l, o, PostgresOutcomes(defaults, s', events[1..], id));
    }
  }

  // ------------------------------------------------------------------ both

  /** A job that is new in both queues and then meets the same sequence of handler outcomes has, whenever
      it is held by no worker, the same status and the same retry count in both, where the memory queue shows
      a job that failed for good as dead-lettered if dead-lettering is on. Whatever else happens in either
      queue, faults and crashes of workers on other jobs included; without a fault on this job in Postgres,
      and with nobody cancelling, requeueing or purging it. */
  lemma QueuesAgree(m: Memory.System, memoryEvents: seq<Memory.Event>,
                    defaults: RetryPolicy, p: Postgres.World, postgresEvents: seq<Postgres.Event>,
                    id: JobId, policy: RetryPolicy)
    requires OwnPolicy(policy)
    requires Memory.Inv(m) && MemoryMatches(m, id, policy, NEW)
    requires Postgres.Inv(defaults, p) && Postgres.NewRows(p) && PostgresMatches(p, id, policy, NEW)
    requires forall e :: e in memoryEvents ==> LeftAlone(e, id)
    requires FaultlessRun(defaults, p, postgresEvents, id)
    requires MemoryOutcomes(m, memoryEvents, id) == PostgresOutcomes(defaults, p, postgresEvents, id)
    ensures var m', p' := Memory.Run(m, memoryEvents), Postgres.Run(defaults, p, postgresEvents);
            && id in m'.q.jobs && id in p'.table
            && (id !in m'.q.processing && Postgres.Unheld(p', id) ==>
                  && m'.q.jobs[id].status == Shown(p'.table[id].status, m'.q.deadLetterEnabled)
                  && (id in m'.q.deadLettered <==> p'.table[id].status == Failed && m'.q.deadLetterEnabled)
                  && m'.q.jobs[id].retryCount == p'.table[id].retryCount)
  {
    MemoryFollowsLifecycle(m, memoryEvents, id, policy, NEW);
    PostgresFollowsLifecycle(defaults, p, postgresEvents, id, policy, NEW);
    Memory.RunKeepsInv(m, memoryEvents);
    var m' := Memory.Run(m, memoryEvents);
    assert MemoryQueue.Placed(id, m'.q.jobs[id], id in m'.q.queue, id in m'.q.processing, id in m'.q.deadLettered);
  }

  /** A job enqueued in the memory queue starts its life there. */
  lemma MemoryEnqueueIsNew(s: Memory.System, e: Memory.Event)
    requires Memory.Inv(s) && e.EnqueueEvent? && MemoryQueue.Enqueue(s.q, e.job, e.delay, e.now).error.None?
    ensures MemoryMatches(Memory.Step(s, e), e.job.value.id, e.job.value.policy, NEW)
  {
  }

  /** A job inserted in the Postgres table starts its life there. */
  lemma PostgresInsertIsNew(defaults: RetryPolicy, s: Postgres.World, e: Postgres.Event, job: Job)
    requires Postgres.Inv(defaults, s) && Postgres.NewRows(s) && e.EnqueueInsert? && e.ok && e.caller in s.enqueuers
    requires s.enqueuers[e.caller].job == job && s.enqueuers[e.caller].status.Pending? && job.id !in s.table
    requires forall c :: c in s.cancellers ==> s.cancellers[c] != job.id
    ensures PostgresMatches(Postgres.Step(defaults, s, e), job.id, job.policy, NEW)
  {
    forall w | w in s.workers ensures s.workers[w].id != job.id {
      assert Postgres.PhaseOk(defaults, s.table, s.log, s.workers[w]);
    }
  }
}
