/** Every interleaving of workers and callers on one MemoryJobQueue. Each locked section is one
    step, and the unlocked "mark running" of jobs/job_queue.go:279-282 is a step of its own, so
    that Cancel can fall between it and the dequeue. An event that is not enabled changes nothing;
    hence the lists of events are exactly the interleavings. */
module MemoryQueueRuns {
  import opened Common
  import opened RetryPolicies
  import opened JobTypes
  import opened MemoryQueue
  import opened Sums

  /** What a busy worker holds: a job it has dequeued, or one whose handler is running. */
  datatype Hold = Dequeued(id: JobId) | Executing(id: JobId)

  datatype System = System(q: Queue, holds: map<nat, Hold>)

  datatype Event =
    | EnqueueEvent(job: Option<Job>, delay: int, now: int)
    | DequeueEvent(worker: nat, now: int)
    | MarkRunningEvent(worker: nat, now: int)
    | FinishEvent(worker: nat, failure: Option<string>, finishedAt: int, retryAt: int, backoff: int)
    | CancelEvent(id: JobId, now: int)
    | RequeueEvent(id: JobId, now: int)
    | PurgeEvent(id: JobId)
    | CloseEvent

  function Start(deadLetterEnabled: bool): System
  {
    System(Empty(deadLetterEnabled), map[])
  }

  /** The job that a dequeueJob call by an idle worker hands out. */
  function HandedOut(s: System, e: Event): Option<JobId>
  {
    if e.DequeueEvent? && e.worker !in s.holds then Dequeue(s.q, e.now).1 else None
  }

  /** The job whose handler run this event finishes. */
  function Finished(s: System, e: Event): Option<JobId>
  {
    if e.FinishEvent? && e.worker in s.holds && s.holds[e.worker].Executing? then Some(s.holds[e.worker].id) else None
  }

  function Step(s: System, e: Event): System
  {
    match e
    case EnqueueEvent(job, delay, now) => s.(q := Enqueue(s.q, job, delay, now).q)
    case DequeueEvent(w, now) =>
      if w in s.holds then s
      else
        var (q, id) := Dequeue(s.q, now);
        if id.None? then s.(q := q) else System(q, s.holds[w := Dequeued(id.value)])
    case MarkRunningEvent(w, now) =>
      if w !in s.holds || !s.holds[w].Dequeued? || s.holds[w].id !in s.q.jobs then s
      else
        var id := s.holds[w].id;
        System(MarkRunning(s.q, id, now), s.holds[w := Executing(id)])
    case FinishEvent(w, failure, finishedAt, retryAt, backoff) =>
      if w !in s.holds || !s.holds[w].Executing? || s.holds[w].id !in s.q.jobs then s
      else System(Finish(s.q, s.holds[w].id, failure, finishedAt, retryAt, backoff), s.holds - {w})
    case CancelEvent(id, now) => s.(q := Cancel(s.q, id, now).q)
    case RequeueEvent(id, now) => s.(q := Requeue(s.q, id, now).q)
    case PurgeEvent(id) => s.(q := Purge(s.q, id).q)
    case CloseEvent => s.(q := Close(s.q))
  }

  function Run(s: System, events: seq<Event>): System
    decreases |events|
  {
    if events == [] then s else Run(Step(s, events[0]), events[1..])
  }

  /** A held job is in processing; its handler runs exactly when its status is running. */
  predicate HoldOk(q: Queue, h: Hold)
  {
    && h.id in q.processing && h.id in q.jobs
    && (h.Executing? <==> q.jobs[h.id].status.Running?)
  }

  predicate Held(s: System)
  {
    forall w :: w in s.holds ==> HoldOk(s.q, s.holds[w])
  }

  /** No job is held by two workers. */
  predicate Exclusive(holds: map<nat, Hold>)
  {
    forall w, v :: w in holds && v in holds && holds[w].id == holds[v].id ==> w == v
  }

  /** Every job in processing is held by a worker. */
  ghost predicate Covered(ids: set<JobId>, holds: map<nat, Hold>)
  {
    forall id :: id in ids ==> exists w :: w in holds && holds[w].id == id
  }

  ghost predicate Inv(s: System)
  {
    Partition(s.q) && Held(s) && Exclusive(s.holds) && Covered(s.q.processing, s.holds)
  }

  lemma CoveredAdd(ids: set<JobId>, holds: map<nat, Hold>, w: nat, h: Hold)
    requires Covered(ids, holds) && (w in holds ==> holds[w].id == h.id)
    ensures Covered(ids, holds[w := h]) && Covered(ids + {h.id}, holds[w := h])
  {
    var holds' := holds[w := h];
    assert w in holds' && holds'[w].id == h.id;
    forall id | id in ids ensures exists v :: v in holds' && holds'[v].id == id {
      var v :| v in holds && holds[v].id == id;
      assert v in holds' && holds'[v].id == id;
    }
  }

  lemma CoveredRemove(ids: set<JobId>, holds: map<nat, Hold>, w: nat)
    requires Covered(ids, holds) && w in holds
    ensures Covered(ids - {holds[w].id}, holds - {w})
  {
    var holds' := holds - {w};
    forall id | id in ids - {holds[w].id} ensures exists v :: v in holds' && holds'[v].id == id {
      var v :| v in holds && holds[v].id == id;
      assert v in holds' && holds'[v].id == id;
    }
  }

  /** Changes that leave the held jobs in processing and do not start or stop a run keep Held. */
  lemma HeldFrame(q: Queue, q': Queue, h: Hold)
    requires HoldOk(q, h) && q.processing <= q'.processing && h.id in q'.jobs
    requires q'.jobs[h.id].status.Running? <==> q.jobs[h.id].status.Running?
    ensures HoldOk(q', h)
  {
  }

  lemma StepKeepsInv(s: System, e: Event)
    requires Inv(s)
    ensures Inv(Step(s, e))
  {
    match e
    case EnqueueEvent(job, delay, now) =>
      EnqueueKeepsPartition(s.q, job, delay, now);
      CallerKeepsHeld(s, e);
    case DequeueEvent(w, now) => DequeueStepKeepsInv(s, w, now);
    case MarkRunningEvent(w, now) => MarkRunningStepKeepsInv(s, w, now);
    case FinishEvent(w, failure, finishedAt, retryAt, backoff) => FinishStepKeepsInv(s, e);
    case CancelEvent(id, now) =>
      CancelKeepsPartition(s.q, id, now);
      CallerKeepsHeld(s, e);
    case RequeueEvent(id, now) =>
      RequeueKeepsPartition(s.q, id, now);
      CallerKeepsHeld(s, e);
    case PurgeEvent(id) =>
      PurgeKeepsPartition(s.q, id);
      CallerKeepsHeld(s, e);
    case CloseEvent =>
  }

  lemma CallerKeepsHeld(s: System, e: Event)
    requires Located(s.q) && Held(s)
    requires e.EnqueueEvent? || e.CancelEvent? || e.RequeueEvent? || e.PurgeEvent?
    ensures Held(Step(s, e)) && Step(s, e).q.processing == s.q.processing
  {
    var q' := Step(s, e).q;
    forall w | w in s.holds ensures HoldOk(q', s.holds[w]) {
      var id := s.holds[w].id;
      assert HoldOk(s.q, s.holds[w]);
      assert Placed(id, s.q.jobs[id], id in s.q.queue, id in s.q.processing, id in s.q.deadLettered);
      HeldFrame(s.q, q', s.holds[w]);
    }
  }

  lemma DequeueStepKeepsInv(s: System, w: nat, now: int)
    requires Inv(s)
    ensures Inv(Step(s, DequeueEvent(w, now)))
  {
    DequeueKeepsPartition(s.q, now);
    if w !in s.holds && s.q.queue != [] {
      var id := s.q.queue[0];
      assert Placed(id, s.q.jobs[id], id in s.q.queue, id in s.q.processing, id in s.q.deadLettered);
      CoveredAdd(s.q.processing, s.holds, w, Dequeued(id));
      DequeueKeepsHeld(s, w, now);
    }
  }

  lemma DequeueKeepsHeld(s: System, w: nat, now: int)
    requires Held(s) && Exclusive(s.holds) && w !in s.holds && s.q.queue != []
    requires var id := s.q.queue[0]; id !in s.q.processing && id in s.q.jobs && s.q.jobs[id].status.Pending?
    ensures var s' := Step(s, DequeueEvent(w, now)); Held(s') && Exclusive(s'.holds)
  {
  }

  lemma MarkRunningStepKeepsInv(s: System, w: nat, now: int)
    requires Inv(s)
    ensures Inv(Step(s, MarkRunningEvent(w, now)))
  {
    if w in s.holds && s.holds[w].Dequeued? {
      var id := s.holds[w].id;
      assert HoldOk(s.q, s.holds[w]);
      MarkRunningKeepsPartition(s.q, id, now);
      CoveredAdd(s.q.processing, s.holds, w, Executing(id));
      MarkRunningKeepsHeld(s, w, now);
    }
  }

  lemma MarkRunningKeepsHeld(s: System, w: nat, now: int)
    requires Held(s) && Exclusive(s.holds) && w in s.holds && s.holds[w].Dequeued?
    ensures var s' := Step(s, MarkRunningEvent(w, now)); Held(s') && Exclusive(s'.holds)
  {
  }

  lemma FinishStepKeepsInv(s: System, e: Event)
    requires Inv(s) && e.FinishEvent?
    ensures Inv(Step(s, e))
  {
    if Finished(s, e).Some? {
      var id := s.holds[e.worker].id;
      assert HoldOk(s.q, s.holds[e.worker]);
      FinishKeepsPartition(s.q, id, e.failure, e.finishedAt, e.retryAt, e.backoff);
      CoveredRemove(s.q.processing, s.holds, e.worker);
      FinishKeepsHeld(s, e, id);
    }
  }

  lemma FinishKeepsHeld(s: System, e: Event, id: JobId)
    requires Held(s) && Exclusive(s.holds) && Finished(s, e) == Some(id) && id in s.q.jobs
    ensures var s' := Step(s, e);
            Held(s') && Exclusive(s'.holds) && s'.q.processing == s.q.processing - {id}
  {
    var s' := Step(s, e);
    forall w | w in s'.holds ensures HoldOk(s'.q, s'.holds[w]) {
      assert HoldOk(s.q, s.holds[w]) && s.holds[w].id != id;
    }
  }

  lemma {:induction false} RunKeepsInv(s: System, events: seq<Event>)
    requires Inv(s)
    ensures Inv(Run(s, events))
    decreases |events|
  {
    if events != [] {
      StepKeepsInv(s, events[0]);
      RunKeepsInv(Step(s, events[0]), events[1..]);
    }
  }

  /** At every point of every interleaving the collections partition the live jobs, and every other
      job is completed, failed or cancelled. */
  lemma PartitionAtEveryPoint(deadLetterEnabled: bool, events: seq<Event>)
    ensures Inv(Run(Start(deadLetterEnabled), events))
  {
    RunKeepsInv(Start(deadLetterEnabled), events);
  }

  // ------------------------------------------------------------------ bounded work

  /** Handler runs a queued or processing job may still need. */
  function Remaining(entry: Entry): nat
  {
    var limit := RetryLimit(entry.job.policy);
    if entry.retryCount <= limit && 0 <= entry.retryCount then limit - entry.retryCount + 1 else 0
  }

  predicate Live(q: Queue, id: JobId) { id in q.queue || id in q.processing }

  function Weights(q: Queue): map<JobId, nat>
  {
    map id | id in q.jobs && Live(q, id) :: Remaining(q.jobs[id])
  }

  predicate NoNewWork(events: seq<Event>)
  {
    forall e :: e in events ==> !e.EnqueueEvent? && !e.RequeueEvent?
  }

  function FinishedRuns(s: System, events: seq<Event>): nat
    decreases |events|
  {
    if events == [] then 0
    else (if Finished(s, events[0]).Some? then 1 else 0) + FinishedRuns(Step(s, events[0]), events[1..])
  }

  /** Every finished handler run takes at least one attempt off the sum, and nothing but new work adds to it. */
  lemma StepSpendsWork(s: System, e: Event)
    requires Inv(s) && !e.EnqueueEvent? && !e.RequeueEvent?
    ensures Sum(Weights(Step(s, e).q)) + (if Finished(s, e).Some? then 1 else 0) <= Sum(Weights(s.q))
  {
    match e
    case DequeueEvent(w, now) =>
      if s.q.queue != [] {
        DistinctHead(s.q.queue);
        DequeueKeepsWeights(s.q, now);
      }
    case MarkRunningEvent(w, now) =>
      if w in s.holds && s.holds[w].Dequeued? {
        assert HoldOk(s.q, s.holds[w]);
        MarkRunningKeepsWeights(s.q, s.holds[w].id, now);
      }
    case FinishEvent(w, failure, finishedAt, retryAt, backoff) =>
      if Finished(s, e).Some? {
        var id := s.holds[w].id;
        assert HoldOk(s.q, s.holds[w]);
        assert Placed(id, s.q.jobs[id], id in s.q.queue, id in s.q.processing, id in s.q.deadLettered);
        FinishSpendsWork(s.q, id, failure, finishedAt, retryAt, backoff);
      }
    case CancelEvent(id, now) =>
      if id in s.q.queue {
        assert Placed(id, s.q.jobs[id], id in s.q.queue, id in s.q.processing, id in s.q.deadLettered);
      }
      CancelKeepsWork(s.q, id, now);
    case PurgeEvent(id) =>
      if id in s.q.deadLettered {
        assert Placed(id, s.q.jobs[id], id in s.q.queue, id in s.q.processing, id in s.q.deadLettered);
      }
      PurgeKeepsWeights(s.q, id);
    case CloseEvent => assert Weights(Close(s.q)) == Weights(s.q);
  }

  lemma PurgeKeepsWeights(q: Queue, id: JobId)
    requires id in q.deadLettered ==> !Live(q, id)
    ensures Weights(Purge(q, id).q) == Weights(q)
  {
  }

  lemma MarkRunningKeepsWeights(q: Queue, id: JobId, now: int)
    requires id in q.jobs
    ensures Weights(MarkRunning(q, id, now)) == Weights(q)
  {
  }

  lemma DequeueKeepsWeights(q: Queue, now: int)
    requires q.queue != [] && forall x :: x in q.queue <==> x == q.queue[0] || x in q.queue[1..]
    ensures Weights(Dequeue(q, now).0) == Weights(q)
  {
    var q' := Dequeue(q, now).0;
    forall x ensures Live(q', x) <==> Live(q, x) {
    }
  }

  lemma FinishSpendsWork(q: Queue, id: JobId, failure: Option<string>, finishedAt: int, retryAt: int, backoff: int)
    requires id in q.jobs && id in q.processing && id !in q.queue && EntryOk(id, q.jobs[id])
    ensures Sum(Weights(Finish(q, id, failure, finishedAt, retryAt, backoff))) + 1 <= Sum(Weights(q))
  {
    var entry := q.jobs[id];
    if failure.None? {
      EndSpendsRest(q, EndRun(q, id, entry.(finishedAt := Some(finishedAt), status := Completed)), id);
    } else if ShouldRetry(entry.job.policy, entry.retryCount + 1) {
      RetrySpendsOne(q, PutBack(q, id, failure, finishedAt, retryAt + backoff), id);
      SumUpdate(Weights(q), id, Weights(q)[id] - 1);
    } else {
      EndSpendsRest(q, GiveUp(q, id, failure, finishedAt), id);
    }
  }

  lemma EndSpendsRest(q: Queue, q': Queue, id: JobId)
    requires id in q.jobs && id in q.processing && id !in q.queue
    requires q'.queue == q.queue && q'.processing == q.processing - {id}
    requires q'.jobs.Keys == q.jobs.Keys && forall x :: x in q.jobs && x != id ==> q'.jobs[x] == q.jobs[x]
    requires EntryOk(id, q.jobs[id])
    ensures Sum(Weights(q')) + 1 <= Sum(Weights(q))
  {
    assert Weights(q') == Weights(q) - {id};
    SumSplit(Weights(q), id);
  }

  lemma RetrySpendsOne(q: Queue, q': Queue, id: JobId)
    requires id in q.jobs && id in q.processing && EntryOk(id, q.jobs[id])
    requires q'.queue == q.queue + [id] && q'.processing == q.processing - {id}
    requires q'.jobs.Keys == q.jobs.Keys && forall x :: x in q.jobs && x != id ==> q'.jobs[x] == q.jobs[x]
    requires q'.jobs[id].job == q.jobs[id].job && q'.jobs[id].retryCount == q.jobs[id].retryCount + 1
    requires q.jobs[id].retryCount + 1 <= RetryLimit(q.jobs[id].job.policy)
    ensures Weights(q)[id] >= 1 && Weights(q') == Weights(q)[id := Weights(q)[id] - 1]
  {
    forall x ensures Live(q', x) <==> Live(q, x) {
      assert x in q'.queue <==> x in q.queue || x == id;
    }
  }

  lemma CancelKeepsWork(q: Queue, id: JobId, now: int)
    requires Distinct(q.queue) && (id in q.queue ==> id in q.jobs && id !in q.processing)
    ensures Sum(Weights(Cancel(q, id, now).q)) <= Sum(Weights(q))
  {
    var q' := Cancel(q, id, now).q;
    if q' != q {
      WithoutIsFilter(q.queue, id);
      CancelledWeights(q, q', id);
      if id in q.queue {
        SumSplit(Weights(q), id);
      }
    }
  }

  lemma CancelledWeights(q: Queue, q': Queue, id: JobId)
    requires id in q.jobs && (id in q.queue ==> id !in q.processing)
    requires q'.jobs.Keys == q.jobs.Keys && q'.processing == q.processing
    requires forall x :: x in q.jobs ==> Remaining(q'.jobs[x]) == Remaining(q.jobs[x])
    requires forall x :: x in q'.queue <==> x in q.queue && x != id
    ensures Weights(q') == if id in q.queue then Weights(q) - {id} else Weights(q)
  {
  }

  lemma {:induction false} CountBelowSum(ids: set<JobId>, weights: map<JobId, nat>)
    requires ids <= weights.Keys && forall id :: id in weights ==> weights[id] >= 1
    ensures |ids| <= Sum(weights)
    decreases |ids|
  {
    if ids != {} {
      var id :| id in ids;
      SumSplit(weights, id);
      CountBelowSum(ids - {id}, weights - {id});
    }
  }

  lemma {:induction false} RunSpendsWork(s: System, events: seq<Event>)
    requires Inv(s) && NoNewWork(events)
    ensures FinishedRuns(s, events) + Sum(Weights(Run(s, events).q)) <= Sum(Weights(s.q))
    decreases |events|
  {
    if events != [] {
      StepSpendsWork(s, events[0]);
      StepKeepsInv(s, events[0]);
      RunSpendsWork(Step(s, events[0]), events[1..]);
    }
  }

  /** Without new work the handler runs, finished and under way, number at most the attempts that the
      queued and processing jobs had left. */
  lemma WorkIsBounded(s: System, events: seq<Event>)
    requires Inv(s) && NoNewWork(events)
    ensures FinishedRuns(s, events) + |Run(s, events).q.processing| <= Sum(Weights(s.q))
  {
    RunKeepsInv(s, events);
    RunSpendsWork(s, events);
    var q := Run(s, events).q;
    CountBelowSum(q.processing, Weights(q));
  }

  // ------------------------------------------------------------------ scheduling

  predicate HandedOutDuring(s: System, events: seq<Event>, id: JobId)
    decreases |events|
  {
    events != [] && (HandedOut(s, events[0]) == Some(id) || HandedOutDuring(Step(s, events[0]), events[1..], id))
  }

  predicate Cancels(s: System, e: Event, id: JobId)
  {
    e.CancelEvent? && e.id == id && Cancel(s.q, id, e.now).error.None?
  }

  predicate CancelledDuring(s: System, events: seq<Event>, id: JobId)
    decreases |events|
  {
    events != [] && (Cancels(s, events[0], id) || CancelledDuring(Step(s, events[0]), events[1..], id))
  }

  /** id waits in the queue and may not start before t. */
  predicate Parked(s: System, id: JobId, t: int)
  {
    id in s.q.queue && id in s.q.jobs && s.q.jobs[id].nextRetry == Some(t)
  }

  /** id is known to the queue but in none of the three collections. */
  predicate Retired(s: System, id: JobId)
  {
    id in s.q.jobs && !Live(s.q, id) && id !in s.q.deadLettered
  }

  /** id keeps its entry, its place in or out of the queue, and stays out of the other collections. */
  predicate Untouched(q: Queue, q': Queue, id: JobId)
  {
    && id in q.jobs && id in q'.jobs && q'.jobs[id] == q.jobs[id]
    && (id in q'.queue <==> id in q.queue)
    && id !in q'.processing && id !in q'.deadLettered
  }

  /** A step leaves every job alone that it neither hands out nor cancels and that is not held. */
  lemma StepLeavesUntouched(s: System, e: Event, id: JobId)
    requires Inv(s) && id in s.q.jobs && id !in s.q.processing && id !in s.q.deadLettered
    requires HandedOut(s, e) != Some(id) && !Cancels(s, e, id)
    ensures Untouched(s.q, Step(s, e).q, id)
  {
    match e
    case DequeueEvent(w, now) =>
      if w !in s.holds && s.q.queue != [] {
        DistinctHead(s.q.queue);
        DequeueLeavesUntouched(s.q, now, id);
      }
    case MarkRunningEvent(w, now) => assert w in s.holds ==> HoldOk(s.q, s.holds[w]);
    case FinishEvent(w, _, _, _, _) =>
      assert w in s.holds ==> HoldOk(s.q, s.holds[w]);
      FinishLeavesUntouched(s, e, id);
    case CancelEvent(other, now) => WithoutIsFilter(s.q.queue, other);
    case _ => AppendLeavesUntouched(s, e, id);
  }

  lemma AppendLeavesUntouched(s: System, e: Event, id: JobId)
    requires e.EnqueueEvent? || e.RequeueEvent? || e.PurgeEvent? || e.CloseEvent?
    requires id in s.q.jobs && id !in s.q.processing && id !in s.q.deadLettered
    ensures Untouched(s.q, Step(s, e).q, id)
  {
  }

  lemma DequeueLeavesUntouched(q: Queue, now: int, id: JobId)
    requires id in q.jobs && id !in q.processing && id !in q.deadLettered && Dequeue(q, now).1 != Some(id)
    requires q.queue != [] && forall x :: x in q.queue <==> x == q.queue[0] || x in q.queue[1..]
    ensures Untouched(q, Dequeue(q, now).0, id)
  {
  }

  lemma FinishLeavesUntouched(s: System, e: Event, id: JobId)
    requires e.FinishEvent? && id in s.q.jobs && id !in s.q.processing && id !in s.q.deadLettered
    requires e.worker in s.holds ==> s.holds[e.worker].id in s.q.processing
    ensures Untouched(s.q, Step(s, e).q, id)
  {
  }

  lemma RetiredStep(s: System, e: Event, id: JobId)
    requires Inv(s) && Retired(s, id)
    ensures Retired(Step(s, e), id) && Step(s, e).q.jobs[id] == s.q.jobs[id]
    ensures HandedOut(s, e) != Some(id)
  {
    assert Placed(id, s.q.jobs[id], id in s.q.queue, id in s.q.processing, id in s.q.deadLettered);
    StepLeavesUntouched(s, e, id);
  }

  /** A job at rest (completed, failed or cancelled) is never handed out again and its entry never changes. */
  lemma {:induction false} RetiredIsFinal(s: System, events: seq<Event>, id: JobId)
    requires Inv(s) && Retired(s, id)
    ensures Retired(Run(s, events), id) && Run(s, events).q.jobs[id] == s.q.jobs[id]
    ensures !HandedOutDuring(s, events, id)
    decreases |events|
  {
    if events != [] {
      RetiredStep(s, events[0], id);
      StepKeepsInv(s, events[0]);
      RetiredIsFinal(Step(s, events[0]), events[1..], id);
    }
  }

  lemma ParkedStep(s: System, e: Event, id: JobId, t: int)
    requires Inv(s) && Parked(s, id, t) && HandedOut(s, e) != Some(id)
    ensures Parked(Step(s, e), id, t) || Retired(Step(s, e), id)
  {
    assert Placed(id, s.q.jobs[id], id in s.q.queue, id in s.q.processing, id in s.q.deadLettered);
    if Cancels(s, e, id) {
      WithoutIsFilter(s.q.queue, id);
    } else {
      StepLeavesUntouched(s, e, id);
    }
  }

  lemma {:induction false} ParkedUntilHandedOut(s: System, events: seq<Event>, id: JobId, t: int)
    requires Inv(s) && Parked(s, id, t) && !HandedOutDuring(s, events, id)
    ensures Inv(Run(s, events)) && (Parked(Run(s, events), id, t) || Retired(Run(s, events), id))
    decreases |events|
  {
    RunKeepsInv(s, events);
    if events != [] {
      var s' := Step(s, events[0]);
      StepKeepsInv(s, events[0]);
      ParkedStep(s, events[0], id, t);
      if Parked(s', id, t) {
        ParkedUntilHandedOut(s', events[1..], id, t);
      } else {
        RetiredIsFinal(s', events[1..], id);
      }
    }
  }

  /** A parked job is not handed out before its time, whatever happens meanwhile. */
  lemma ParkedNeverEarly(s: System, events: seq<Event>, id: JobId, t: int, last: Event)
    requires Inv(s) && Parked(s, id, t) && !HandedOutDuring(s, events, id)
    requires HandedOut(Run(s, events), last) == Some(id)
    ensures last.now >= t
  {
    ParkedUntilHandedOut(s, events, id, t);
  }

  /** A failed run that is retried does not start again before its failure time plus its backoff. */
  lemma RetryNeverEarly(s: System, failed: Event, events: seq<Event>, last: Event)
    requires Inv(s) && Finished(s, failed).Some? && failed.failure.Some? && failed.finishedAt <= failed.retryAt
    requires var entry := s.q.jobs[Finished(s, failed).value];
             ShouldRetry(entry.job.policy, entry.retryCount + 1)
    requires var id := Finished(s, failed).value; var s' := Step(s, failed);
             !HandedOutDuring(s', events, id) && HandedOut(Run(s', events), last) == Some(id)
    ensures last.now >= failed.finishedAt + failed.backoff
  {
    var id := Finished(s, failed).value;
    StepKeepsInv(s, failed);
    ParkedNeverEarly(Step(s, failed), events, id, failed.retryAt + failed.backoff, last);
  }

  /** A job enqueued with a delay does not start before the delay has passed. */
  lemma DelayNeverEarly(s: System, added: Event, events: seq<Event>, last: Event)
    requires Inv(s) && added.EnqueueEvent? && added.delay > 0
    requires Enqueue(s.q, added.job, added.delay, added.now).error.None?
    requires var id := added.job.value.id; var s' := Step(s, added);
             !HandedOutDuring(s', events, id) && HandedOut(Run(s', events), last) == Some(id)
    ensures last.now >= added.now + added.delay
  {
    StepKeepsInv(s, added);
    ParkedNeverEarly(Step(s, added), events, added.job.value.id, added.now + added.delay, last);
  }

  /** dequeueJob calls in a run; a busy worker makes none. */
  function DequeueCalls(s: System, events: seq<Event>): nat
    decreases |events|
  {
    if events == [] then 0
    else (if events[0].DequeueEvent? && events[0].worker !in s.holds then 1 else 0)
         + DequeueCalls(Step(s, events[0]), events[1..])
  }

  predicate ClockAtLeast(events: seq<Event>, t: int)
  {
    forall e :: e in events && e.DequeueEvent? ==> t <= e.now
  }

  /** id is at index at most i of the queue and may start at time t. */
  predicate DueAt(s: System, id: JobId, i: int, t: int)
  {
    && id in s.q.jobs && Due(s.q.jobs[id], t)
    && exists j :: 0 <= j <= i && j < |s.q.queue| && s.q.queue[j] == id
  }

  /** A dequeueJob call that does not hand out id moves it one place forward. */
  lemma DueDequeue(s: System, w: nat, now: int, id: JobId, j: nat, t: int)
    requires w !in s.holds && j < |s.q.queue| && s.q.queue[j] == id
    requires id in s.q.jobs && Due(s.q.jobs[id], t) && t <= now
    requires HandedOut(s, DequeueEvent(w, now)) != Some(id)
    ensures j > 0 && DueAt(Step(s, DequeueEvent(w, now)), id, j - 1, t)
  {
    assert j > 0;
    assert Step(s, DequeueEvent(w, now)).q.queue[j - 1] == id;
  }

  lemma DueCancel(s: System, other: JobId, now: int, id: JobId, j: nat, t: int)
    requires j < |s.q.queue| && s.q.queue[j] == id && id in s.q.jobs && Due(s.q.jobs[id], t)
    requires !Cancels(s, CancelEvent(other, now), id)
    ensures DueAt(Step(s, CancelEvent(other, now)), id, j, t)
  {
    var q' := Step(s, CancelEvent(other, now)).q;
    if q' != s.q {
      var k := IndexOf(s.q.queue, other);
      assert q'.queue[if k < j then j - 1 else j] == id;
    }
  }

  /** The other steps leave the queue as it is or append to it. */
  lemma DueElse(s: System, e: Event, id: JobId, j: nat, t: int)
    requires !e.CancelEvent? && (e.DequeueEvent? ==> e.worker in s.holds)
    requires j < |s.q.queue| && s.q.queue[j] == id && Untouched(s.q, Step(s, e).q, id) && Due(s.q.jobs[id], t)
    ensures DueAt(Step(s, e), id, j, t)
  {
    assert s.q.queue <= Step(s, e).q.queue;
    assert Step(s, e).q.queue[j] == id;
  }

  lemma DueStep(s: System, e: Event, id: JobId, i: int, t: int)
    requires Inv(s) && DueAt(s, id, i, t) && (e.DequeueEvent? ==> t <= e.now)
    requires HandedOut(s, e) != Some(id) && !Cancels(s, e, id)
    ensures DueAt(Step(s, e), id, if e.DequeueEvent? && e.worker !in s.holds then i - 1 else i, t)
  {
    var j :| 0 <= j <= i && j < |s.q.queue| && s.q.queue[j] == id;
    if e.DequeueEvent? && e.worker !in s.holds {
      DueDequeue(s, e.worker, e.now, id, j, t);
    } else if e.CancelEvent? {
      DueCancel(s, e.id, e.now, id, j, t);
    } else {
      assert Placed(id, s.q.jobs[id], id in s.q.queue, id in s.q.processing, id in s.q.deadLettered);
      StepLeavesUntouched(s, e, id);
      DueElse(s, e, id, j, t);
    }
  }

  /** A due job at index i is handed out at the latest by the (i+1)-th dequeueJob call, unless it is
      cancelled, although entries that are not due rotate to the tail. */
  lemma {:induction false} DueJobIsServed(s: System, events: seq<Event>, id: JobId, i: nat, t: int)
    requires Inv(s) && DueAt(s, id, i, t) && ClockAtLeast(events, t) && DequeueCalls(s, events) >= i + 1
    ensures HandedOutDuring(s, events, id) || CancelledDuring(s, events, id)
    decreases |events|
  {
    var e, rest := events[0], events[1..];
    assert e in events && forall x :: x in rest ==> x in events;
    if HandedOut(s, e) != Some(id) && !Cancels(s, e, id) {
      DueStep(s, e, id, i, t);
      StepKeepsInv(s, e);
      var i' := if e.DequeueEvent? && e.worker !in s.holds then i - 1 else i;
      assert DueAt(Step(s, e), id, i', t);
      DueJobIsServed(Step(s, e), rest, id, i', t);
    }
  }

  // ------------------------------------------------------------------ cancellation

  /** A worker is executing the handler of id. */
  predicate Runs(s: System, id: JobId)
  {
    exists w :: w in s.holds && s.holds[w] == Executing(id)
  }

  /** A successful Cancel keeps the job from ever running, and the job stays cancelled, exactly when it finds
      the job in the queue: otherwise the job is already dequeued and its worker still marks it running. A
      job cancelled in the queue is not even handed out again. */
  lemma CancelStopsExactlyQueuedJobs(s: System, id: JobId, now: int)
    requires Inv(s) && Cancel(s.q, id, now).error.None?
    ensures var s' := Step(s, CancelEvent(id, now));
            && (id in s.q.queue <==> forall events :: !Runs(Run(s', events), id))
            && (id in s.q.queue <==>
                forall events :: id in Run(s', events).q.jobs && Run(s', events).q.jobs[id].status == Cancelled)
            && (id in s.q.queue ==> forall events :: !HandedOutDuring(s', events, id))
  {
    var s' := Step(s, CancelEvent(id, now));
    StepKeepsInv(s, CancelEvent(id, now));
    assert Placed(id, s.q.jobs[id], id in s.q.queue, id in s.q.processing, id in s.q.deadLettered);
    if id in s.q.queue {
      WithoutIsFilter(s.q.queue, id);
      forall events
        ensures !HandedOutDuring(s', events, id) && !Runs(Run(s', events), id)
        ensures id in Run(s', events).q.jobs && Run(s', events).q.jobs[id].status == Cancelled
      {
        RetiredNeverRuns(s', events, id);
      }
    } else {
      var w :| w in s.holds && s.holds[w].id == id;
      CancelledInWindowRuns(s', w, now);
    }
  }

  lemma RetiredNeverRuns(s: System, events: seq<Event>, id: JobId)
    requires Inv(s) && Retired(s, id)
    ensures !HandedOutDuring(s, events, id) && !Runs(Run(s, events), id)
    ensures id in Run(s, events).q.jobs && Run(s, events).q.jobs[id] == s.q.jobs[id]
  {
    RetiredIsFinal(s, events, id);
    RunKeepsInv(s, events);
    var s' := Run(s, events);
    forall w | w in s'.holds ensures s'.holds[w].id != id {
      assert HoldOk(s'.q, s'.holds[w]);
    }
  }

  lemma CancelledInWindowRuns(s: System, w: nat, now: int)
    requires w in s.holds && HoldOk(s.q, s.holds[w]) && s.holds[w].Dequeued?
    ensures var s', id := Run(s, [MarkRunningEvent(w, now)]), s.holds[w].id;
            Runs(s', id) && id in s'.q.jobs && s'.q.jobs[id].status == Running
  {
    var events := [MarkRunningEvent(w, now)];
    assert events[1..] == [];
    assert Run(s, events) == Run(Step(s, events[0]), events[1..]) == Step(s, events[0]);
    assert Step(s, events[0]).holds[w] == Executing(s.holds[w].id);
  }

  /** Cancel between dequeue and mark-running: the caller is told that the job is cancelled, and it runs. */
  lemma CancelledAfterDequeueRuns(deadLetterEnabled: bool, job: Job, w: nat, now: int)
    requires job.id.text != ""
    ensures var s := Run(Start(deadLetterEnabled), [EnqueueEvent(Some(job), 0, now), DequeueEvent(w, now)]);
            && Inv(s) && Cancel(s.q, job.id, now).error.None? && job.id !in s.q.queue
            && Runs(Run(Step(s, CancelEvent(job.id, now)), [MarkRunningEvent(w, now)]), job.id)
  {
    var events := [EnqueueEvent(Some(job), 0, now), DequeueEvent(w, now)];
    RunKeepsInv(Start(deadLetterEnabled), events);
    var s1 := Step(Start(deadLetterEnabled), events[0]);
    var s2 := Step(s1, events[1]);
    assert events[1..][1..] == [];
    assert Run(s1, events[1..]) == s2;
    assert s1.q.queue == [job.id];
    assert s2.holds[w] == Dequeued(job.id);
    CancelledInWindowRuns(Step(s2, CancelEvent(job.id, now)), w, now);
  }
}
