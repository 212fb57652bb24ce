/** Workers and callers play a list of events on one MemoryJobQueue object. Each worker keeps a pointer to
    the entry it dequeued and uses it after other parties have been at the queue. */
module MemoryQueuePlays {
  import opened Common
  import opened RetryPolicies
  import opened JobTypes
  import opened MemoryQueueRuns
  import opened MemoryJobQueues
  import Spec = MemoryQueue

  // ------------------------------------------------------------------ the events that take place

  /** The event with the backoff that CalculateBackoff gives for this draw. */
  function Actual(s: System, e: Event, draw: real): Event
  {
    if Finished(s, e).Some? && Finished(s, e).value in s.q.jobs
    then
      var entry := s.q.jobs[Finished(s, e).value];
      e.(backoff := Backoff(entry.job.policy, entry.retryCount + 1, draw))
    else e
  }

  function Played(s: System, events: seq<Event>, draws: nat -> real): seq<Event>
    decreases |events|
  {
    if events == [] then []
    else
      var before := Played(s, events[..|events| - 1], draws);
      before + [Actual(Run(s, before), events[|events| - 1], draws(|events| - 1))]
  }

  lemma {:induction false} RunSnoc(s: System, events: seq<Event>, e: Event)
    ensures Run(s, events + [e]) == Step(Run(s, events), e)
    decreases |events|
  {
    if events == [] {
      assert ([] + [e])[1..] == [];
    } else {
      assert (events + [e])[1..] == events[1..] + [e];
      RunSnoc(Step(s, events[0]), events[1..], e);
    }
  }

  lemma PlayedSnoc(s: System, events: seq<Event>, draws: nat -> real, i: nat)
    requires i < |events|
    ensures var before := Run(s, Played(s, events[..i], draws));
            Run(s, Played(s, events[..i + 1], draws)) == Step(before, Actual(before, events[i], draws(i)))
  {
    assert events[..i + 1][..i] == events[..i];
    var before := Played(s, events[..i], draws);
    RunSnoc(s, before, Actual(Run(s, before), events[i], draws(i)));
  }

  // ------------------------------------------------------------------ the pointers

  /** What the workers hold: the entry objects, and who has begun to execute its handler. */
  datatype Pointers = Pointers(held: map<nat, QueueJobEntry>, executing: set<nat>)

  /** Every worker holds the very object that is in processing, for the job the model says it holds. */
  ghost predicate Holding(processing: map<JobId, QueueJobEntry>, p: Pointers, holds: map<nat, Hold>)
  {
    && p.held.Keys == holds.Keys
    && forall w :: w in holds ==>
         && p.held[w].job.id == holds[w].id
         && holds[w].id in processing && processing[holds[w].id] == p.held[w]
         && (w in p.executing <==> holds[w].Executing?)
  }

  /** The object and its workers are in the state s of the model. */
  ghost predicate Mirrors(q: MemoryJobQueue, p: Pointers, s: System)
    reads q, q.jobs.Values
  {
    q.Valid() && q.View() == s.q && Holding(q.processing, p, s.holds)
  }

  lemma HoldingAdd(processing: map<JobId, QueueJobEntry>, p: Pointers, holds: map<nat, Hold>, w: nat, e: QueueJobEntry)
    requires Holding(processing, p, holds) && w !in holds
    requires e.job.id in processing ==> processing[e.job.id] == e
    ensures Holding(processing[e.job.id := e], Pointers(p.held[w := e], p.executing - {w}),
                    holds[w := Dequeued(e.job.id)])
  {
  }

  lemma HoldingRemove(processing: map<JobId, QueueJobEntry>, p: Pointers, holds: map<nat, Hold>, w: nat)
    requires Holding(processing, p, holds) && w in holds && Exclusive(holds)
    ensures Holding(processing - {holds[w].id}, Pointers(p.held - {w}, p.executing - {w}), holds - {w})
  {
  }

  // ------------------------------------------------------------------ one event

  method PlayDequeue(q: MemoryJobQueue, p: Pointers, w: nat, now: int, ghost s: System) returns (p': Pointers)
    requires Mirrors(q, p, s) && w !in p.held
    modifies q
    ensures q.jobs == old(q.jobs) && Mirrors(q, p', Step(s, DequeueEvent(w, now)))
  {
    var entry := q.DequeueJob(now);
    p' := p;
    if entry != null {
      HoldingAdd(old(q.processing), p, s.holds, w, entry);
      p' := Pointers(p.held[w := entry], p.executing - {w});
    }
  }

  method PlayMarkRunning(q: MemoryJobQueue, p: Pointers, w: nat, now: int, ghost s: System) returns (p': Pointers)
    requires Mirrors(q, p, s) && w in p.held && w !in p.executing
    modifies p.held[w]
    ensures Mirrors(q, p', Step(s, MarkRunningEvent(w, now)))
  {
    q.MarkRunning(p.held[w], now);
    p' := p.(executing := p.executing + {w});
  }

  method FinishHeld(q: MemoryJobQueue, entry: QueueJobEntry, e: Event, draw: real, ghost v: Spec.Queue)
      returns (ghost backoff: int)
    requires q.Valid() && q.View() == v && q.InProcessing(entry) && e.FinishEvent?
    modifies q, entry
    ensures q.Valid() && q.jobs == old(q.jobs) && q.processing == old(q.processing) - {entry.job.id}
    ensures entry.job.id in v.jobs && v.jobs[entry.job.id] == old(entry.Value())
    ensures q.View() == Spec.Finish(v, entry.job.id, e.failure, e.finishedAt, e.retryAt, backoff)
    ensures backoff == Backoff(entry.job.policy, old(entry.retryCount) + 1, draw)
  {
    backoff := Backoff(entry.job.policy, entry.retryCount + 1, draw);
    q.FinishJob(entry, e.failure, e.finishedAt, e.retryAt, draw);
  }

  method PlayFinish(q: MemoryJobQueue, p: Pointers, e: Event, draw: real, ghost s: System) returns (p': Pointers)
    requires Mirrors(q, p, s) && Exclusive(s.holds) && e.FinishEvent? && e.worker in p.executing && e.worker in p.held
    modifies q, p.held[e.worker]
    ensures q.jobs == old(q.jobs) && Mirrors(q, p', Step(s, Actual(s, e, draw)))
  {
    var w, entry := e.worker, p.held[e.worker];
    HoldingRemove(q.processing, p, s.holds, w);
    p' := Pointers(p.held - {w}, p.executing - {w});
    ghost var backoff := FinishHeld(q, entry, e, draw, s.q);
    assert Actual(s, e, draw) == e.(backoff := backoff);
  }

  /** Events that add or remove a job. */
  method PlayAddOrDrop(q: MemoryJobQueue, p: Pointers, e: Event, ghost s: System)
    requires Mirrors(q, p, s) && Spec.Partition(s.q) && (e.EnqueueEvent? || e.PurgeEvent?)
    modifies q
    ensures Mirrors(q, p, Step(s, e)) && fresh(q.jobs.Values - old(q.jobs.Values))
  {
    if e.EnqueueEvent? {
      var _ := q.EnqueueWithDelay(e.job, e.delay, e.now);
    } else {
      var _ := q.PurgeDeadLetteredJob(e.id);
    }
  }

  method PlayCaller(q: MemoryJobQueue, p: Pointers, e: Event, ghost s: System)
    requires Mirrors(q, p, s) && (e.CancelEvent? || e.RequeueEvent? || e.CloseEvent?)
    modifies q, q.jobs.Values
    ensures q.jobs == old(q.jobs) && Mirrors(q, p, Step(s, e))
  {
    match e
    case CancelEvent(id, now) => var _ := q.Cancel(id, now);
    case RequeueEvent(id, now) => var _ := q.RequeueDeadLetteredJob(id, now);
    case CloseEvent => q.Close();
  }

  /** A worker's event happens when that worker is at the right point, as in the model. */
  method PlayWorker(q: MemoryJobQueue, p: Pointers, e: Event, draw: real, ghost s: System) returns (p': Pointers)
    requires Mirrors(q, p, s) && Exclusive(s.holds) && (e.DequeueEvent? || e.MarkRunningEvent? || e.FinishEvent?)
    modifies q, q.jobs.Values
    ensures q.jobs == old(q.jobs) && Mirrors(q, p', Step(s, Actual(s, e, draw)))
  {
    p' := p;
    match e
    case DequeueEvent(w, now) =>
      if w !in p.held {
        p' := PlayDequeue(q, p, w, now, s);
      }
    case MarkRunningEvent(w, now) =>
      if w in p.held && w !in p.executing {
        p' := PlayMarkRunning(q, p, w, now, s);
      }
    case FinishEvent(w, _, _, _, _) =>
      if w in p.held && w in p.executing {
        p' := PlayFinish(q, p, e, draw, s);
      }
  }

  method PlayEvent(q: MemoryJobQueue, p: Pointers, e: Event, draw: real, ghost s: System) returns (p': Pointers)
    requires Mirrors(q, p, s) && Inv(s)
    modifies q, q.jobs.Values
    ensures Mirrors(q, p', Step(s, Actual(s, e, draw))) && fresh(q.jobs.Values - old(q.jobs.Values))
  {
    p' := p;
    if e.DequeueEvent? || e.MarkRunningEvent? || e.FinishEvent? {
      p' := PlayWorker(q, p, e, draw, s);
    } else if e.EnqueueEvent? || e.PurgeEvent? {
      PlayAddOrDrop(q, p, e, s);
    } else {
      PlayCaller(q, p, e, s);
    }
  }

  // ------------------------------------------------------------------ every list of events

  /** Whatever the interleaving, the object is in the state that the model reaches; each worker's pointer is
      the object that processing and jobs hold for its job, so that what it writes through the pointer is seen
      there; and the partition holds. */
  method Play(deadLetterEnabled: bool, events: seq<Event>, draws: nat -> real)
      returns (q: MemoryJobQueue, held: map<nat, QueueJobEntry>)
    ensures q.Valid() && Spec.Partition(q.View())
    ensures var s := Run(Start(deadLetterEnabled), Played(Start(deadLetterEnabled), events, draws));
            && q.View() == s.q && held.Keys == s.holds.Keys
            && forall w :: w in held ==>
                 && held[w].job.id == s.holds[w].id
                 && held[w].job.id in q.processing && q.processing[held[w].job.id] == held[w]
                 && held[w].job.id in q.jobs && q.jobs[held[w].job.id] == held[w]
  {
    ghost var start := Start(deadLetterEnabled);
    q := new MemoryJobQueue(deadLetterEnabled);
    var p := Pointers(map[], {});
    for i := 0 to |events|
      invariant fresh(q) && fresh(q.jobs.Values)
      invariant Mirrors(q, p, Run(start, Played(start, events[..i], draws)))
    {
      ghost var s := Run(start, Played(start, events[..i], draws));
      PartitionAtEveryPoint(deadLetterEnabled, Played(start, events[..i], draws));
      p := PlayEvent(q, p, events[i], draws(i), s);
      PlayedSnoc(start, events, draws, i);
    }
    assert events[..|events|] == events;
    PartitionAtEveryPoint(deadLetterEnabled, Played(start, events, draws));
    held := p.held;
  }
}
