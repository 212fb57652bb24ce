/** jobs/job_queue.go: where each operation leaves a job, field by field, and what the others keep. */
module MemoryQueueEffects {
  import opened Common
  import opened RetryPolicies
  import opened JobTypes
  import opened MemoryQueue
  import opened MemoryQueueRuns

  /** Every job but id keeps its entry. */
  predicate OthersKept(q: Queue, q': Queue, id: JobId)
  {
    && (forall x :: x in q.jobs && x != id ==> x in q'.jobs && q'.jobs[x] == q.jobs[x])
    && (forall x :: x in q'.jobs && x != id ==> x in q.jobs)
  }

  /** The job's own policy gives it another retry. */
  predicate RetryLeft(entry: Entry)
  {
    !entry.job.policy.kind.NoRetry? && entry.retryCount + 1 <= entry.job.policy.maxRetries
  }

  // ------------------------------------------------------------------ the end of a handler run

  /** A successful run ends completed and in none of the three collections, whether or not dead-lettering is
      on. */
  lemma SuccessCompletes(s: System, e: Event, id: JobId)
    requires Inv(s) && Finished(s, e) == Some(id) && e.failure.None?
    ensures var q, q' := s.q, Step(s, e).q;
            && id in q.jobs && id in q'.jobs
            && q'.jobs[id] == q.jobs[id].(status := Completed, finishedAt := Some(e.finishedAt))
            && id !in q'.queue && id !in q'.processing && id !in q'.deadLettered
            && q'.queue == q.queue && q'.processing == q.processing - {id} && q'.deadLettered == q.deadLettered
            && OthersKept(q, q', id)
  {
    assert HoldOk(s.q, s.holds[e.worker]);
    assert Placed(id, s.q.jobs[id], id in s.q.queue, id in s.q.processing, id in s.q.deadLettered);
  }

  /** A failed run with a retry left ends pending at the tail, and is due again exactly from its backoff on. */
  lemma RetryGoesToTheTail(s: System, e: Event, id: JobId)
    requires Inv(s) && Finished(s, e) == Some(id) && e.failure.Some? && id in s.q.jobs && RetryLeft(s.q.jobs[id])
    ensures var q, q', entry := s.q, Step(s, e).q, s.q.jobs[id];
            && id in q'.jobs
            && q'.jobs[id] == entry.(status := Pending, error := e.failure, finishedAt := Some(e.finishedAt),
                                     retryCount := entry.retryCount + 1, nextRetry := Some(e.retryAt + e.backoff))
            && q'.queue == q.queue + [id] && q'.processing == q.processing - {id} && q'.deadLettered == q.deadLettered
            && OthersKept(q, q', id)
    ensures forall now :: HandedOutAt(Step(s, e).q.jobs, id, now) <==> e.retryAt + e.backoff <= now
  {
  }

  /** At the head of the queue, the entry is handed out at this time. */
  predicate HandedOutAt(jobs: map<JobId, Entry>, id: JobId, now: int)
  {
    Dequeue(Queue(jobs, [id], {}, {}, false, false), now).1 == Some(id)
  }

  /** A failed run without a retry ends dead-lettered exactly when dead-lettering is on, and failed if not. */
  lemma LastFailureGivesUp(s: System, e: Event, id: JobId)
    requires Inv(s) && Finished(s, e) == Some(id) && e.failure.Some? && id in s.q.jobs && !RetryLeft(s.q.jobs[id])
    ensures var q, q', entry := s.q, Step(s, e).q, s.q.jobs[id];
            var status := if q.deadLetterEnabled then DeadLettered else Failed;
            && id in q'.jobs
            && q'.jobs[id] == entry.(status := status, error := e.failure, finishedAt := Some(e.finishedAt))
            && (id in q'.deadLettered <==> q.deadLetterEnabled) && id !in q'.queue && id !in q'.processing
            && q'.queue == q.queue && q'.processing == q.processing - {id} && q'.deadLettered - {id} == q.deadLettered
            && OthersKept(q, q', id)
  {
    assert HoldOk(s.q, s.holds[e.worker]);
    assert Placed(id, s.q.jobs[id], id in s.q.queue, id in s.q.processing, id in s.q.deadLettered);
  }

  // ------------------------------------------------------------------ the other operations

  /** Dequeue looks at the head only: it hands it out exactly when its time has come, and otherwise moves it
      behind all the others. */
  lemma DequeueServesTheHead(q: Queue, now: int)
    requires q.queue != [] && q.queue[0] in q.jobs
    ensures var (q', served), head := Dequeue(q, now), q.queue[0];
            var next := q.jobs[head].nextRetry;
            && (served.Some? <==> next.None? || next.value <= now)
            && (served.Some? ==>
                  served == Some(head) && q' == q.(queue := q.queue[1..], processing := q.processing + {head}))
            && (served.None? ==> q' == q.(queue := q.queue[1..] + [head]))
  {
  }

  /** A job is accepted exactly when it has an id that is new and the queue is open; it is due at once, or
      exactly from its delay on. */
  lemma EnqueueAccepts(q: Queue, job: Option<Job>, delay: int, now: int)
    ensures var r := Enqueue(q, job, delay, now);
            && (r.error.None? <==> job.Some? && job.value.id.text != "" && !q.closed && job.value.id !in q.jobs)
            && (r.error.Some? ==> r.q == q)
            && (r.error.None? ==>
                  var id := job.value.id;
                  && id in r.q.jobs && r.q.jobs[id].job == job.value && r.q.jobs[id].status == Pending
                  && r.q.jobs[id].enqueuedAt == now && r.q.jobs[id].retryCount == 0
                  && r.q.queue == q.queue + [id] && OthersKept(q, r.q, id)
                  && r.q.processing == q.processing && r.q.deadLettered == q.deadLettered
                  && forall t :: HandedOutAt(r.q.jobs, id, t) <==> delay <= 0 || now + delay <= t)
  {
  }

  /** A refused job is refused for the first reason that holds. */
  lemma EnqueueRefuses(q: Queue, job: Option<Job>, delay: int, now: int)
    ensures var error := Enqueue(q, job, delay, now).error;
            && (error == Some(InvalidJobID) <==> job.None? || job.value.id.text == "")
            && (error == Some(QueueClosed) <==> job.Some? && job.value.id.text != "" && q.closed)
            && (error == Some(JobAlreadyExists) <==>
                  job.Some? && job.value.id.text != "" && !q.closed && job.value.id in q.jobs)
  {
  }

  /** Cancel succeeds exactly on a known pending job, and takes it out of the queue and no other. */
  lemma CancelTakesOut(q: Queue, id: JobId, now: int)
    requires Distinct(q.queue)
    ensures var r := Cancel(q, id, now);
            && (r.error.None? <==> id.text != "" && id in q.jobs && q.jobs[id].status == Pending)
            && (r.error.Some? ==> r.q == q)
            && (r.error.None? ==>
                  && id in r.q.jobs && r.q.jobs[id] == q.jobs[id].(status := Cancelled, finishedAt := Some(now))
                  && (forall x :: x in r.q.queue <==> x in q.queue && x != id) && OthersKept(q, r.q, id)
                  && r.q.processing == q.processing && r.q.deadLettered == q.deadLettered)
  {
    WithoutIsFilter(q.queue, id);
  }

  /** A requeued job starts over: at the tail, due at once, with all its attempts and no trace of the old
      ones. */
  lemma RequeueStartsOver(q: Queue, id: JobId, now: int)
    requires Partition(q)
    ensures var r := Requeue(q, id, now);
            && (r.error.None? <==> id in q.deadLettered)
            && (r.error.Some? ==> r.q == q)
            && (r.error.None? ==>
                  && id in r.q.jobs && r.q.jobs[id].job == q.jobs[id].job && r.q.jobs[id].status == Pending
                  && Remaining(r.q.jobs[id]) == RetryLimit(q.jobs[id].job.policy) + 1
                  && r.q.jobs[id].enqueuedAt == now && r.q.jobs[id].startedAt == r.q.jobs[id].finishedAt == None
                  && r.q.jobs[id].error == None && (forall t :: HandedOutAt(r.q.jobs, id, t))
                  && r.q.queue == q.queue + [id] && r.q.deadLettered == q.deadLettered - {id}
                  && r.q.processing == q.processing && OthersKept(q, r.q, id))
  {
    if id in q.deadLettered {
      assert Placed(id, q.jobs[id], id in q.queue, id in q.processing, id in q.deadLettered);
    }
  }

  /** A closed queue takes no more jobs, whatever else goes on. */
  lemma {:induction false} ClosedTakesNoJobs(s: System, events: seq<Event>)
    requires s.q.closed
    ensures Run(s, events).q.closed && Run(s, events).q.jobs.Keys <= s.q.jobs.Keys
    decreases |events|
  {
    if events != [] {
      ClosedStep(s, events[0]);
      ClosedTakesNoJobs(Step(s, events[0]), events[1..]);
    }
  }

  lemma ClosedStep(s: System, e: Event)
    requires s.q.closed
    ensures Step(s, e).q.closed && Step(s, e).q.jobs.Keys <= s.q.jobs.Keys
  {
  }

  /** Close is what closes the queue, and nothing else does. */
  lemma OnlyCloseCloses(s: System, e: Event)
    ensures Step(s, e).q.closed <==> s.q.closed || e.CloseEvent?
  {
  }

  /** Mark-running changes the status and the start time of that job only. */
  lemma MarkRunningStamps(q: Queue, id: JobId, now: int)
    requires id in q.jobs
    ensures var q' := MarkRunning(q, id, now);
            && q'.jobs.Keys == q.jobs.Keys && OthersKept(q, q', id) && q' == q.(jobs := q'.jobs)
            && q'.jobs[id] == q.jobs[id].(status := Running, startedAt := Some(now))
  {
  }

  /** Purge removes exactly a dead-lettered job, from both collections. */
  lemma PurgeRemoves(q: Queue, id: JobId)
    ensures var r := Purge(q, id);
            && (r.error.None? <==> id in q.deadLettered) && (r.error.Some? ==> r.q == q)
            && (r.error.None? ==>
                  && id !in r.q.jobs && id !in r.q.deadLettered && OthersKept(q, r.q, id)
                  && (forall x :: x in r.q.deadLettered <==> x in q.deadLettered && x != id)
                  && r.q.queue == q.queue && r.q.processing == q.processing)
  {
  }
}
