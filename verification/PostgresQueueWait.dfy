/** jobs/job_queue_postgres.go: when a pending row can be claimed. A retry waits for its backoff and a delayed
    job for its delay, in every interleaving. */
module PostgresQueueWaits {
  import opened Common
  import opened RetryPolicies
  import opened JobTypes
  import opened PostgresQueue

  /** This event claims id. */
  predicate Claims(s: World, e: Event, id: JobId)
  {
    e.Claim? && e.id == id && e.worker !in s.workers && Picks(s.table, id, e.now, e.locked)
  }

  predicate ClaimedDuring(defaults: RetryPolicy, s: World, events: seq<Event>, id: JobId)
    decreases |events|
  {
    events != [] && (Claims(s, events[0], id) || ClaimedDuring(defaults, Step(defaults, s, events[0]), events[1..], id))
  }

  /** Nobody holds id; its row waits for time t, or can never be claimed again. */
  predicate WaitsFor(s: World, id: JobId, t: Option<int>)
  {
    && id in s.table && Unheld(s, id)
    && (s.table[id].status.Cancelled? || (s.table[id].status.Pending? && s.table[id].nextRetry == t))
  }

  lemma WaitsForStep(defaults: RetryPolicy, s: World, e: Event, id: JobId, t: Option<int>)
    requires WaitsFor(s, id, t) && !Claims(s, e, id)
    ensures WaitsFor(Step(defaults, s, e), id, t)
  {
    if IsWorkerEvent(e) && e.worker in s.workers {
      WorkerStepEffect(defaults, s, e);
      assert s.workers[e.worker].id != id;
    }
  }

  lemma {:induction false} WaitsForRun(defaults: RetryPolicy, s: World, events: seq<Event>, id: JobId, t: Option<int>)
    requires WaitsFor(s, id, t) && !ClaimedDuring(defaults, s, events, id)
    ensures WaitsFor(Run(defaults, s, events), id, t)
    decreases |events|
  {
    if events != [] {
      WaitsForStep(defaults, s, events[0], id, t);
      WaitsForRun(defaults, Step(defaults, s, events[0]), events[1..], id, t);
    }
  }

  /** Until time t no claim of id does anything; from then on the pending row can be claimed by any worker that
      is free, when the other due rows are locked or younger. */
  ghost predicate ClaimableFrom(defaults: RetryPolicy, s: World, id: JobId, t: int)
  {
    && id in s.table
    && (forall w, now, locked :: now < t ==> Step(defaults, s, Claim(w, id, now, locked)) == s)
    && (s.table[id].status.Pending? ==>
          forall w, now, locked :: t <= now && w !in s.workers && locked == s.table.Keys - {id} ==>
            w in Step(defaults, s, Claim(w, id, now, locked)).workers)
  }

  lemma WaitingIsClaimableFrom(defaults: RetryPolicy, s: World, id: JobId, t: int)
    requires WaitsFor(s, id, Some(t))
    ensures ClaimableFrom(defaults, s, id, t)
  {
    forall w, now, locked | t <= now && w !in s.workers && locked == s.table.Keys - {id} && s.table[id].status.Pending?
      ensures w in Step(defaults, s, Claim(w, id, now, locked)).workers
    {
      assert Picks(s.table, id, now, locked);
    }
  }

  // ------------------------------------------------------------------ retries

  /** The retries a job may have: its own number, or the queue's default when its own is zero. */
  function Allowed(defaults: RetryPolicy, policy: RetryPolicy): int
  {
    if policy.maxRetries == 0 then defaults.maxRetries else policy.maxRetries
  }

  /** After a failed handler run: the worker goes on to retry the job exactly when the retry count can be read
      and one more is allowed; otherwise it goes on to fail it with the handler's error. */
  lemma RetryDecision(defaults: RetryPolicy, s: World, w: nat, ok: bool, now: int, backoff: int)
    requires Inv(defaults, s) && w in s.workers && s.workers[w].HandlerFailed?
    ensures var id, failure := s.workers[w].id, s.workers[w].failure;
            var s' := Step(defaults, s, ReadRetryCount(w, ok, now, backoff));
            && id in s.table && w in s'.workers && s' == s.(workers := s.workers[w := s'.workers[w]])
            && var n := s.table[id].retryCount + 1;
               s'.workers[w] == if ok && n <= Allowed(defaults, s.table[id].job.policy)
                                then Retrying(id, failure, n, now + backoff) else Failing(id, failure)
  {
    assert PhaseOk(defaults, s.table, s.log, s.workers[w]);
  }

  /** An event of another party than worker w. */
  predicate NotBy(e: Event, w: nat)
  {
    IsWorkerEvent(e) || e.Claim? || e.Crash? ==> e.worker != w
  }

  lemma {:induction false} HoldsStill(defaults: RetryPolicy, s: World, w: nat, events: seq<Event>)
    requires w in s.workers && forall e :: e in events ==> NotBy(e, w)
    ensures w in Run(defaults, s, events).workers && Run(defaults, s, events).workers[w] == s.workers[w]
    decreases |events|
  {
    if events != [] {
      var e := events[0];
      assert e in events && forall x :: x in events[1..] ==> x in events;
      if IsWorkerEvent(e) && e.worker in s.workers {
        WorkerStepEffect(defaults, s, e);
      }
      HoldsStill(defaults, Step(defaults, s, e), w, events[1..]);
    }
  }

  /** The row that the write of a retry leaves. */
  lemma RetryWritten(defaults: RetryPolicy, s: World, w: nat)
    requires Inv(defaults, s) && w in s.workers && s.workers[w].Retrying?
    ensures var p, s' := s.workers[w], Step(defaults, s, WriteRetry(w, true));
            && p.id in s.table && p.id in s'.table
            && s'.table[p.id] == s.table[p.id].(status := Pending, error := Some(p.failure),
                                                retryCount := p.retryCount, nextRetry := Some(p.next))
            && WaitsFor(s', p.id, Some(p.next))
  {
    assert PhaseOk(defaults, s.table, s.log, s.workers[w]);
  }

  lemma WrittenRetryWaits(defaults: RetryPolicy, s: World, w: nat, after: seq<Event>)
    requires Inv(defaults, s) && w in s.workers && s.workers[w].Retrying?
    requires !ClaimedDuring(defaults, Step(defaults, s, WriteRetry(w, true)), after, s.workers[w].id)
    ensures ClaimableFrom(defaults, Run(defaults, Step(defaults, s, WriteRetry(w, true)), after), s.workers[w].id,
                          s.workers[w].next)
  {
    var p, s' := s.workers[w], Step(defaults, s, WriteRetry(w, true));
    RetryWritten(defaults, s, w);
    WaitsForRun(defaults, s', after, p.id, Some(p.next));
    WaitingIsClaimableFrom(defaults, Run(defaults, s', after), p.id, p.next);
  }

  /** A retry waits for its backoff. A worker decides on the retry at time now; other parties act; it writes the
      retry; anything happens but a claim of the job. Then the job can be claimed from now + backoff on, and not
      before. */
  lemma RetryWaits(defaults: RetryPolicy, s: World, w: nat, now: int, backoff: int, before: seq<Event>,
                   after: seq<Event>)
    requires Inv(defaults, s) && NewRows(s) && w in s.workers && s.workers[w].HandlerFailed?
    requires var id := s.workers[w].id;
             id in s.table && s.table[id].retryCount + 1 <= Allowed(defaults, s.table[id].job.policy)
    requires forall e :: e in before ==> NotBy(e, w)
    requires var s1 := Run(defaults, Step(defaults, s, ReadRetryCount(w, true, now, backoff)), before);
             !ClaimedDuring(defaults, Step(defaults, s1, WriteRetry(w, true)), after, s.workers[w].id)
    ensures var s1 := Run(defaults, Step(defaults, s, ReadRetryCount(w, true, now, backoff)), before);
            var s2 := Run(defaults, Step(defaults, s1, WriteRetry(w, true)), after);
            ClaimableFrom(defaults, s2, s.workers[w].id, now + backoff)
  {
    var read := ReadRetryCount(w, true, now, backoff);
    var s0 := Step(defaults, s, read);
    RetryDecision(defaults, s, w, true, now, backoff);
    StepKeepsInv(defaults, s, read);
    StepKeepsNewRows(defaults, s, read);
    HoldsStill(defaults, s0, w, before);
    RunKeepsInv(defaults, s0, before);
    WrittenRetryWaits(defaults, Run(defaults, s0, before), w, after);
  }

  // ------------------------------------------------------------------ delays

  predicate NotByCaller(e: Event, c: nat) { e.EnqueueCheck? || e.EnqueueInsert? ==> e.caller != c }

  lemma {:induction false} EnqueuerWaits(defaults: RetryPolicy, s: World, c: nat, events: seq<Event>)
    requires c in s.enqueuers && forall e :: e in events ==> NotByCaller(e, c)
    ensures c in Run(defaults, s, events).enqueuers && Run(defaults, s, events).enqueuers[c] == s.enqueuers[c]
    decreases |events|
  {
    if events != [] {
      assert events[0] in events && forall x :: x in events[1..] ==> x in events;
      EnqueuerWaits(defaults, Step(defaults, s, events[0]), c, events[1..]);
    }
  }

  /** A check for a job with an id that the table does not have prepares this row. */
  lemma CheckPrepares(defaults: RetryPolicy, s: World, c: nat, job: Job, delay: int, now: int)
    requires c !in s.enqueuers && job.id.text != "" && job.id !in s.table
    ensures var s' := Step(defaults, s, EnqueueCheck(c, Some(job), delay, now, true));
            && c in s'.enqueuers && s' == s.(enqueuers := s.enqueuers[c := s'.enqueuers[c]])
            && s'.enqueuers[c] == Entry(job, Pending, now, None, None, None, 0,
                                        if delay > 0 then Some(now + delay) else None)
  {
  }

  /** An INSERT adds the row exactly when it succeeds and its key is new. */
  lemma InsertAdds(defaults: RetryPolicy, s: World, c: nat, now: int, ok: bool)
    requires c in s.enqueuers
    ensures var row, s' := s.enqueuers[c], Step(defaults, s, EnqueueInsert(c, now, ok));
            && s'.table == (if ok && row.job.id !in s.table
                            then s.table[row.job.id := row.(enqueuedAt := now)] else s.table)
            && s'.workers == s.workers
  {
  }

  /** A job with a delay waits for it: checked at time now and inserted later, it can be claimed from now + delay
      on, and not before. */
  lemma DelayWaits(defaults: RetryPolicy, s: World, c: nat, job: Job, delay: int, now: int, before: seq<Event>,
                   insertedAt: int, after: seq<Event>)
    requires Inv(defaults, s) && NewRows(s) && c !in s.enqueuers && job.id.text != "" && job.id !in s.table && delay > 0
    requires forall e :: e in before ==> NotByCaller(e, c)
    requires var s1 := Run(defaults, Step(defaults, s, EnqueueCheck(c, Some(job), delay, now, true)), before);
             && job.id !in s1.table
             && !ClaimedDuring(defaults, Step(defaults, s1, EnqueueInsert(c, insertedAt, true)), after, job.id)
    ensures var s1 := Run(defaults, Step(defaults, s, EnqueueCheck(c, Some(job), delay, now, true)), before);
            var s2 := Run(defaults, Step(defaults, s1, EnqueueInsert(c, insertedAt, true)), after);
            ClaimableFrom(defaults, s2, job.id, now + delay)
  {
    var check := EnqueueCheck(c, Some(job), delay, now, true);
    var s0 := Step(defaults, s, check);
    CheckPrepares(defaults, s, c, job, delay, now);
    StepKeepsInv(defaults, s, check);
    StepKeepsNewRows(defaults, s, check);
    EnqueuerWaits(defaults, s0, c, before);
    RunKeepsInv(defaults, s0, before);
    var s1 := Run(defaults, s0, before);
    InsertAdds(defaults, s1, c, insertedAt, true);
    var s2 := Step(defaults, s1, EnqueueInsert(c, insertedAt, true));
    forall w | w in s1.workers ensures s1.workers[w].id != job.id {
      assert PhaseOk(defaults, s1.table, s1.log, s1.workers[w]);
    }
    WaitsForRun(defaults, s2, after, job.id, Some(now + delay));
    WaitingIsClaimableFrom(defaults, Run(defaults, s2, after), job.id, now + delay);
  }

  /** Without a delay the inserted row can be claimed at once. */
  lemma NoDelayIsClaimable(defaults: RetryPolicy, s: World, c: nat, job: Job, delay: int, now: int, insertedAt: int,
                           t: int)
    requires c !in s.enqueuers && job.id.text != "" && job.id !in s.table && delay <= 0
    ensures var s0 := Step(defaults, s, EnqueueCheck(c, Some(job), delay, now, true));
            Claimable(Step(defaults, s0, EnqueueInsert(c, insertedAt, true)).table, job.id, t)
  {
    CheckPrepares(defaults, s, c, job, delay, now);
    InsertAdds(defaults, Step(defaults, s, EnqueueCheck(c, Some(job), delay, now, true)), c, insertedAt, true);
  }

  /** A claim takes an oldest pending row whose time has come, among those that are not locked, and marks it. */
  lemma ClaimTakesTheOldest(defaults: RetryPolicy, s: World, w: nat, id: JobId, now: int, locked: set<JobId>)
    requires w !in s.workers && w in Step(defaults, s, Claim(w, id, now, locked)).workers
    ensures var s' := Step(defaults, s, Claim(w, id, now, locked));
            && id in s.table && s.table[id].status == Pending && id !in locked
            && (s.table[id].nextRetry.None? || s.table[id].nextRetry.value <= now)
            && s'.workers == s.workers[w := Claimed(id)]
            && s'.table == s.table[id := s.table[id].(status := Running, startedAt := Some(now))]
            && forall x :: x in s.table && x !in locked && s.table[x].status == Pending && x != id
                           && (s.table[x].nextRetry.None? || s.table[x].nextRetry.value <= now) ==>
                 s.table[id].enqueuedAt <= s.table[x].enqueuedAt
  {
  }

  /** Check and write of a Cancel with nothing between them. */
  lemma CancelAlone(defaults: RetryPolicy, s: World, c: nat, id: JobId, checkOk: bool, writeOk: bool, now: int)
    requires c !in s.cancellers
    ensures var s' := Step(defaults, Step(defaults, s, CancelCheck(c, id, checkOk)), CancelWrite(c, writeOk, now));
            && s'.workers == s.workers && s'.log == s.log && s'.cancellers == s.cancellers
            && s'.table == (if id.text != "" && checkOk && writeOk && id in s.table && s.table[id].status == Pending
                            then s.table[id := s.table[id].(status := Cancelled, finishedAt := Some(now))] else s.table)
  {
    assert s.cancellers[c := id] - {c} == s.cancellers;
  }
}
