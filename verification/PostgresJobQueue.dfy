/** jobs/job_queue_postgres.go: the methods of PostgresJobQueue run without interference, as updates of
    the table. Whether each SQL statement succeeds is given by `Faults`. */
module PostgresJobQueues {
  import opened Common
  import opened RetryPolicies
  import opened JobTypes
  import opened PostgresQueue

  /** Which of processJob's statements (and the metadata decoding) succeed. */
  datatype Faults = Faults(readOk: bool, parseOk: bool, countOk: bool, retryOk: bool, failOk: bool, completeOk: bool)

  function AfterMarkFailed(t: Table, id: JobId, failure: string, ok: bool, now: int): Table
  {
    if ok then SetFailed(t, id, failure, now) else t
  }

  /** What handleJobFailure leaves in the table; `backoff` is what CalculateBackoff returned. */
  function AfterFailure(defaults: RetryPolicy, t: Table, id: JobId, failure: string, f: Faults, now: int,
                        backoff: int): Table
  {
    if !f.countOk || id !in t then AfterMarkFailed(t, id, failure, f.failOk, now)
    else
      var n := t[id].retryCount + 1;
      if n <= Effective(defaults, t[id].job.policy).maxRetries && f.retryOk
      then SetRetry(t, id, failure, n, now + backoff)
      else AfterMarkFailed(t, id, failure, f.failOk, now)
  }

  function AfterProcess(defaults: RetryPolicy, t: Table, id: JobId, result: Option<string>, f: Faults, now: int,
                        backoff: int): Table
  {
    if !f.readOk || id !in t then t
    else if !f.parseOk then AfterMarkFailed(t, id, UNPARSABLE, f.failOk, now)
    else if result.Some? then AfterFailure(defaults, t, id, result.value, f, now, backoff)
    else if f.completeOk then SetFinished(t, id, Completed, now)
    else t
  }

  /** The steps of one worker's processJob in order; those on other branches are not enabled. */
  function Script(w: nat, result: Option<string>, f: Faults, now: int, backoff: int): seq<Event>
  {
    [ReadJob(w, f.readOk, f.parseOk), HandlerReturns(w, result), ReadRetryCount(w, f.countOk, now, backoff),
     WriteRetry(w, f.retryOk), WriteFailed(w, f.failOk, now), WriteCompleted(w, f.completeOk, now)]
  }

  lemma RunCons(defaults: RetryPolicy, s: World, e: Event, events: seq<Event>)
    ensures Run(defaults, s, [e] + events) == Run(defaults, Step(defaults, s, e), events)
  {
    assert ([e] + events)[1..] == events;
  }

  lemma {:induction false} RunAppend(defaults: RetryPolicy, s: World, first: seq<Event>, second: seq<Event>)
    ensures Run(defaults, s, first + second) == Run(defaults, Run(defaults, s, first), second)
    decreases |first|
  {
    if first == [] {
      assert first + second == second;
    } else {
      assert (first + second)[1..] == first[1..] + second;
      RunAppend(defaults, Step(defaults, s, first[0]), first[1..], second);
    }
  }

  /** The last two writes: whatever the phase, the worker marks its job failed or completed. */
  lemma Closing(defaults: RetryPolicy, s: World, w: nat, f: Faults, now: int)
    requires w in s.workers && (s.workers[w].Failing? || s.workers[w].Succeeded?)
    ensures var events := [WriteFailed(w, f.failOk, now), WriteCompleted(w, f.completeOk, now)];
            Run(defaults, s, events).table ==
              (if s.workers[w].Failing?
               then AfterMarkFailed(s.table, s.workers[w].id, s.workers[w].failure, f.failOk, now)
               else if f.completeOk then SetFinished(s.table, s.workers[w].id, Completed, now)
               else s.table)
  {
    var e, e2 := WriteFailed(w, f.failOk, now), WriteCompleted(w, f.completeOk, now);
    assert [e, e2] == [e] + [e2];
    RunCons(defaults, s, e, [e2]);
    assert [e2] == [e2] + [];
    RunCons(defaults, Step(defaults, s, e), e2, []);
  }

  lemma {:induction false} IdleStays(defaults: RetryPolicy, s: World, w: nat, events: seq<Event>)
    requires w !in s.workers && forall e :: e in events ==> IsOwn(e, w)
    ensures Run(defaults, s, events) == s
    decreases |events|
  {
    if events != [] {
      assert IsOwn(events[0], w);
      IdleStays(defaults, s, w, events[1..]);
    }
  }

  predicate IsOwn(e: Event, w: nat)
  {
    IsWorkerEvent(e) && e.worker == w
  }

  /** The middle steps after a failed handler run. */
  lemma FailureScript(defaults: RetryPolicy, s: World, w: nat, f: Faults, now: int, backoff: int)
    requires w in s.workers && s.workers[w].HandlerFailed?
    ensures Run(defaults, s, [ReadRetryCount(w, f.countOk, now, backoff), WriteRetry(w, f.retryOk),
                              WriteFailed(w, f.failOk, now), WriteCompleted(w, f.completeOk, now)]).table
         == AfterFailure(defaults, s.table, s.workers[w].id, s.workers[w].failure, f, now, backoff)
  {
    var e, e2 := ReadRetryCount(w, f.countOk, now, backoff), WriteRetry(w, f.retryOk);
    var last := [WriteFailed(w, f.failOk, now), WriteCompleted(w, f.completeOk, now)];
    assert [e, e2] + last == [e] + ([e2] + last);
    RunCons(defaults, s, e, [e2] + last);
    var s1 := Step(defaults, s, e);
    RunCons(defaults, s1, e2, last);
    var s2 := Step(defaults, s1, e2);
    if w in s2.workers {
      Closing(defaults, s2, w, f, now);
    } else {
      IdleStays(defaults, s2, w, last);
    }
  }

  /** processJob is a run of the interleaving model in which only this worker moves. */
  lemma ProcessIsARun(defaults: RetryPolicy, s: World, w: nat, result: Option<string>, f: Faults, now: int,
                      backoff: int)
    requires w in s.workers && s.workers[w].Claimed?
    ensures Run(defaults, s, Script(w, result, f, now, backoff)).table
         == AfterProcess(defaults, s.table, s.workers[w].id, result, f, now, backoff)
  {
    var id := s.workers[w].id;
    var e, e2 := ReadJob(w, f.readOk, f.parseOk), HandlerReturns(w, result);
    var mid := [ReadRetryCount(w, f.countOk, now, backoff), WriteRetry(w, f.retryOk)];
    var last := [WriteFailed(w, f.failOk, now), WriteCompleted(w, f.completeOk, now)];
    var rest := mid + last;
    assert rest == [ReadRetryCount(w, f.countOk, now, backoff), WriteRetry(w, f.retryOk),
                    WriteFailed(w, f.failOk, now), WriteCompleted(w, f.completeOk, now)];
    assert Script(w, result, f, now, backoff) == [e] + ([e2] + rest);
    RunCons(defaults, s, e, [e2] + rest);
    var s1 := Step(defaults, s, e);
    RunCons(defaults, s1, e2, rest);
    var s2 := Step(defaults, s1, e2);
    if w !in s2.workers {
      IdleStays(defaults, s2, w, rest);
    } else if s2.workers[w].HandlerFailed? {
      FailureScript(defaults, s2, w, f, now, backoff);
    } else {
      RunAppend(defaults, s2, mid, last);
      SkipsRetry(defaults, s2, w, f, now, backoff);
      Closing(defaults, s2, w, f, now);
    }
  }

  lemma SkipsRetry(defaults: RetryPolicy, s: World, w: nat, f: Faults, now: int, backoff: int)
    requires w in s.workers && !s.workers[w].HandlerFailed? && !s.workers[w].Retrying?
    ensures Run(defaults, s, [ReadRetryCount(w, f.countOk, now, backoff), WriteRetry(w, f.retryOk)]) == s
  {
    var e, e2 := ReadRetryCount(w, f.countOk, now, backoff), WriteRetry(w, f.retryOk);
    assert [e, e2] == [e] + [e2] && [e2] == [e2] + [];
    RunCons(defaults, s, e, [e2]);
    RunCons(defaults, s, e2, []);
  }

  class PostgresJobQueue {
    var table: Table
    var closed: bool
    const defaults: RetryPolicy

    constructor (defaults: RetryPolicy)
      ensures table == map[] && !closed && this.defaults == defaults
    {
      table, closed := map[], false;
      this.defaults := defaults;
    }

    /** `checkOk` and `insertOk` say whether the SELECT and the INSERT succeed. */
    method EnqueueWithDelay(job: Option<Job>, delay: int, now: int, insertedAt: int, checkOk: bool, insertOk: bool)
        returns (error: Option<JobError>)
      modifies this
      ensures closed == old(closed)
      ensures error.None? <==>
                      job.Some? && job.value.id.text != "" && job.value.id !in old(table)
                      && !closed && checkOk && insertOk
      ensures table == if error.None?
                       then old(table)[job.value.id := NewRow(job.value, delay, now).(enqueuedAt := insertedAt)]
                       else old(table)
      ensures job.Some? && job.value.id.text != "" && !closed && checkOk && job.value.id in old(table) ==>
                error == Some(JobAlreadyExists)
    {
      if job.None? || job.value.id.text == "" {
        return Some(InvalidJobID);
      }
      if closed {
        return Some(QueueClosed);
      }
      if !checkOk {
        return Some(StatementFailed);
      }
      if job.value.id in table {
        return Some(JobAlreadyExists);
      }
      if !insertOk {
        return Some(StatementFailed);
      }
      table := table[job.value.id := NewRow(job.value, delay, now).(enqueuedAt := insertedAt)];
      error := None;
    }

    /** The claiming UPDATE with its ORDER BY and LIMIT 1, as a scan of the rows that are not locked. */
    method DequeueJob(now: int, locked: set<JobId>) returns (id: Option<JobId>)
      modifies this
      ensures closed == old(closed)
      ensures id.Some? ==> Picks(old(table), id.value, now, locked) && table == SetRunning(old(table), id.value, now)
      ensures id.None? ==> table == old(table) && forall x :: x in table && x !in locked ==> !Claimable(table, x, now)
    {
      id := None;
      var rest := table.Keys - locked;
      while rest != {}
        invariant rest <= table.Keys - locked && table == old(table) && closed == old(closed)
        invariant id.Some? ==> Claimable(table, id.value, now) && id.value !in locked
        invariant forall x :: x in table && x !in locked && x !in rest && Claimable(table, x, now) ==>
                    id.Some? && table[id.value].enqueuedAt <= table[x].enqueuedAt
        decreases rest
      {
        var x :| x in rest;
        if Claimable(table, x, now) && (id.None? || table[x].enqueuedAt < table[id.value].enqueuedAt) {
          id := Some(x);
        }
        rest := rest - {x};
      }
      if id.Some? {
        table := SetRunning(table, id.value, now);
      }
    }

    /** `result` is what the handler returns, `draw` the random number CalculateBackoff may use. */
    method ProcessJob(id: JobId, result: Option<string>, f: Faults, now: int, draw: real)
      modifies this
      ensures closed == old(closed)
      ensures table == AfterProcess(defaults, old(table), id, result, f, now, BackoffOf(defaults, old(table), id, draw))
      ensures !f.readOk || id !in old(table) ==> table == old(table)
      ensures f.readOk && id in old(table) && !f.parseOk && f.failOk ==>
                table == old(table)[id := old(table)[id].(status := Failed, error := Some(UNPARSABLE),
                                                          finishedAt := Some(now))]
      ensures f.readOk && id in old(table) && f.parseOk && result.None? && f.completeOk ==>
                table == old(table)[id := old(table)[id].(status := Completed, finishedAt := Some(now))]
      ensures table.Keys == old(table).Keys && forall x :: x in table && x != id ==> table[x] == old(table)[x]
    {
      if !f.readOk || id !in table {
        return;
      }
      if !f.parseOk {
        MarkJobFailed(id, UNPARSABLE, f.failOk, now);
        return;
      }
      if result.Some? {
        HandleJobFailure(id, result.value, f, now, draw);
      } else {
        MarkJobCompleted(id, f.completeOk, now);
      }
    }

    method HandleJobFailure(id: JobId, failure: string, f: Faults, now: int, draw: real)
      modifies this
      ensures closed == old(closed)
      ensures table == AfterFailure(defaults, old(table), id, failure, f, now,
                                    BackoffOf(defaults, old(table), id, draw))
      ensures f.countOk && f.retryOk && id in old(table) ==>
                var row := old(table)[id];
                var policy := if row.job.policy.maxRetries == 0 then defaults else row.job.policy;
                var n := row.retryCount + 1;
                n <= policy.maxRetries ==>
                  table == old(table)[id := row.(status := Pending, error := Some(failure), retryCount := n,
                                                 nextRetry := Some(now + Backoff(policy, n, draw)))]
      ensures f.failOk && id in old(table) ==>
                var row := old(table)[id];
                var policy := if row.job.policy.maxRetries == 0 then defaults else row.job.policy;
                !(f.countOk && f.retryOk && row.retryCount + 1 <= policy.maxRetries) ==>
                  table == old(table)[id := row.(status := Failed, error := Some(failure), finishedAt := Some(now))]
      ensures table.Keys == old(table).Keys && forall x :: x in table && x != id ==> table[x] == old(table)[x]
    {
      if !f.countOk || id !in table {
        MarkJobFailed(id, failure, f.failOk, now);
        return;
      }
      var retryCount := table[id].retryCount + 1;
      var policy := table[id].job.policy;
      if policy.maxRetries == 0 {
        policy := defaults;
      }
      if retryCount <= policy.maxRetries {
        var backoff := CalculateBackoff(policy, retryCount, draw);
        if f.retryOk {
          table := SetRetry(table, id, failure, retryCount, now + backoff);
        } else {
          MarkJobFailed(id, failure, f.failOk, now);
        }
      } else {
        MarkJobFailed(id, failure, f.failOk, now);
      }
    }

    method MarkJobCompleted(id: JobId, ok: bool, now: int)
      modifies this
      ensures closed == old(closed) && table.Keys == old(table).Keys
      ensures forall x :: x in table && !(ok && x == id) ==> table[x] == old(table)[x]
      ensures ok && id in table ==> table[id] == old(table)[id].(status := Completed, finishedAt := Some(now))
    {
      if ok {
        table := SetFinished(table, id, Completed, now);
      }
    }

    method MarkJobFailed(id: JobId, failure: string, ok: bool, now: int)
      modifies this
      ensures closed == old(closed) && table.Keys == old(table).Keys
      ensures forall x :: x in table && !(ok && x == id) ==> table[x] == old(table)[x]
      ensures ok && id in table ==>
                table[id] == old(table)[id].(status := Failed, error := Some(failure), finishedAt := Some(now))
    {
      if ok {
        table := SetFailed(table, id, failure, now);
      }
    }

    /** The check and the write are two statements; here nothing comes between them. */
    method Cancel(id: JobId, checkOk: bool, writeOk: bool, now: int) returns (error: Option<JobError>)
      modifies this
      ensures closed == old(closed)
      ensures error.None? <==> id.text != "" && checkOk && writeOk && id in old(table) && old(table)[id].status.Pending?
      ensures table == if error.None? then SetFinished(old(table), id, Cancelled, now) else old(table)
      ensures id.text != "" && checkOk && id !in old(table) ==> error == Some(JobNotFound)
    {
      if id.text == "" {
        return Some(InvalidJobID);
      }
      if !checkOk {
        return Some(StatementFailed);
      }
      if id !in table {
        return Some(JobNotFound);
      }
      if table[id].status != Pending {
        return Some(NotPending);
      }
      if !writeOk {
        return Some(StatementFailed);
      }
      table := SetFinished(table, id, Cancelled, now);
      error := None;
    }

    method Close()
      modifies this
      ensures closed && table == old(table)
    {
      closed := true;
    }
  }

  /** The backoff CalculateBackoff gives for the job's next retry. */
  function BackoffOf(defaults: RetryPolicy, t: Table, id: JobId, draw: real): int
  {
    if id in t then Backoff(Effective(defaults, t[id].job.policy), t[id].retryCount + 1, draw) else 0
  }
}
