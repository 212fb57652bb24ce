/** jobs/job_queue.go: what each critical section of MemoryJobQueue does to the
    queue, on values. Entries are named by their job id. */
module MemoryQueue {
  import opened Common
  import opened RetryPolicies
  import opened JobTypes

  datatype Queue = Queue(
    jobs: map<JobId, Entry>,
    queue: seq<JobId>,
    processing: set<JobId>,
    deadLettered: set<JobId>,
    closed: bool,
    deadLetterEnabled: bool)

  datatype Reply = Reply(q: Queue, error: Option<JobError>)

  function Empty(deadLetterEnabled: bool): Queue
  {
    Queue(map[], [], {}, {}, false, deadLetterEnabled)
  }

  function Enqueue(q: Queue, job: Option<Job>, delay: int, now: int): Reply
  {
    if job.None? || job.value.id.text == "" then Reply(q, Some(InvalidJobID))
    else if q.closed then Reply(q, Some(QueueClosed))
    else if job.value.id in q.jobs then Reply(q, Some(JobAlreadyExists))
    else
      var id := job.value.id;
      var next := if delay > 0 then Some(now + delay) else None;
      var entry := Entry(job.value, Pending, now, None, None, None, 0, next);
      Reply(q.(jobs := q.jobs[id := entry], queue := q.queue + [id]), None)
  }

  /** The head is handed out when it is due and goes to the tail otherwise. */
  function Dequeue(q: Queue, now: int): (Queue, Option<JobId>)
  {
    if q.queue == [] then (q, None)
    else
      var id, rest := q.queue[0], q.queue[1..];
      if id in q.jobs && !Due(q.jobs[id], now) then (q.(queue := rest + [id]), None)
      else (q.(queue := rest, processing := q.processing + {id}), Some(id))
  }

  function MarkRunning(q: Queue, id: JobId, now: int): Queue
    requires id in q.jobs
  {
    q.(jobs := q.jobs[id := q.jobs[id].(status := Running, startedAt := Some(now))])
  }

  function EndRun(q: Queue, id: JobId, entry: Entry): Queue
  {
    q.(jobs := q.jobs[id := entry], processing := q.processing - {id})
  }

  function PutBack(q: Queue, id: JobId, failure: Option<string>, finishedAt: int, at: int): Queue
    requires id in q.jobs
  {
    var entry := q.jobs[id];
    var retried := entry.(finishedAt := Some(finishedAt), error := failure, status := Pending,
                          retryCount := entry.retryCount + 1, nextRetry := Some(at));
    EndRun(q, id, retried).(queue := q.queue + [id])
  }

  function GiveUp(q: Queue, id: JobId, failure: Option<string>, finishedAt: int): Queue
    requires id in q.jobs
  {
    var failed := q.jobs[id].(finishedAt := Some(finishedAt), error := failure,
                              status := if q.deadLetterEnabled then DeadLettered else Failed);
    EndRun(q, id, failed).(deadLettered := if q.deadLetterEnabled then q.deadLettered + {id} else q.deadLettered)
  }

  /** The locked section after the handler returns. `failure` is the handler's error, `finishedAt` and
      `retryAt` are the two clock readings, `backoff` is what CalculateBackoff returned. */
  function Finish(q: Queue, id: JobId, failure: Option<string>, finishedAt: int, retryAt: int, backoff: int): Queue
    requires id in q.jobs
  {
    var entry := q.jobs[id];
    if failure.None? then EndRun(q, id, entry.(finishedAt := Some(finishedAt), status := Completed))
    else if ShouldRetry(entry.job.policy, entry.retryCount + 1) then
      PutBack(q, id, failure, finishedAt, retryAt + backoff)
    else GiveUp(q, id, failure, finishedAt)
  }

  /** The first index of id in s, or |s|. */
  function IndexOf(s: seq<JobId>, id: JobId): (i: nat)
    ensures i <= |s| && (i < |s| ==> s[i] == id)
    ensures forall j :: 0 <= j < i ==> s[j] != id
  {
    if s == [] || s[0] == id then 0 else 1 + IndexOf(s[1..], id)
  }

  /** s without its first occurrence of id. */
  function Without(s: seq<JobId>, id: JobId): seq<JobId>
  {
    var i := IndexOf(s, id);
    if i == |s| then s else s[..i] + s[i + 1..]
  }

  function Cancel(q: Queue, id: JobId, now: int): Reply
  {
    if id.text == "" then Reply(q, Some(InvalidJobID))
    else if id !in q.jobs then Reply(q, Some(JobNotFound))
    else if !q.jobs[id].status.Pending? then Reply(q, Some(NotPending))
    else
      var entry := q.jobs[id].(status := Cancelled, finishedAt := Some(now));
      Reply(q.(jobs := q.jobs[id := entry], queue := Without(q.queue, id)), None)
  }

  function Requeue(q: Queue, id: JobId, now: int): Reply
  {
    if id !in q.deadLettered || id !in q.jobs then Reply(q, Some(JobNotFound))
    else
      var entry := Entry(q.jobs[id].job, Pending, now, None, None, None, 0, None);
      Reply(q.(jobs := q.jobs[id := entry], queue := q.queue + [id], deadLettered := q.deadLettered - {id}), None)
  }

  function Purge(q: Queue, id: JobId): Reply
  {
    if id !in q.deadLettered then Reply(q, Some(JobNotFound))
    else Reply(q.(jobs := q.jobs - {id}, deadLettered := q.deadLettered - {id}), None)
  }

  function Close(q: Queue): Queue { q.(closed := true) }

  predicate Distinct(s: seq<JobId>)
  {
    forall i, j :: 0 <= i < j < |s| ==> s[i] != s[j]
  }

  /** The retry count a job may reach under its policy. */
  function RetryLimit(policy: RetryPolicy): nat
  {
    if policy.kind.NoRetry? || policy.maxRetries < 0 then 0 else policy.maxRetries
  }

  predicate EntryOk(id: JobId, entry: Entry)
  {
    entry.job.id == id && 0 <= entry.retryCount <= RetryLimit(entry.job.policy)
  }

  /** An entry is in at most one collection and its status says which: a queued job is pending, a
      dead-lettered one has that status, and one that is in no collection is completed, failed or
      cancelled. A job in processing that was cancelled in the window before "mark running" is still
      in processing. */
  predicate Placed(id: JobId, entry: Entry, queued: bool, processing: bool, deadLettered: bool)
  {
    && EntryOk(id, entry)
    && !(queued && processing) && !(queued && deadLettered) && !(processing && deadLettered)
    && (queued ==> entry.status.Pending?)
    && (processing ==> entry.status.Pending? || entry.status.Running? || entry.status.Cancelled?)
    && (deadLettered ==> entry.status.DeadLettered?)
    && (!queued && !processing && !deadLettered ==>
          entry.status.Completed? || entry.status.Failed? || entry.status.Cancelled?)
  }

  predicate Located(q: Queue)
  {
    && (forall id :: id in q.queue ==> id in q.jobs)
    && q.processing <= q.jobs.Keys
    && q.deadLettered <= q.jobs.Keys
    && forall id :: id in q.jobs ==> Placed(id, q.jobs[id], id in q.queue, id in q.processing, id in q.deadLettered)
  }

  /** The ids in queue, processing and deadLettered are duplicate-free, pairwise disjoint and inside
      jobs, and every other job is completed, failed or cancelled. */
  predicate Partition(q: Queue)
  {
    Distinct(q.queue) && Located(q)
  }

  lemma DistinctAppend(s: seq<JobId>, id: JobId)
    requires Distinct(s) && id !in s
    ensures Distinct(s + [id])
  {
  }

  lemma DistinctHead(s: seq<JobId>)
    requires Distinct(s) && s != []
    ensures Distinct(s[1..]) && s[0] !in s[1..]
    ensures forall x :: x in s <==> x == s[0] || x in s[1..]
  {
    assert s == [s[0]] + s[1..];
  }

  lemma WithoutIsFilter(s: seq<JobId>, id: JobId)
    requires Distinct(s)
    ensures Distinct(Without(s, id))
    ensures forall x :: x in Without(s, id) <==> x in s && x != id
  {
    var i, r := IndexOf(s, id), Without(s, id);
    forall x ensures x in r <==> x in s && x != id {
      if x in s && x != id {
        var j :| 0 <= j < |s| && s[j] == x;
        assert r[if j < i then j else j - 1] == x;
      }
    }
  }

  lemma EnqueueKeepsPartition(q: Queue, job: Option<Job>, delay: int, now: int)
    requires Partition(q)
    ensures Partition(Enqueue(q, job, delay, now).q)
  {
    if Enqueue(q, job, delay, now).error.None? {
      DistinctAppend(q.queue, job.value.id);
    }
  }

  lemma DequeueKeepsLocated(q: Queue, now: int)
    requires Located(q) && q.queue != [] && q.queue[0] !in q.queue[1..]
    requires forall x :: x in q.queue <==> x == q.queue[0] || x in q.queue[1..]
    ensures Located(Dequeue(q, now).0)
  {
  }

  lemma DequeueKeepsPartition(q: Queue, now: int)
    requires Partition(q)
    ensures Partition(Dequeue(q, now).0)
  {
    if q.queue != [] {
      DistinctHead(q.queue);
      DistinctAppend(q.queue[1..], q.queue[0]);
      DequeueKeepsLocated(q, now);
    }
  }

  lemma MarkRunningKeepsPartition(q: Queue, id: JobId, now: int)
    requires Partition(q) && id in q.processing
    ensures Partition(MarkRunning(q, id, now))
  {
  }

  lemma EndRunKeepsLocated(q: Queue, id: JobId, entry: Entry)
    requires Located(q) && id in q.processing && entry.job == q.jobs[id].job
    requires entry.retryCount == q.jobs[id].retryCount
    requires entry.status.Completed? || entry.status.Failed?
    ensures Located(EndRun(q, id, entry))
  {
  }

  lemma PutBackKeepsLocated(q: Queue, id: JobId, failure: Option<string>, finishedAt: int, at: int)
    requires Located(q) && id in q.processing && ShouldRetry(q.jobs[id].job.policy, q.jobs[id].retryCount + 1)
    ensures Located(PutBack(q, id, failure, finishedAt, at))
  {
    var q' := PutBack(q, id, failure, finishedAt, at);
    assert forall x :: x in q'.queue <==> x in q.queue || x == id;
  }

  lemma GiveUpKeepsLocated(q: Queue, id: JobId, failure: Option<string>, finishedAt: int)
    requires Located(q) && id in q.processing
    ensures Located(GiveUp(q, id, failure, finishedAt))
  {
  }

  lemma FinishKeepsLocated(q: Queue, id: JobId, failure: Option<string>, finishedAt: int, retryAt: int, backoff: int)
    requires Located(q) && id in q.processing
    ensures Located(Finish(q, id, failure, finishedAt, retryAt, backoff))
  {
    var entry := q.jobs[id];
    if failure.None? {
      EndRunKeepsLocated(q, id, entry.(finishedAt := Some(finishedAt), status := Completed));
    } else if ShouldRetry(entry.job.policy, entry.retryCount + 1) {
      PutBackKeepsLocated(q, id, failure, finishedAt, retryAt + backoff);
    } else {
      GiveUpKeepsLocated(q, id, failure, finishedAt);
    }
  }

  lemma FinishKeepsPartition(q: Queue, id: JobId, failure: Option<string>, finishedAt: int, retryAt: int, backoff: int)
    requires Partition(q) && id in q.processing
    ensures Partition(Finish(q, id, failure, finishedAt, retryAt, backoff))
  {
    assert Placed(id, q.jobs[id], id in q.queue, id in q.processing, id in q.deadLettered);
    DistinctAppend(q.queue, id);
    FinishKeepsLocated(q, id, failure, finishedAt, retryAt, backoff);
  }

  lemma CancelKeepsPartition(q: Queue, id: JobId, now: int)
    requires Partition(q)
    ensures Partition(Cancel(q, id, now).q)
  {
    WithoutIsFilter(q.queue, id);
  }

  lemma RequeueKeepsPartition(q: Queue, id: JobId, now: int)
    requires Partition(q)
    ensures Partition(Requeue(q, id, now).q)
  {
    if Requeue(q, id, now).error.None? {
      DistinctAppend(q.queue, id);
    }
  }

  lemma PurgeKeepsPartition(q: Queue, id: JobId)
    requires Partition(q)
    ensures Partition(Purge(q, id).q)
  {
  }
}
