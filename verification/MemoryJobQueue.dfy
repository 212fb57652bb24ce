/** jobs/job_queue.go: MemoryJobQueue as an object. The four collections share mutable entries; each
    method is one locked section (MarkRunning is the unlocked one) and does to the object what the
    function of the same name in MemoryQueue does to its value. */
module MemoryJobQueues {
  import opened Common
  import opened RetryPolicies
  import opened JobTypes
  import Spec = MemoryQueue

  class QueueJobEntry {
    const job: Job
    var status: Status
    var enqueuedAt: int
    var startedAt: Option<int>
    var finishedAt: Option<int>
    var error: Option<string>
    var retryCount: int
    var nextRetry: Option<int>

    ghost function Value(): Entry
      reads this
    {
      Entry(job, status, enqueuedAt, startedAt, finishedAt, error, retryCount, nextRetry)
    }

    constructor (job: Job, now: int, nextRetry: Option<int>)
      ensures this.job == job
      ensures Value() == Entry(job, Pending, now, None, None, None, 0, nextRetry)
    {
      this.job := job;
      status, enqueuedAt, startedAt, finishedAt := Pending, now, None, None;
      error, retryCount := None, 0;
      this.nextRetry := nextRetry;
    }

    method Complete(finishedAt: int)
      modifies this
      ensures Value() == old(Value()).(finishedAt := Some(finishedAt), status := Completed)
    {
      this.finishedAt := Some(finishedAt);
      status := Completed;
    }

    /** The end of a failed run; `status` is what the retry and dead-letter rules decide. */
    method Fail(failure: Option<string>, finishedAt: int, status: Status)
      modifies this
      ensures Value() == old(Value()).(error := failure, finishedAt := Some(finishedAt), status := status)
    {
      this.finishedAt := Some(finishedAt);
      error := failure;
      this.status := status;
    }

    method Retry(failure: Option<string>, finishedAt: int, at: int)
      modifies this
      ensures Value() == old(Value()).(error := failure, finishedAt := Some(finishedAt), status := Pending,
                                       retryCount := old(retryCount) + 1, nextRetry := Some(at))
    {
      Fail(failure, finishedAt, Failed);
      retryCount := retryCount + 1;
      nextRetry := Some(at);
      status := Pending;
    }

    method CancelAt(now: int)
      modifies this
      ensures Value() == old(Value()).(status := Cancelled, finishedAt := Some(now))
    {
      status := Cancelled;
      finishedAt := Some(now);
    }

    method Reset(now: int)
      modifies this
      ensures Value() == Entry(job, Pending, now, None, None, None, 0, None)
    {
      status, retryCount, error, nextRetry := Pending, 0, None, None;
      startedAt, finishedAt, enqueuedAt := None, None, now;
    }
  }

  ghost function Ids(entries: seq<QueueJobEntry>): (ids: seq<JobId>)
    ensures |ids| == |entries| && forall i :: 0 <= i < |ids| ==> ids[i] == entries[i].job.id
  {
    seq(|entries|, i requires 0 <= i < |entries| => entries[i].job.id)
  }

  ghost function Values(jobs: map<JobId, QueueJobEntry>): map<JobId, Entry>
    reads jobs.Values
  {
    map id | id in jobs :: jobs[id].Value()
  }

  predicate Keyed(jobs: map<JobId, QueueJobEntry>)
  {
    forall id :: id in jobs ==> jobs[id].job.id == id
  }

  predicate Shared(jobs: map<JobId, QueueJobEntry>, e: QueueJobEntry)
  {
    e.job.id in jobs && jobs[e.job.id] == e
  }

  predicate QueueShares(jobs: map<JobId, QueueJobEntry>, queue: seq<QueueJobEntry>)
  {
    forall i :: 0 <= i < |queue| ==> Shared(jobs, queue[i])
  }

  predicate MapShares(jobs: map<JobId, QueueJobEntry>, m: map<JobId, QueueJobEntry>)
  {
    forall id :: id in m ==> m[id].job.id == id && Shared(jobs, m[id])
  }

  /** The queue without its head, and with the head put last. */
  lemma {:induction false} HeadAndTail(jobs: map<JobId, QueueJobEntry>, queue: seq<QueueJobEntry>)
    requires queue != [] && QueueShares(jobs, queue)
    ensures Ids(queue)[0] == queue[0].job.id && Shared(jobs, queue[0])
    ensures QueueShares(jobs, queue[1..]) && Ids(queue[1..]) == Ids(queue)[1..]
    ensures QueueShares(jobs, queue[1..] + [queue[0]])
    ensures Ids(queue[1..] + [queue[0]]) == Ids(queue)[1..] + [queue[0].job.id]
  {
  }

  lemma {:induction false} IdsWithout(queue: seq<QueueJobEntry>, i: nat, id: JobId)
    requires i < |queue| && queue[i].job.id == id && forall j :: 0 <= j < i ==> Ids(queue)[j] != id
    ensures Ids(queue[..i] + queue[i + 1..]) == Spec.Without(Ids(queue), id)
  {
    var ids, r := Ids(queue), queue[..i] + queue[i + 1..];
    assert Spec.IndexOf(ids, id) == i;
    assert forall k :: 0 <= k < |r| ==> Ids(r)[k] == (ids[..i] + ids[i + 1..])[k];
  }

  lemma {:induction false} AppendShared(jobs: map<JobId, QueueJobEntry>, queue: seq<QueueJobEntry>, e: QueueJobEntry)
    requires QueueShares(jobs, queue) && Shared(jobs, e)
    ensures QueueShares(jobs, queue + [e]) && Ids(queue + [e]) == Ids(queue) + [e.job.id]
  {
  }

  lemma MapAdd(jobs: map<JobId, QueueJobEntry>, m: map<JobId, QueueJobEntry>, e: QueueJobEntry)
    requires MapShares(jobs, m) && Shared(jobs, e)
    ensures MapShares(jobs, m[e.job.id := e]) && m[e.job.id := e].Keys == m.Keys + {e.job.id}
  {
  }

  lemma MapRemove(jobs: map<JobId, QueueJobEntry>, m: map<JobId, QueueJobEntry>, id: JobId)
    requires MapShares(jobs, m)
    ensures MapShares(jobs, m - {id}) && (m - {id}).Keys == m.Keys - {id}
  {
  }

  /** Adding an entry under a new id, or removing one that is used nowhere else, keeps the sharing. */
  lemma SharesAfterAdd(jobs: map<JobId, QueueJobEntry>, e: QueueJobEntry, queue: seq<QueueJobEntry>,
                       m: map<JobId, QueueJobEntry>, d: map<JobId, QueueJobEntry>)
    requires e.job.id !in jobs && Keyed(jobs) && QueueShares(jobs, queue) && MapShares(jobs, m) && MapShares(jobs, d)
    ensures var jobs' := jobs[e.job.id := e];
            Keyed(jobs') && Shared(jobs', e) && QueueShares(jobs', queue) && MapShares(jobs', m) && MapShares(jobs', d)
  {
  }

  lemma SharesAfterRemove(jobs: map<JobId, QueueJobEntry>, id: JobId, queue: seq<QueueJobEntry>,
                          m: map<JobId, QueueJobEntry>, d: map<JobId, QueueJobEntry>)
    requires Keyed(jobs) && QueueShares(jobs, queue) && MapShares(jobs, m) && MapShares(jobs, d)
    requires id !in Ids(queue) && id !in m && id !in d
    ensures var jobs' := jobs - {id};
            Keyed(jobs') && QueueShares(jobs', queue) && MapShares(jobs', m) && MapShares(jobs', d)
  {
    forall i | 0 <= i < |queue| ensures Shared(jobs - {id}, queue[i]) {
      assert Ids(queue)[i] == queue[i].job.id;
    }
  }

  /** A step that changes one entry changes one value. */
  lemma OneEntryChanged(jobs: map<JobId, QueueJobEntry>, before: map<JobId, Entry>, id: JobId)
    requires id in jobs && before.Keys == jobs.Keys
    requires forall x :: x in jobs && x != id ==> jobs[x].Value() == before[x]
    ensures Values(jobs) == before[id := jobs[id].Value()]
  {
  }

  class MemoryJobQueue {
    var jobs: map<JobId, QueueJobEntry>
    var queue: seq<QueueJobEntry>
    var processing: map<JobId, QueueJobEntry>
    var deadLettered: map<JobId, QueueJobEntry>
    var closed: bool
    const deadLetterEnabled: bool

    ghost function View(): Spec.Queue
      reads this, jobs.Values
    {
      Spec.Queue(Values(jobs), Ids(queue), processing.Keys, deadLettered.Keys, closed, deadLetterEnabled)
    }

    /** Every collection holds the very entry objects of `jobs`, under their ids. */
    ghost predicate Valid()
      reads this
    {
      Keyed(jobs) && QueueShares(jobs, queue) && MapShares(jobs, processing) && MapShares(jobs, deadLettered)
    }

    /** The entry is the very object that a worker took into processing. */
    ghost predicate InProcessing(entry: QueueJobEntry)
      reads this
    {
      entry.job.id in processing && processing[entry.job.id] == entry
    }

    constructor (deadLetterEnabled: bool)
      ensures Valid() && View() == Spec.Empty(deadLetterEnabled) && jobs == map[]
    {
      jobs, queue, processing, deadLettered, closed := map[], [], map[], map[], false;
      this.deadLetterEnabled := deadLetterEnabled;
    }

    method EnqueueWithDelay(job: Option<Job>, delay: int, now: int) returns (error: Option<JobError>)
      requires Valid()
      modifies this`jobs, this`queue
      ensures Valid() && View() == Spec.Enqueue(old(View()), job, delay, now).q
      ensures error == Spec.Enqueue(old(View()), job, delay, now).error
      ensures error.Some? ==> jobs == old(jobs) && queue == old(queue)
      ensures error.None? ==>
                var id := job.value.id;
                && id in jobs && fresh(jobs[id]) && jobs == old(jobs)[id := jobs[id]]
                && queue == old(queue) + [jobs[id]]
    {
      if job.None? || job.value.id.text == "" {
        return Some(InvalidJobID);
      }
      if closed {
        return Some(QueueClosed);
      }
      if job.value.id in jobs {
        return Some(JobAlreadyExists);
      }
      var entry := new QueueJobEntry(job.value, now, if delay > 0 then Some(now + delay) else None);
      SharesAfterAdd(jobs, entry, queue, processing, deadLettered);
      AppendShared(jobs[job.value.id := entry], queue, entry);
      jobs := jobs[job.value.id := entry];
      queue := queue + [entry];
      error := None;
      assert Values(jobs) == old(Values(jobs))[job.value.id := entry.Value()];
    }

    method DequeueJob(now: int) returns (entry: QueueJobEntry?)
      requires Valid()
      modifies this`queue, this`processing
      ensures Valid() && View() == Spec.Dequeue(old(View()), now).0
      ensures entry == null <==> Spec.Dequeue(old(View()), now).1.None?
      ensures entry != null ==>
                && Spec.Dequeue(old(View()), now).1 == Some(entry.job.id)
                && entry == old(queue)[0] && processing == old(processing)[entry.job.id := entry]
      ensures entry == null ==> processing == old(processing)
    {
      if |queue| == 0 {
        return null;
      }
      entry := queue[0];
      HeadAndTail(jobs, queue);
      MapAdd(jobs, processing, entry);
      assert Values(jobs)[entry.job.id].nextRetry == entry.nextRetry;
      queue := queue[1..];
      if entry.nextRetry.Some? && now < entry.nextRetry.value {
        queue := queue + [entry];
        entry := null;
      } else {
        processing := processing[entry.job.id := entry];
      }
    }

    /** Runs without the lock; only the worker that dequeued the entry does this. */
    method MarkRunning(entry: QueueJobEntry, now: int)
      requires Valid() && InProcessing(entry)
      modifies entry
      ensures Valid() && View() == Spec.MarkRunning(old(View()), entry.job.id, now)
    {
      entry.status := Running;
      entry.startedAt := Some(now);
      OneEntryChanged(jobs, old(Values(jobs)), entry.job.id);
    }

    /** The locked section that ends a handler run. `draw` is the random number CalculateBackoff may use. */
    method FinishJob(entry: QueueJobEntry, failure: Option<string>, finishedAt: int, retryAt: int, draw: real)
      requires Valid() && InProcessing(entry)
      modifies this`queue, this`processing, this`deadLettered, entry
      ensures Valid() && processing == old(processing) - {entry.job.id}
      ensures deadLettered == old(deadLettered) || deadLettered == old(deadLettered)[entry.job.id := entry]
      ensures queue == old(queue) || queue == old(queue) + [entry]
      ensures View() == Spec.Finish(old(View()), entry.job.id, failure, finishedAt, retryAt,
                          Backoff(entry.job.policy, old(entry.retryCount) + 1, draw))
    {
      ghost var value := entry.Value();
      assert View().jobs[entry.job.id] == value;
      if failure.None? {
        Succeed(entry, finishedAt);
      } else if ShouldRetry(entry.job.policy, entry.retryCount + 1) {
        var backoff := CalculateBackoff(entry.job.policy, entry.retryCount + 1, draw);
        PutBack(entry, failure, finishedAt, retryAt + backoff);
      } else {
        GiveUp(entry, failure, finishedAt);
      }
    }

    method Succeed(entry: QueueJobEntry, finishedAt: int)
      requires Valid() && InProcessing(entry)
      modifies this`processing, entry
      ensures Valid() && processing == old(processing) - {entry.job.id}
      ensures View() == Spec.EndRun(old(View()), entry.job.id,
                old(entry.Value()).(finishedAt := Some(finishedAt), status := Completed))
    {
      entry.Complete(finishedAt);
      OneEntryChanged(jobs, old(Values(jobs)), entry.job.id);
      LeaveProcessing(entry.job.id);
    }

    method LeaveProcessing(id: JobId)
      requires Valid()
      modifies this`processing
      ensures Valid() && View() == old(View()).(processing := old(View()).processing - {id})
      ensures processing == old(processing) - {id}
    {
      MapRemove(jobs, processing, id);
      processing := processing - {id};
    }

    method ToQueueTail(entry: QueueJobEntry)
      requires Valid() && Shared(jobs, entry)
      modifies this`queue, this`processing
      ensures Valid() && queue == old(queue) + [entry] && processing == old(processing) - {entry.job.id}
      ensures View() == old(View()).(queue := old(View()).queue + [entry.job.id],
                                     processing := old(View()).processing - {entry.job.id})
    {
      AppendShared(jobs, queue, entry);
      queue := queue + [entry];
      LeaveProcessing(entry.job.id);
    }

    /** A failed run that is retried: the entry goes to the tail of the queue. */
    method PutBack(entry: QueueJobEntry, failure: Option<string>, finishedAt: int, at: int)
      requires Valid() && InProcessing(entry)
      modifies this`queue, this`processing, entry
      ensures Valid() && queue == old(queue) + [entry] && processing == old(processing) - {entry.job.id}
      ensures View() == Spec.PutBack(old(View()), entry.job.id, failure, finishedAt, at)
    {
      ghost var value := entry.Value();
      assert View().jobs[entry.job.id] == value;
      RetryEntry(entry, failure, finishedAt, at);
      ToQueueTail(entry);
    }

    method RetryEntry(entry: QueueJobEntry, failure: Option<string>, finishedAt: int, at: int)
      requires Valid() && Shared(jobs, entry)
      modifies entry
      ensures Valid()
      ensures View() == old(View()).(jobs := old(View()).jobs[entry.job.id :=
                          old(entry.Value()).(error := failure, finishedAt := Some(finishedAt), status := Pending,
                                              retryCount := old(entry.retryCount) + 1, nextRetry := Some(at))])
    {
      entry.Retry(failure, finishedAt, at);
      OneEntryChanged(jobs, old(Values(jobs)), entry.job.id);
    }

    method FailEntry(entry: QueueJobEntry, failure: Option<string>, finishedAt: int, status: Status)
      requires Valid() && Shared(jobs, entry)
      modifies entry
      ensures Valid()
      ensures View() == old(View()).(jobs := old(View()).jobs[entry.job.id :=
                          old(entry.Value()).(error := failure, finishedAt := Some(finishedAt), status := status)])
    {
      entry.Fail(failure, finishedAt, status);
      OneEntryChanged(jobs, old(Values(jobs)), entry.job.id);
    }

    method AddDeadLetter(entry: QueueJobEntry)
      requires Valid() && Shared(jobs, entry)
      modifies this`deadLettered
      ensures Valid() && View() == old(View()).(deadLettered := old(View()).deadLettered + {entry.job.id})
      ensures deadLettered == old(deadLettered)[entry.job.id := entry]
    {
      MapAdd(jobs, deadLettered, entry);
      deadLettered := deadLettered[entry.job.id := entry];
    }

    /** A failed run that is not retried: the entry goes to the dead letters, if these are enabled. */
    method GiveUp(entry: QueueJobEntry, failure: Option<string>, finishedAt: int)
      requires Valid() && InProcessing(entry)
      modifies this`processing, this`deadLettered, entry
      ensures Valid() && View() == Spec.GiveUp(old(View()), entry.job.id, failure, finishedAt)
      ensures processing == old(processing) - {entry.job.id}
      ensures deadLettered == if deadLetterEnabled then old(deadLettered)[entry.job.id := entry] else old(deadLettered)
    {
      FailEntry(entry, failure, finishedAt, if deadLetterEnabled then DeadLettered else Failed);
      if deadLetterEnabled {
        AddDeadLetter(entry);
      }
      LeaveProcessing(entry.job.id);
    }

    method Cancel(id: JobId, now: int) returns (error: Option<JobError>)
      requires Valid()
      modifies this`queue, if id in jobs then {jobs[id]} else {}
      ensures Valid() && View() == Spec.Cancel(old(View()), id, now).q
      ensures error == Spec.Cancel(old(View()), id, now).error
    {
      if id.text == "" {
        return Some(InvalidJobID);
      }
      if id !in jobs {
        return Some(JobNotFound);
      }
      var entry := jobs[id];
      if entry.status != Pending {
        return Some(NotPending);
      }
      RemoveFromQueue(id);
      entry.CancelAt(now);
      error := None;
      OneEntryChanged(jobs, old(Values(jobs)), id);
    }

    /** The loop of Cancel: takes the first entry with this id out of the queue. */
    method RemoveFromQueue(id: JobId)
      modifies this`queue
      ensures Ids(queue) == Spec.Without(old(Ids(queue)), id)
      ensures old(QueueShares(jobs, queue)) ==> QueueShares(jobs, queue)
    {
      var i := 0;
      while i < |queue|
        invariant 0 <= i <= |queue| && queue == old(queue)
        invariant forall j :: 0 <= j < i ==> queue[j].job.id != id
      {
        if queue[i].job.id == id {
          IdsWithout(queue, i, id);
          queue := queue[..i] + queue[i + 1..];
          return;
        }
        i := i + 1;
      }
      assert Spec.IndexOf(Ids(queue), id) == |queue|;
    }

    method RequeueDeadLetteredJob(id: JobId, now: int) returns (error: Option<JobError>)
      requires Valid()
      modifies this`queue, this`deadLettered, if id in deadLettered then {deadLettered[id]} else {}
      ensures Valid() && View() == Spec.Requeue(old(View()), id, now).q
      ensures error == Spec.Requeue(old(View()), id, now).error
      ensures deadLettered == old(deadLettered) - {id}
      ensures queue == if error.None? then old(queue) + [old(deadLettered)[id]] else old(queue)
    {
      if id !in deadLettered {
        return Some(JobNotFound);
      }
      var entry := deadLettered[id];
      AppendShared(jobs, queue, entry);
      MapRemove(jobs, deadLettered, id);
      entry.Reset(now);
      deadLettered := deadLettered - {id};
      queue := queue + [entry];
      error := None;
      OneEntryChanged(jobs, old(Values(jobs)), id);
    }

    /** No collection is left with an entry that `jobs` lacks, because every run keeps the partition. */
    method PurgeDeadLetteredJob(id: JobId) returns (error: Option<JobError>)
      requires Valid()
      modifies this`jobs, this`deadLettered
      ensures View() == Spec.Purge(old(View()), id).q
      ensures error == Spec.Purge(old(View()), id).error
      ensures deadLettered == old(deadLettered) - {id}
      ensures jobs == if error.None? then old(jobs) - {id} else old(jobs)
      ensures Spec.Partition(old(View())) ==> Valid()
    {
      if id !in deadLettered {
        return Some(JobNotFound);
      }
      if Spec.Partition(View()) {
        assert id !in Ids(queue) && id !in processing;
        MapRemove(jobs, deadLettered, id);
        SharesAfterRemove(jobs, id, queue, processing, deadLettered - {id});
      }
      deadLettered := deadLettered - {id};
      jobs := jobs - {id};
      error := None;
      assert Values(jobs) == old(Values(jobs)) - {id};
    }

    method Close()
      requires Valid()
      modifies this`closed
      ensures Valid() && View() == Spec.Close(old(View()))
    {
      closed := true;
    }
  }
}
