/** jobs/scheduler.go, jobs/job_queue.go: what both job queues share. */
module JobTypes {
  import opened Common
  import opened RetryPolicies

  datatype Status = Pending | Running | Completed | Failed | DeadLettered | Cancelled

  /** A job's identifier; the empty text is not a valid one. */
  datatype JobId = JobId(text: string)

  /** A job's identity and its metadata, which is constant; only the retry policy matters to the queues. */
  datatype Job = Job(id: JobId, policy: RetryPolicy)

  /** What a queue keeps about a job: an entry of the memory queue, a row of the Postgres table. */
  datatype Entry = Entry(
    job: Job,
    status: Status,
    enqueuedAt: int,
    startedAt: Option<int>,
    finishedAt: Option<int>,
    error: Option<string>,
    retryCount: int,
    nextRetry: Option<int>)

  predicate Due(entry: Entry, now: int)
  {
    entry.nextRetry.None? || entry.nextRetry.value <= now
  }

  datatype JobError = InvalidJobID | QueueClosed | JobAlreadyExists | JobNotFound | NotPending | StatementFailed
}
