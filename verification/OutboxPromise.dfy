/** messaging/README_OUTBOX.md:68 promises that messages remain in the outbox until successfully processed.
    The relay drops a message after MaxRetries failures, and this says exactly when the promise is kept. */
module OutboxPromise {
  import opened Common
  import opened RetryPolicies
  import opened Outbox
  import opened OutboxSafety
  import opened OutboxOnce

  /** A row is marked processed only after a successful publication. */
  predicate Kept(s: World)
  {
    forall id :: id in s.table && s.table[id].processedAt.Some? ==> Deliveries(s.log, id, s.table[id].body) >= 1
  }

  /** In every run of one relay loop with this configuration. */
  ghost predicate PromiseKept(p: nat, config: RelayConfig)
  {
    forall events :: (forall e :: e in events ==> SingleLoop(e, p, config)) ==> Kept(Run(START, events))
  }

  // ------------------------------------------------------------------ when it is kept

  predicate NoLimit(e: Event) { e.Fetch? && e.kind.Relay? ==> e.kind.config.maxRetries <= 0 }

  /** Without a retry limit no message is given up, whatever the number of relays and helpers. */
  lemma NothingIsGivenUpWithoutLimit(events: seq<Event>)
    requires forall e :: e in events ==> NoLimit(e)
    ensures Kept(Run(START, events))
  {
    var s := Run(START, events);
    forall id | id in s.table && s.table[id].processedAt.Some? ensures Deliveries(s.log, id, s.table[id].body) >= 1 {
      var limit := Failures(s.log, id, s.table[id].body) + 1;
      assert forall e :: e in events ==> NoLimit(e) && RespectsLimit(e, limit);
      ProcessedWasPublishedOrGivenUp(limit, events, id);
    }
  }

  /** Nothing is fetched, so nothing is marked. */
  predicate Untried(s: World)
  {
    && (forall x :: x in s.procs ==> s.procs[x].batch == [] && s.procs[x].phase.Ready?)
    && (forall id :: id in s.table ==> s.table[id].processedAt.None?)
    && Staged(s.txs)
  }

  lemma UntriedStep(s: World, e: Event, p: nat, config: RelayConfig)
    requires Untried(s) && SingleLoop(e, p, config) && config.batchSize <= 0
    ensures Untried(Step(s, e))
  {
    if e.Fetch? && Idle(s, e.p) && IsBatch(s.table, BatchSize(e.kind), e.batch) {
      assert |e.batch| <= 0;
    }
    if e.Commit? && e.tx in s.txs {
      assert forall id :: id in s.txs[e.tx] ==> NewRow(s.txs[e.tx][id]);
    }
  }

  lemma {:induction false} UntriedRun(s: World, events: seq<Event>, p: nat, config: RelayConfig)
    requires Untried(s) && (forall e :: e in events ==> SingleLoop(e, p, config)) && config.batchSize <= 0
    ensures Untried(Run(s, events))
    decreases |events|
  {
    if events != [] {
      assert events[0] in events && forall e :: e in events[1..] ==> e in events;
      UntriedStep(s, events[0], p, config);
      UntriedRun(Step(s, events[0]), events[1..], p, config);
    }
  }

  // ------------------------------------------------------------------ when it is broken

  lemma {:induction false} RunAppend(s: World, first: seq<Event>, second: seq<Event>)
    ensures Run(s, first + second) == Run(Run(s, first), second)
    decreases |first|
  {
    if first == [] {
      assert [] + second == second;
    } else {
      assert (first + second)[1..] == first[1..] + second;
      RunAppend(Step(s, first[0]), first[1..], second);
    }
  }

  lemma RunThree(s: World, events: seq<Event>)
    requires |events| == 3
    ensures Run(s, events) == Step(Step(Step(s, events[0]), events[1]), events[2])
  {
    var s1 := Step(s, events[0]);
    var s2 := Step(s1, events[1]);
    assert events[1..][1..][1..] == [];
    assert Run(s2, events[1..][1..]) == Step(s2, events[2]);
    assert Run(s1, events[1..]) == Run(s2, events[1..][1..]);
  }

  /** The one message of the outbox is pending after n failures, was never delivered, and p is idle. */
  predicate Waiting(s: World, p: nat, id: MsgId, n: int)
  {
    && s.table.Keys == {id} && Idle(s, p)
    && s.table[id].processedAt.None? && s.table[id].createdAt == 0 && s.table[id].retryCount == n
    && Deliveries(s.log, id, s.table[id].body) == 0
  }

  /** A clock reading past every backoff of a message created at time 0. */
  function Late(config: RelayConfig): int { if config.maxBackoff > 0 then config.maxBackoff else 0 }

  /** One turn of the loop in which the broker refuses the message. */
  function Round(p: nat, config: RelayConfig, c: Copy): seq<Event>
  {
    [Fetch(p, Relay(config), [c]), Attempt(p, Late(config), false, ""), Mark(p, true, Late(config))]
  }

  lemma FetchOne(s: World, p: nat, config: RelayConfig, id: MsgId, n: int)
    requires Waiting(s, p, id, n) && config.batchSize >= 1
    ensures var batch := [Copy(id, s.table[id])];
            Step(s, Fetch(p, Relay(config), batch)) == SetProc(s, p, Proc(Relay(config), batch, Ready))
  {
    var batch := [Copy(id, s.table[id])];
    assert batch[0].id == id;
    assert HasCopy(batch, id);
    assert IsBatch(s.table, config.batchSize, batch);
  }

  lemma FailedRound(s: World, p: nat, config: RelayConfig, id: MsgId, n: int)
    requires Waiting(s, p, id, n) && config.batchSize >= 1 && 0 <= n < config.maxRetries
    ensures Waiting(Run(s, Round(p, config, Copy(id, s.table[id]))), p, id, n + 1)
  {
    var c := Copy(id, s.table[id]);
    RunThree(s, Round(p, config, c));
    FetchOne(s, p, config, id, n);
    assert !BackingOff(config, c, Late(config)) && !OverLimit(config, c);
    CountGrowsByOther(s.log, Published(id, c.row.body, false), Published(id, c.row.body, true));
  }

  lemma CountGrowsByOther(log: seq<Observation>, o: Observation, other: Observation)
    requires o != other
    ensures Count(log + [o], other) == Count(log, other)
  {
  }

  lemma DroppedRound(s: World, p: nat, config: RelayConfig, id: MsgId)
    requires config.maxRetries > 0 && Waiting(s, p, id, config.maxRetries) && config.batchSize >= 1
    ensures !Kept(Run(s, Round(p, config, Copy(id, s.table[id]))))
  {
    var c := Copy(id, s.table[id]);
    RunThree(s, Round(p, config, c));
    FetchOne(s, p, config, id, config.maxRetries);
    var s' := Run(s, Round(p, config, c));
    assert id in s'.table && s'.table[id].processedAt.Some?;
  }

  lemma {:induction false} GivenUp(s: World, p: nat, config: RelayConfig, id: MsgId, n: int)
      returns (events: seq<Event>)
    requires Waiting(s, p, id, n) && config.batchSize >= 1 && 0 <= n <= config.maxRetries && config.maxRetries > 0
    ensures (forall e :: e in events ==> SingleLoop(e, p, config)) && !Kept(Run(s, events))
    decreases config.maxRetries - n
  {
    var round := Round(p, config, Copy(id, s.table[id]));
    if n == config.maxRetries {
      DroppedRound(s, p, config, id);
      events := round;
    } else {
      FailedRound(s, p, config, id, n);
      var rest := GivenUp(Run(s, round), p, config, id, n + 1);
      RunAppend(s, round, rest);
      events := round + rest;
    }
  }

  /** A message that the broker refuses MaxRetries times and the relay then marks processed, from the empty
      outbox. */
  lemma GivenUpFromTheStart(p: nat, config: RelayConfig, id: MsgId, body: Body) returns (events: seq<Event>)
    requires config.batchSize >= 1 && config.maxRetries > 0
    ensures (forall e :: e in events ==> SingleLoop(e, p, config)) && !Kept(Run(START, events))
  {
    var saved := [Begin(0), Save(0, id, body, 0, true), Commit(0, true)];
    RunThree(START, saved);
    var s := Run(START, saved);
    assert s.table == map[id := Row(body, 0, None, 0, "")];
    var rest := GivenUp(s, p, config, id, 0);
    RunAppend(START, saved, rest);
    events := saved + rest;
  }

  /** The promise is kept in every run of the loop if and only if the relay has no retry limit (or never
      fetches anything). */
  lemma PromiseKeptExactlyWithoutLimit(p: nat, config: RelayConfig)
    ensures PromiseKept(p, config) <==> config.maxRetries <= 0 || config.batchSize <= 0
  {
    if config.maxRetries <= 0 {
      forall events | forall e :: e in events ==> SingleLoop(e, p, config) ensures Kept(Run(START, events)) {
        assert forall e :: e in events ==> SingleLoop(e, p, config) && NoLimit(e);
        NothingIsGivenUpWithoutLimit(events);
      }
    } else if config.batchSize <= 0 {
      forall events | forall e :: e in events ==> SingleLoop(e, p, config) ensures Kept(Run(START, events)) {
        UntriedRun(START, events, p, config);
      }
    } else {
      var events := GivenUpFromTheStart(p, config, MsgId("m"), Body("topic", [], map[]));
    }
  }
}
