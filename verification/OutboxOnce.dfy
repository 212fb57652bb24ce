/** What one relay loop guarantees: duplicates come from lost marks only. */
module OutboxOnce {
  import opened Common
  import opened Outbox
  import opened OutboxSafety

  function Lost(log: seq<Observation>, id: MsgId): nat { Count(log, LostMark(id)) }

  /** The only publisher is the loop p of a relay with this configuration. */
  predicate SingleLoop(e: Event, p: nat, config: RelayConfig)
  {
    e.Fetch? ==> e.p == p && e.kind == Relay(config)
  }

  /** Deliveries are at most the lost marks, plus one once the row is processed or its mark is under way;
      retry_count stays within a positive MaxRetries. */
  predicate OnceOk(config: RelayConfig, id: MsgId, row: Row, log: seq<Observation>, open: bool)
  {
    && Deliveries(log, id, row.body) <= Lost(log, id) + (if row.processedAt.Some? || open then 1 else 0)
    && (config.maxRetries > 0 ==> row.retryCount <= config.maxRetries)
  }

  predicate OnceRows(config: RelayConfig, t: Table, log: seq<Observation>, phase: Phase)
  {
    forall id :: id in t ==> OnceOk(config, id, t[id], log, phase == Delivered(id))
  }

  /** The rest of the batch is as it is in the table: pending and unchanged. */
  predicate FreshBatch(t: Table, batch: seq<Copy>)
  {
    && (forall i :: 0 <= i < |batch| ==> Pending(t, batch[i].id) && batch[i].row == t[batch[i].id])
    && (forall i, j :: 0 <= i < j < |batch| ==> batch[i].id != batch[j].id)
  }

  /** The message between publish and mark is pending and not in the rest of the batch. */
  predicate CurrentOk(config: RelayConfig, t: Table, batch: seq<Copy>, phase: Phase)
  {
    phase.Ready? ||
    (&& Pending(t, phase.id)
     && (forall i :: 0 <= i < |batch| ==> batch[i].id != phase.id)
     && (phase.Rejected? && config.maxRetries > 0 ==> t[phase.id].retryCount < config.maxRetries))
  }

  function PhaseOf(s: World, p: nat): Phase { if p in s.procs then s.procs[p].phase else Ready }

  predicate OnlyProc(s: World, p: nat, config: RelayConfig)
  {
    forall x :: x in s.procs ==> x == p && s.procs[x].kind == Relay(config)
  }

  predicate OnceInv(s: World, p: nat, config: RelayConfig)
  {
    && OnlyProc(s, p, config) && LogOk(s.table, s.log) && Staged(s.txs)
    && OnceRows(config, s.table, s.log, PhaseOf(s, p))
    && (p in s.procs ==>
          FreshBatch(s.table, s.procs[p].batch) && CurrentOk(config, s.table, s.procs[p].batch, s.procs[p].phase))
  }

  // ------------------------------------------------------------------ pieces

  lemma FreshTail(t: Table, batch: seq<Copy>)
    requires FreshBatch(t, batch) && batch != []
    ensures FreshBatch(t, batch[1..]) && Pending(t, batch[0].id) && batch[0].row == t[batch[0].id]
    ensures forall i :: 0 <= i < |batch[1..]| ==> batch[1..][i].id != batch[0].id
  {
  }

  /** Changing the row of a message that is not in the batch keeps the batch fresh. */
  lemma FreshFrame(t: Table, t': Table, batch: seq<Copy>, id: MsgId)
    requires FreshBatch(t, batch) && forall i :: 0 <= i < |batch| ==> batch[i].id != id
    requires forall x :: x in t && x != id ==> x in t' && t'[x] == t[x]
    ensures FreshBatch(t', batch)
  {
  }

  lemma DeliverKeepsOnce(config: RelayConfig, t: Table, log: seq<Observation>, c: Copy)
    requires OnceRows(config, t, log, Ready) && Pending(t, c.id) && c.row == t[c.id]
    ensures OnceRows(config, t, log + [Published(c.id, c.row.body, true)], Delivered(c.id))
  {
    var o := Published(c.id, c.row.body, true);
    forall id | id in t ensures OnceOk(config, id, t[id], log + [o], Delivered(c.id) == Delivered(id)) {
      assert OnceOk(config, id, t[id], log, false);
      CountGrows(log, [o], Published(id, t[id].body, true));
      CountGrows(log, [o], LostMark(id));
    }
  }

  lemma RejectKeepsOnce(config: RelayConfig, t: Table, log: seq<Observation>, c: Copy, phase: Phase)
    requires OnceRows(config, t, log, Ready) && !phase.Delivered?
    ensures OnceRows(config, t, log + [Published(c.id, c.row.body, false)], phase)
  {
    var o := Published(c.id, c.row.body, false);
    forall id | id in t ensures OnceOk(config, id, t[id], log + [o], phase == Delivered(id)) {
      assert OnceOk(config, id, t[id], log, false);
      CountGrows(log, [o], Published(id, t[id].body, true));
      CountGrows(log, [o], LostMark(id));
    }
  }

  lemma LoseKeepsOnce(config: RelayConfig, t: Table, log: seq<Observation>, lost: MsgId)
    requires OnceRows(config, t, log, Delivered(lost))
    ensures OnceRows(config, t, log + [LostMark(lost)], Ready)
  {
    var o := LostMark(lost);
    forall id | id in t ensures OnceOk(config, id, t[id], log + [o], false) {
      assert OnceOk(config, id, t[id], log, Delivered(lost) == Delivered(id));
      CountGrows(log, [o], Published(id, t[id].body, true));
      CountGrows(log, [o], LostMark(id));
    }
  }

  lemma ProcessKeepsOnce(config: RelayConfig, t: Table, log: seq<Observation>, phase: Phase, now: int)
    requires OnceRows(config, t, log, phase) && (phase.Delivered? || phase.Dropping?)
    ensures OnceRows(config, SetProcessed(t, phase.id, now), log, Ready)
  {
    var t' := SetProcessed(t, phase.id, now);
    forall id | id in t' ensures OnceOk(config, id, t'[id], log, false) {
      assert OnceOk(config, id, t[id], log, phase == Delivered(id));
    }
  }

  lemma FailKeepsOnce(config: RelayConfig, t: Table, log: seq<Observation>, phase: Phase)
    requires OnceRows(config, t, log, phase) && phase.Rejected? && CurrentOk(config, t, [], phase)
    ensures OnceRows(config, SetFailed(t, phase.id, phase.error), log, Ready)
  {
    var t' := SetFailed(t, phase.id, phase.error);
    forall id | id in t' ensures OnceOk(config, id, t'[id], log, false) {
      assert OnceOk(config, id, t[id], log, phase == Delivered(id));
    }
  }

  // ------------------------------------------------------------------ the steps

  lemma AttemptOnce(s: World, p: nat, config: RelayConfig, e: Event)
    requires OnceInv(s, p, config) && e.Attempt? && e.p == p && p in s.procs && s.procs[p].phase.Ready?
    requires s.procs[p].batch != []
    ensures OnceInv(Step(s, e), p, config)
  {
    var batch := s.procs[p].batch;
    var c := batch[0];
    FreshTail(s.table, batch);
    if OverLimit(config, c) {
    } else if BackingOff(config, c, e.now) {
    } else if e.ok {
      DeliverKeepsOnce(config, s.table, s.log, c);
      LogPlusPublished(s.table, s.log, Published(c.id, c.row.body, true));
    } else {
      RejectKeepsOnce(config, s.table, s.log, c, Rejected(c.id, e.error));
      LogPlusPublished(s.table, s.log, Published(c.id, c.row.body, false));
    }
  }

  lemma LogPlusPublished(t: Table, log: seq<Observation>, o: Observation)
    requires LogOk(t, log) && o.Published? && o.id in t && o.body == t[o.id].body
    ensures LogOk(t, log + [o])
  {
  }

  /** The mark is written: the loop goes on with the next message over a table that differs in one row. */
  lemma MarkedOnce(s: World, s': World, p: nat, config: RelayConfig, t: Table)
    requires OnceInv(s, p, config) && p in s.procs && !s.procs[p].phase.Ready?
    requires s' == SetProc(s, p, s.procs[p].(phase := Ready)).(table := t)
    requires OnceRows(config, t, s.log, Ready) && LogOk(t, s.log)
    requires forall x :: x in s.table && x != s.procs[p].phase.id ==> x in t && t[x] == s.table[x]
    ensures OnceInv(s', p, config)
  {
    FreshFrame(s.table, t, s.procs[p].batch, s.procs[p].phase.id);
  }

  lemma NotDeliveredOnce(config: RelayConfig, t: Table, log: seq<Observation>, phase: Phase)
    requires OnceRows(config, t, log, phase) && !phase.Delivered?
    ensures OnceRows(config, t, log, Ready)
  {
    forall id | id in t ensures OnceOk(config, id, t[id], log, false) {
      assert OnceOk(config, id, t[id], log, phase == Delivered(id));
    }
  }

  lemma LostOnce(s: World, p: nat, config: RelayConfig, id: MsgId)
    requires OnceInv(s, p, config) && p in s.procs && s.procs[p].phase == Delivered(id)
    ensures OnceInv(SetProc(s, p, s.procs[p].(phase := Ready)).(log := s.log + [LostMark(id)]), p, config)
  {
    LoseKeepsOnce(config, s.table, s.log, id);
    LogPlusLost(s.table, s.log, id);
  }

  lemma MarkOnce(s: World, p: nat, config: RelayConfig, ok: bool, now: int)
    requires OnceInv(s, p, config) && p in s.procs && !s.procs[p].phase.Ready?
    ensures OnceInv(MarkStep(s, p, ok, now), p, config)
  {
    var phase, s' := s.procs[p].phase, MarkStep(s, p, ok, now);
    if phase.Rejected? && ok {
      FailKeepsOnce(config, s.table, s.log, phase);
      MarkGrows(s.table, s.log, phase.id, now, phase.error);
      MarkedOnce(s, s', p, config, SetFailed(s.table, phase.id, phase.error));
    } else if ok {
      ProcessKeepsOnce(config, s.table, s.log, phase, now);
      MarkGrows(s.table, s.log, phase.id, now, "");
      MarkedOnce(s, s', p, config, SetProcessed(s.table, phase.id, now));
    } else if phase.Delivered? {
      LostOnce(s, p, config, phase.id);
    } else {
      NotDeliveredOnce(config, s.table, s.log, phase);
      MarkedOnce(s, s', p, config, s.table);
    }
  }

  lemma CommitOnce(s: World, p: nat, config: RelayConfig, tx: nat, ok: bool)
    requires OnceInv(s, p, config) && tx in s.txs
    ensures OnceInv(CommitStep(s, tx, ok), p, config)
  {
    var added := s.txs[tx];
    if ok && added.Keys !! s.table.Keys {
      CommitKeepsOnce(config, s.table, s.log, PhaseOf(s, p), added);
    }
  }

  lemma CommitKeepsOnce(config: RelayConfig, t: Table, log: seq<Observation>, phase: Phase, added: Table)
    requires OnceRows(config, t, log, phase) && LogOk(t, log) && added.Keys !! t.Keys
    requires forall id :: id in added ==> NewRow(added[id])
    ensures OnceRows(config, t + added, log, phase) && LogOk(t + added, log)
  {
    forall id | id in t + added ensures OnceOk(config, id, (t + added)[id], log, phase == Delivered(id)) {
      if id in t {
        assert OnceOk(config, id, t[id], log, phase == Delivered(id));
      } else {
        assert Published(id, added[id].body, true) !in log;
      }
    }
  }

  lemma CrashOnce(s: World, p: nat, config: RelayConfig)
    requires OnceInv(s, p, config) && p in s.procs
    ensures OnceInv(Step(s, Crash(p)), p, config)
  {
    var phase := s.procs[p].phase;
    if phase.Delivered? {
      LoseKeepsOnce(config, s.table, s.log, phase.id);
      LogPlusLost(s.table, s.log, phase.id);
    }
  }

  lemma TransactionStepOnce(s: World, p: nat, config: RelayConfig, e: Event)
    requires OnceInv(s, p, config) && (e.Begin? || e.Save? || e.Commit? || e.Abort?)
    ensures OnceInv(Step(s, e), p, config)
  {
    if e.Commit? && e.tx in s.txs {
      CommitOnce(s, p, config, e.tx, e.ok);
    }
  }

  lemma StepOnce(s: World, p: nat, config: RelayConfig, e: Event)
    requires OnceInv(s, p, config) && SingleLoop(e, p, config)
    ensures OnceInv(Step(s, e), p, config)
  {
    match e
    case Fetch(x, kind, batch) =>
    case Attempt(x, now, ok, error) =>
      if x in s.procs && s.procs[x].phase.Ready? && s.procs[x].batch != [] {
        AttemptOnce(s, p, config, e);
      }
    case Mark(x, ok, now) =>
      if x in s.procs && !s.procs[x].phase.Ready? {
        MarkOnce(s, p, config, ok, now);
      }
    case Crash(x) =>
      if x in s.procs {
        CrashOnce(s, p, config);
      } else {
        assert s.procs - {x} == s.procs;
      }
    case _ => TransactionStepOnce(s, p, config, e);
  }

  lemma {:induction false} RunOnce(s: World, p: nat, config: RelayConfig, events: seq<Event>)
    requires OnceInv(s, p, config) && forall e :: e in events ==> SingleLoop(e, p, config)
    ensures OnceInv(Run(s, events), p, config)
    decreases |events|
  {
    if events != [] {
      assert events[0] in events && forall e :: e in events[1..] ==> e in events;
      StepOnce(s, p, config, events[0]);
      RunOnce(Step(s, events[0]), p, config, events[1..]);
    }
  }

  /** With one relay loop a message is published successfully at most once plus the number of its lost
      marks, and its retry count stays within a positive MaxRetries. */
  lemma DuplicatesAreLostMarks(p: nat, config: RelayConfig, events: seq<Event>, id: MsgId)
    requires forall e :: e in events ==> SingleLoop(e, p, config)
    requires id in Run(START, events).table
    ensures var s := Run(START, events);
            && Deliveries(s.log, id, s.table[id].body) <= 1 + Lost(s.log, id)
            && (config.maxRetries > 0 ==> s.table[id].retryCount <= config.maxRetries)
  {
    RunOnce(START, p, config, events);
    var s := Run(START, events);
    assert OnceOk(config, id, s.table[id], s.log, PhaseOf(s, p) == Delivered(id));
  }

  /** Exactly once when no mark is lost: a processed message that was not given up was published once. */
  lemma ExactlyOnceWithoutLostMarks(p: nat, config: RelayConfig, events: seq<Event>, id: MsgId)
    requires forall e :: e in events ==> SingleLoop(e, p, config)
    requires var s := Run(START, events); id in s.table && s.table[id].processedAt.Some? && Lost(s.log, id) == 0
    requires var s := Run(START, events);
             Failures(s.log, id, s.table[id].body) < config.maxRetries || config.maxRetries <= 0
    ensures var s := Run(START, events); Deliveries(s.log, id, s.table[id].body) == 1
  {
    DuplicatesAreLostMarks(p, config, events, id);
    var s := Run(START, events);
    var limit := if config.maxRetries > 0 then config.maxRetries else Failures(s.log, id, s.table[id].body) + 1;
    ProcessedWasPublishedOrGivenUp(limit, events, id);
  }
}
