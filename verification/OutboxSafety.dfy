/** What the outbox guarantees whatever its publishers do: nothing is marked processed that was neither
    published nor given up after enough failures, and only committed messages are published. */
module OutboxSafety {
  import opened Common
  import opened Outbox

  /** Publishers that have failed to publish id and not yet counted it. */
  function Uncounted(procs: map<nat, Proc>, id: MsgId): set<nat>
  {
    set p | p in procs && procs[p].phase.Rejected? && procs[p].phase.id == id
  }

  /** retry_count never counts more than the failed attempts; a processed row was published with its saved
      content, or failed `limit` times. */
  predicate RowOk(limit: int, id: MsgId, row: Row, log: seq<Observation>, uncounted: nat)
  {
    && 0 <= row.retryCount && row.retryCount + uncounted <= Failures(log, id, row.body)
    && (row.processedAt.Some? ==> Deliveries(log, id, row.body) >= 1 || Failures(log, id, row.body) >= limit)
  }

  predicate Rows(limit: int, t: Table, procs: map<nat, Proc>, log: seq<Observation>)
  {
    forall id :: id in t ==> RowOk(limit, id, t[id], log, |Uncounted(procs, id)|)
  }

  /** Everything published is a committed message with its saved content. */
  predicate LogOk(t: Table, log: seq<Observation>)
  {
    forall o :: o in log && o.Published? ==> o.id in t && o.body == t[o.id].body
  }

  /** A copy has its row's content and is not ahead of it. */
  predicate CopyOk(t: Table, c: Copy)
  {
    c.id in t && c.row.body == t[c.id].body && c.row.retryCount <= t[c.id].retryCount
  }

  predicate PhaseOk(limit: int, t: Table, log: seq<Observation>, phase: Phase)
  {
    match phase
    case Ready => true
    case Dropping(id) => id in t && t[id].retryCount >= limit
    case Delivered(id) => id in t && Deliveries(log, id, t[id].body) >= 1
    case Rejected(id, _) => id in t
  }

  predicate ProcOk(limit: int, t: Table, log: seq<Observation>, proc: Proc)
  {
    && (proc.kind.Relay? ==> proc.kind.config.maxRetries <= 0 || proc.kind.config.maxRetries >= limit)
    && (forall i :: 0 <= i < |proc.batch| ==> CopyOk(t, proc.batch[i]))
    && PhaseOk(limit, t, log, proc.phase)
  }

  predicate Procs(limit: int, t: Table, log: seq<Observation>, procs: map<nat, Proc>)
  {
    forall p :: p in procs ==> ProcOk(limit, t, log, procs[p])
  }

  predicate NewRow(row: Row) { row.retryCount == 0 && row.processedAt.None? }

  predicate Staged(txs: map<nat, Table>)
  {
    forall tx, id :: tx in txs && id in txs[tx] ==> NewRow(txs[tx][id])
  }

  predicate Inv(limit: int, s: World)
  {
    && Rows(limit, s.table, s.procs, s.log) && LogOk(s.table, s.log)
    && Procs(limit, s.table, s.log, s.procs) && Staged(s.txs)
  }

  // ------------------------------------------------------------------ growing tables and logs

  /** t' has every row of t, with the same content and at least the same retry count. */
  predicate Grows(t: Table, t': Table)
  {
    forall id :: id in t ==> id in t' && t'[id].body == t[id].body && t'[id].retryCount >= t[id].retryCount
  }

  lemma ProcGrows(limit: int, t: Table, log: seq<Observation>, t': Table, more: seq<Observation>, proc: Proc)
    requires ProcOk(limit, t, log, proc) && Grows(t, t')
    ensures ProcOk(limit, t', log + more, proc)
  {
    forall i | 0 <= i < |proc.batch| ensures CopyOk(t', proc.batch[i]) {
      assert CopyOk(t, proc.batch[i]);
    }
    if proc.phase.Delivered? {
      assert Deliveries(log + more, proc.phase.id, t[proc.phase.id].body)
        >= Deliveries(log, proc.phase.id, t[proc.phase.id].body);
    }
  }

  /** The other publishers stay as they are. */
  lemma ProcsGrow(limit: int, t: Table, log: seq<Observation>, procs: map<nat, Proc>, t': Table, more: seq<Observation>)
    requires Procs(limit, t, log, procs) && Grows(t, t')
    ensures Procs(limit, t', log + more, procs)
  {
    forall p | p in procs ensures ProcOk(limit, t', log + more, procs[p]) {
      ProcGrows(limit, t, log, t', more, procs[p]);
    }
  }

  lemma ProcsSet(limit: int, t: Table, log: seq<Observation>, procs: map<nat, Proc>, p: nat, proc: Proc)
    requires Procs(limit, t, log, procs) && ProcOk(limit, t, log, proc)
    ensures Procs(limit, t, log, procs[p := proc])
  {
  }

  /** A publisher whose phase is not Rejected before or after leaves the uncounted failures alone. */
  lemma UncountedSame(procs: map<nat, Proc>, p: nat, proc: Proc, id: MsgId)
    requires p in procs ==> !procs[p].phase.Rejected?
    requires !proc.phase.Rejected?
    ensures Uncounted(procs[p := proc], id) == Uncounted(procs, id)
  {
  }

  lemma UncountedPlus(procs: map<nat, Proc>, p: nat, proc: Proc, id: MsgId)
    requires p in procs && !procs[p].phase.Rejected? && proc.phase.Rejected?
    ensures |Uncounted(procs[p := proc], id)| == |Uncounted(procs, id)| + (if proc.phase.id == id then 1 else 0)
  {
    if proc.phase.id == id {
      assert Uncounted(procs[p := proc], id) == Uncounted(procs, id) + {p};
    } else {
      assert Uncounted(procs[p := proc], id) == Uncounted(procs, id);
    }
  }

  lemma UncountedMinus(procs: map<nat, Proc>, p: nat, proc: Proc, id: MsgId)
    requires p in procs && procs[p].phase.Rejected? && !proc.phase.Rejected?
    ensures |Uncounted(procs[p := proc], id)| == |Uncounted(procs, id)| - (if procs[p].phase.id == id then 1 else 0)
  {
    if procs[p].phase.id == id {
      assert Uncounted(procs, id) == Uncounted(procs[p := proc], id) + {p};
    } else {
      assert Uncounted(procs[p := proc], id) == Uncounted(procs, id);
    }
  }

  lemma UncountedGone(procs: map<nat, Proc>, p: nat, id: MsgId)
    ensures |Uncounted(procs - {p}, id)| <= |Uncounted(procs, id)|
  {
    assert Uncounted(procs, id) == Uncounted(procs - {p}, id) + (Uncounted(procs, id) * {p});
  }

  lemma CountGrows(log: seq<Observation>, more: seq<Observation>, o: Observation)
    ensures Count(log + more, o) >= Count(log, o)
    ensures o !in more ==> Count(log + more, o) == Count(log, o)
    ensures more == [o] ==> Count(log + more, o) == Count(log, o) + 1
  {
  }

  /** More observations keep a row right. */
  lemma RowLogGrows(limit: int, id: MsgId, row: Row, log: seq<Observation>, more: seq<Observation>, uncounted: nat,
                    fewer: nat)
    requires RowOk(limit, id, row, log, uncounted) && fewer <= uncounted
    ensures RowOk(limit, id, row, log + more, fewer)
  {
    CountGrows(log, more, Published(id, row.body, false));
    CountGrows(log, more, Published(id, row.body, true));
  }

  // ------------------------------------------------------------------ every step keeps the invariant

  /** A publish attempt. */
  lemma PublishKeepsInv(limit: int, s: World, p: nat, c: Copy, rest: seq<Copy>, ok: bool, error: string)
    requires Inv(limit, s) && p in s.procs && s.procs[p].phase.Ready? && s.procs[p].batch == [c] + rest
    ensures var phase := if ok then Delivered(c.id) else Rejected(c.id, error);
            Inv(limit, SetProc(s, p, Proc(s.procs[p].kind, rest, phase))
                       .(log := s.log + [Published(c.id, c.row.body, ok)]))
  {
    var o := Published(c.id, c.row.body, ok);
    var proc := Proc(s.procs[p].kind, rest, if ok then Delivered(c.id) else Rejected(c.id, error));
    assert ProcOk(limit, s.table, s.log, s.procs[p]);
    assert CopyOk(s.table, s.procs[p].batch[0]);
    forall i | 0 <= i < |rest| ensures CopyOk(s.table, rest[i]) {
      assert rest[i] == s.procs[p].batch[i + 1];
    }
    CountGrows(s.log, [o], o);
    ProcsGrow(limit, s.table, s.log, s.procs, s.table, [o]);
    ProcsSet(limit, s.table, s.log + [o], s.procs, p, proc);
    PublishKeepsRows(limit, s.table, s.procs, s.log, p, proc, o);
  }

  lemma PublishKeepsRows(limit: int, t: Table, procs: map<nat, Proc>, log: seq<Observation>, p: nat, proc: Proc,
                         o: Observation)
    requires Rows(limit, t, procs, log) && p in procs && procs[p].phase.Ready?
    requires o.Published? && o.id in t && o.body == t[o.id].body
    requires if o.ok then proc.phase == Delivered(o.id) else proc.phase.Rejected? && proc.phase.id == o.id
    ensures Rows(limit, t, procs[p := proc], log + [o])
  {
    forall id | id in t ensures RowOk(limit, id, t[id], log + [o], |Uncounted(procs[p := proc], id)|) {
      assert RowOk(limit, id, t[id], log, |Uncounted(procs, id)|);
      if o.ok {
        UncountedSame(procs, p, proc, id);
      } else {
        UncountedPlus(procs, p, proc, id);
      }
      CountGrows(log, [o], Published(id, t[id].body, false));
      CountGrows(log, [o], Published(id, t[id].body, true));
    }
  }

  /** A publisher moves on without touching the table or the log. */
  lemma MoveKeepsInv(limit: int, s: World, p: nat, proc: Proc)
    requires Inv(limit, s) && (p in s.procs ==> !s.procs[p].phase.Rejected?) && !proc.phase.Rejected?
    requires ProcOk(limit, s.table, s.log, proc)
    ensures Inv(limit, SetProc(s, p, proc))
  {
    ProcsSet(limit, s.table, s.log, s.procs, p, proc);
    forall id | id in s.table ensures RowOk(limit, id, s.table[id], s.log, |Uncounted(s.procs[p := proc], id)|) {
      UncountedSame(s.procs, p, proc, id);
      assert RowOk(limit, id, s.table[id], s.log, |Uncounted(s.procs, id)|);
    }
  }

  lemma AttemptKeepsInv(limit: int, s: World, e: Event)
    requires Inv(limit, s) && e.Attempt? && e.p in s.procs && s.procs[e.p].phase.Ready? && s.procs[e.p].batch != []
    ensures Inv(limit, Step(s, e))
  {
    var proc := s.procs[e.p];
    var c, rest := proc.batch[0], proc.batch[1..];
    assert proc.batch == [c] + rest;
    assert ProcOk(limit, s.table, s.log, proc);
    assert CopyOk(s.table, proc.batch[0]);
    if proc.kind.Relay? && OverLimit(proc.kind.config, c) {
      MoveKeepsInv(limit, s, e.p, Proc(proc.kind, rest, Dropping(c.id)));
    } else if proc.kind.Relay? && BackingOff(proc.kind.config, c, e.now) {
      MoveKeepsInv(limit, s, e.p, Proc(proc.kind, rest, Ready));
    } else {
      PublishKeepsInv(limit, s, e.p, c, rest, e.ok, e.error);
    }
  }

  lemma ProcessedKeepsRows(limit: int, t: Table, procs: map<nat, Proc>, log: seq<Observation>, p: nat, now: int)
    requires Rows(limit, t, procs, log) && p in procs && (procs[p].phase.Dropping? || procs[p].phase.Delivered?)
    requires PhaseOk(limit, t, log, procs[p].phase)
    ensures Rows(limit, SetProcessed(t, procs[p].phase.id, now), procs[p := procs[p].(phase := Ready)], log)
  {
    var t', procs' := SetProcessed(t, procs[p].phase.id, now), procs[p := procs[p].(phase := Ready)];
    forall id | id in t' ensures RowOk(limit, id, t'[id], log, |Uncounted(procs', id)|) {
      UncountedSame(procs, p, procs'[p], id);
      assert RowOk(limit, id, t[id], log, |Uncounted(procs, id)|);
    }
  }

  lemma FailedKeepsRows(limit: int, t: Table, procs: map<nat, Proc>, log: seq<Observation>, p: nat, ok: bool)
    requires Rows(limit, t, procs, log) && p in procs && procs[p].phase.Rejected?
    ensures var t' := if ok then SetFailed(t, procs[p].phase.id, procs[p].phase.error) else t;
            Rows(limit, t', procs[p := procs[p].(phase := Ready)], log)
  {
    var t' := if ok then SetFailed(t, procs[p].phase.id, procs[p].phase.error) else t;
    var procs' := procs[p := procs[p].(phase := Ready)];
    forall id | id in t' ensures RowOk(limit, id, t'[id], log, |Uncounted(procs', id)|) {
      UncountedMinus(procs, p, procs'[p], id);
      assert RowOk(limit, id, t[id], log, |Uncounted(procs, id)|);
    }
  }

  /** Neither mark changes the content of a row or lowers its retry count. */
  lemma MarkGrows(t: Table, log: seq<Observation>, id: MsgId, now: int, error: string)
    requires LogOk(t, log)
    ensures Grows(t, SetProcessed(t, id, now)) && LogOk(SetProcessed(t, id, now), log)
    ensures Grows(t, SetFailed(t, id, error)) && LogOk(SetFailed(t, id, error), log)
  {
  }

  lemma LogPlusLost(t: Table, log: seq<Observation>, id: MsgId)
    requires LogOk(t, log)
    ensures LogOk(t, log + [LostMark(id)])
  {
  }

  lemma MarkFailedKeepsInv(limit: int, s: World, p: nat, ok: bool, now: int)
    requires Inv(limit, s) && p in s.procs && s.procs[p].phase.Rejected?
    requires ProcOk(limit, s.table, s.log, s.procs[p].(phase := Ready))
    ensures Inv(limit, MarkStep(s, p, ok, now))
  {
    var phase := s.procs[p].phase;
    MarkGrows(s.table, s.log, phase.id, now, phase.error);
    FailedKeepsRows(limit, s.table, s.procs, s.log, p, ok);
    MarkKeepsProcs(limit, s, p, if ok then SetFailed(s.table, phase.id, phase.error) else s.table, []);
  }

  lemma MarkProcessedKeepsInv(limit: int, s: World, p: nat, now: int)
    requires Inv(limit, s) && p in s.procs && (s.procs[p].phase.Dropping? || s.procs[p].phase.Delivered?)
    requires ProcOk(limit, s.table, s.log, s.procs[p]) && ProcOk(limit, s.table, s.log, s.procs[p].(phase := Ready))
    ensures Inv(limit, MarkStep(s, p, true, now))
  {
    MarkGrows(s.table, s.log, s.procs[p].phase.id, now, "");
    ProcessedKeepsRows(limit, s.table, s.procs, s.log, p, now);
    MarkKeepsProcs(limit, s, p, SetProcessed(s.table, s.procs[p].phase.id, now), []);
  }

  lemma LostMarkKeepsInv(limit: int, s: World, p: nat, now: int)
    requires Inv(limit, s) && p in s.procs && s.procs[p].phase.Delivered?
    requires ProcOk(limit, s.table, s.log, s.procs[p].(phase := Ready))
    ensures Inv(limit, MarkStep(s, p, false, now))
  {
    var id := s.procs[p].phase.id;
    LogPlusLost(s.table, s.log, id);
    LostKeepsRows(limit, s.table, s.procs, s.procs[p := s.procs[p].(phase := Ready)], s.log, p, id);
    MarkKeepsProcs(limit, s, p, s.table, [LostMark(id)]);
  }

  lemma MarkKeepsInv(limit: int, s: World, p: nat, ok: bool, now: int)
    requires Inv(limit, s) && p in s.procs && !s.procs[p].phase.Ready?
    ensures Inv(limit, MarkStep(s, p, ok, now))
  {
    assert ProcOk(limit, s.table, s.log, s.procs[p]);
    assert ProcOk(limit, s.table, s.log, s.procs[p].(phase := Ready));
    if s.procs[p].phase.Rejected? {
      MarkFailedKeepsInv(limit, s, p, ok, now);
    } else if ok {
      MarkProcessedKeepsInv(limit, s, p, now);
    } else if s.procs[p].phase.Delivered? {
      LostMarkKeepsInv(limit, s, p, now);
    } else {
      MoveKeepsInv(limit, s, p, s.procs[p].(phase := Ready));
    }
  }

  lemma MarkKeepsProcs(limit: int, s: World, p: nat, t: Table, more: seq<Observation>)
    requires Procs(limit, s.table, s.log, s.procs) && p in s.procs && Grows(s.table, t)
    requires ProcOk(limit, s.table, s.log, s.procs[p].(phase := Ready))
    ensures Procs(limit, t, s.log + more, s.procs[p := s.procs[p].(phase := Ready)])
    ensures more == [] ==> Procs(limit, t, s.log, s.procs[p := s.procs[p].(phase := Ready)])
  {
    ProcsSet(limit, s.table, s.log, s.procs, p, s.procs[p].(phase := Ready));
    ProcsGrow(limit, s.table, s.log, s.procs[p := s.procs[p].(phase := Ready)], t, more);
    assert more == [] ==> s.log + more == s.log;
  }

  lemma LostKeepsRows(limit: int, t: Table, procs: map<nat, Proc>, procs': map<nat, Proc>, log: seq<Observation>,
                      p: nat, lost: MsgId)
    requires Rows(limit, t, procs, log) && p in procs && procs[p].phase.Delivered?
    requires procs' == procs - {p} || procs' == procs[p := procs[p].(phase := Ready)]
    ensures Rows(limit, t, procs', log + [LostMark(lost)])
  {
    forall id | id in t ensures RowOk(limit, id, t[id], log + [LostMark(lost)], |Uncounted(procs', id)|) {
      assert RowOk(limit, id, t[id], log, |Uncounted(procs, id)|);
      assert Uncounted(procs', id) == Uncounted(procs, id);
      RowLogGrows(limit, id, t[id], log, [LostMark(lost)], |Uncounted(procs, id)|, |Uncounted(procs, id)|);
    }
  }

  lemma CrashKeepsInv(limit: int, s: World, p: nat)
    requires Inv(limit, s)
    ensures Inv(limit, Step(s, Crash(p)))
  {
    if p in s.procs && s.procs[p].phase.Delivered? {
      var o := LostMark(s.procs[p].phase.id);
      LostKeepsRows(limit, s.table, s.procs, s.procs - {p}, s.log, p, s.procs[p].phase.id);
      ProcsGrow(limit, s.table, s.log, s.procs - {p}, s.table, [o]);
    } else {
      forall id | id in s.table ensures RowOk(limit, id, s.table[id], s.log, |Uncounted(s.procs - {p}, id)|) {
        UncountedGone(s.procs, p, id);
        assert RowOk(limit, id, s.table[id], s.log, |Uncounted(s.procs, id)|);
      }
    }
  }

  lemma CommitKeepsInv(limit: int, s: World, tx: nat, ok: bool)
    requires Inv(limit, s) && tx in s.txs
    ensures Inv(limit, CommitStep(s, tx, ok))
  {
    var added := s.txs[tx];
    if ok && added.Keys !! s.table.Keys {
      CommitKeepsRows(limit, s.table, s.procs, s.log, added);
      ProcsGrow(limit, s.table, s.log, s.procs, s.table + added, []);
      assert s.log + [] == s.log;
    }
  }

  lemma CommitKeepsRows(limit: int, t: Table, procs: map<nat, Proc>, log: seq<Observation>, added: Table)
    requires Rows(limit, t, procs, log) && Procs(limit, t, log, procs) && added.Keys !! t.Keys
    requires forall id :: id in added ==> NewRow(added[id])
    ensures Rows(limit, t + added, procs, log)
  {
    forall id | id in t + added ensures RowOk(limit, id, (t + added)[id], log, |Uncounted(procs, id)|) {
      if id in t {
        assert RowOk(limit, id, t[id], log, |Uncounted(procs, id)|);
      } else {
        forall p | p in procs ensures !(procs[p].phase.Rejected? && procs[p].phase.id == id) {
          assert ProcOk(limit, t, log, procs[p]);
        }
        assert Uncounted(procs, id) == {};
      }
    }
  }

  lemma FetchKeepsInv(limit: int, s: World, p: nat, kind: Publisher, batch: seq<Copy>)
    requires Inv(limit, s) && Idle(s, p) && IsBatch(s.table, BatchSize(kind), batch)
    requires kind.Relay? ==> kind.config.maxRetries <= 0 || kind.config.maxRetries >= limit
    ensures Inv(limit, SetProc(s, p, Proc(kind, batch, Ready)))
  {
    MoveKeepsInv(limit, s, p, Proc(kind, batch, Ready));
  }

  /** No relay gives up on a message before `limit` failures. */
  predicate RespectsLimit(e: Event, limit: int)
  {
    e.Fetch? && e.kind.Relay? ==> e.kind.config.maxRetries <= 0 || e.kind.config.maxRetries >= limit
  }

  lemma StepKeepsInv(limit: int, s: World, e: Event)
    requires Inv(limit, s) && RespectsLimit(e, limit)
    ensures Inv(limit, Step(s, e))
  {
    match e
    case Begin(tx) =>
    case Save(tx, id, body, createdAt, ok) =>
    case Commit(tx, ok) =>
      if tx in s.txs {
        CommitKeepsInv(limit, s, tx, ok);
      }
    case Abort(tx) =>
    case Fetch(p, kind, batch) =>
      if Idle(s, p) && IsBatch(s.table, BatchSize(kind), batch) {
        FetchKeepsInv(limit, s, p, kind, batch);
      }
    case Attempt(p, now, ok, error) =>
      if p in s.procs && s.procs[p].phase.Ready? && s.procs[p].batch != [] {
        AttemptKeepsInv(limit, s, e);
      }
    case Mark(p, ok, now) =>
      if p in s.procs && !s.procs[p].phase.Ready? {
        MarkKeepsInv(limit, s, p, ok, now);
      }
    case Crash(p) => CrashKeepsInv(limit, s, p);
  }

  lemma {:induction false} RunKeepsInv(limit: int, s: World, events: seq<Event>)
    requires Inv(limit, s) && forall e :: e in events ==> RespectsLimit(e, limit)
    ensures Inv(limit, Run(s, events))
    decreases |events|
  {
    if events != [] {
      assert events[0] in events && forall e :: e in events[1..] ==> e in events;
      StepKeepsInv(limit, s, events[0]);
      RunKeepsInv(limit, Step(s, events[0]), events[1..]);
    }
  }

  // ------------------------------------------------------------------ what it gives

  /** Across crashes, lost marks and any number of publishers, a processed message was published at least
      once with its saved topic, payload and headers, or its publication failed at least `limit` times,
      where no relay gives up before `limit` failures. */
  lemma ProcessedWasPublishedOrGivenUp(limit: int, events: seq<Event>, id: MsgId)
    requires forall e :: e in events ==> RespectsLimit(e, limit)
    requires var t := Run(START, events).table; id in t && t[id].processedAt.Some?
    ensures var s := Run(START, events);
            || Deliveries(s.log, id, s.table[id].body) >= 1
            || Failures(s.log, id, s.table[id].body) >= limit
  {
    RunKeepsInv(limit, START, events);
    var s := Run(START, events);
    assert RowOk(limit, id, s.table[id], s.log, |Uncounted(s.procs, id)|);
  }

  /** This event commits a transaction that saved id; a key conflict would roll it back. */
  predicate Commits(s: World, e: Event, id: MsgId)
  {
    e.Commit? && e.ok && e.tx in s.txs && id in s.txs[e.tx] && s.txs[e.tx].Keys !! s.table.Keys
  }

  predicate CommittedDuring(s: World, events: seq<Event>, id: MsgId)
    decreases |events|
  {
    events != [] && (Commits(s, events[0], id) || CommittedDuring(Step(s, events[0]), events[1..], id))
  }

  lemma OnlyCommitInserts(s: World, e: Event, id: MsgId)
    requires id !in s.table && !Commits(s, e, id)
    ensures id !in Step(s, e).table
  {
  }

  lemma {:induction false} UncommittedStaysOut(s: World, events: seq<Event>, id: MsgId)
    requires id !in s.table && !CommittedDuring(s, events, id)
    ensures id !in Run(s, events).table
    decreases |events|
  {
    if events != [] {
      OnlyCommitInserts(s, events[0], id);
      UncommittedStaysOut(Step(s, events[0]), events[1..], id);
    }
  }

  /** A message whose transaction never commits is never published, and a published one has the content
      that its transaction committed. */
  lemma OnlyCommittedIsPublished(events: seq<Event>, o: Observation)
    requires o in Run(START, events).log && o.Published?
    ensures CommittedDuring(START, events, o.id)
    ensures var t := Run(START, events).table; o.id in t && t[o.id].body == o.body
  {
    RunKeepsInv(0, START, events);
    if !CommittedDuring(START, events, o.id) {
      UncommittedStaysOut(START, events, o.id);
    }
  }
}
