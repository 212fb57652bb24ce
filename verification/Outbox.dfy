/** messaging/outbox_postgres.go, messaging/relay.go, messaging/outbox_helper.go: every interleaving of
    transactions that save messages and of relays and PublishFromOutbox callers that publish them.
    A statement may fail and a publisher may crash at any moment. An event that is not enabled changes
    nothing. The log records what the broker saw. */
module Outbox {
  import opened Common
  import opened RetryPolicies

  datatype MsgId = MsgId(text: string)

  /** What is published: it never changes once saved. */
  datatype Body = Body(topic: string, payload: seq<int>, headers: map<string, string>)

  datatype Row = Row(body: Body, createdAt: int, processedAt: Option<int>, retryCount: int, error: string)

  type Table = map<MsgId, Row>

  /** A message as GetPendingMessages returned it; the row may have changed since. */
  datatype Copy = Copy(id: MsgId, row: Row)

  datatype RelayConfig = RelayConfig(
    batchSize: int,
    maxRetries: int,
    initialBackoff: int,
    maxBackoff: int,
    backoffFactor: real)

  /** A relay's process loop, or a call of PublishFromOutbox. */
  datatype Publisher = Relay(config: RelayConfig) | Helper(batchSize: int)

  /** Between two messages, or between the publish (or drop) of one and its mark. */
  datatype Phase = Ready | Dropping(id: MsgId) | Delivered(id: MsgId) | Rejected(id: MsgId, error: string)

  datatype Proc = Proc(kind: Publisher, batch: seq<Copy>, phase: Phase)

  /** A publish attempt and its result; a message that was published and whose mark was then lost. */
  datatype Observation = Published(id: MsgId, body: Body, ok: bool) | LostMark(id: MsgId)

  datatype World = World(table: Table, txs: map<nat, Table>, procs: map<nat, Proc>, log: seq<Observation>)

  datatype Event =
    | Begin(tx: nat)
    | Save(tx: nat, id: MsgId, body: Body, createdAt: int, ok: bool)
    | Commit(tx: nat, ok: bool)
    | Abort(tx: nat)
    | Fetch(p: nat, kind: Publisher, batch: seq<Copy>)
    | Attempt(p: nat, now: int, ok: bool, error: string)
    | Mark(p: nat, ok: bool, now: int)
    | Crash(p: nat)

  // ------------------------------------------------------------------ the statements

  predicate Pending(t: Table, id: MsgId) { id in t && t[id].processedAt.None? }

  predicate HasCopy(batch: seq<Copy>, id: MsgId)
  {
    exists i :: 0 <= i < |batch| && batch[i].id == id
  }

  /** What SELECT ... WHERE processed_at IS NULL ORDER BY created_at LIMIT n may return. */
  predicate IsBatch(t: Table, limit: int, batch: seq<Copy>)
  {
    && |batch| <= limit
    && (forall i :: 0 <= i < |batch| ==> Pending(t, batch[i].id) && batch[i].row == t[batch[i].id])
    && (forall i, j :: 0 <= i < j < |batch| ==> batch[i].id != batch[j].id)
    && (forall i, j :: 0 <= i < j < |batch| ==> batch[i].row.createdAt <= batch[j].row.createdAt)
    && (forall id, i :: id in t && Pending(t, id) && !HasCopy(batch, id) && 0 <= i < |batch| ==>
          batch[i].row.createdAt <= t[id].createdAt)
    && (|batch| < limit ==> forall id :: id in t && Pending(t, id) ==> HasCopy(batch, id))
  }

  function SetProcessed(t: Table, id: MsgId, now: int): Table
  {
    if id in t then t[id := t[id].(processedAt := Some(now), error := "")] else t
  }

  function SetFailed(t: Table, id: MsgId, error: string): Table
  {
    if id in t then t[id := t[id].(retryCount := t[id].retryCount + 1, error := error)] else t
  }

  predicate OverLimit(config: RelayConfig, c: Copy)
  {
    c.row.retryCount >= config.maxRetries && config.maxRetries > 0
  }

  /** Too early for another attempt; the delay counts from the creation of the message. */
  predicate BackingOff(config: RelayConfig, c: Copy, now: int)
  {
    c.row.retryCount > 0 &&
    c.row.createdAt > now - RelayBackoff(config.initialBackoff, config.maxBackoff,
                                          config.backoffFactor, c.row.retryCount)
  }

  // ------------------------------------------------------------------ the steps

  function BatchSize(kind: Publisher): int { if kind.Relay? then kind.config.batchSize else kind.batchSize }

  predicate Idle(s: World, p: nat)
  {
    p in s.procs ==> s.procs[p].batch == [] && s.procs[p].phase.Ready?
  }

  function SetProc(s: World, p: nat, proc: Proc): World { s.(procs := s.procs[p := proc]) }

  function AttemptStep(s: World, p: nat, now: int, ok: bool, error: string): World
    requires p in s.procs && s.procs[p].phase.Ready? && s.procs[p].batch != []
  {
    var proc := s.procs[p];
    var c, rest := proc.batch[0], proc.batch[1..];
    if proc.kind.Relay? && OverLimit(proc.kind.config, c) then SetProc(s, p, Proc(proc.kind, rest, Dropping(c.id)))
    else if proc.kind.Relay? && BackingOff(proc.kind.config, c, now) then SetProc(s, p, Proc(proc.kind, rest, Ready))
    else
      var phase := if ok then Delivered(c.id) else Rejected(c.id, error);
      SetProc(s, p, Proc(proc.kind, rest, phase)).(log := s.log + [Published(c.id, c.row.body, ok)])
  }

  function MarkStep(s: World, p: nat, ok: bool, now: int): World
    requires p in s.procs
  {
    var done := SetProc(s, p, s.procs[p].(phase := Ready));
    match s.procs[p].phase
    case Ready => s
    case Dropping(id) => if ok then done.(table := SetProcessed(s.table, id, now)) else done
    case Delivered(id) =>
      if ok then done.(table := SetProcessed(s.table, id, now)) else done.(log := s.log + [LostMark(id)])
    case Rejected(id, error) => if ok then done.(table := SetFailed(s.table, id, error)) else done
  }

  /** The rows of a transaction become visible together or not at all. */
  function CommitStep(s: World, tx: nat, ok: bool): World
    requires tx in s.txs
  {
    var closed := s.(txs := s.txs - {tx});
    if ok && s.txs[tx].Keys !! s.table.Keys then closed.(table := s.table + s.txs[tx]) else closed
  }

  function Step(s: World, e: Event): World
  {
    match e
    case Begin(tx) => if tx in s.txs then s else s.(txs := s.txs[tx := map[]])
    case Save(tx, id, body, createdAt, ok) =>
      if tx !in s.txs then s
      // A failed INSERT makes the callback fail, and Transaction rolls back.
      else if !ok || id in s.table || id in s.txs[tx] then s.(txs := s.txs - {tx})
      else s.(txs := s.txs[tx := s.txs[tx][id := Row(body, createdAt, None, 0, "")]])
    case Commit(tx, ok) => if tx in s.txs then CommitStep(s, tx, ok) else s
    case Abort(tx) => s.(txs := s.txs - {tx})
    case Fetch(p, kind, batch) =>
      if Idle(s, p) && IsBatch(s.table, BatchSize(kind), batch) then SetProc(s, p, Proc(kind, batch, Ready)) else s
    case Attempt(p, now, ok, error) =>
      if p in s.procs && s.procs[p].phase.Ready? && s.procs[p].batch != [] then AttemptStep(s, p, now, ok, error) else s
    case Mark(p, ok, now) => if p in s.procs then MarkStep(s, p, ok, now) else s
    case Crash(p) =>
      var gone := s.(procs := s.procs - {p});
      if p in s.procs && s.procs[p].phase.Delivered?
      then gone.(log := s.log + [LostMark(s.procs[p].phase.id)]) else gone
  }

  function Run(s: World, events: seq<Event>): World
    decreases |events|
  {
    if events == [] then s else Run(Step(s, events[0]), events[1..])
  }

  const START := World(map[], map[], map[], [])

  function Count(log: seq<Observation>, o: Observation): nat { multiset(log)[o] }

  function Failures(log: seq<Observation>, id: MsgId, body: Body): nat { Count(log, Published(id, body, false)) }

  function Deliveries(log: seq<Observation>, id: MsgId, body: Body): nat { Count(log, Published(id, body, true)) }
}
