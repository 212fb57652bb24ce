/** messaging/relay.go, messaging/outbox_postgres.go, messaging/outbox_helper.go: the store and the batch
    loops as they run without interference, and how fast a relay empties the outbox. */
module OutboxRelays {
  import opened Common
  import opened RetryPolicies
  import opened Outbox
  import opened Sums

  /** What happens to the i-th message of a batch: the clock, the broker's answer and whether the mark succeeds. */
  datatype Fate = Fate(now: int, ok: bool, error: string, markOk: bool)

  // ------------------------------------------------------------------ one batch on the table

  function AfterPublish(t: Table, c: Copy, f: Fate): Table
  {
    if !f.markOk then t
    else if f.ok then SetProcessed(t, c.id, f.now)
    else SetFailed(t, c.id, f.error)
  }

  /** One turn of the loop in processBatch (relay) or PublishFromOutbox (helper). */
  function AfterMessage(kind: Publisher, t: Table, c: Copy, f: Fate): Table
  {
    if kind.Relay? && OverLimit(kind.config, c) then (if f.markOk then SetProcessed(t, c.id, f.now) else t)
    else if kind.Relay? && BackingOff(kind.config, c, f.now) then t
    else AfterPublish(t, c, f)
  }

  function AfterBatch(kind: Publisher, t: Table, batch: seq<Copy>, fates: seq<Fate>): Table
    requires |batch| <= |fates|
    decreases |batch|
  {
    if batch == [] then t else AfterBatch(kind, AfterMessage(kind, t, batch[0], fates[0]), batch[1..], fates[1..])
  }

  /** The loop from its other end. */
  lemma {:induction false} AfterBatchLast(kind: Publisher, t: Table, batch: seq<Copy>, fates: seq<Fate>, i: nat)
    requires i < |batch| <= |fates|
    ensures AfterBatch(kind, t, batch[..i + 1], fates)
         == AfterMessage(kind, AfterBatch(kind, t, batch[..i], fates), batch[i], fates[i])
    decreases i
  {
    if i == 0 {
      assert batch[..1][1..] == [] && batch[..0] == [];
    } else {
      var t' := AfterMessage(kind, t, batch[0], fates[0]);
      AfterBatchLast(kind, t', batch[1..], fates[1..], i - 1);
      assert batch[..i + 1][1..] == batch[1..][..i] && batch[..i][1..] == batch[1..][..i - 1];
    }
  }

  /** The loop is a run of the interleaving model in which only this publisher moves. */
  lemma {:induction false} BatchIsARun(s: World, p: nat, fates: seq<Fate>)
    requires p in s.procs && s.procs[p].phase.Ready? && |s.procs[p].batch| <= |fates|
    ensures Run(s, Moves(p, |s.procs[p].batch|, fates)).table
         == AfterBatch(s.procs[p].kind, s.table, s.procs[p].batch, fates)
    decreases |s.procs[p].batch|
  {
    var proc := s.procs[p];
    if proc.batch != [] {
      var f, n := fates[0], |proc.batch|;
      var e, e2 := Attempt(p, f.now, f.ok, f.error), Mark(p, f.markOk, f.now);
      var moves := Moves(p, n, fates);
      assert moves[0] == e && moves[1..][0] == e2 && moves[1..][1..] == Moves(p, n - 1, fates[1..]);
      var s2 := Step(Step(s, e), e2);
      assert Run(s, moves) == Run(s2, Moves(p, n - 1, fates[1..]));
      TurnEffect(s, p, f);
      BatchIsARun(s2, p, fates[1..]);
    }
  }

  /** An attempt and its mark, in turn for each message. */
  function Moves(p: nat, n: nat, fates: seq<Fate>): seq<Event>
    requires n <= |fates|
    decreases n
  {
    if n == 0 then []
    else [Attempt(p, fates[0].now, fates[0].ok, fates[0].error),
          Mark(p, fates[0].markOk, fates[0].now)] + Moves(p, n - 1, fates[1..])
  }

  lemma MarkEffect(s: World, p: nat, f: Fate)
    requires p in s.procs
    ensures var s2, phase := Step(s, Mark(p, f.markOk, f.now)), s.procs[p].phase;
            && p in s2.procs && s2.procs[p] == s.procs[p].(phase := Ready)
            && s2.table == if phase.Ready? || !f.markOk then s.table
                           else if phase.Rejected? then SetFailed(s.table, phase.id, phase.error)
                           else SetProcessed(s.table, phase.id, f.now)
  {
  }

  lemma TurnEffect(s: World, p: nat, f: Fate)
    requires p in s.procs && s.procs[p].phase.Ready? && s.procs[p].batch != []
    ensures var s2 := Step(Step(s, Attempt(p, f.now, f.ok, f.error)), Mark(p, f.markOk, f.now));
            && p in s2.procs && s2.procs[p] == s.procs[p].(batch := s.procs[p].batch[1..])
            && s2.table == AfterMessage(s.procs[p].kind, s.table, s.procs[p].batch[0], f)
  {
    var s1 := Step(s, Attempt(p, f.now, f.ok, f.error));
    assert s1 == AttemptStep(s, p, f.now, f.ok, f.error);
    MarkEffect(s1, p, f);
  }

  // ------------------------------------------------------------------ draining

  /** Batches a pending row may still need: its remaining retries and one more. */
  function Remaining(config: RelayConfig, row: Row): nat
  {
    (if row.retryCount < config.maxRetries then config.maxRetries - row.retryCount else 0) + 1
  }

  function Weights(config: RelayConfig, t: Table): map<MsgId, nat>
  {
    map id | id in t && Pending(t, id) :: Remaining(config, t[id])
  }

  /** Every pending message is past its longest backoff at every moment of the batch. */
  predicate PastBackoff(config: RelayConfig, t: Table, fates: seq<Fate>)
  {
    forall id, i :: id in t && Pending(t, id) && 0 <= i < |fates| ==>
      t[id].createdAt + config.maxBackoff <= fates[i].now
  }

  predicate MarksWork(fates: seq<Fate>) { forall i :: 0 <= i < |fates| ==> fates[i].markOk }

  /** Changing one row so that it needs fewer batches lowers the sum. */
  lemma RowSpends(config: RelayConfig, t: Table, id: MsgId, row: Row)
    requires Pending(t, id) && (row.processedAt.Some? || Remaining(config, row) < Remaining(config, t[id]))
    ensures Sum(Weights(config, t[id := row])) < Sum(Weights(config, t))
  {
    var before, after := Weights(config, t), Weights(config, t[id := row]);
    SumSplit(before, id);
    if row.processedAt.Some? {
      assert after == before - {id};
    } else {
      assert after == before[id := Remaining(config, row)];
      SumUpdate(before, id, Remaining(config, row));
    }
  }

  /** Past the backoff a message with working marks makes progress: published, given up, or one retry fewer. */
  lemma MessageSpends(config: RelayConfig, t: Table, c: Copy, f: Fate)
    requires Pending(t, c.id) && c.row == t[c.id] && f.markOk && config.maxRetries > 0
    requires c.row.createdAt + config.maxBackoff <= f.now
    ensures Sum(Weights(config, AfterMessage(Relay(config), t, c, f))) < Sum(Weights(config, t))
  {
    assert !BackingOff(config, c, f.now);
    if OverLimit(config, c) || f.ok {
      RowSpends(config, t, c.id, t[c.id].(processedAt := Some(f.now), error := ""));
    } else {
      RowSpends(config, t, c.id, t[c.id].(retryCount := t[c.id].retryCount + 1, error := f.error));
    }
  }

  /** A message only touches its own row, and keeps its creation time. */
  lemma MessageFrame(kind: Publisher, t: Table, c: Copy, f: Fate)
    ensures var t' := AfterMessage(kind, t, c, f);
            && t'.Keys == t.Keys
            && (forall id :: id in t && id != c.id ==> t'[id] == t[id])
            && (forall id :: id in t ==> t'[id].createdAt == t[id].createdAt && (Pending(t', id) ==> Pending(t, id)))
  {
  }

  /** The rest of a batch as it is in the table. */
  predicate Current(t: Table, batch: seq<Copy>)
  {
    && (forall i :: 0 <= i < |batch| ==> Pending(t, batch[i].id) && batch[i].row == t[batch[i].id])
    && (forall i, j :: 0 <= i < j < |batch| ==> batch[i].id != batch[j].id)
  }

  lemma CurrentTail(config: RelayConfig, t: Table, batch: seq<Copy>, f: Fate)
    requires Current(t, batch) && batch != []
    ensures Current(AfterMessage(Relay(config), t, batch[0], f), batch[1..])
  {
    MessageFrame(Relay(config), t, batch[0], f);
  }

  /** Every non-empty batch strictly lowers the sum. */
  lemma {:induction false} BatchSpends(config: RelayConfig, t: Table, batch: seq<Copy>, fates: seq<Fate>)
    requires Current(t, batch) && |batch| <= |fates| && config.maxRetries > 0
    requires MarksWork(fates) && PastBackoff(config, t, fates)
    ensures var t' := AfterBatch(Relay(config), t, batch, fates);
            && t'.Keys == t.Keys
            && (forall id :: id in t ==> t'[id].createdAt == t[id].createdAt && (Pending(t', id) ==> Pending(t, id)))
            && Sum(Weights(config, t')) + (if batch == [] then 0 else 1) <= Sum(Weights(config, t))
    decreases |batch|
  {
    if batch != [] {
      var t' := AfterMessage(Relay(config), t, batch[0], fates[0]);
      assert batch[0].row == t[batch[0].id] && fates[0].markOk;
      MessageSpends(config, t, batch[0], fates[0]);
      MessageFrame(Relay(config), t, batch[0], fates[0]);
      CurrentTail(config, t, batch, fates[0]);
      PastBackoffLater(config, t, t', fates);
      BatchSpends(config, t', batch[1..], fates[1..]);
    }
  }

  lemma PastBackoffLater(config: RelayConfig, t: Table, t': Table, fates: seq<Fate>)
    requires PastBackoff(config, t, fates) && fates != [] && MarksWork(fates)
    requires t'.Keys == t.Keys
    requires forall id :: id in t ==> t'[id].createdAt == t[id].createdAt && (Pending(t', id) ==> Pending(t, id))
    ensures PastBackoff(config, t', fates[1..]) && MarksWork(fates[1..])
  {
    forall id, i | id in t' && Pending(t', id) && 0 <= i < |fates[1..]|
      ensures t'[id].createdAt + config.maxBackoff <= fates[1..][i].now
    {
      assert fates[1..][i] == fates[i + 1] && Pending(t, id);
    }
  }

  /** A batch that was fetched, and what happened to its messages. */
  datatype Round = Round(batch: seq<Copy>, fates: seq<Fate>)

  /** Each round's batch is what GetPendingMessages returns at its turn, its marks work, and the clock is past
      every backoff. */
  predicate GoodRounds(config: RelayConfig, t: Table, rounds: seq<Round>)
    decreases |rounds|
  {
    rounds == [] ||
    (var r := rounds[0];
     && |r.batch| <= |r.fates| && IsBatch(t, config.batchSize, r.batch)
     && MarksWork(r.fates) && PastBackoff(config, t, r.fates)
     && GoodRounds(config, AfterBatch(Relay(config), t, r.batch, r.fates), rounds[1..]))
  }

  function AfterRounds(config: RelayConfig, t: Table, rounds: seq<Round>): Table
    requires GoodRounds(config, t, rounds)
    decreases |rounds|
  {
    if rounds == [] then t
    else AfterRounds(config, AfterBatch(Relay(config), t, rounds[0].batch, rounds[0].fates), rounds[1..])
  }

  /** The backlog is empty after at most as many batches as the sum over the pending rows of
      (MaxRetries - retry_count + 1): no message stays for ever. */
  lemma {:induction false} OutboxDrains(config: RelayConfig, t: Table, rounds: seq<Round>)
    requires config.maxRetries > 0 && config.batchSize >= 1 && GoodRounds(config, t, rounds)
    requires |rounds| >= Sum(Weights(config, t))
    ensures forall id :: id in t ==> !Pending(AfterRounds(config, t, rounds), id)
    ensures AfterRounds(config, t, rounds).Keys == t.Keys
    decreases |rounds|
  {
    if rounds == [] {
      NothingPending(config, t);
    } else {
      var r, rest := rounds[0], rounds[1..];
      var t' := AfterBatch(Relay(config), t, r.batch, r.fates);
      BatchSpends(config, t, r.batch, r.fates);
      if r.batch == [] {
        assert forall id :: id in t && Pending(t, id) ==> HasCopy(r.batch, id);
        NothingWeighs(config, t);
      }
      OutboxDrains(config, t', rest);
    }
  }

  lemma NothingPending(config: RelayConfig, t: Table)
    requires Sum(Weights(config, t)) == 0
    ensures forall id :: id in t ==> !Pending(t, id)
  {
    forall id | id in t ensures !Pending(t, id) {
      if Pending(t, id) {
        SumPositive(Weights(config, t), id);
      }
    }
  }

  lemma NothingWeighs(config: RelayConfig, t: Table)
    requires forall id :: id in t ==> !Pending(t, id)
    ensures Sum(Weights(config, t)) == 0
  {
    assert Weights(config, t) == map[];
  }

  // ------------------------------------------------------------------ the store and the loops as objects

  class PostgresOutboxStore {
    var rows: Table

    constructor ()
      ensures rows == map[]
    {
      rows := map[];
    }

    /** SELECT ... ORDER BY created_at LIMIT n, as repeated selection of the oldest remaining row. */
    method GetPendingMessages(limit: nat) returns (messages: seq<Copy>)
      ensures IsBatch(rows, limit, messages)
    {
      messages := [];
      var rest := set id | id in rows && Pending(rows, id);
      while |messages| < limit && rest != {}
        invariant |messages| <= limit && Selected(rows, messages, rest)
        decreases rest
      {
        var id := Oldest(rest);
        SelectNext(rows, messages, rest, id);
        messages := messages + [Copy(id, rows[id])];
        rest := rest - {id};
      }
    }

    method Oldest(ids: set<MsgId>) returns (oldest: MsgId)
      requires ids != {} && ids <= rows.Keys
      ensures oldest in ids && forall id :: id in ids ==> rows[oldest].createdAt <= rows[id].createdAt
    {
      oldest :| oldest in ids;
      var rest := ids - {oldest};
      while rest != {}
        invariant rest <= ids && oldest in ids
        invariant forall id :: id in ids && id !in rest ==> rows[oldest].createdAt <= rows[id].createdAt
        decreases rest
      {
        var id :| id in rest;
        if rows[id].createdAt < rows[oldest].createdAt {
          oldest := id;
        }
        rest := rest - {id};
      }
    }

    method MarkProcessed(id: MsgId, now: int, ok: bool)
      modifies this
      ensures rows.Keys == old(rows).Keys && forall x :: x in rows && !(ok && x == id) ==> rows[x] == old(rows)[x]
      ensures ok && id in rows ==> rows[id] == old(rows)[id].(processedAt := Some(now), error := "")
    {
      if ok {
        rows := SetProcessed(rows, id, now);
      }
    }

    method MarkFailed(id: MsgId, error: string, ok: bool)
      modifies this
      ensures rows.Keys == old(rows).Keys && forall x :: x in rows && !(ok && x == id) ==> rows[x] == old(rows)[x]
      ensures ok && id in rows ==>
                rows[id] == old(rows)[id].(retryCount := old(rows)[id].retryCount + 1, error := error)
    {
      if ok {
        rows := SetFailed(rows, id, error);
      }
    }

    /** PostgresDB.Transaction around SaveMessage calls: all rows are saved, or none. `callbackOk` and `commitOk`
        say whether the rest of the callback and the commit succeed. */
    method SaveAll(messages: seq<Copy>, callbackOk: bool, commitOk: bool) returns (ok: bool)
      modifies this
      ensures ok <==> callbackOk && commitOk && Insertable(old(rows), messages)
      ensures if ok then Saves(old(rows), messages, rows) else rows == old(rows)
    {
      var staged := rows;
      var i := 0;
      while i < |messages|
        invariant 0 <= i <= |messages| && rows == old(rows)
        invariant Insertable(rows, messages[..i]) && Saves(rows, messages[..i], staged)
      {
        var c := messages[i];
        assert messages[..i + 1] == messages[..i] + [c];
        if c.id in staged {
          Conflict(rows, messages[..i], staged, c);
          NotInsertable(rows, messages, i + 1);
          return false;
        }
        SaveOneMore(rows, messages[..i], staged, c);
        staged := staged[c.id := Row(c.row.body, c.row.createdAt, None, 0, "")];
        i := i + 1;
      }
      assert messages[..i] == messages;
      if !callbackOk || !commitOk {
        return false;
      }
      rows := staged;
      ok := true;
    }
  }

  /** No id is already in the table or saved twice. */
  predicate Insertable(t: Table, messages: seq<Copy>)
  {
    && (forall i :: 0 <= i < |messages| ==> messages[i].id !in t)
    && (forall i, j :: 0 <= i < j < |messages| ==> messages[i].id != messages[j].id)
  }

  /** after is t plus exactly the messages as new pending rows. */
  predicate Saves(t: Table, messages: seq<Copy>, after: Table)
  {
    && (forall id :: id in t ==> id in after && after[id] == t[id])
    && (forall i :: 0 <= i < |messages| ==>
          messages[i].id in after &&
          after[messages[i].id] == Row(messages[i].row.body, messages[i].row.createdAt, None, 0, ""))
    && (forall id :: id in after && id !in t ==> HasCopy(messages, id))
  }

  lemma SaveOneMore(t: Table, saved: seq<Copy>, staged: Table, c: Copy)
    requires Insertable(t, saved) && Saves(t, saved, staged) && c.id !in staged
    ensures Insertable(t, saved + [c])
    ensures Saves(t, saved + [c], staged[c.id := Row(c.row.body, c.row.createdAt, None, 0, "")])
  {
    var after := staged[c.id := Row(c.row.body, c.row.createdAt, None, 0, "")];
    forall id | id in after && id !in t ensures HasCopy(saved + [c], id) {
      if id == c.id {
        assert (saved + [c])[|saved|].id == id;
      } else {
        var k :| 0 <= k < |saved| && saved[k].id == id;
        assert (saved + [c])[k].id == id;
      }
    }
  }

  lemma Conflict(t: Table, saved: seq<Copy>, staged: Table, c: Copy)
    requires Saves(t, saved, staged) && c.id in staged
    ensures !Insertable(t, saved + [c])
  {
    var longer := saved + [c];
    assert longer[|saved|] == c;
    if c.id !in t {
      var k :| 0 <= k < |saved| && saved[k].id == c.id;
      assert longer[k].id == longer[|saved|].id;
    }
  }

  lemma NotInsertable(t: Table, messages: seq<Copy>, n: nat)
    requires n <= |messages| && !Insertable(t, messages[..n])
    ensures !Insertable(t, messages)
  {
  }

  /** The rows already selected, oldest first, and those that remain. */
  predicate Selected(t: Table, messages: seq<Copy>, rest: set<MsgId>)
  {
    && Current(t, messages)
    && (forall i, j :: 0 <= i < j < |messages| ==> messages[i].row.createdAt <= messages[j].row.createdAt)
    && (forall id :: id in rest ==> Pending(t, id) && !HasCopy(messages, id))
    && (forall id :: id in t && Pending(t, id) && !HasCopy(messages, id) ==> id in rest)
    && (forall id, i :: id in rest && 0 <= i < |messages| ==> messages[i].row.createdAt <= t[id].createdAt)
  }

  lemma SelectNext(t: Table, messages: seq<Copy>, rest: set<MsgId>, id: MsgId)
    requires Selected(t, messages, rest) && id in rest && forall x :: x in rest ==> t[id].createdAt <= t[x].createdAt
    ensures Selected(t, messages + [Copy(id, t[id])], rest - {id})
  {
    var longer := messages + [Copy(id, t[id])];
    assert longer[|messages|].id == id;
    forall x ensures HasCopy(longer, x) <==> HasCopy(messages, x) || x == id {
      if HasCopy(messages, x) {
        var i :| 0 <= i < |messages| && messages[i].id == x;
        assert longer[i].id == x;
      }
    }
  }

  method ProcessMessage(store: PostgresOutboxStore, kind: Publisher, c: Copy, f: Fate)
    modifies store
    ensures store.rows == AfterMessage(kind, old(store.rows), c, f)
  {
    if kind.Relay? && OverLimit(kind.config, c) {
      store.MarkProcessed(c.id, f.now, f.markOk);
    } else if kind.Relay? && BackingOff(kind.config, c, f.now) {
    } else if !f.ok {
      store.MarkFailed(c.id, f.error, f.markOk);
    } else {
      store.MarkProcessed(c.id, f.now, f.markOk);
    }
  }

  /** The loop over one fetched batch: OutboxRelay.processBatch for a relay, PublishFromOutbox for a helper.
      `queryOk` says whether the SELECT succeeds (a negative LIMIT never does); `fates` gives the clock
      readings, the broker's answers and the marks that succeed. */
  method ProcessBatch(store: PostgresOutboxStore, kind: Publisher, queryOk: bool, fates: seq<Fate>)
      returns (messages: seq<Copy>)
    requires BatchSize(kind) <= |fates|
    modifies store
    ensures if queryOk && BatchSize(kind) >= 0 then IsBatch(old(store.rows), BatchSize(kind), messages)
            else messages == []
    ensures |messages| <= |fates| && store.rows == AfterBatch(kind, old(store.rows), messages, fates)
  {
    if !queryOk || BatchSize(kind) < 0 {
      return [];
    }
    messages := store.GetPendingMessages(BatchSize(kind));
    var i := 0;
    while i < |messages|
      invariant 0 <= i <= |messages|
      invariant store.rows == AfterBatch(kind, old(store.rows), messages[..i], fates)
    {
      AfterBatchLast(kind, old(store.rows), messages, fates, i);
      ProcessMessage(store, kind, messages[i], fates[i]);
      i := i + 1;
    }
    assert messages[..i] == messages;
  }
}
