/** messaging/outbox_postgres.go, messaging/relay.go: what is published is what was saved, and a relay waits
    for its backoff. */
module OutboxSaved {
  import opened Common
  import opened RetryPolicies
  import opened Outbox
  import opened OutboxSafety
  import opened OutboxRelays

  // ------------------------------------------------------------------ the origin of a row

  /** The world after the first n events. */
  function At(events: seq<Event>, n: nat): World
    requires n <= |events|
  {
    Run(START, events[..n])
  }

  lemma {:induction false} RunSnoc(s: World, events: seq<Event>, e: Event)
    ensures Run(s, events + [e]) == Step(Run(s, events), e)
    decreases |events|
  {
    if events == [] {
      assert ([] + [e])[1..] == [];
    } else {
      assert (events + [e])[1..] == events[1..] + [e];
      RunSnoc(Step(s, events[0]), events[1..], e);
    }
  }

  lemma AtNext(events: seq<Event>, n: nat)
    requires n < |events|
    ensures At(events, n + 1) == Step(At(events, n), events[n])
  {
    assert events[..n + 1] == events[..n] + [events[n]];
    RunSnoc(START, events[..n], events[n]);
  }

  /** From after event i up to n, transaction tx stays open and holds this row for id. */
  predicate OpenWith(events: seq<Event>, i: nat, n: nat, tx: nat, id: MsgId, row: Row)
    requires n <= |events|
  {
    forall k :: i < k <= n ==> var txs := At(events, k).txs; tx in txs && id in txs[tx] && txs[tx][id] == row
  }

  /** Event i saved the row in transaction tx, and the transaction has stayed open with it up to n. */
  predicate SavedAt(events: seq<Event>, i: nat, n: nat, tx: nat, id: MsgId, body: Body, createdAt: int)
    requires n <= |events|
  {
    && i < n && events[i] == Save(tx, id, body, createdAt, true)
    && OpenWith(events, i, n, tx, id, Row(body, createdAt, None, 0, ""))
  }

  /** Event i saved this body under id, and event j committed the transaction, which had stayed open, without a
      key conflict. */
  predicate SavedAndCommitted(events: seq<Event>, i: nat, j: nat, tx: nat, id: MsgId, body: Body, createdAt: int)
  {
    && j < |events| && SavedAt(events, i, j, tx, id, body, createdAt)
    && events[j] == Commit(tx, true) && tx in At(events, j).txs
    && At(events, j).txs[tx].Keys !! At(events, j).table.Keys
  }

  ghost predicate StagedFrom(events: seq<Event>, n: nat)
    requires n <= |events|
  {
    forall tx, id :: tx in At(events, n).txs && id in At(events, n).txs[tx] ==>
      var row := At(events, n).txs[tx][id];
      exists i: nat :: SavedAt(events, i, n, tx, id, row.body, row.createdAt)
  }

  ghost predicate RowsFrom(events: seq<Event>, n: nat)
    requires n <= |events|
  {
    forall id :: id in At(events, n).table ==> RowFrom(events, n, id, At(events, n).table[id])
  }

  ghost predicate RowFrom(events: seq<Event>, n: nat, id: MsgId, row: Row)
  {
    exists i: nat, j: nat, tx: nat :: j < n && SavedAndCommitted(events, i, j, tx, id, row.body, row.createdAt)
  }

  /** A row in a transaction after a step was there before, or the step is the Save of it. */
  lemma StagedStep(s: World, e: Event, tx: nat, id: MsgId)
    requires tx in Step(s, e).txs && id in Step(s, e).txs[tx]
    ensures var row := Step(s, e).txs[tx][id];
            || (tx in s.txs && id in s.txs[tx] && s.txs[tx][id] == row)
            || (e == Save(tx, id, row.body, row.createdAt, true) && row == Row(row.body, row.createdAt, None, 0, ""))
  {
  }

  /** A row in the table after a step was there before with the same content, or the step committed it. */
  lemma RowStep(s: World, e: Event, id: MsgId)
    requires id in Step(s, e).table
    ensures var row := Step(s, e).table[id];
            || (id in s.table && s.table[id].body == row.body && s.table[id].createdAt == row.createdAt)
            || (Commits(s, e, id) && s.txs[e.tx][id] == row)
  {
  }

  lemma {:induction false} StagedIsSaved(events: seq<Event>, n: nat)
    requires n <= |events|
    ensures StagedFrom(events, n)
    decreases n
  {
    if n > 0 {
      StagedIsSaved(events, n - 1);
      AtNext(events, n - 1);
      var s, s' := At(events, n - 1), At(events, n);
      forall tx, id | tx in s'.txs && id in s'.txs[tx]
        ensures exists i: nat :: SavedAt(events, i, n, tx, id, s'.txs[tx][id].body, s'.txs[tx][id].createdAt)
      {
        StagedStep(s, events[n - 1], tx, id);
        var row := s'.txs[tx][id];
        if tx in s.txs && id in s.txs[tx] && s.txs[tx][id] == row {
          var i: nat :| SavedAt(events, i, n - 1, tx, id, row.body, row.createdAt);
          assert At(events, n - 1).txs[tx][id] == row;
          assert SavedAt(events, i, n, tx, id, row.body, row.createdAt);
        } else {
          assert SavedAt(events, n - 1, n, tx, id, row.body, row.createdAt);
        }
      }
    } else {
      assert events[..0] == [];
    }
  }

  lemma {:induction false} RowsAreCommitted(events: seq<Event>, n: nat)
    requires n <= |events|
    ensures RowsFrom(events, n)
    decreases n
  {
    if n > 0 {
      RowsAreCommitted(events, n - 1);
      forall id | id in At(events, n).table ensures RowFrom(events, n, id, At(events, n).table[id]) {
        RowIsCommitted(events, n, id);
      }
    } else {
      assert events[..0] == [];
    }
  }

  lemma RowIsCommitted(events: seq<Event>, n: nat, id: MsgId)
    requires 0 < n <= |events| && RowsFrom(events, n - 1) && id in At(events, n).table
    ensures RowFrom(events, n, id, At(events, n).table[id])
  {
    var s, e, row := At(events, n - 1), events[n - 1], At(events, n).table[id];
    AtNext(events, n - 1);
    RowStep(s, e, id);
    if id in s.table && s.table[id].body == row.body && s.table[id].createdAt == row.createdAt {
      assert RowFrom(events, n - 1, id, s.table[id]);
      var i: nat, j: nat, tx: nat :| j < n - 1 && SavedAndCommitted(events, i, j, tx, id, row.body, row.createdAt);
    } else {
      StagedIsSaved(events, n - 1);
      var i: nat :| SavedAt(events, i, n - 1, e.tx, id, row.body, row.createdAt);
      assert SavedAndCommitted(events, i, n - 1, e.tx, id, row.body, row.createdAt);
    }
  }

  /** No event between i and j ends the transaction: no abort, no commit and no failed Save of it. */
  predicate NotEnded(events: seq<Event>, i: nat, j: nat, tx: nat)
    requires j <= |events|
  {
    forall k :: i < k < j ==>
      && events[k] != Abort(tx)
      && !(events[k].Commit? && events[k].tx == tx)
      && !(events[k].Save? && events[k].tx == tx && !events[k].ok)
  }

  lemma EndedIsClosed(s: World, e: Event, tx: nat)
    requires e == Abort(tx) || (e.Commit? && e.tx == tx) || (e.Save? && e.tx == tx && !e.ok)
    ensures tx !in Step(s, e).txs && (!e.Commit? ==> Step(s, e).table == s.table)
  {
  }

  lemma OpenIsNotEnded(events: seq<Event>, i: nat, j: nat, tx: nat, id: MsgId, row: Row)
    requires j <= |events| && OpenWith(events, i, j, tx, id, row)
    ensures NotEnded(events, i, j, tx)
  {
    forall k | i < k < j
      ensures events[k] != Abort(tx) && !(events[k].Commit? && events[k].tx == tx)
      ensures !(events[k].Save? && events[k].tx == tx && !events[k].ok)
    {
      AtNext(events, k);
      assert tx in At(events, k + 1).txs;
      if events[k] == Abort(tx) || (events[k].Commit? && events[k].tx == tx)
         || (events[k].Save? && events[k].tx == tx && !events[k].ok) {
        EndedIsClosed(At(events, k), events[k], tx);
        assert false;
      }
    }
  }

  /** Every publication, successful or not, has the topic, payload and headers that a Save put under its id in a
      transaction that was neither aborted nor failed, and stayed open until its Commit took effect. */
  lemma PublishedWasSaved(events: seq<Event>, o: Observation) returns (i: nat, j: nat, tx: nat, createdAt: int)
    requires o in Run(START, events).log && o.Published?
    ensures SavedAndCommitted(events, i, j, tx, o.id, o.body, createdAt) && NotEnded(events, i, j, tx)
  {
    OnlyCommittedIsPublished(events, o);
    assert events[..|events|] == events;
    assert At(events, |events|) == Run(START, events);
    RowsAreCommitted(events, |events|);
    var row := Run(START, events).table[o.id];
    assert RowFrom(events, |events|, o.id, row);
    createdAt := row.createdAt;
    i, j, tx :| j < |events| && SavedAndCommitted(events, i, j, tx, o.id, row.body, createdAt);
    OpenIsNotEnded(events, i, j, tx, o.id, Row(row.body, createdAt, None, 0, ""));
  }

  // ------------------------------------------------------------------ a transaction run alone

  /** The INSERTs of the messages. */
  function SaveEvents(tx: nat, messages: seq<Copy>): seq<Event>
  {
    seq(|messages|, k requires 0 <= k < |messages| =>
      Save(tx, messages[k].id, messages[k].row.body, messages[k].row.createdAt, true))
  }

  /** The transaction holds exactly the messages as new rows, or it has been rolled back by a conflict. */
  predicate Staging(s: World, s': World, tx: nat, messages: seq<Copy>)
  {
    && s'.table == s.table
    && (tx in s'.txs <==> Insertable(s.table, messages))
    && (tx in s'.txs ==> Saves(map[], messages, s'.txs[tx]))
  }

  lemma StagingOneMore(s: World, s': World, tx: nat, messages: seq<Copy>, c: Copy)
    requires Staging(s, s', tx, messages)
    ensures Staging(s, Step(s', Save(tx, c.id, c.row.body, c.row.createdAt, true)), tx, messages + [c])
  {
    var longer := messages + [c];
    assert longer[..|messages|] == messages;
    if tx !in s'.txs {
      NotInsertable(s.table, longer, |messages|);
    } else if c.id in s.table {
      assert longer[|messages|].id in s.table;
    } else if c.id in s'.txs[tx] {
      Conflict(map[], messages, s'.txs[tx], c);
      assert !Insertable(s.table, longer);
    } else {
      SaveOneMore(map[], messages, s'.txs[tx], c);
      InsertableOneMore(s.table, messages, c, s'.txs[tx]);
    }
  }

  lemma InsertableOneMore(t: Table, messages: seq<Copy>, c: Copy, staged: Table)
    requires Insertable(t, messages) && c.id !in t && c.id !in staged && Saves(map[], messages, staged)
    ensures Insertable(t, messages + [c])
  {
    forall k | 0 <= k < |messages| ensures messages[k].id != c.id {
      assert messages[k].id in staged;
    }
  }

  lemma {:induction false} StagesAll(s: World, s': World, tx: nat, messages: seq<Copy>, n: nat)
    requires n <= |messages| && Staging(s, s', tx, [])
    ensures Staging(s, Run(s', SaveEvents(tx, messages[..n])), tx, messages[..n])
    decreases n
  {
    if n == 0 {
      assert messages[..0] == [];
    } else {
      var init, c := messages[..n - 1], messages[n - 1];
      StagesAll(s, s', tx, messages, n - 1);
      assert messages[..n] == init + [c];
      assert SaveEvents(tx, init + [c]) == SaveEvents(tx, init) + [Save(tx, c.id, c.row.body, c.row.createdAt, true)];
      RunSnoc(s', SaveEvents(tx, init), Save(tx, c.id, c.row.body, c.row.createdAt, true));
      StagingOneMore(s, Run(s', SaveEvents(tx, init)), tx, init, c);
    }
  }

  /** Begin, the Saves and Commit with nothing between them: the table gets exactly the messages as new pending
      rows, or, when the commit fails or an id is not new, nothing. */
  lemma TransactionAlone(s: World, tx: nat, messages: seq<Copy>, commitOk: bool)
    requires tx !in s.txs
    ensures var open := Run(Step(s, Begin(tx)), SaveEvents(tx, messages));
            var t := Step(open, Commit(tx, commitOk)).table;
            if commitOk && Insertable(s.table, messages) then Saves(s.table, messages, t) else t == s.table
  {
    var s0 := Step(s, Begin(tx));
    assert s0.txs[tx] == map[];
    assert Saves(map[], [], map[]);
    StagesAll(s, s0, tx, messages, |messages|);
    assert messages[..|messages|] == messages;
    var open := Run(s0, SaveEvents(tx, messages));
    if tx in open.txs {
      CommitAdds(s.table, messages, open.txs[tx]);
    }
  }

  lemma CommitAdds(t: Table, messages: seq<Copy>, staged: Table)
    requires Insertable(t, messages) && Saves(map[], messages, staged)
    ensures staged.Keys !! t.Keys && Saves(t, messages, t + staged)
  {
    forall id | id in staged ensures id !in t {
      assert HasCopy(messages, id);
    }
  }

  // ------------------------------------------------------------------ the relay's backoff

  /** A relay publishes the next message of its batch exactly when it is below the retry limit and its first
      attempt, or a retry at or after the creation time plus the backoff of its failures so far. Otherwise it
      passes it over, or goes on to drop it at the limit. */
  lemma RelayAttemptsExactlyWhenDue(s: World, p: nat, now: int, ok: bool, error: string)
    requires p in s.procs && s.procs[p].phase.Ready? && s.procs[p].batch != [] && s.procs[p].kind.Relay?
    ensures var c, config, s' := s.procs[p].batch[0], s.procs[p].kind.config, Step(s, Attempt(p, now, ok, error));
            var spent := config.maxRetries > 0 && c.row.retryCount >= config.maxRetries;
            var due := c.row.retryCount <= 0 ||
                       c.row.createdAt + RelayBackoff(config.initialBackoff, config.maxBackoff, config.backoffFactor,
                                                      c.row.retryCount) <= now;
            && s'.table == s.table && s'.procs[p].batch == s.procs[p].batch[1..]
            && s'.log == (if !spent && due then s.log + [Published(c.id, c.row.body, ok)] else s.log)
            && s'.procs[p].phase == (if spent then Dropping(c.id) else if !due then Ready
                                     else if ok then Delivered(c.id) else Rejected(c.id, error))
  {
  }

  /** PublishFromOutbox publishes every message of its batch. */
  lemma HelperAlwaysAttempts(s: World, p: nat, now: int, ok: bool, error: string)
    requires p in s.procs && s.procs[p].phase.Ready? && s.procs[p].batch != [] && s.procs[p].kind.Helper?
    ensures var c, s' := s.procs[p].batch[0], Step(s, Attempt(p, now, ok, error));
            && s'.table == s.table && s'.log == s.log + [Published(c.id, c.row.body, ok)]
            && s'.procs[p] == Proc(s.procs[p].kind, s.procs[p].batch[1..],
                                   if ok then Delivered(c.id) else Rejected(c.id, error))
  {
  }
}
