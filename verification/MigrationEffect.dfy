/** data/migration.go: what a call of Apply or Rollback does to the schema and to the version table, in terms
    of the SQL texts and versions alone. */
module MigrationEffects {
  import opened Common
  import opened Migrations

  // ------------------------------------------------------------------ running texts one after another

  function Executed<S>(exec: Exec<S>, schema: S, sqls: seq<string>): Option<S>
    decreases |sqls|
  {
    if sqls == [] then Some(schema)
    else
      var next := exec(sqls[0], schema);
      if next.None? then None else Executed(exec, next.value, sqls[1..])
  }

  function Ups(ms: seq<Migration>): seq<string> { seq(|ms|, i requires 0 <= i < |ms| => ms[i].upSQL) }

  function Downs(ms: seq<Migration>): seq<string> { seq(|ms|, i requires 0 <= i < |ms| => ms[i].downSQL) }

  // ------------------------------------------------------------------ what is selected

  predicate InReach(target: int, version: int) { target <= 0 || version <= target }

  /** In ascending order, exactly the registered migrations that are not applied and, for a positive target,
      not above it. */
  ghost predicate IsPendingList(todo: seq<Migration>, ms: seq<Migration>, applied: set<int>, target: int)
  {
    && Sorted(todo, true)
    && forall m :: m in todo <==> m in ms && m.version !in applied && InReach(target, m.version)
  }

  /** In descending order, exactly the registered migrations that are applied and above the target. */
  ghost predicate IsUndoList(todo: seq<Migration>, ms: seq<Migration>, applied: set<int>, target: int)
  {
    && Sorted(todo, false)
    && forall m :: m in todo <==> m in ms && m.version in applied && m.version > target
  }

  lemma PendingIsPendingList(ms: seq<Migration>, applied: set<int>, target: int)
    requires DistinctVersions(ms)
    ensures IsPendingList(Pending(Sort(ms, true), applied, target), ms, applied, target)
  {
    SortSorts(ms, true);
    PendingSorted(Sort(ms, true), applied, target);
    forall m ensures m in Pending(Sort(ms, true), applied, target)
                     <==> m in ms && m.version !in applied && InReach(target, m.version) {
      PendingMembers(Sort(ms, true), applied, target, m);
    }
  }

  lemma ToRollbackIsUndoList(ms: seq<Migration>, applied: set<int>, target: int)
    requires DistinctVersions(ms)
    ensures IsUndoList(ToRollback(Sort(ms, false), applied, target), ms, applied, target)
  {
    SortSorts(ms, false);
    ToRollbackSorted(Sort(ms, false), applied, target);
    forall m ensures m in ToRollback(Sort(ms, false), applied, target)
                     <==> m in ms && m.version in applied && m.version > target {
      ToRollbackMembers(Sort(ms, false), applied, target, m);
    }
  }

  // ------------------------------------------------------------------ Apply

  /** Old records stay, and a new one is the version and description of one of the migrations. */
  predicate Records(before: map<int, string>, todo: seq<Migration>, after: map<int, string>)
  {
    && (forall v :: v in before ==> v in after && after[v] == before[v])
    && (forall v :: v in after && v !in before ==> exists m :: m in todo && m.version == v && after[v] == m.description)
  }

  lemma {:induction false} RunsTheUps<S>(exec: Exec<S>, broken: set<int>, db: Db<S>, todo: seq<Migration>)
    requires Sorted(todo, true) && forall m :: m in todo ==> m.version !in db.applied
    ensures var r, schema := ApplyAll(exec, broken, db, todo), Executed(exec, db.schema, Ups(todo));
            && (r.ok <==> schema.Some? && forall m :: m in todo ==> m.version !in broken)
            && (r.ok ==> Some(r.db.schema) == schema)
    decreases |todo|
  {
    if todo != [] {
      var m, rest := todo[0], todo[1..];
      assert todo == [m] + rest && Ups(todo)[0] == m.upSQL && Ups(todo)[1..] == Ups(rest);
      var next := UpTx(exec, broken, db, m);
      if next.Some? {
        forall x | x in rest ensures x.version !in next.value.applied {
          var i :| 0 <= i < |rest| && rest[i] == x;
          assert Before(todo[0], todo[i + 1], true);
        }
        RunsTheUps(exec, broken, next.value, rest);
      }
    }
  }

  lemma {:induction false} WritesTheRecords<S>(exec: Exec<S>, broken: set<int>, db: Db<S>, todo: seq<Migration>)
    ensures Records(db.applied, todo, ApplyAll(exec, broken, db, todo).db.applied)
    decreases |todo|
  {
    if todo != [] {
      var m, rest := todo[0], todo[1..];
      assert todo == [m] + rest;
      var next := UpTx(exec, broken, db, m);
      if next.Some? {
        WritesTheRecords(exec, broken, next.value, rest);
      }
    }
  }

  /** The versions of the runner that Apply may apply for this target. */
  function Reach(ms: seq<Migration>, target: int): set<int>
  {
    set m | m in ms && InReach(target, m.version) :: m.version
  }

  /** Apply runs the Ups of the pending migrations in reach of the target, in ascending order, each once. It
      succeeds exactly when none of them fails, and then exactly the versions in reach have been added. */
  lemma ApplyRunsPendingUps<S>(exec: Exec<S>, broken: set<int>, db: Db<S>, ms: seq<Migration>, target: int,
                               todo: seq<Migration>)
    requires DistinctVersions(ms) && IsPendingList(todo, ms, db.applied.Keys, target)
    ensures var r, schema := Apply(exec, broken, db, ms, target), Executed(exec, db.schema, Ups(todo));
            && (r.ok <==> schema.Some? && forall m :: m in todo ==> m.version !in broken)
            && (r.ok ==> Some(r.db.schema) == schema)
            && (r.ok ==> r.db.applied.Keys == db.applied.Keys + Reach(ms, target))
  {
    var list := Pending(Sort(ms, true), db.applied.Keys, target);
    PendingIsPendingList(ms, db.applied.Keys, target);
    SortedUnique(todo, list, true);
    RunsTheUps(exec, broken, db, todo);
    ApplyCommitsAPrefix(exec, broken, db, todo);
    assert todo[..|todo|] == todo;
    forall v ensures v in db.applied.Keys + Versions(todo) <==> v in db.applied.Keys + Reach(ms, target) {
      if v in Versions(todo) {
        var m :| m in todo && m.version == v;
      }
      if v in Reach(ms, target) && v !in db.applied.Keys {
        var m :| m in ms && InReach(target, m.version) && m.version == v;
        assert m in todo;
      }
    }
  }

  /** Also when it fails, Apply adds only records of registered migrations in reach of the target. */
  lemma ApplyStaysInReach<S>(exec: Exec<S>, broken: set<int>, db: Db<S>, ms: seq<Migration>, target: int)
    requires DistinctVersions(ms)
    ensures var after := Apply(exec, broken, db, ms, target).db.applied;
            && (forall v :: v in db.applied ==> v in after && after[v] == db.applied[v])
            && (forall v :: v in after && v !in db.applied ==>
                  InReach(target, v) && exists m :: m in ms && m.version == v && after[v] == m.description)
  {
    var todo := Pending(Sort(ms, true), db.applied.Keys, target);
    PendingIsPendingList(ms, db.applied.Keys, target);
    WritesTheRecords(exec, broken, db, todo);
    var after := Apply(exec, broken, db, ms, target).db.applied;
    forall v | v in after && v !in db.applied
      ensures InReach(target, v) && exists m :: m in ms && m.version == v && after[v] == m.description
    {
      var m :| m in todo && m.version == v && after[v] == m.description;
      assert m in ms;
    }
  }

  // ------------------------------------------------------------------ Rollback

  lemma {:induction false} RunsTheDowns<S>(exec: Exec<S>, broken: set<int>, db: Db<S>, todo: seq<Migration>)
    ensures var r, schema := RollbackAll(exec, broken, db, todo), Executed(exec, db.schema, Downs(todo));
            && (r.ok <==> schema.Some? && forall m :: m in todo ==> m.version !in broken)
            && (r.ok ==> Some(r.db.schema) == schema)
    decreases |todo|
  {
    if todo != [] {
      var m, rest := todo[0], todo[1..];
      assert todo == [m] + rest && Downs(todo)[0] == m.downSQL && Downs(todo)[1..] == Downs(rest);
      var next := DownTx(exec, broken, db, m);
      if next.Some? {
        RunsTheDowns(exec, broken, next.value, rest);
      }
    }
  }

  lemma {:induction false} RemovesRecords<S>(exec: Exec<S>, broken: set<int>, db: Db<S>, todo: seq<Migration>)
    ensures var after := RollbackAll(exec, broken, db, todo).db.applied;
            && (forall v :: v in after ==> v in db.applied && after[v] == db.applied[v])
            && (forall v :: v in db.applied && v !in after ==> exists m :: m in todo && m.version == v)
    decreases |todo|
  {
    if todo != [] {
      var m, rest := todo[0], todo[1..];
      assert todo == [m] + rest;
      var next := DownTx(exec, broken, db, m);
      if next.Some? {
        RemovesRecords(exec, broken, next.value, rest);
      }
    }
  }

  /** Rollback runs the Downs of the applied migrations above the target, in descending order, each once. It
      succeeds exactly when none of them fails, and then exactly those records are gone. */
  lemma RollbackRunsDowns<S>(exec: Exec<S>, broken: set<int>, db: Db<S>, ms: seq<Migration>, target: int,
                             todo: seq<Migration>)
    requires DistinctVersions(ms) && IsUndoList(todo, ms, db.applied.Keys, target)
    ensures var r, schema := Rollback(exec, broken, db, ms, target), Executed(exec, db.schema, Downs(todo));
            && (r.ok <==> schema.Some? && forall m :: m in todo ==> m.version !in broken)
            && (r.ok ==> Some(r.db.schema) == schema)
            && (r.ok ==> r.db.applied == db.applied - (set m | m in ms && m.version > target :: m.version))
  {
    var list := ToRollback(Sort(ms, false), db.applied.Keys, target);
    ToRollbackIsUndoList(ms, db.applied.Keys, target);
    SortedUnique(todo, list, false);
    RunsTheDowns(exec, broken, db, todo);
    if Rollback(exec, broken, db, ms, target).ok {
      RollbackRemoves(exec, broken, db, todo);
      forall v | v in db.applied
        ensures v in Versions(todo) <==> v in set m | m in ms && m.version > target :: m.version
      {
        if v in Versions(todo) {
          var m :| m in todo && m.version == v;
          assert m in ms;
        }
        if m :| m in ms && m.version > target && m.version == v {
          assert m in todo;
        }
      }
    }
  }

  /** Also when it fails, Rollback removes only records of registered migrations above the target. */
  lemma RollbackStaysAbove<S>(exec: Exec<S>, broken: set<int>, db: Db<S>, ms: seq<Migration>, target: int)
    requires DistinctVersions(ms)
    ensures var after := Rollback(exec, broken, db, ms, target).db.applied;
            && (forall v :: v in after ==> v in db.applied && after[v] == db.applied[v])
            && (forall v :: v in db.applied && v !in after ==> v > target && exists m :: m in ms && m.version == v)
  {
    var todo := ToRollback(Sort(ms, false), db.applied.Keys, target);
    ToRollbackIsUndoList(ms, db.applied.Keys, target);
    RemovesRecords(exec, broken, db, todo);
    var after := Rollback(exec, broken, db, ms, target).db.applied;
    forall v | v in db.applied && v !in after ensures v > target && exists m :: m in ms && m.version == v {
      var m :| m in todo && m.version == v;
      assert m in ms;
    }
  }
}
