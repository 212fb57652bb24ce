/** data/migration.go: PostgresMigrationRunner as an object, and the database it works on. */
module MigrationRunners {
  import opened Common
  import opened Migrations
  import opened MigrationEffects
  import Files = MigrationFiles

  datatype MigrationError =
    | InvalidFile(error: Files.FileError)
    | InvalidVersion
    | EmptyDescription
    | EmptyUp
    | EmptyDown
    | DuplicateVersion
    | StatementFailed

  class Database<S> {
    var state: Db<S>

    constructor (state: Db<S>)
      ensures this.state == state
    {
      this.state := state;
    }
  }

  /** What AddMigration accepts. */
  predicate Registered(ms: seq<Migration>)
  {
    && DistinctVersions(ms)
    && forall m :: m in ms ==> m.version > 0 && m.description != "" && m.upSQL != "" && m.downSQL != ""
  }

  class PostgresMigrationRunner<S> {
    const db: Database<S>
    const exec: Exec<S>
    var migrations: seq<Migration>

    ghost predicate Valid()
      reads this
    {
      Registered(migrations)
    }

    constructor (db: Database<S>, exec: Exec<S>)
      ensures Valid() && migrations == [] && this.db == db && this.exec == exec
    {
      this.db, this.exec, migrations := db, exec, [];
    }

    method AddMigration(m: Migration) returns (error: Option<MigrationError>)
      requires Valid()
      modifies this
      ensures Valid()
      ensures migrations == if error.None? then old(migrations) + [m] else old(migrations)
      ensures error.None? <==>
                && m.version > 0 && m.description != "" && m.upSQL != "" && m.downSQL != ""
                && forall x :: x in old(migrations) ==> x.version != m.version
    {
      if m.version <= 0 {
        return Some(InvalidVersion);
      }
      if m.description == "" {
        return Some(EmptyDescription);
      }
      if m.upSQL == "" {
        return Some(EmptyUp);
      }
      if m.downSQL == "" {
        return Some(EmptyDown);
      }
      var i := 0;
      while i < |migrations|
        invariant 0 <= i <= |migrations| && migrations == old(migrations)
        invariant forall x :: x in migrations[..i] ==> x.version != m.version
      {
        if migrations[i].version == m.version {
          assert migrations[i] in migrations;
          return Some(DuplicateVersion);
        }
        i := i + 1;
      }
      assert migrations[..i] == migrations;
      migrations := migrations + [m];
      error := None;
    }

    method ParseMigrationContent(filename: string, content: string) returns (error: Option<MigrationError>)
      requires Valid()
      modifies this
      ensures Valid()
      ensures var m := Files.ParseFile(filename, content);
              && (m.Err? ==> error == Some(InvalidFile(m.error)) && migrations == old(migrations))
              && (m.Ok? && error.None? ==> migrations == old(migrations) + [m.value])
              && (m.Ok? && error.Some? ==> migrations == old(migrations))
              && (error.None? <==>
                    && m.Ok? && m.value.version > 0 && m.value.description != ""
                    && m.value.upSQL != "" && m.value.downSQL != ""
                    && forall x :: x in old(migrations) ==> x.version != m.value.version)
    {
      var m := Files.ParseFile(filename, content);
      if m.Err? {
        return Some(InvalidFile(m.error));
      }
      error := AddMigration(m.value);
    }

    /** sort.Slice in place. */
    method SortMigrations(ascending: bool)
      requires Valid()
      modifies this
      ensures Valid() && migrations == Sort(old(migrations), ascending)
      ensures Sorted(migrations, ascending) && forall m :: m in migrations <==> m in old(migrations)
    {
      SortSorts(migrations, ascending);
      migrations := SortSlice(migrations, ascending);
      SortedDistinct(migrations, ascending);
    }

    /** `broken` holds the versions whose transaction a fault makes fail in this call; `readOk` is false when
        creating or reading the version table fails. */
    method Apply(version: int, readOk: bool, broken: set<int>) returns (error: Option<MigrationError>)
      requires Valid()
      modifies this, db
      ensures Valid() && forall m :: m in migrations <==> m in old(migrations)
      ensures !readOk ==> error.Some? && db.state == old(db.state)
      ensures readOk ==>
                var r := Migrations.Apply(exec, broken, old(db.state), old(migrations), version);
                db.state == r.db && (error.None? <==> r.ok)
      ensures error.None? ==>
                db.state.applied.Keys == old(db.state).applied.Keys + Reach(old(migrations), version)
      ensures forall v :: v in db.state.applied && v !in old(db.state).applied && version > 0 ==> v <= version
    {
      if !readOk {
        return Some(StatementFailed);
      }
      PendingIsPendingList(migrations, db.state.applied.Keys, version);
      ApplyRunsPendingUps(exec, broken, db.state, migrations, version,
        Pending(Sort(migrations, true), db.state.applied.Keys, version));
      ApplyStaysInReach(exec, broken, db.state, migrations, version);
      SortMigrations(true);
      var ok := ApplyPending(db, exec, migrations, version, broken);
      error := if ok then None else Some(StatementFailed);
    }

    method Rollback(version: int, readOk: bool, broken: set<int>) returns (error: Option<MigrationError>)
      requires Valid()
      modifies this, db
      ensures Valid() && forall m :: m in migrations <==> m in old(migrations)
      ensures !readOk ==> error.Some? && db.state == old(db.state)
      ensures readOk ==>
                exists last :: IsLast(old(db.state).applied.Keys, last) &&
                  var target := if version == 0 then last - 1 else version;
                  var r := Migrations.Rollback(exec, broken, old(db.state), old(migrations), target);
                  db.state == r.db && (error.None? <==> r.ok)
      ensures version != 0 && error.None? ==>
                db.state.applied
                == old(db.state).applied - (set m | m in old(migrations) && m.version > version :: m.version)
      ensures forall v :: v in old(db.state).applied && v !in db.state.applied && version != 0 ==> v > version
    {
      if !readOk {
        return Some(StatementFailed);
      }
      SortMigrations(false);
      var last := LastVersion(db.state.applied.Keys);
      var target := if version == 0 then last - 1 else version;
      ToRollbackIsUndoList(old(migrations), db.state.applied.Keys, target);
      RollbackRunsDowns(exec, broken, db.state, old(migrations), target,
        ToRollback(Sort(old(migrations), false), db.state.applied.Keys, target));
      RollbackStaysAbove(exec, broken, db.state, old(migrations), target);
      var ok := RollbackApplied(db, exec, migrations, target, broken);
      error := if ok then None else Some(StatementFailed);
    }
  }

  /** Insertion sort. */
  method SortSlice(source: seq<Migration>, ascending: bool) returns (r: seq<Migration>)
    ensures r == Sort(source, ascending)
  {
    r := [];
    var i := |source|;
    while i > 0
      invariant 0 <= i <= |source| && r == Sort(source[i..], ascending)
    {
      i := i - 1;
      assert source[i..][0] == source[i] && source[i..][1..] == source[i + 1..];
      r := Insert(source[i], r, ascending);
    }
    assert source[0..] == source;
  }

  /** The loop of Apply over the sorted migrations; the applied versions are read once, before it. */
  method ApplyPending<S>(db: Database<S>, exec: Exec<S>, ms: seq<Migration>, version: int, broken: set<int>)
      returns (ok: bool)
    modifies db
    ensures Outcome(db.state, ok)
         == ApplyAll(exec, broken, old(db.state), Pending(ms, old(db.state).applied.Keys, version))
  {
    var applied := db.state.applied.Keys;
    ghost var whole := ApplyAll(exec, broken, db.state, Pending(ms, applied, version));
    var i := 0;
    assert ms[0..] == ms;
    while i < |ms|
      invariant 0 <= i <= |ms|
      invariant ApplyAll(exec, broken, db.state, Pending(ms[i..], applied, version)) == whole
    {
      var m := ms[i];
      PendingAt(ms, i, applied, version);
      if m.version !in applied && !(version > 0 && m.version > version) {
        ApplyAllCons(exec, broken, db.state, m, Pending(ms[i + 1..], applied, version));
        var next := UpTx(exec, broken, db.state, m);
        if next.None? {
          return false;
        }
        db.state := next.value;
      }
      i := i + 1;
    }
    ok := true;
  }

  lemma ApplyAllCons<S>(exec: Exec<S>, broken: set<int>, db: Db<S>, m: Migration, rest: seq<Migration>)
    ensures var next := UpTx(exec, broken, db, m);
            ApplyAll(exec, broken, db, [m] + rest)
              == if next.None? then Outcome(db, false) else ApplyAll(exec, broken, next.value, rest)
  {
    assert ([m] + rest)[1..] == rest;
  }

  /** The loop of Rollback over the migrations sorted downwards. */
  method RollbackApplied<S>(db: Database<S>, exec: Exec<S>, ms: seq<Migration>, target: int, broken: set<int>)
      returns (ok: bool)
    modifies db
    ensures Outcome(db.state, ok)
         == RollbackAll(exec, broken, old(db.state), ToRollback(ms, old(db.state).applied.Keys, target))
  {
    var applied := db.state.applied.Keys;
    ghost var whole := RollbackAll(exec, broken, db.state, ToRollback(ms, applied, target));
    var i := 0;
    assert ms[0..] == ms;
    while i < |ms|
      invariant 0 <= i <= |ms|
      invariant RollbackAll(exec, broken, db.state, ToRollback(ms[i..], applied, target)) == whole
    {
      var m := ms[i];
      ToRollbackAt(ms, i, applied, target);
      if m.version in applied && m.version > target {
        RollbackAllCons(exec, broken, db.state, m, ToRollback(ms[i + 1..], applied, target));
        var next := DownTx(exec, broken, db.state, m);
        if next.None? {
          return false;
        }
        db.state := next.value;
      }
      i := i + 1;
    }
    ok := true;
  }

  lemma RollbackAllCons<S>(exec: Exec<S>, broken: set<int>, db: Db<S>, m: Migration, rest: seq<Migration>)
    ensures var next := DownTx(exec, broken, db, m);
            RollbackAll(exec, broken, db, [m] + rest)
              == if next.None? then Outcome(db, false) else RollbackAll(exec, broken, next.value, rest)
  {
    assert ([m] + rest)[1..] == rest;
  }

  lemma {:induction false} SortedDistinct(ms: seq<Migration>, ascending: bool)
    requires Sorted(ms, ascending)
    ensures DistinctVersions(ms)
  {
    forall i, j | 0 <= i < j < |ms| ensures ms[i].version != ms[j].version {
      assert Before(ms[i], ms[j], ascending);
    }
  }

  lemma {:induction false} PendingAt(ms: seq<Migration>, i: nat, applied: set<int>, target: int)
    requires i < |ms|
    ensures Wanted(applied, target, ms[i]) ==>
              Pending(ms[i..], applied, target) == [ms[i]] + Pending(ms[i + 1..], applied, target)
    ensures !Wanted(applied, target, ms[i]) ==>
              Pending(ms[i..], applied, target) == Pending(ms[i + 1..], applied, target)
  {
    assert ms[i..][0] == ms[i] && ms[i..][1..] == ms[i + 1..];
  }

  lemma {:induction false} ToRollbackAt(ms: seq<Migration>, i: nat, applied: set<int>, target: int)
    requires i < |ms|
    ensures Undone(applied, target, ms[i]) ==>
              ToRollback(ms[i..], applied, target) == [ms[i]] + ToRollback(ms[i + 1..], applied, target)
    ensures !Undone(applied, target, ms[i]) ==>
              ToRollback(ms[i..], applied, target) == ToRollback(ms[i + 1..], applied, target)
  {
    assert ms[i..][0] == ms[i] && ms[i..][1..] == ms[i + 1..];
  }

  /** The loop that finds the greatest applied version. */
  method LastVersion(applied: set<int>) returns (last: int)
    ensures IsLast(applied, last)
  {
    last := 0;
    var rest := applied;
    while true
      invariant rest <= applied
      invariant last >= 0 && (last in applied || last == 0)
      invariant forall v :: v in applied && v !in rest ==> v <= last
      decreases rest
    {
      if v :| v in rest {
        if v > last {
          last := v;
        }
        rest := rest - {v};
      } else {
        break;
      }
    }
  }
}
