/** data/migration.go: applying and rolling back migrations, each in its own transaction, over an
    uninterpreted schema state. `exec` says what a SQL text does to the schema, or that it fails. */
module Migrations {
  import opened Common

  datatype Migration = Migration(version: int, description: string, upSQL: string, downSQL: string)

  /** The schema and the schema_migrations table: applied version to description. */
  datatype Db<S> = Db(schema: S, applied: map<int, string>)

  type Exec<!S> = (string, S) -> Option<S>

  // ------------------------------------------------------------------ sorting

  predicate Before(a: Migration, b: Migration, ascending: bool)
  {
    if ascending then a.version < b.version else b.version < a.version
  }

  predicate Sorted(ms: seq<Migration>, ascending: bool)
  {
    forall i, j :: 0 <= i < j < |ms| ==> Before(ms[i], ms[j], ascending)
  }

  predicate DistinctVersions(ms: seq<Migration>)
  {
    forall i, j :: 0 <= i < j < |ms| ==> ms[i].version != ms[j].version
  }

  function Insert(m: Migration, ms: seq<Migration>, ascending: bool): (r: seq<Migration>)
    ensures multiset(r) == multiset(ms) + multiset{m}
  {
    if ms == [] || Before(m, ms[0], ascending) then [m] + ms
    else
      assert ms == [ms[0]] + ms[1..];
      [ms[0]] + Insert(m, ms[1..], ascending)
  }

  /** What sort.Slice leaves when no two versions are equal. */
  function Sort(ms: seq<Migration>, ascending: bool): (r: seq<Migration>)
    ensures multiset(r) == multiset(ms)
  {
    if ms == [] then []
    else
      assert ms == [ms[0]] + ms[1..];
      Insert(ms[0], Sort(ms[1..], ascending), ascending)
  }

  lemma {:induction false} InsertSorted(m: Migration, ms: seq<Migration>, ascending: bool)
    requires Sorted(ms, ascending) && forall x :: x in ms ==> x.version != m.version
    ensures Sorted(Insert(m, ms, ascending), ascending)
    ensures forall x :: x in Insert(m, ms, ascending) <==> x == m || x in ms
    decreases |ms|
  {
    if ms == [] || Before(m, ms[0], ascending) {
      forall j | 0 <= j < |ms| ensures Before(m, ms[j], ascending) {
        assert j > 0 ==> Before(ms[0], ms[j], ascending);
      }
    } else {
      InsertSorted(m, ms[1..], ascending);
      var rest := Insert(m, ms[1..], ascending);
      assert ms[0] in ms;
      forall j | 0 <= j < |rest| ensures Before(ms[0], rest[j], ascending) {
        assert rest[j] in rest;
      }
      assert ms == [ms[0]] + ms[1..];
    }
  }

  lemma {:induction false} SortSorts(ms: seq<Migration>, ascending: bool)
    requires DistinctVersions(ms)
    ensures Sorted(Sort(ms, ascending), ascending)
    ensures forall x :: x in Sort(ms, ascending) <==> x in ms
    decreases |ms|
  {
    if ms != [] {
      SortSorts(ms[1..], ascending);
      assert ms == [ms[0]] + ms[1..];
      InsertSorted(ms[0], Sort(ms[1..], ascending), ascending);
    }
  }

  lemma TailMember(a: seq<Migration>, x: Migration, ascending: bool)
    requires Sorted(a, ascending) && a != []
    ensures x in a[1..] <==> x in a && x != a[0]
  {
    assert a == [a[0]] + a[1..];
    if x in a[1..] {
      var k :| 0 <= k < |a[1..]| && a[1..][k] == x;
      assert Before(a[0], a[k + 1], ascending);
    }
  }

  lemma HasMember(a: seq<Migration>)
    requires a != []
    ensures exists x :: x in a
  {
    assert a[0] in a;
  }

  /** Two sorted sequences with the same members are equal: the order of registration does not matter. */
  lemma {:induction false} SortedUnique(a: seq<Migration>, b: seq<Migration>, ascending: bool)
    requires Sorted(a, ascending) && Sorted(b, ascending) && forall x :: x in a <==> x in b
    ensures a == b
    decreases |a|
  {
    if a == [] {
      if b != [] {
        HasMember(b);
      }
    } else {
      assert a[0] in a && a[0] in b;
      assert b[0] in b && b[0] in a;
      var i :| 0 <= i < |b| && b[i] == a[0];
      var j :| 0 <= j < |a| && a[j] == b[0];
      assert a[0] == b[0];
      forall x ensures x in a[1..] <==> x in b[1..] {
        TailMember(a, x, ascending);
        TailMember(b, x, ascending);
      }
      SortedUnique(a[1..], b[1..], ascending);
      assert a == [a[0]] + a[1..] && b == [b[0]] + b[1..];
    }
  }

  // ------------------------------------------------------------------ applying

  /** The transaction of one migration. It fails when its version is in `broken` (a fault of the
      connection, of a statement or of the commit), when its SQL fails, or when the version is already in
      the table; then nothing of it remains. */
  function UpTx<S>(exec: Exec<S>, broken: set<int>, db: Db<S>, m: Migration): Option<Db<S>>
  {
    if m.version in broken then None
    else
      var s := exec(m.upSQL, db.schema);
      if s.None? || m.version in db.applied then None
      else Some(Db(s.value, db.applied[m.version := m.description]))
  }

  /** Not yet applied, and not above the target (0 and negative targets mean no limit). */
  predicate Wanted(applied: set<int>, target: int, m: Migration)
  {
    m.version !in applied && !(target > 0 && m.version > target)
  }

  function Pending(ms: seq<Migration>, applied: set<int>, target: int): seq<Migration>
  {
    if ms == [] then []
    else (if Wanted(applied, target, ms[0]) then [ms[0]] else []) + Pending(ms[1..], applied, target)
  }

  datatype Outcome<S> = Outcome(db: Db<S>, ok: bool)

  /** Up to the first failing transaction. */
  function ApplyAll<S>(exec: Exec<S>, broken: set<int>, db: Db<S>, todo: seq<Migration>): Outcome<S>
    decreases |todo|
  {
    if todo == [] then Outcome(db, true)
    else
      var next := UpTx(exec, broken, db, todo[0]);
      if next.None? then Outcome(db, false) else ApplyAll(exec, broken, next.value, todo[1..])
  }

  function Apply<S>(exec: Exec<S>, broken: set<int>, db: Db<S>, ms: seq<Migration>, target: int): Outcome<S>
  {
    ApplyAll(exec, broken, db, Pending(Sort(ms, true), db.applied.Keys, target))
  }

  /** How many transactions commit before the first failure. */
  function Committed<S>(exec: Exec<S>, broken: set<int>, db: Db<S>, todo: seq<Migration>): (k: nat)
    ensures k <= |todo|
    decreases |todo|
  {
    if todo == [] then 0
    else
      var next := UpTx(exec, broken, db, todo[0]);
      if next.None? then 0 else 1 + Committed(exec, broken, next.value, todo[1..])
  }

  function Versions(ms: seq<Migration>): set<int> { set m | m in ms :: m.version }

  /** A failing run commits exactly a prefix of the list, as if only that prefix had been asked for and
      nothing had failed; the run succeeds exactly when the prefix is the whole list. */
  lemma {:induction false} ApplyCommitsAPrefix<S>(exec: Exec<S>, broken: set<int>, db: Db<S>, todo: seq<Migration>)
    ensures var k := Committed(exec, broken, db, todo);
            && ApplyAll(exec, {}, db, todo[..k]) == Outcome(ApplyAll(exec, broken, db, todo).db, true)
            && (ApplyAll(exec, broken, db, todo).ok <==> k == |todo|)
            && ApplyAll(exec, broken, db, todo).db.applied.Keys == db.applied.Keys + Versions(todo[..k])
    decreases |todo|
  {
    if todo != [] {
      var next, k := UpTx(exec, broken, db, todo[0]), Committed(exec, broken, db, todo);
      if next.Some? {
        ApplyCommitsAPrefix(exec, broken, next.value, todo[1..]);
        assert todo[..k] == [todo[0]] + todo[1..][..k - 1];
        VersionsCons(todo[0], todo[1..][..k - 1]);
      } else {
        assert todo[..k] == [] && Versions(todo[..k]) == {};
      }
    } else {
      assert Versions(todo[..0]) == {};
    }
  }

  lemma VersionsCons(m: Migration, ms: seq<Migration>)
    ensures Versions([m] + ms) == {m.version} + Versions(ms)
  {
    forall v ensures v in Versions([m] + ms) <==> v == m.version || v in Versions(ms) {
      if v in Versions([m] + ms) {
        var x :| x in [m] + ms && x.version == v;
      }
      if v == m.version {
        assert m in [m] + ms;
      } else if v in Versions(ms) {
        var x :| x in ms && x.version == v;
        assert x in [m] + ms;
      }
    }
  }

  /** Uninterrupted runs compose. */
  lemma {:induction false} ApplyAllSplit<S>(exec: Exec<S>, broken: set<int>, db: Db<S>, first: seq<Migration>,
                                            second: seq<Migration>)
    requires ApplyAll(exec, broken, db, first).ok
    ensures ApplyAll(exec, broken, db, first + second)
         == ApplyAll(exec, broken, ApplyAll(exec, broken, db, first).db, second)
    decreases |first|
  {
    if first == [] {
      assert first + second == second;
    } else {
      assert (first + second)[1..] == first[1..] + second;
      ApplyAllSplit(exec, broken, UpTx(exec, broken, db, first[0]).value, first[1..], second);
    }
  }

  // ------------------------------------------------------------------ resuming

  lemma {:induction false} PendingMembers(ms: seq<Migration>, applied: set<int>, target: int, m: Migration)
    ensures m in Pending(ms, applied, target) <==> m in ms && Wanted(applied, target, m)
    decreases |ms|
  {
    if ms != [] {
      PendingMembers(ms[1..], applied, target, m);
      assert ms == [ms[0]] + ms[1..];
    }
  }

  lemma {:induction false} PendingSorted(ms: seq<Migration>, applied: set<int>, target: int)
    requires Sorted(ms, true)
    ensures Sorted(Pending(ms, applied, target), true)
    decreases |ms|
  {
    if ms != [] {
      var rest := Pending(ms[1..], applied, target);
      PendingSorted(ms[1..], applied, target);
      forall j | 0 <= j < |rest| ensures Before(ms[0], rest[j], true) {
        PendingMembers(ms[1..], applied, target, rest[j]);
        assert rest[j] in ms[1..];
      }
    }
  }

  /** After a prefix of the pending list is applied, the rest of it is what is pending. */
  lemma PendingAfterPrefix(ms: seq<Migration>, applied: set<int>, target: int, k: nat)
    requires Sorted(ms, true) && k <= |Pending(ms, applied, target)|
    ensures var todo := Pending(ms, applied, target);
            Pending(ms, applied + Versions(todo[..k]), target) == todo[k..]
  {
    var todo := Pending(ms, applied, target);
    var applied' := applied + Versions(todo[..k]);
    var left := Pending(ms, applied', target);
    PendingSorted(ms, applied, target);
    PendingSorted(ms, applied', target);
    forall m ensures m in left <==> m in todo[k..] {
      PendingMembers(ms, applied, target, m);
      PendingMembers(ms, applied', target, m);
      PrefixVersions(todo, k, m);
    }
    SortedUnique(left, todo[k..], true);
  }

  /** In a sorted list a member is in the tail exactly when its version is not among the prefix's. */
  lemma PrefixVersions(todo: seq<Migration>, k: nat, m: Migration)
    requires Sorted(todo, true) && k <= |todo|
    ensures m in todo[k..] <==> m in todo && m.version !in Versions(todo[..k])
  {
    if m in todo {
      var i :| 0 <= i < |todo| && todo[i] == m;
      if i < k {
        assert todo[..k][i] == m && m in todo[..k];
      } else {
        assert todo[k..][i - k] == m;
      }
    }
    if m in todo[k..] {
      var j :| 0 <= j < |todo[k..]| && todo[k..][j] == m;
      forall x | x in todo[..k] ensures x.version != m.version {
        var i :| 0 <= i < |todo[..k]| && todo[..k][i] == x;
        assert Before(todo[i], todo[k + j], true);
      }
    }
  }

  /** Apply calls in a row, each with its own faults; the result of the last one. */
  function ApplyRepeatedly<S>(exec: Exec<S>, faults: seq<set<int>>, db: Db<S>, ms: seq<Migration>,
                              target: int): Outcome<S>
    requires faults != []
    decreases |faults|
  {
    var first := Apply(exec, faults[0], db, ms, target);
    if |faults| == 1 then first else ApplyRepeatedly(exec, faults[1..], first.db, ms, target)
  }

  /** After any attempt, applying what is then pending completes the uninterrupted run. */
  lemma AttemptThenRest<S>(exec: Exec<S>, broken: set<int>, db: Db<S>, ms: seq<Migration>, target: int)
    requires DistinctVersions(ms)
    ensures var db' := Apply(exec, broken, db, ms, target).db;
            Apply(exec, {}, db', ms, target) == Apply(exec, {}, db, ms, target)
  {
    SortSorts(ms, true);
    var sorted := Sort(ms, true);
    var todo := Pending(sorted, db.applied.Keys, target);
    var k := Committed(exec, broken, db, todo);
    ApplyCommitsAPrefix(exec, broken, db, todo);
    PendingAfterPrefix(sorted, db.applied.Keys, target, k);
    ApplyAllSplit(exec, {}, db, todo[..k], todo[k..]);
    assert todo[..k] + todo[k..] == todo;
  }

  /** A successful run with faults elsewhere is the uninterrupted run, and leaves nothing pending. */
  lemma SuccessIsUninterrupted<S>(exec: Exec<S>, broken: set<int>, db: Db<S>, ms: seq<Migration>, target: int)
    requires DistinctVersions(ms) && Apply(exec, broken, db, ms, target).ok
    ensures Apply(exec, broken, db, ms, target) == Apply(exec, {}, db, ms, target)
    ensures Pending(Sort(ms, true), Apply(exec, broken, db, ms, target).db.applied.Keys, target) == []
  {
    SortSorts(ms, true);
    var todo := Pending(Sort(ms, true), db.applied.Keys, target);
    ApplyCommitsAPrefix(exec, broken, db, todo);
    assert todo[..|todo|] == todo && todo[|todo|..] == [];
    PendingAfterPrefix(Sort(ms, true), db.applied.Keys, target, |todo|);
  }

  /** However many attempts fail on the way, a final successful Apply reaches exactly the schema and version
      table of one uninterrupted run, and any further Apply changes nothing. */
  lemma {:induction false} ResumeReachesTheSame<S>(exec: Exec<S>, faults: seq<set<int>>, db: Db<S>, ms: seq<Migration>,
                                                   target: int, later: set<int>)
    requires DistinctVersions(ms) && faults != [] && ApplyRepeatedly(exec, faults, db, ms, target).ok
    ensures ApplyRepeatedly(exec, faults, db, ms, target) == Apply(exec, {}, db, ms, target)
    ensures var done := ApplyRepeatedly(exec, faults, db, ms, target);
            Apply(exec, later, done.db, ms, target) == done
    decreases |faults|
  {
    var first := Apply(exec, faults[0], db, ms, target);
    if |faults| == 1 {
      SuccessIsUninterrupted(exec, faults[0], db, ms, target);
    } else {
      ResumeReachesTheSame(exec, faults[1..], first.db, ms, target, later);
      AttemptThenRest(exec, faults[0], db, ms, target);
    }
  }

  // ------------------------------------------------------------------ rolling back

  function DownTx<S>(exec: Exec<S>, broken: set<int>, db: Db<S>, m: Migration): Option<Db<S>>
  {
    if m.version in broken then None
    else
      var s := exec(m.downSQL, db.schema);
      if s.None? then None else Some(Db(s.value, db.applied - {m.version}))
  }

  function RollbackAll<S>(exec: Exec<S>, broken: set<int>, db: Db<S>, todo: seq<Migration>): Outcome<S>
    decreases |todo|
  {
    if todo == [] then Outcome(db, true)
    else
      var next := DownTx(exec, broken, db, todo[0]);
      if next.None? then Outcome(db, false) else RollbackAll(exec, broken, next.value, todo[1..])
  }

  predicate Undone(applied: set<int>, target: int, m: Migration) { m.version in applied && m.version > target }

  function ToRollback(ms: seq<Migration>, applied: set<int>, target: int): seq<Migration>
  {
    if ms == [] then []
    else (if Undone(applied, target, ms[0]) then [ms[0]] else []) + ToRollback(ms[1..], applied, target)
  }

  /** The greatest applied version, or 0. */
  ghost predicate IsLast(applied: set<int>, last: int)
  {
    && (last in applied || last == 0) && last >= 0
    && forall v :: v in applied ==> v <= last
  }

  function Rollback<S>(exec: Exec<S>, broken: set<int>, db: Db<S>, ms: seq<Migration>, target: int): Outcome<S>
  {
    RollbackAll(exec, broken, db, ToRollback(Sort(ms, false), db.applied.Keys, target))
  }

  lemma {:induction false} ToRollbackMembers(ms: seq<Migration>, applied: set<int>, target: int, m: Migration)
    ensures m in ToRollback(ms, applied, target) <==> m in ms && Undone(applied, target, m)
    decreases |ms|
  {
    if ms != [] {
      ToRollbackMembers(ms[1..], applied, target, m);
      assert ms == [ms[0]] + ms[1..];
    }
  }

  lemma {:induction false} ToRollbackSorted(ms: seq<Migration>, applied: set<int>, target: int)
    requires Sorted(ms, false)
    ensures Sorted(ToRollback(ms, applied, target), false)
    decreases |ms|
  {
    if ms != [] {
      var rest := ToRollback(ms[1..], applied, target);
      ToRollbackSorted(ms[1..], applied, target);
      forall j | 0 <= j < |rest| ensures Before(ms[0], rest[j], false) {
        ToRollbackMembers(ms[1..], applied, target, rest[j]);
        assert rest[j] in ms[1..];
      }
    }
  }

  function Reverse(ms: seq<Migration>): (r: seq<Migration>)
    ensures |r| == |ms| && forall i :: 0 <= i < |r| ==> r[i] == ms[|ms| - 1 - i]
  {
    if ms == [] then [] else Reverse(ms[1..]) + [ms[0]]
  }

  /** Every successful Up is undone by the Down. */
  ghost predicate Undoes<S(!new)>(exec: Exec<S>, m: Migration)
  {
    forall s :: exec(m.upSQL, s).Some? ==> exec(m.downSQL, exec(m.upSQL, s).value) == Some(s)
  }

  /** Down in the opposite order takes back an uninterrupted Up. */
  lemma {:induction false} DownUndoesUp<S(!new)>(exec: Exec<S>, db: Db<S>, todo: seq<Migration>)
    requires ApplyAll(exec, {}, db, todo).ok && forall m :: m in todo ==> Undoes(exec, m)
    ensures RollbackAll(exec, {}, ApplyAll(exec, {}, db, todo).db, Reverse(todo)) == Outcome(db, true)
    decreases |todo|
  {
    if todo != [] {
      var n := |todo| - 1;
      var init, last := todo[..n], todo[n];
      assert todo == init + [last];
      PrefixOk(exec, db, init, [last]);
      ApplyAllSplit(exec, {}, db, init, [last]);
      var db1 := ApplyAll(exec, {}, db, init).db;
      OneUp(exec, db1, last);
      assert last in todo && Undoes(exec, last);
      var db2 := UpTx(exec, {}, db1, last).value;
      assert db2.applied - {last.version} == db1.applied;
      assert Reverse(todo) == [last] + Reverse(init);
      assert Reverse(todo)[1..] == Reverse(init);
      DownUndoesUp(exec, db, init);
    }
  }

  lemma OneUp<S>(exec: Exec<S>, db: Db<S>, m: Migration)
    ensures ApplyAll(exec, {}, db, [m]).ok ==>
              UpTx(exec, {}, db, m).Some? && ApplyAll(exec, {}, db, [m]).db == UpTx(exec, {}, db, m).value
  {
    assert [m][1..] == [];
  }

  lemma {:induction false} PrefixOk<S>(exec: Exec<S>, db: Db<S>, first: seq<Migration>, second: seq<Migration>)
    requires ApplyAll(exec, {}, db, first + second).ok
    ensures ApplyAll(exec, {}, db, first).ok
    decreases |first|
  {
    if first != [] {
      assert (first + second)[1..] == first[1..] + second;
      PrefixOk(exec, UpTx(exec, {}, db, first[0]).value, first[1..], second);
    }
  }

  /** The target separates what was applied before from what Apply adds. */
  predicate Separates(ms: seq<Migration>, applied: set<int>, target: int)
  {
    forall m :: m in ms ==> (m.version in applied <==> m.version <= target)
  }

  /** Apply(0), then Rollback to a version that lies between the versions applied before and the pending ones
      (a negative one when none was applied), restores the schema and the version table exactly. */
  lemma RoundTrip<S(!new)>(exec: Exec<S>, db: Db<S>, ms: seq<Migration>, target: int)
    requires DistinctVersions(ms) && Separates(ms, db.applied.Keys, target)
    requires Apply(exec, {}, db, ms, 0).ok && forall m :: m in ms ==> Undoes(exec, m)
    ensures Rollback(exec, {}, Apply(exec, {}, db, ms, 0).db, ms, target) == Outcome(db, true)
  {
    SortSorts(ms, true);
    SortSorts(ms, false);
    var todo := Pending(Sort(ms, true), db.applied.Keys, 0);
    var db1 := Apply(exec, {}, db, ms, 0).db;
    AppliedByApply(exec, db, ms);
    forall m | m in todo ensures Undoes(exec, m) {
      PendingMembers(Sort(ms, true), db.applied.Keys, 0, m);
    }
    DownUndoesUp(exec, db, todo);
    var undo := ToRollback(Sort(ms, false), db1.applied.Keys, target);
    ToRollbackSorted(Sort(ms, false), db1.applied.Keys, target);
    PendingSorted(Sort(ms, true), db.applied.Keys, 0);
    ReverseSorted(todo);
    forall m ensures m in undo <==> m in Reverse(todo) {
      ToRollbackMembers(Sort(ms, false), db1.applied.Keys, target, m);
      PendingMembers(Sort(ms, true), db.applied.Keys, 0, m);
      ReverseMembers(todo, m);
      VersionMember(todo, m);
    }
    SortedUnique(undo, Reverse(todo), false);
  }

  /** The old greatest version separates when everything pending lies above it; a negative target does when
      nothing was applied, since versions are positive. */
  lemma SeparatedByTheGreatest(ms: seq<Migration>, applied: set<int>, last: int)
    requires IsLast(applied, last)
    requires forall m :: m in ms ==> m.version > 0 && (m.version !in applied ==> m.version > last)
    ensures last > 0 ==> Separates(ms, applied, last)
    ensures applied == {} ==> Separates(ms, applied, -1)
  {
  }

  lemma ReverseSorted(ms: seq<Migration>)
    requires Sorted(ms, true)
    ensures Sorted(Reverse(ms), false)
  {
  }

  lemma ReverseMembers(ms: seq<Migration>, m: Migration)
    ensures m in Reverse(ms) <==> m in ms
  {
    if m in ms {
      var i :| 0 <= i < |ms| && ms[i] == m;
      assert Reverse(ms)[|ms| - 1 - i] == m;
    }
  }

  lemma VersionMember(ms: seq<Migration>, m: Migration)
    ensures m in ms ==> m.version in Versions(ms)
  {
  }

  /** A successful Apply(0) adds exactly the versions of the runner that were missing. */
  lemma AppliedByApply<S>(exec: Exec<S>, db: Db<S>, ms: seq<Migration>)
    requires DistinctVersions(ms) && Apply(exec, {}, db, ms, 0).ok
    ensures var todo := Pending(Sort(ms, true), db.applied.Keys, 0);
            Apply(exec, {}, db, ms, 0).db.applied.Keys == db.applied.Keys + Versions(todo)
            == db.applied.Keys + Versions(ms)
  {
    SortSorts(ms, true);
    var todo := Pending(Sort(ms, true), db.applied.Keys, 0);
    ApplyCommitsAPrefix(exec, {}, db, todo);
    assert todo[..|todo|] == todo;
    forall v ensures v in db.applied.Keys + Versions(todo) <==> v in db.applied.Keys + Versions(ms) {
      if v in Versions(ms) && v !in db.applied.Keys {
        var m :| m in ms && m.version == v;
        PendingMembers(Sort(ms, true), db.applied.Keys, 0, m);
      } else if v in Versions(todo) {
        var m :| m in todo && m.version == v;
        PendingMembers(Sort(ms, true), db.applied.Keys, 0, m);
      }
    }
  }

  lemma {:induction false} RollbackRemoves<S>(exec: Exec<S>, broken: set<int>, db: Db<S>, todo: seq<Migration>)
    requires RollbackAll(exec, broken, db, todo).ok
    ensures RollbackAll(exec, broken, db, todo).db.applied == db.applied - Versions(todo)
    decreases |todo|
  {
    if todo == [] {
      assert db.applied - Versions(todo) == db.applied;
    } else {
      RollbackRemoves(exec, broken, DownTx(exec, broken, db, todo[0]).value, todo[1..]);
      assert todo == [todo[0]] + todo[1..];
      VersionsCons(todo[0], todo[1..]);
      assert db.applied - {todo[0].version} - Versions(todo[1..]) == db.applied - Versions(todo);
    }
  }

  /** Whatever the SQL does: when both calls succeed, the set of applied versions is back exactly when the
      target separates the versions applied before from the pending ones. */
  lemma RoundTripExactlyWhenSeparated<S>(exec: Exec<S>, db: Db<S>, ms: seq<Migration>, target: int)
    requires DistinctVersions(ms) && Apply(exec, {}, db, ms, 0).ok
    requires Rollback(exec, {}, Apply(exec, {}, db, ms, 0).db, ms, target).ok
    ensures Rollback(exec, {}, Apply(exec, {}, db, ms, 0).db, ms, target).db.applied.Keys == db.applied.Keys
            <==> Separates(ms, db.applied.Keys, target)
  {
    SortSorts(ms, false);
    AppliedByApply(exec, db, ms);
    var before, mid := db.applied.Keys, Apply(exec, {}, db, ms, 0).db;
    var undo := ToRollback(Sort(ms, false), mid.applied.Keys, target);
    RollbackRemoves(exec, {}, mid, undo);
    var after := Rollback(exec, {}, mid, ms, target).db.applied.Keys;
    assert after == before + Versions(ms) - Versions(undo);
    forall m | m in ms ensures m.version in Versions(undo) <==> m.version > target {
      assert m.version in Versions(ms);
      if m.version > target {
        ToRollbackMembers(Sort(ms, false), mid.applied.Keys, target, m);
      } else if m.version in Versions(undo) {
        var x :| x in undo && x.version == m.version;
        ToRollbackMembers(Sort(ms, false), mid.applied.Keys, target, x);
      }
    }
    forall v | v in Versions(undo) ensures v in Versions(ms) {
      var x :| x in undo && x.version == v;
      ToRollbackMembers(Sort(ms, false), mid.applied.Keys, target, x);
    }
    if after == before {
      forall m | m in ms ensures m.version in before <==> m.version <= target {
        assert m.version in Versions(ms);
      }
    } else if Separates(ms, before, target) {
      forall v ensures v in after <==> v in before {
        if v in Versions(ms) {
          var m :| m in ms && m.version == v;
        }
      }
    }
  }

  /** Every version of the runner that is pending lies above every one that is applied. */
  predicate PendingAbove(ms: seq<Migration>, applied: set<int>)
  {
    forall a, b :: a in ms && b in ms && a.version in applied && b.version !in applied ==> a.version < b.version
  }

  lemma {:induction false} FindSeparator(ms: seq<Migration>, applied: set<int>) returns (target: int)
    requires PendingAbove(ms, applied)
    ensures Separates(ms, applied, target)
    decreases |ms|
  {
    target := 0;
    if ms != [] {
      var m, rest := ms[0], ms[1..];
      assert ms == [m] + rest;
      target := FindSeparator(rest, applied);
      if m.version in applied {
        target := if target < m.version then m.version else target;
      } else {
        target := if target < m.version then target else m.version - 1;
      }
    }
  }

  /** There is a target for the round trip exactly when the pending versions lie above the applied ones. */
  lemma SeparableExactlyWhenPendingAbove(ms: seq<Migration>, applied: set<int>)
    ensures (exists target :: Separates(ms, applied, target)) <==> PendingAbove(ms, applied)
  {
    if PendingAbove(ms, applied) {
      var target := FindSeparator(ms, applied);
    }
  }

  ghost predicate NeverFails<S(!new)>(exec: Exec<S>) { forall sql, state :: exec(sql, state).Some? }

  lemma {:induction false} RollbackSucceeds<S(!new)>(exec: Exec<S>, db: Db<S>, todo: seq<Migration>)
    requires NeverFails(exec)
    ensures RollbackAll(exec, {}, db, todo).ok
    decreases |todo|
  {
    if todo != [] {
      RollbackSucceeds(exec, DownTx(exec, {}, db, todo[0]).value, todo[1..]);
    }
  }

  lemma {:induction false} ApplySucceeds<S(!new)>(exec: Exec<S>, db: Db<S>, todo: seq<Migration>)
    requires NeverFails(exec) && Sorted(todo, true) && forall m :: m in todo ==> m.version !in db.applied
    ensures ApplyAll(exec, {}, db, todo).ok
    decreases |todo|
  {
    if todo != [] {
      var m, rest := todo[0], todo[1..];
      assert todo == [m] + rest;
      forall i | 0 <= i < |rest| ensures rest[i].version != m.version && rest[i].version !in db.applied {
        assert rest[i] in todo && Before(todo[0], todo[i + 1], true);
      }
      ApplySucceeds(exec, UpTx(exec, {}, db, m).value, rest);
    }
  }

  /** When a pending version lies below an applied one, then even if nothing fails no Rollback after Apply(0)
      brings back the applied versions. */
  lemma OlderPendingNeverRoundTrips<S(!new)>(exec: Exec<S>, db: Db<S>, ms: seq<Migration>, target: int)
    requires DistinctVersions(ms) && NeverFails(exec) && !PendingAbove(ms, db.applied.Keys)
    ensures var mid := Apply(exec, {}, db, ms, 0);
            var end := Rollback(exec, {}, mid.db, ms, target);
            mid.ok && end.ok && end.db.applied.Keys != db.applied.Keys
  {
    SortSorts(ms, true);
    var todo := Pending(Sort(ms, true), db.applied.Keys, 0);
    PendingSorted(Sort(ms, true), db.applied.Keys, 0);
    forall m | m in todo ensures m.version !in db.applied {
      PendingMembers(Sort(ms, true), db.applied.Keys, 0, m);
    }
    ApplySucceeds(exec, db, todo);
    var mid := Apply(exec, {}, db, ms, 0).db;
    RollbackSucceeds(exec, mid, ToRollback(Sort(ms, false), mid.applied.Keys, target));
    RoundTripExactlyWhenSeparated(exec, db, ms, target);
    SeparableExactlyWhenPendingAbove(ms, db.applied.Keys);
  }

  /** Versions 3 and 5, of which 5 is applied. */
  lemma ThreeAndFiveNeverRoundTrip(target: int)
    ensures var exec: Exec<int> := (sql, state) => Some(state);
            var ms := [Migration(3, "three", "up", "down"), Migration(5, "five", "up", "down")];
            var mid := Apply(exec, {}, Db(0, map[5 := "five"]), ms, 0);
            var end := Rollback(exec, {}, mid.db, ms, target);
            mid.ok && end.ok && end.db.applied.Keys != {5}
  {
    var exec: Exec<int> := (sql, state) => Some(state);
    var ms := [Migration(3, "three", "up", "down"), Migration(5, "five", "up", "down")];
    assert ms[0] in ms && ms[1] in ms;
    var db := Db(0, map[5 := "five"]);
    assert db.applied.Keys == {5};
    OlderPendingNeverRoundTrips(exec, db, ms, target);
  }

  /** A list that is sorted downwards and holds exactly the migrations of one version. */
  lemma AtMostOne(todo: seq<Migration>, ms: seq<Migration>, version: int)
    requires Sorted(todo, false) && forall m :: m in todo <==> m in ms && m.version == version
    ensures todo == [] || todo == [todo[0]]
    ensures forall m :: m in ms && m.version == version ==> todo == [m]
    ensures (forall m :: m in ms ==> m.version != version) ==> todo == []
  {
    forall i | 0 <= i < |todo| ensures todo[i].version == version {
      assert todo[i] in todo;
    }
    assert |todo| > 1 ==> Before(todo[0], todo[1], false);
    forall m | m in ms && m.version == version ensures todo == [m] {
      assert m in todo;
    }
  }

  /** Rollback(0) takes back the migration with the greatest applied version in one transaction, if the
      runner knows it, and nothing else; otherwise it changes nothing. */
  lemma RollbackZeroTakesTheLast<S>(exec: Exec<S>, broken: set<int>, db: Db<S>, ms: seq<Migration>, last: int)
    requires DistinctVersions(ms) && IsLast(db.applied.Keys, last) && last > 0
    ensures var r := Rollback(exec, broken, db, ms, last - 1);
            && (forall m :: m in ms && m.version == last ==>
                  var d := DownTx(exec, broken, db, m);
                  r == if d.None? then Outcome(db, false) else Outcome(d.value, true))
            && ((forall m :: m in ms ==> m.version != last) ==> r == Outcome(db, true))
  {
    SortSorts(ms, false);
    var todo := ToRollback(Sort(ms, false), db.applied.Keys, last - 1);
    ToRollbackSorted(Sort(ms, false), db.applied.Keys, last - 1);
    forall m ensures m in todo <==> m in ms && m.version == last {
      ToRollbackMembers(Sort(ms, false), db.applied.Keys, last - 1, m);
    }
    AtMostOne(todo, ms, last);
    forall m | m in ms && m.version == last
      ensures Rollback(exec, broken, db, ms, last - 1) == RollbackAll(exec, broken, db, [m])
    {
    }
    RollbackOfOne(exec, broken, db);
  }

  lemma RollbackOfOne<S>(exec: Exec<S>, broken: set<int>, db: Db<S>)
    ensures forall m ::
              var d := DownTx(exec, broken, db, m);
              RollbackAll(exec, broken, db, [m]) == if d.None? then Outcome(db, false) else Outcome(d.value, true)
  {
    forall m
      ensures var d := DownTx(exec, broken, db, m);
              RollbackAll(exec, broken, db, [m]) == if d.None? then Outcome(db, false) else Outcome(d.value, true)
    {
      assert [m][1..] == [];
    }
  }
}
