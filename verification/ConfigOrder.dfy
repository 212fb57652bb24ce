/** config/source.go, flattenMap: when the iteration order of Go's maps shows in the flat map. */
module ConfigOrder {
  import opened Common
  import opened Decimals
  import opened ConfigFlatten

  /** Two assignments give the key different values. */
  ghost predicate Conflicting(writes: set<Assignment>, key: string)
  {
    exists u, v :: u in writes && v in writes && u.key == key && v.key == key && u.value != v.value
  }

  /** Flattening the tree assigns the key different values. */
  ghost predicate Collides(tree: Tree, key: string) { Conflicting(Writes(tree, ""), key) }

  /** What FileSource.Load may make of the parsed file. */
  ghost predicate FlatForm(tree: Tree, flat: Flat) { Flattens(tree, "", map[], flat) }

  /** Every order of every map on the way gives the same flat map. */
  ghost predicate OrderIsHidden(tree: Tree)
  {
    forall one, other :: FlatForm(tree, one) && FlatForm(tree, other) ==> one == other
  }

  // ------------------------------------------------------------------ every order can happen

  lemma {:induction false} SomeOrder(keys: set<string>) returns (order: seq<string>)
    ensures Visits(order, keys)
    decreases |keys|
  {
    order := [];
    if keys != {} {
      var k :| k in keys;
      var init := SomeOrder(keys - {k});
      order := init + [k];
      VisitsOneMore(init, keys - {k}, k);
      assert keys - {k} + {k} == keys;
    }
  }

  lemma {:induction false} CanFlatten(tree: Tree, prefix: string, before: Flat) returns (after: Flat)
    ensures Flattens(tree, prefix, before, after)
    decreases Depth(Fields(tree)), 1, 0
  {
    var order := SomeOrder(tree.Keys);
    var states := CanTrace(tree, prefix, order, before);
    after := states[|order|];
  }

  lemma {:induction false} CanTrace(tree: Tree, prefix: string, order: seq<string>, before: Flat)
      returns (states: seq<Flat>)
    requires forall k :: k in order ==> k in tree
    ensures Trace(tree, prefix, order, states) && states[0] == before
    decreases Depth(Fields(tree)), 0, |order|
  {
    states := [before];
    if order != [] {
      var init, k := order[..|order| - 1], order[|order| - 1];
      assert order == init + [k];
      var mid := CanTrace(tree, prefix, init, before);
      assert Depth(Fields(tree).fields[k]) < Depth(Fields(tree));
      var after := NodeCanFlatten(tree[k], KeyUnder(prefix, k), mid[|init|]);
      TraceOneMore(tree, prefix, init, mid, k, after);
      states := mid + [after];
    }
  }

  lemma {:induction false} NodeCanFlatten(n: Node, at: string, before: Flat) returns (after: Flat)
    ensures NodeFlattens(n, at, before, after)
    decreases Depth(n), 2, 0
  {
    match n
    case Scalar(_) => after := before[at := n];
    case Items(items) => after := PutItems(items, |items|, at, before)[at := n];
    case Fields(f) => after := CanFlatten(f, at, before);
    case Loose(e) =>
      StringKeyedIsNoDeeper(e);
      after := CanFlatten(StringKeyed(e), at, before);
  }

  /** A field can be the last to be visited. */
  lemma AllButLast(tree: Tree, prefix: string, k: string, before: Flat) returns (mid: Flat)
    requires k in tree
    ensures forall after :: FieldFlattens(tree, prefix, k, mid, after) ==> Flattens(tree, prefix, before, after)
  {
    var init := SomeOrder(tree.Keys - {k});
    var states := CanTrace(tree, prefix, init, before);
    mid := states[|init|];
    VisitsOneMore(init, tree.Keys - {k}, k);
    assert tree.Keys - {k} + {k} == tree.Keys;
    forall after | FieldFlattens(tree, prefix, k, mid, after) ensures Flattens(tree, prefix, before, after) {
      TraceOneMore(tree, prefix, init, states, k, after);
      assert (states + [after])[0] == before && (states + [after])[|init + [k]|] == after;
    }
  }

  // ------------------------------------------------------------------ conflicts show

  /** When the field itself gives the key one value only, that value stays if the field comes last. */
  lemma LastFieldDecides(tree: Tree, prefix: string, k: string, w: Assignment, before: Flat) returns (after: Flat)
    requires k in tree && w in FieldWrites(tree, prefix, k) && !Conflicting(FieldWrites(tree, prefix, k), w.key)
    ensures Flattens(tree, prefix, before, after) && w.key in after && after[w.key] == w.value
  {
    var mid := AllButLast(tree, prefix, k, before);
    after := NodeCanFlatten(tree[k], KeyUnder(prefix, k), mid);
    NodeFlattensOutcome(tree[k], KeyUnder(prefix, k), mid, after);
    assert Assignment(w.key, after[w.key]) in FieldWrites(tree, prefix, k);
  }

  lemma LeavesDoNotConflict(n: Node, at: string, key: string)
    requires n.Scalar? || n.Items?
    ensures !Conflicting(NodeWrites(n, at), key)
  {
    if n.Items? {
      forall u, v | u in NodeWrites(n, at) && v in NodeWrites(n, at) && u.key == key && v.key == key
        ensures u.value == v.value
      {
        if u in ItemWrites(n.items, |n.items|, at) && v in ItemWrites(n.items, |n.items|, at) {
          var i :| 0 <= i < |n.items| && u == Assignment(at + "." + Decimal(i), n.items[i]);
          var j :| 0 <= j < |n.items| && v == Assignment(at + "." + Decimal(j), n.items[j]);
          assert u.key[|at| + 1..] == Decimal(i) && v.key[|at| + 1..] == Decimal(j);
          ValueOfDecimal(i);
          ValueOfDecimal(j);
        }
      }
    }
  }

  /** Two conflicting assignments to a key give two results that differ there. */
  lemma {:induction false} ConflictShows(tree: Tree, prefix: string, key: string, before: Flat)
      returns (one: Flat, other: Flat)
    requires Conflicting(Writes(tree, prefix), key)
    ensures Flattens(tree, prefix, before, one) && Flattens(tree, prefix, before, other)
    ensures key in one && key in other && one[key] != other[key]
    decreases Depth(Fields(tree)), 1
  {
    if k :| k in tree && Conflicting(FieldWrites(tree, prefix, k), key) {
      var mid := AllButLast(tree, prefix, k, before);
      assert Depth(Fields(tree).fields[k]) < Depth(Fields(tree));
      one, other := NodeConflictShows(tree[k], KeyUnder(prefix, k), key, mid);
    } else {
      var u, v :| u in Writes(tree, prefix) && v in Writes(tree, prefix)
                  && u.key == key && v.key == key && u.value != v.value;
      var i := WriterOf(tree, prefix, u);
      var j := WriterOf(tree, prefix, v);
      one := LastFieldDecides(tree, prefix, i, u, before);
      other := LastFieldDecides(tree, prefix, j, v, before);
    }
  }

  lemma {:induction false} NodeConflictShows(n: Node, at: string, key: string, before: Flat)
      returns (one: Flat, other: Flat)
    requires Conflicting(NodeWrites(n, at), key)
    ensures NodeFlattens(n, at, before, one) && NodeFlattens(n, at, before, other)
    ensures key in one && key in other && one[key] != other[key]
    decreases Depth(n), 2
  {
    assert n.Fields? || n.Loose? by {
      if n.Scalar? || n.Items? {
        LeavesDoNotConflict(n, at, key);
      }
    }
    if n.Fields? {
      one, other := ConflictShows(n.fields, at, key, before);
    } else {
      StringKeyedIsNoDeeper(n.entries);
      one, other := ConflictShows(StringKeyed(n.entries), at, key, before);
    }
  }

  lemma OutcomeIsDetermined(writes: set<Assignment>, one: Flat, other: Flat)
    requires (forall key :: !Conflicting(writes, key)) && Outcome(writes, map[], one) && Outcome(writes, map[], other)
    ensures one == other
  {
    forall key | key in one ensures key in other && one[key] == other[key] {
      assert Assignment(key, one[key]).key == key;
      assert Assignment(key, other[key]) in writes && !Conflicting(writes, key);
    }
    forall key | key in other ensures key in one {
      assert Assignment(key, other[key]).key == key;
    }
  }

  lemma NoConflictHidesTheOrder(tree: Tree)
    requires forall key :: !Collides(tree, key)
    ensures OrderIsHidden(tree)
  {
    forall one, other | FlatForm(tree, one) && FlatForm(tree, other) ensures one == other {
      FlattensOutcome(tree, "", map[], one);
      FlattensOutcome(tree, "", map[], other);
      forall key ensures !Conflicting(Writes(tree, ""), key) {
        assert !Collides(tree, key);
      }
      OutcomeIsDetermined(Writes(tree, ""), one, other);
    }
  }

  /** The iteration order does not show if and only if no two assignments give one key different values. */
  lemma OrderIsHiddenExactlyWithoutConflict(tree: Tree)
    ensures OrderIsHidden(tree) <==> forall key :: !Collides(tree, key)
  {
    if key :| Collides(tree, key) {
      var one, other := ConflictShows(tree, "", key, map[]);
      assert FlatForm(tree, one) && FlatForm(tree, other) && one != other;
    } else {
      NoConflictHidesTheOrder(tree);
    }
  }

  /** Non-empty keys without dots are enough. */
  lemma PlainTreesHideTheOrder(tree: Tree)
    requires Plain(tree)
    ensures OrderIsHidden(tree)
  {
    forall one, other | FlatForm(tree, one) && FlatForm(tree, other) ensures one == other {
      FlattensOutcome(tree, "", map[], one);
      FlattensOutcome(tree, "", map[], other);
      IterationOrderDoesNotMatter(tree, one, other);
    }
  }

  // ------------------------------------------------------------------ collisions

  /** A dot in a key: {"a": {"b": "1"}, "a.b": "2"} has two flattenings. */
  lemma DottedKeysCollide() returns (one: Flat, other: Flat)
    ensures var tree: Tree := map["a" := Fields(map["b" := Scalar("1")]), "a.b" := Scalar("2")];
            && FlatForm(tree, one) && FlatForm(tree, other)
            && "a.b" in one && "a.b" in other && one["a.b"] != other["a.b"]
  {
    var inner: Tree := map["b" := Scalar("1")];
    var tree: Tree := map["a" := Fields(inner), "a.b" := Scalar("2")];
    assert KeyUnder("a", "b") == "a.b";
    FieldWritesInWrites(inner, "a", "b");
    FieldWritesInWrites(tree, "", "a");
    FieldWritesInWrites(tree, "", "a.b");
    assert Assignment("a.b", Scalar("1")) in FieldWrites(inner, "a", "b");
    assert Assignment("a.b", Scalar("1")) in FieldWrites(tree, "", "a");
    assert Assignment("a.b", Scalar("2")) in FieldWrites(tree, "", "a.b");
    assert Conflicting(Writes(tree, ""), "a.b");
    one, other := ConflictShows(tree, "", "a.b", map[]);
  }

  /** An empty key, without any dot: {"": {"a": "1"}, "a": "2"} has two flattenings. */
  lemma EmptyKeysCollide() returns (one: Flat, other: Flat)
    ensures var tree: Tree := map["" := Fields(map["a" := Scalar("1")]), "a" := Scalar("2")];
            && FlatForm(tree, one) && FlatForm(tree, other)
            && "a" in one && "a" in other && one["a"] != other["a"]
  {
    var inner: Tree := map["a" := Scalar("1")];
    var tree: Tree := map["" := Fields(inner), "a" := Scalar("2")];
    FieldWritesInWrites(inner, "", "a");
    FieldWritesInWrites(tree, "", "");
    FieldWritesInWrites(tree, "", "a");
    assert Assignment("a", Scalar("1")) in FieldWrites(inner, "", "a");
    assert Assignment("a", Scalar("1")) in FieldWrites(tree, "", "");
    assert Assignment("a", Scalar("2")) in FieldWrites(tree, "", "a");
    assert Conflicting(Writes(tree, ""), "a");
    one, other := ConflictShows(tree, "", "a", map[]);
  }
}
