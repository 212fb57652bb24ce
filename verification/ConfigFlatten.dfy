/** config/source.go, flattenMap: a parsed configuration file becomes one map from dotted keys to values. */
module ConfigFlatten {
  import opened Common
  import opened Decimals

  /** The key of a map[interface{}]interface{}: a string or something else. */
  datatype Name = Text(text: string) | Other(code: int)

  /** What a YAML, JSON or TOML parser yields: scalars, []interface{}, map[string]interface{} and
      map[interface{}]interface{}. */
  datatype Node =
    | Scalar(text: string)
    | Items(items: seq<Node>)
    | Fields(fields: map<string, Node>)
    | Loose(entries: map<Name, Node>)

  type Tree = map<string, Node>

  type Flat = map<string, Node>

  /** The copy of a map[interface{}]interface{} that keeps the string keys only. */
  function StringKeyed(entries: map<Name, Node>): Tree
  {
    map n | n in entries && n.Text? :: n.text := entries[n]
  }

  function KeyUnder(prefix: string, k: string): string
  {
    if prefix != "" then prefix + "." + k else k
  }

  // ------------------------------------------------------------------ nesting depth

  ghost function Top(s: set<nat>): (top: nat)
    ensures forall x :: x in s ==> x <= top
    ensures top == 0 || top in s
  {
    if s == {} then 0
    else
      var x :| x in s;
      var rest := s - {x};
      assert s == rest + {x};
      var y := Top(rest);
      if x < y then y else x
  }

  ghost function Depth(n: Node): (d: nat)
    ensures n.Fields? ==> forall k :: k in n.fields ==> Depth(n.fields[k]) < d
    ensures n.Loose? ==> forall k :: k in n.entries ==> Depth(n.entries[k]) < d
  {
    match n
    case Fields(f) =>
      var depths := set k | k in f :: Depth(f[k]);
      assert forall k :: k in f ==> Depth(f[k]) in depths;
      1 + Top(depths)
    case Loose(e) =>
      var depths := set k | k in e :: Depth(e[k]);
      assert forall k :: k in e ==> Depth(e[k]) in depths;
      1 + Top(depths)
    case _ => 0
  }

  lemma StringKeyedIsNoDeeper(entries: map<Name, Node>)
    ensures Depth(Fields(StringKeyed(entries))) <= Depth(Loose(entries))
  {
    var kept := StringKeyed(entries);
    var all := set n | n in entries :: Depth(entries[n]);
    var some := set k | k in kept :: Depth(kept[k]);
    forall d | d in some ensures d in all {
      var k :| k in kept && d == Depth(kept[k]);
      assert Text(k) in entries;
    }
  }

  // ------------------------------------------------------------------ what flattening writes

  datatype Assignment = Assignment(key: string, value: Node)

  /** Every assignment that flattening the tree under the prefix makes. */
  ghost function Writes(tree: Tree, prefix: string): set<Assignment>
    decreases Depth(Fields(tree)), 1
  {
    WritesOf(tree, prefix, tree.Keys)
  }

  /** Those of them that the given fields make. */
  ghost function WritesOf(tree: Tree, prefix: string, keys: set<string>): set<Assignment>
    requires keys <= tree.Keys
    decreases Depth(Fields(tree)), 0
  {
    set k, w | k in keys && w in FieldWrites(tree, prefix, k) :: w
  }

  /** An assignment is made by one of the fields. */
  lemma WriterOf(tree: Tree, prefix: string, w: Assignment) returns (k: string)
    requires w in Writes(tree, prefix)
    ensures k in tree && w in FieldWrites(tree, prefix, k)
  {
    assert w in WritesOf(tree, prefix, tree.Keys);
    k :| k in tree && w in FieldWrites(tree, prefix, k);
  }

  lemma FieldWritesInWrites(tree: Tree, prefix: string, k: string)
    requires k in tree
    ensures FieldWrites(tree, prefix, k) <= Writes(tree, prefix)
  {
    assert FieldWrites(tree, prefix, k) <= WritesOf(tree, prefix, tree.Keys);
  }

  lemma WritesOfOneMore(tree: Tree, prefix: string, keys: set<string>, k: string)
    requires keys <= tree.Keys && k in tree
    ensures WritesOf(tree, prefix, keys + {k}) == WritesOf(tree, prefix, keys) + FieldWrites(tree, prefix, k)
  {
  }

  ghost function FieldWrites(tree: Tree, prefix: string, k: string): set<Assignment>
    requires k in tree
    decreases Depth(tree[k]), 3
  {
    NodeWrites(tree[k], KeyUnder(prefix, k))
  }

  ghost function NodeWrites(n: Node, at: string): set<Assignment>
    decreases Depth(n), 2
  {
    match n
    case Scalar(_) => {Assignment(at, n)}
    case Items(items) => ItemWrites(items, |items|, at) + {Assignment(at, n)}
    case Fields(f) => Writes(f, at)
    case Loose(e) => StringKeyedIsNoDeeper(e); Writes(StringKeyed(e), at)
  }

  /** The assignments of the first n items to their indexed keys. */
  ghost function ItemWrites(items: seq<Node>, n: nat, at: string): set<Assignment>
    requires n <= |items|
  {
    set i | 0 <= i < n :: Assignment(at + "." + Decimal(i), items[i])
  }

  /** After is before with the assignments made in some order: a key that several of them mention holds the
      value of one of them. */
  ghost predicate Outcome(writes: set<Assignment>, before: Flat, after: Flat)
  {
    && (forall key :: key in after ==>
          Assignment(key, after[key]) in writes || (key in before && after[key] == before[key]))
    && (forall key :: key in before ==> key in after)
    && (forall w :: w in writes ==> w.key in after && Assignment(w.key, after[w.key]) in writes)
  }

  lemma OutcomesCompose(first: set<Assignment>, second: set<Assignment>, a: Flat, b: Flat, c: Flat)
    requires Outcome(first, a, b) && Outcome(second, b, c)
    ensures Outcome(first + second, a, c)
  {
  }

  // ------------------------------------------------------------------ what flattening may leave

  /** The order visits every one of the keys exactly once. */
  predicate Visits(order: seq<string>, keys: set<string>)
  {
    && (forall k :: k in order ==> k in keys) && (forall k :: k in keys ==> k in order)
    && forall i, j :: 0 <= i < j < |order| ==> order[i] != order[j]
  }

  function Elements(order: seq<string>): set<string> { set k | k in order }

  /** For some order of every map on the way, flattening takes the output from before to after. */
  ghost predicate Flattens(tree: Tree, prefix: string, before: Flat, after: Flat)
    decreases Depth(Fields(tree)), 1
  {
    exists order, states ::
      && Visits(order, tree.Keys) && Trace(tree, prefix, order, states)
      && states[0] == before && states[|order|] == after
  }

  /** The states of the output between the fields, visited in this order. */
  ghost predicate Trace(tree: Tree, prefix: string, order: seq<string>, states: seq<Flat>)
    requires forall k :: k in order ==> k in tree
    decreases Depth(Fields(tree)), 0
  {
    |states| == |order| + 1 &&
    forall i :: 0 <= i < |order| ==> FieldFlattens(tree, prefix, order[i], states[i], states[i + 1])
  }

  ghost predicate FieldFlattens(tree: Tree, prefix: string, k: string, before: Flat, after: Flat)
    requires k in tree
    decreases Depth(tree[k]), 3
  {
    NodeFlattens(tree[k], KeyUnder(prefix, k), before, after)
  }

  ghost predicate NodeFlattens(n: Node, at: string, before: Flat, after: Flat)
    decreases Depth(n), 2
  {
    match n
    case Scalar(_) => after == before[at := n]
    case Items(items) => after == PutItems(items, |items|, at, before)[at := n]
    case Fields(f) => Flattens(f, at, before, after)
    case Loose(e) => StringKeyedIsNoDeeper(e); Flattens(StringKeyed(e), at, before, after)
  }

  function PutItems(items: seq<Node>, n: nat, at: string, before: Flat): Flat
    requires n <= |items|
  {
    if n == 0 then before else PutItems(items, n - 1, at, before)[at + "." + Decimal(n - 1) := items[n - 1]]
  }

  lemma TraceOneMore(tree: Tree, prefix: string, order: seq<string>, states: seq<Flat>, k: string, after: Flat)
    requires (forall x :: x in order ==> x in tree) && k in tree && Trace(tree, prefix, order, states)
    requires FieldFlattens(tree, prefix, k, states[|order|], after)
    ensures Trace(tree, prefix, order + [k], states + [after])
  {
  }

  lemma VisitsOneMore(order: seq<string>, keys: set<string>, k: string)
    requires Visits(order, keys) && k !in keys
    ensures Visits(order + [k], keys + {k})
  {
  }

  // Each of these is one of the assignments' outcomes.

  lemma ItemWritesOneMore(items: seq<Node>, n: nat, at: string)
    requires n < |items|
    ensures ItemWrites(items, n + 1, at) == ItemWrites(items, n, at) + {Assignment(at + "." + Decimal(n), items[n])}
  {
  }

  lemma {:induction false} PutItemsOutcome(items: seq<Node>, n: nat, at: string, before: Flat)
    requires n <= |items|
    ensures Outcome(ItemWrites(items, n, at), before, PutItems(items, n, at, before))
  {
    if n > 0 {
      PutItemsOutcome(items, n - 1, at, before);
      var mid, last := PutItems(items, n - 1, at, before), Assignment(at + "." + Decimal(n - 1), items[n - 1]);
      ItemWritesOneMore(items, n - 1, at);
      OutcomesCompose(ItemWrites(items, n - 1, at), {last}, before, mid, mid[last.key := last.value]);
    }
  }

  lemma {:induction false} FlattensOutcome(tree: Tree, prefix: string, before: Flat, after: Flat)
    requires Flattens(tree, prefix, before, after)
    ensures Outcome(Writes(tree, prefix), before, after)
    decreases Depth(Fields(tree)), 1, 0
  {
    var order, states :| Visits(order, tree.Keys) && Trace(tree, prefix, order, states)
                         && states[0] == before && states[|order|] == after;
    TraceOutcome(tree, prefix, order, states, |order|);
    assert order[..|order|] == order;
    assert Elements(order) == tree.Keys;
  }

  lemma ElementsOneMore(order: seq<string>, n: nat)
    requires n < |order|
    ensures Elements(order[..n + 1]) == Elements(order[..n]) + {order[n]}
  {
    assert order[..n + 1] == order[..n] + [order[n]];
  }

  lemma {:induction false} TraceOutcome(tree: Tree, prefix: string, order: seq<string>, states: seq<Flat>, n: nat)
    requires (forall k :: k in order ==> k in tree) && Trace(tree, prefix, order, states) && n <= |order|
    ensures (forall k :: k in order[..n] ==> k in tree)
    ensures Outcome(WritesOf(tree, prefix, Elements(order[..n])), states[0], states[n])
    decreases Depth(Fields(tree)), 0, n
  {
    assert forall k :: k in order[..n] ==> k in order;
    if n == 0 {
      assert WritesOf(tree, prefix, Elements(order[..0])) == {};
    } else {
      var k, done := order[n - 1], Elements(order[..n - 1]);
      ElementsOneMore(order, n - 1);
      TraceOutcome(tree, prefix, order, states, n - 1);
      assert Depth(Fields(tree).fields[k]) < Depth(Fields(tree));
      assert FieldFlattens(tree, prefix, order[n - 1], states[n - 1], states[n - 1 + 1]);
      NodeFlattensOutcome(tree[k], KeyUnder(prefix, k), states[n - 1], states[n]);
      OutcomesCompose(WritesOf(tree, prefix, done), FieldWrites(tree, prefix, k), states[0], states[n - 1], states[n]);
      WritesOfOneMore(tree, prefix, done, k);
    }
  }

  lemma {:induction false} NodeFlattensOutcome(n: Node, at: string, before: Flat, after: Flat)
    requires NodeFlattens(n, at, before, after)
    ensures Outcome(NodeWrites(n, at), before, after)
    decreases Depth(n), 2, 0
  {
    match n
    case Scalar(_) =>
    case Items(items) =>
      PutItemsOutcome(items, |items|, at, before);
      OutcomesCompose(ItemWrites(items, |items|, at), {Assignment(at, n)}, before, PutItems(items, |items|, at, before),
        after);
    case Fields(f) => FlattensOutcome(f, at, before, after);
    case Loose(e) =>
      StringKeyedIsNoDeeper(e);
      FlattensOutcome(StringKeyed(e), at, before, after);
  }

  // ------------------------------------------------------------------ flattenMap

  /** The map that the caller passes in to be filled. */
  class Output {
    var entries: Flat

    constructor ()
      ensures entries == map[]
    {
      entries := map[];
    }
  }

  method ConvertKeys(entries: map<Name, Node>) returns (tree: Tree)
    ensures tree == StringKeyed(entries)
  {
    tree := map[];
    var rest := entries.Keys;
    while rest != {}
      invariant rest <= entries.Keys
      invariant forall k :: k in tree <==> Text(k) in entries && Text(k) !in rest
      invariant forall k :: k in tree ==> tree[k] == entries[Text(k)]
      decreases |rest|
    {
      var n :| n in rest;
      rest := rest - {n};
      if n.Text? {
        tree := tree[n.text := entries[n]];
      }
    }
  }

  /** The order in which the keys are visited is not determined. */
  method FlattenMap(input: Tree, prefix: string, output: Output)
    modifies output
    ensures Flattens(input, prefix, old(output.entries), output.entries)
    decreases Depth(Fields(input)), 0
  {
    var rest := input.Keys;
    ghost var order: seq<string>, states: seq<Flat> := [], [output.entries];
    while rest != {}
      invariant rest <= input.Keys && Visits(order, input.Keys - rest)
      invariant Trace(input, prefix, order, states)
      invariant states[0] == old(output.entries) && states[|order|] == output.entries
      decreases |rest|
    {
      var k :| k in rest;
      assert Depth(Fields(input).fields[k]) < Depth(Fields(input));
      FlattenNode(input[k], KeyUnder(prefix, k), output);
      TraceOneMore(input, prefix, order, states, k, output.entries);
      VisitsOneMore(order, input.Keys - rest, k);
      assert input.Keys - (rest - {k}) == input.Keys - rest + {k};
      rest, order, states := rest - {k}, order + [k], states + [output.entries];
    }
    assert input.Keys - rest == input.Keys;
  }

  method FlattenNode(value: Node, key: string, output: Output)
    modifies output
    ensures NodeFlattens(value, key, old(output.entries), output.entries)
    decreases Depth(value), 1
  {
    match value
    case Fields(fields) => FlattenMap(fields, key, output);
    case Loose(entries) =>
      StringKeyedIsNoDeeper(entries);
      var tree := ConvertKeys(entries);
      FlattenMap(tree, key, output);
    case Items(items) =>
      for i := 0 to |items|
        invariant output.entries == PutItems(items, i, key, old(output.entries))
      {
        output.entries := output.entries[key + "." + Decimal(i) := items[i]];
      }
      output.entries := output.entries[key := value];
    case Scalar(_) => output.entries := output.entries[key := value];
  }

  // ------------------------------------------------------------------ dotted paths

  function Dotted(path: seq<string>): string
  {
    if path == [] then ""
    else if |path| == 1 then path[0]
    else Dotted(path[..|path| - 1]) + "." + path[|path| - 1]
  }

  /** The segments between the dots. */
  function Split(key: string): (path: seq<string>)
    ensures path != []
  {
    if key == "" then [""]
    else
      var before, c := Split(key[..|key| - 1]), key[|key| - 1];
      if c == '.' then before + [""] else before[..|before| - 1] + [before[|before| - 1] + [c]]
  }

  predicate PlainKey(k: string) { k != "" && '.' !in k }

  predicate PlainPath(path: seq<string>) { forall i :: 0 <= i < |path| ==> PlainKey(path[i]) }

  lemma DottedSnoc(path: seq<string>, k: string)
    ensures Dotted(path + [k]) == if path == [] then k else Dotted(path) + "." + k
  {
    assert (path + [k])[..|path|] == path;
  }

  lemma DottedIsNotEmpty(path: seq<string>)
    requires path != [] && PlainPath(path)
    ensures Dotted(path) != ""
  {
  }

  lemma DottedUnder(path: seq<string>, k: string)
    requires PlainPath(path)
    ensures Dotted(path + [k]) == KeyUnder(Dotted(path), k)
  {
    DottedSnoc(path, k);
    if path != [] {
      DottedIsNotEmpty(path);
    }
  }

  /** Extending the last segment extends the key. */
  lemma DottedGrows(init: seq<string>, last: string, c: char)
    ensures Dotted(init + [last + [c]]) == Dotted(init + [last]) + [c]
  {
    DottedSnoc(init, last);
    DottedSnoc(init, last + [c]);
  }

  lemma {:induction false} DottedSplit(key: string)
    ensures Dotted(Split(key)) == key
    decreases |key|
  {
    if key != "" {
      var before, c := Split(key[..|key| - 1]), key[|key| - 1];
      DottedSplit(key[..|key| - 1]);
      assert key == key[..|key| - 1] + [c];
      if c == '.' {
        DottedSnoc(before, "");
      } else {
        var init, last := before[..|before| - 1], before[|before| - 1];
        assert before == init + [last];
        DottedGrows(init, last, c);
      }
    }
  }

  lemma {:induction false} SplitPlain(k: string)
    requires '.' !in k
    ensures Split(k) == [k]
    decreases |k|
  {
    if k != "" {
      var init, c := k[..|k| - 1], k[|k| - 1];
      assert c in k;
      SplitPlain(init);
      assert [init][..0] == [];
      assert k == init + [c];
    }
  }

  lemma {:induction false} SplitUnder(key: string, k: string)
    requires '.' !in k
    ensures Split(key + "." + k) == Split(key) + [k]
    decreases |k|
  {
    var whole := key + "." + k;
    if k == "" {
      assert whole[..|whole| - 1] == key;
    } else {
      var init, c := k[..|k| - 1], k[|k| - 1];
      assert c in k;
      SplitUnder(key, init);
      assert whole[..|whole| - 1] == key + "." + init;
      var before := Split(key) + [init];
      assert before[..|before| - 1] == Split(key);
      assert k == init + [c];
    }
  }

  lemma {:induction false} SplitDotted(path: seq<string>)
    requires path != [] && PlainPath(path)
    ensures Split(Dotted(path)) == path
    decreases |path|
  {
    var init, last := path[..|path| - 1], path[|path| - 1];
    assert path == init + [last];
    assert PlainKey(last);
    if init == [] {
      SplitPlain(last);
    } else {
      SplitDotted(init);
      SplitUnder(Dotted(init), last);
    }
  }

  /** Different paths have different dotted keys, indices included. */
  lemma DottedInjective(p: seq<string>, q: seq<string>)
    requires p != [] && PlainPath(p) && q != [] && PlainPath(q)
    requires Dotted(p) == Dotted(q)
    ensures p == q
  {
    SplitDotted(p);
    SplitDotted(q);
  }

  // ------------------------------------------------------------------ the reference: looking a path up

  /** The leaf at the path, without flattening: a scalar, an array, or one item of an array by its index. */
  function Leaf(tree: Tree, path: seq<string>): Option<Node>
    decreases |path|, 0
  {
    if path == [] || path[0] !in tree then None else LeafBelow(tree[path[0]], path[1..])
  }

  function LeafBelow(n: Node, path: seq<string>): Option<Node>
    decreases |path|, 1
  {
    match n
    case Scalar(_) => if path == [] then Some(n) else None
    case Items(items) => if path == [] then Some(n) else if |path| == 1 then ItemAt(items, path[0]) else None
    case Fields(f) => Leaf(f, path)
    case Loose(e) => if path == [] || Text(path[0]) !in e then None else LeafBelow(e[Text(path[0])], path[1..])
  }

  function ItemAt(items: seq<Node>, index: string): Option<Node>
  {
    if Canonical(index) && Value(index) < |items| then Some(items[Value(index)]) else None
  }

  /** Every key on the way to a leaf is non-empty and has no dot. */
  ghost predicate Plain(tree: Tree)
    decreases Depth(Fields(tree)), 0
  {
    forall k :: k in tree ==> PlainKey(k) && PlainBelow(Fields(tree).fields[k])
  }

  ghost predicate PlainBelow(n: Node)
    decreases Depth(n), 1
  {
    match n
    case Fields(f) => Plain(f)
    case Loose(e) => forall k :: Text(k) in e ==> PlainKey(k) && PlainBelow(Loose(e).entries[Text(k)])
    case _ => true
  }

  lemma DecimalIsPlain(i: nat)
    ensures PlainKey(Decimal(i))
  {
  }

  lemma Concatenated(pre: seq<string>, k: string, below: seq<string>)
    ensures pre + ([k] + below) == pre + [k] + below && ([k] + below)[1..] == below
    ensures PlainPath([k] + below) <==> PlainKey(k) && PlainPath(below)
  {
    var path := [k] + below;
    assert path[0] == k && forall i :: 0 <= i < |below| ==> below[i] == path[i + 1];
  }

  /** Whatever is written under a prefix is the leaf at some path below it. */
  lemma {:induction false} WrittenIsLeaf(tree: Tree, pre: seq<string>, w: Assignment) returns (path: seq<string>)
    requires Plain(tree) && PlainPath(pre) && w in Writes(tree, Dotted(pre))
    ensures path != [] && PlainPath(path) && w.key == Dotted(pre + path) && Leaf(tree, path) == Some(w.value)
    decreases Depth(Fields(tree)), 0
  {
    var k := WriterOf(tree, Dotted(pre), w);
    DottedUnder(pre, k);
    assert Depth(Fields(tree).fields[k]) < Depth(Fields(tree));
    var below := WrittenBelowIsLeaf(tree[k], pre + [k], w);
    path := [k] + below;
    Concatenated(pre, k, below);
  }

  lemma {:induction false} WrittenBelowIsLeaf(n: Node, pre: seq<string>, w: Assignment) returns (path: seq<string>)
    requires PlainBelow(n) && pre != [] && PlainPath(pre) && w in NodeWrites(n, Dotted(pre))
    ensures PlainPath(path) && w.key == Dotted(pre + path) && LeafBelow(n, path) == Some(w.value)
    decreases Depth(n), 1
  {
    path := [];
    assert pre + [] == pre;
    match n
    case Scalar(_) =>
    case Items(items) =>
      if w != Assignment(Dotted(pre), n) {
        var i :| 0 <= i < |items| && w == Assignment(Dotted(pre) + "." + Decimal(i), items[i]);
        path := [Decimal(i)];
        DecimalIsPlain(i);
        DottedSnoc(pre, Decimal(i));
        ValueOfDecimal(i);
        DecimalIsCanonical(i);
      }
    case Fields(f) => path := WrittenIsLeaf(f, pre, w);
    case Loose(e) =>
      StringKeyedIsNoDeeper(e);
      path := WrittenIsLeaf(StringKeyed(e), pre, w);
  }

  /** Every leaf is written, to the dotted form of its path. */
  lemma {:induction false} LeafIsWritten(tree: Tree, pre: seq<string>, path: seq<string>)
    requires Plain(tree) && PlainPath(pre) && Leaf(tree, path).Some?
    ensures PlainPath(path) && Assignment(Dotted(pre + path), Leaf(tree, path).value) in Writes(tree, Dotted(pre))
    decreases |path|, 0
  {
    var k, below := path[0], path[1..];
    assert path == [k] + below;
    Concatenated(pre, k, below);
    assert PlainKey(k) && PlainBelow(Fields(tree).fields[k]);
    DottedUnder(pre, k);
    LeafBelowIsWritten(tree[k], pre + [k], below);
    assert Assignment(Dotted(pre + path), Leaf(tree, path).value) in FieldWrites(tree, Dotted(pre), k);
  }

  lemma {:induction false} LeafBelowIsWritten(n: Node, pre: seq<string>, path: seq<string>)
    requires PlainBelow(n) && pre != [] && PlainPath(pre) && LeafBelow(n, path).Some?
    ensures PlainPath(path) && Assignment(Dotted(pre + path), LeafBelow(n, path).value) in NodeWrites(n, Dotted(pre))
    decreases |path|, 1
  {
    match n
    case Scalar(_) => assert pre + path == pre;
    case Items(items) =>
      if path == [] {
        assert pre + path == pre;
      } else {
        var i := Value(path[0]);
        DecimalOfValue(path[0]);
        assert path == [Decimal(i)];
        DecimalIsPlain(i);
        DottedSnoc(pre, Decimal(i));
        assert Assignment(Dotted(pre) + "." + Decimal(i), items[i]) in ItemWrites(items, |items|, Dotted(pre));
      }
    case Fields(f) => LeafIsWritten(f, pre, path);
    case Loose(e) => LeafIsWritten(StringKeyed(e), pre, path);
  }

  // ------------------------------------------------------------------ the main results

  function Find(flat: Flat, key: string): Option<Node> { if key in flat then Some(flat[key]) else None }

  /** In every iteration order, looking a key up in the flat map is looking its segments up in the tree. */
  lemma FlatLookupIsTreeLookup(tree: Tree, flat: Flat, key: string)
    requires Plain(tree) && Outcome(Writes(tree, ""), map[], flat)
    ensures Find(flat, key) == Leaf(tree, Split(key))
  {
    assert Dotted([]) == "";
    if key in flat {
      var w := Assignment(key, flat[key]);
      var path := WrittenIsLeaf(tree, [], w);
      assert [] + path == path;
      SplitDotted(path);
    }
    var path := Split(key);
    if Leaf(tree, path).Some? {
      LeafIsWritten(tree, [], path);
      assert [] + path == path;
      DottedSplit(key);
    }
  }

  /** FileSource.Load after parsing. */
  method LoadParsed(tree: Tree) returns (flat: Flat)
    ensures Flattens(tree, "", map[], flat)
    ensures Plain(tree) ==> forall key :: Find(flat, key) == Leaf(tree, Split(key))
  {
    var output := new Output();
    FlattenMap(tree, "", output);
    flat := output.entries;
    FlattensOutcome(tree, "", map[], flat);
    if Plain(tree) {
      forall key ensures Find(flat, key) == Leaf(tree, Split(key)) {
        FlatLookupIsTreeLookup(tree, flat, key);
      }
    }
  }

  /** Each path to a leaf has its own key, which holds exactly that leaf. */
  lemma EveryLeafHasItsKey(tree: Tree, flat: Flat, path: seq<string>)
    requires Plain(tree) && Outcome(Writes(tree, ""), map[], flat) && Leaf(tree, path).Some?
    ensures Find(flat, Dotted(path)) == Leaf(tree, path)
    ensures forall other :: Leaf(tree, other).Some? && Dotted(other) == Dotted(path) ==> other == path
  {
    LeafIsWritten(tree, [], path);
    SplitDotted(path);
    FlatLookupIsTreeLookup(tree, flat, Dotted(path));
    forall other | Leaf(tree, other).Some? && Dotted(other) == Dotted(path) ensures other == path {
      LeafIsWritten(tree, [], other);
      DottedInjective(other, path);
    }
  }

  /** The iteration order does not show. */
  lemma IterationOrderDoesNotMatter(tree: Tree, one: Flat, other: Flat)
    requires Plain(tree)
    requires Outcome(Writes(tree, ""), map[], one) && Outcome(Writes(tree, ""), map[], other)
    ensures one == other
  {
    forall key ensures Find(one, key) == Find(other, key) {
      FlatLookupIsTreeLookup(tree, one, key);
      FlatLookupIsTreeLookup(tree, other, key);
    }
    forall key ensures key in one <==> key in other {
      assert Find(one, key) == Find(other, key);
    }
    forall key | key in one ensures one[key] == other[key] {
      assert Find(one, key) == Find(other, key);
    }
  }
}
