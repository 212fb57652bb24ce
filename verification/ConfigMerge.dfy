/** config/manager.go, DefaultManager.Load: the sources are sorted by priority and merged, first come first
    kept. Applying the merged map to a struct by reflection is not part of this model. */
module ConfigMerge {
  import opened Common
  import opened ConfigFlatten

  /** A source, its priority, and what its Load returns: a map of dotted keys or an error. */
  datatype Source = Source(name: string, priority: int, load: Result<Flat, string>)

  predicate Defines(s: Source, key: string) { s.load.Ok? && key in s.load.value }

  function ValueOf(s: Source, key: string): Node
    requires Defines(s, key)
  {
    s.load.value[key]
  }

  predicate Descending(sources: seq<Source>)
  {
    forall i, j :: 0 <= i < j < |sources| ==> sources[i].priority >= sources[j].priority
  }

  /** A possible result of sort.Slice, which need not be stable. */
  ghost predicate SortedFrom(order: seq<Source>, sources: seq<Source>)
  {
    Descending(order) && multiset(order) == multiset(sources)
  }

  // ------------------------------------------------------------------ the merge

  function Keep(merged: Flat, s: Source): Flat
  {
    match s.load
    case Ok(data) => data + merged
    case Err(_) => merged
  }

  /** The merged map after the sources, in the given order. */
  function Merged(order: seq<Source>): Flat
  {
    if order == [] then map[] else Keep(Merged(order[..|order| - 1]), order[|order| - 1])
  }

  class DefaultManager {
    var sources: seq<Source>

    constructor ()
      ensures sources == []
    {
      sources := [];
    }

    method AddSource(source: Source)
      modifies this
      ensures sources == old(sources) + [source]
    {
      sources := sources + [source];
    }

    /** The map that Load hands to mergeConfig. */
    method LoadMerged() returns (merged: Flat)
      ensures exists order :: SortedFrom(order, sources) && merged == Merged(order)
      ensures forall key :: key in merged <==> exists s :: s in sources && Defines(s, key)
      ensures forall key :: key in merged ==> exists s :: Wins(sources, s, key) && merged[key] == ValueOf(s, key)
    {
      var order := SortByPriority(sources);
      merged := map[];
      for i := 0 to |order|
        invariant merged == Merged(order[..i])
      {
        assert order[..i + 1][..i] == order[..i];
        match order[i].load
        case Err(_) =>
        case Ok(data) => merged := MergeOne(merged, data);
      }
      assert order[..|order|] == order;
      MergedHoldsWinners(order, sources);
    }
  }

  method MergeOne(before: Flat, data: Flat) returns (merged: Flat)
    ensures merged == data + before
  {
    merged := before;
    var rest := data.Keys;
    while rest != {}
      invariant rest <= data.Keys
      invariant forall k :: k in merged <==> k in before || (k in data && k !in rest)
      invariant forall k :: k in merged ==> merged[k] == if k in before then before[k] else data[k]
      decreases |rest|
    {
      var k :| k in rest;
      rest := rest - {k};
      if k !in merged {
        merged := merged[k := data[k]];
      }
    }
  }

  // ------------------------------------------------------------------ sorting

  /** The length of the part of the order that stays before a source of this priority. */
  function Above(order: seq<Source>, priority: int): (n: nat)
    ensures n <= |order|
    ensures forall i :: 0 <= i < n ==> order[i].priority > priority
    ensures n < |order| ==> order[n].priority <= priority
  {
    if order == [] || order[0].priority <= priority then 0 else 1 + Above(order[1..], priority)
  }

  function Insert(order: seq<Source>, s: Source): seq<Source>
  {
    var n := Above(order, s.priority);
    order[..n] + [s] + order[n..]
  }

  lemma InsertKeepsMembers(order: seq<Source>, s: Source)
    ensures multiset(Insert(order, s)) == multiset(order) + multiset{s}
  {
    var n := Above(order, s.priority);
    assert order == order[..n] + order[n..];
  }

  lemma InsertDescends(order: seq<Source>, s: Source)
    requires Descending(order)
    ensures Descending(Insert(order, s))
  {
    var n, r := Above(order, s.priority), Insert(order, s);
    assert forall i :: 0 <= i < n ==> r[i] == order[i];
    assert r[n] == s;
    assert forall i :: n < i < |r| ==> r[i] == order[i - 1];
    assert forall i :: n <= i < |order| ==> order[i].priority <= s.priority;
  }

  lemma InsertSorts(order: seq<Source>, s: Source, sources: seq<Source>)
    requires SortedFrom(order, sources)
    ensures SortedFrom(Insert(order, s), sources + [s])
  {
    InsertKeepsMembers(order, s);
    InsertDescends(order, s);
  }

  method SortByPriority(sources: seq<Source>) returns (order: seq<Source>)
    ensures SortedFrom(order, sources)
  {
    order := [];
    for i := 0 to |sources|
      invariant SortedFrom(order, sources[..i])
    {
      InsertSorts(order, sources[i], sources[..i]);
      assert sources[..i + 1] == sources[..i] + [sources[i]];
      order := Insert(order, sources[i]);
    }
    assert sources[..|sources|] == sources;
  }

  // ------------------------------------------------------------------ who wins

  /** The source loaded, defines the key, and no source that does has a higher priority. */
  predicate Wins(sources: seq<Source>, s: Source, key: string)
  {
    && s in sources && Defines(s, key)
    && forall t :: t in sources && Defines(t, key) ==> t.priority <= s.priority
  }

  /** The first source of the order that defines the key decides. */
  lemma {:induction false} FirstDefinerDecides(order: seq<Source>, i: nat, key: string)
    requires i < |order| && Defines(order[i], key)
    requires forall j :: 0 <= j < i ==> !Defines(order[j], key)
    ensures key in Merged(order) && Merged(order)[key] == ValueOf(order[i], key)
    decreases |order|
  {
    var init := order[..|order| - 1];
    if i < |init| {
      FirstDefinerDecides(init, i, key);
    } else if key in Merged(init) {
      var j := FirstDefiner(init, key);
    }
  }

  /** A merged key has a first definer. */
  lemma {:induction false} FirstDefiner(order: seq<Source>, key: string) returns (i: nat)
    requires key in Merged(order)
    ensures i < |order| && Defines(order[i], key)
    ensures forall j :: 0 <= j < i ==> !Defines(order[j], key)
    decreases |order|
  {
    var init := order[..|order| - 1];
    if key in Merged(init) {
      i := FirstDefiner(init, key);
    } else {
      i := |init|;
      if j :| 0 <= j < i && Defines(order[j], key) {
        DefinedIsMerged(init, j, key);
        assert false;
      }
    }
  }

  lemma {:induction false} DefinedIsMerged(order: seq<Source>, i: nat, key: string)
    requires i < |order| && Defines(order[i], key)
    ensures key in Merged(order)
    decreases |order|
  {
    if i < |order| - 1 {
      DefinedIsMerged(order[..|order| - 1], i, key);
    }
  }

  lemma SameMembers(order: seq<Source>, sources: seq<Source>)
    requires SortedFrom(order, sources)
    ensures forall s :: s in order <==> s in sources
  {
    assert forall s :: s in order <==> s in multiset(order);
    assert forall s :: s in sources <==> s in multiset(sources);
  }

  lemma MergedHoldsWinner(order: seq<Source>, sources: seq<Source>, key: string) returns (s: Source)
    requires SortedFrom(order, sources) && key in Merged(order)
    ensures Wins(sources, s, key) && Merged(order)[key] == ValueOf(s, key)
  {
    SameMembers(order, sources);
    var i := FirstDefiner(order, key);
    FirstDefinerDecides(order, i, key);
    s := order[i];
    forall t | t in sources && Defines(t, key) ensures t.priority <= s.priority {
      assert t in order;
      var j :| 0 <= j < |order| && order[j] == t;
    }
  }

  /** A key is in the merged map exactly when some source that loaded defines it, and its value is that of
      a source of the highest priority among those. */
  lemma MergedHoldsWinners(order: seq<Source>, sources: seq<Source>)
    requires SortedFrom(order, sources)
    ensures forall key :: key in Merged(order) <==> exists s :: s in sources && Defines(s, key)
    ensures forall key :: key in Merged(order) ==>
              exists s :: Wins(sources, s, key) && Merged(order)[key] == ValueOf(s, key)
  {
    SameMembers(order, sources);
    forall key | key in Merged(order)
      ensures exists s :: Wins(sources, s, key) && Merged(order)[key] == ValueOf(s, key)
      ensures exists s :: s in sources && Defines(s, key)
    {
      var s := MergedHoldsWinner(order, sources, key);
    }
    forall key, s | s in sources && Defines(s, key) ensures key in Merged(order) {
      assert s in order;
      var i :| 0 <= i < |order| && order[i] == s;
      DefinedIsMerged(order, i, key);
    }
  }

  // ------------------------------------------------------------------ when the result is determined

  predicate DistinctPriorities(sources: seq<Source>)
  {
    forall s, t :: s in sources && t in sources && s.priority == t.priority ==> s == t
  }

  /** Sources of one highest priority for a key give it the same value. */
  ghost predicate WinnersAgree(sources: seq<Source>)
  {
    forall key, s, t :: Wins(sources, s, key) && Wins(sources, t, key) ==> ValueOf(s, key) == ValueOf(t, key)
  }

  /** With distinct priorities every key holds the value of the one highest-priority source that defines
      it. */
  lemma HighestPriorityWins(order: seq<Source>, sources: seq<Source>, s: Source, key: string)
    requires DistinctPriorities(sources) && SortedFrom(order, sources) && Wins(sources, s, key)
    ensures key in Merged(order) && Merged(order)[key] == ValueOf(s, key)
  {
    MergedHoldsWinners(order, sources);
    var t := MergedHoldsWinner(order, sources, key);
  }

  lemma DistinctPrioritiesAgree(sources: seq<Source>)
    requires DistinctPriorities(sources)
    ensures WinnersAgree(sources)
  {
  }

  /** When the winners agree, neither the registration order nor the sort's choices show. */
  lemma AgreementHidesTheOrder(one: seq<Source>, other: seq<Source>, order: seq<Source>, order': seq<Source>)
    requires WinnersAgree(one) && multiset(one) == multiset(other)
    requires SortedFrom(order, one) && SortedFrom(order', other)
    ensures Merged(order) == Merged(order')
  {
    assert SortedFrom(order', one);
    MergedHoldsWinners(order, one);
    MergedHoldsWinners(order', one);
    forall key | key in Merged(order) ensures key in Merged(order') && Merged(order)[key] == Merged(order')[key] {
      var s := MergedHoldsWinner(order, one, key);
      var t := MergedHoldsWinner(order', one, key);
    }
  }

  /** With distinct priorities the merged map is the same for every order of registration. */
  lemma RegistrationOrderDoesNotMatter(one: seq<Source>, other: seq<Source>, order: seq<Source>, order': seq<Source>)
    requires DistinctPriorities(one) && multiset(one) == multiset(other)
    requires SortedFrom(order, one) && SortedFrom(order', other)
    ensures Merged(order) == Merged(order')
  {
    DistinctPrioritiesAgree(one);
    AgreementHidesTheOrder(one, other, order, order');
  }

  lemma Others(sources: seq<Source>, s: Source) returns (others: seq<Source>)
    requires s in sources
    ensures multiset(others + [s]) == multiset(sources)
  {
    var i :| 0 <= i < |sources| && sources[i] == s;
    others := sources[..i] + sources[i + 1..];
    assert sources == sources[..i] + [s] + sources[i + 1..];
  }

  /** Some sort puts a given winner of a key first among the sources that define the key. */
  lemma WinnerCanDecide(sources: seq<Source>, s: Source, key: string) returns (order: seq<Source>)
    requires Wins(sources, s, key)
    ensures SortedFrom(order, sources)
    ensures key in Merged(order) && Merged(order)[key] == ValueOf(s, key)
  {
    var others := Others(sources, s);
    var rest := SortOf(others);
    InsertSorts(rest, s, others);
    order := Insert(rest, s);
    var n := Above(rest, s.priority);
    SameMembers(order, sources);
    forall j | 0 <= j < n ensures !Defines(order[j], key) {
      assert order[j] == rest[j] && order[j] in order;
    }
    FirstDefinerDecides(order, n, key);
  }

  lemma {:induction false} SortOf(sources: seq<Source>) returns (order: seq<Source>)
    ensures SortedFrom(order, sources)
    decreases |sources|
  {
    order := [];
    if sources != [] {
      var init := sources[..|sources| - 1];
      assert sources == init + [sources[|sources| - 1]];
      var before := SortOf(init);
      InsertSorts(before, sources[|sources| - 1], init);
      order := Insert(before, sources[|sources| - 1]);
    }
  }

  /** Every sort gives the same merged map. */
  ghost predicate Determined(sources: seq<Source>)
  {
    forall order, order' :: SortedFrom(order, sources) && SortedFrom(order', sources) ==>
      Merged(order) == Merged(order')
  }

  /** The result is determined exactly when the winners of every key agree. */
  lemma DeterminedExactlyWhenWinnersAgree(sources: seq<Source>)
    ensures Determined(sources) <==> WinnersAgree(sources)
  {
    if WinnersAgree(sources) {
      forall order, order' | SortedFrom(order, sources) && SortedFrom(order', sources)
        ensures Merged(order) == Merged(order')
      {
        AgreementHidesTheOrder(sources, sources, order, order');
      }
    }
    if Determined(sources) {
      forall key, s, t | Wins(sources, s, key) && Wins(sources, t, key) ensures ValueOf(s, key) == ValueOf(t, key) {
        var order := WinnerCanDecide(sources, s, key);
        var order' := WinnerCanDecide(sources, t, key);
      }
    }
  }

  // ------------------------------------------------------------------ files to merged map

  /** A source that loaded this parsed file. */
  ghost predicate LoadedFrom(s: Source, tree: Tree)
  {
    s.load.Ok? && Plain(tree) && Flattens(tree, "", map[], s.load.value)
  }

  /** When every source that loaded is a file of plain keys, a merged key holds the leaf that the
      highest-priority file with a leaf at that path has there, and there is no other key. */
  lemma MergedIsHighestLeaf(order: seq<Source>, sources: seq<Source>, trees: map<Source, Tree>, key: string)
    requires SortedFrom(order, sources) && DistinctPriorities(sources)
    requires forall s :: s in sources && s.load.Ok? ==> s in trees && LoadedFrom(s, trees[s])
    ensures key in Merged(order) ==>
              exists s :: s in sources && s in trees && s.load.Ok?
                && Leaf(trees[s], Split(key)) == Some(Merged(order)[key])
    ensures forall s :: s in sources && s.load.Ok? && Leaf(trees[s], Split(key)).Some?
              ==> key in Merged(order)
                  && (Leaf(trees[s], Split(key)) == Some(Merged(order)[key])
                      || exists t :: t in sources && t in trees && t.load.Ok?
                           && t.priority > s.priority && Leaf(trees[t], Split(key)) == Some(Merged(order)[key]))
  {
    MergedHoldsWinners(order, sources);
    forall s | s in sources && s.load.Ok? ensures Find(s.load.value, key) == Leaf(trees[s], Split(key)) {
      FlattensOutcome(trees[s], "", map[], s.load.value);
      FlatLookupIsTreeLookup(trees[s], s.load.value, key);
    }
    if key in Merged(order) {
      var w := MergedHoldsWinner(order, sources, key);
      forall s | s in sources && s.load.Ok? && Leaf(trees[s], Split(key)).Some?
        ensures Leaf(trees[s], Split(key)) == Some(Merged(order)[key])
                || (w.priority > s.priority && Leaf(trees[w], Split(key)) == Some(Merged(order)[key]))
      {
        assert Defines(s, key);
      }
    }
  }
}
