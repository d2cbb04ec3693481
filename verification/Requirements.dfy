/** Units, what they require, and the closure of a set of units under requirements. */
module Requirements {
  import opened Keys

  /** The smallest thing that can be enabled or disabled. */
  datatype Unit = Unit(key: string, uniqueIds: seq<string>, needs: seq<string>)

  /** The units of a profile, with the normaliser UniqueIDs are compared by. */
  datatype Graph = Graph(units: seq<Unit>, idKey: string -> string)

  /** One folder, one key. */
  predicate DistinctKeys(g: Graph) {
    forall i, j :: 0 <= i < j < |g.units| ==> g.units[i].key != g.units[j].key
  }

  function KeySet(g: Graph): set<string> {
    set u | u in g.units :: u.key
  }

  /** Some requirement of `u` names a UniqueID of `v`. */
  predicate Needs(g: Graph, u: Unit, v: Unit) {
    exists r, id :: r in u.needs && id in v.uniqueIds && g.idKey(r) == g.idKey(id)
  }

  /** A unit keyed `a` directly needs a unit keyed `b`. */
  predicate Dep(g: Graph, a: string, b: string) {
    exists u, v :: u in g.units && v in g.units && u.key == a && v.key == b && Needs(g, u, v)
  }

  ghost predicate Closed(g: Graph, s: set<string>) {
    forall a, b :: a in s && Dep(g, a, b) ==> b in s
  }

  /** One pass of the closure loop. */
  function Step(g: Graph, s: set<string>): set<string> {
    s + set v | v in g.units && exists u :: u in g.units && u.key in s && Needs(g, u, v) :: v.key
  }

  lemma StepIsDep(g: Graph, s: set<string>)
    ensures forall b :: b in Step(g, s) <==> b in s || exists a :: a in s && Dep(g, a, b)
  {
    forall b ensures b in Step(g, s) <==> b in s || exists a :: a in s && Dep(g, a, b) {
      if b in Step(g, s) && b !in s {
        var v, u :| v in g.units && v.key == b && u in g.units && u.key in s && Needs(g, u, v);
        assert Dep(g, u.key, b);
      }
      if a :| a in s && Dep(g, a, b) {
        var u, v :| u in g.units && v in g.units && u.key == a && v.key == b && Needs(g, u, v);
        assert v.key in Step(g, s);
      }
    }
  }

  /** Every unit needed to run `s`. */
  function Closure(g: Graph, s: set<string>): (r: set<string>)
    ensures s <= r
    decreases |KeySet(g) - s|
  {
    var t := Step(g, s);
    if t == s then s
    else
      assert t - s <= KeySet(g) && s < t;
      assert KeySet(g) - t < KeySet(g) - s by {
        var x :| x in t && x !in s;
        assert x in KeySet(g) - s && x !in KeySet(g) - t;
      }
      SubsetSize(KeySet(g) - t, KeySet(g) - s);
      Closure(g, t)
  }

  lemma {:induction false} SubsetSize<T>(a: set<T>, b: set<T>)
    requires a < b
    ensures |a| < |b|
  {
    var rest := b - a;
    assert rest != {};
    assert b == a + rest;
  }

  lemma {:induction false} ClosureLeast(g: Graph, s: set<string>, t: set<string>)
    requires s <= t && Closed(g, t)
    ensures Closure(g, s) <= t
    decreases |KeySet(g) - s|
  {
    var n := Step(g, s);
    StepIsDep(g, s);
    if n != s {
      forall b | b in n ensures b in t { }
      StepShrinks(g, s);
      ClosureLeast(g, n, t);
    }
  }

  lemma StepShrinks(g: Graph, s: set<string>)
    requires Step(g, s) != s
    ensures |KeySet(g) - Step(g, s)| < |KeySet(g) - s|
  {
    var t := Step(g, s);
    var x :| x in t && x !in s;
    assert x in KeySet(g) - s && x !in KeySet(g) - t;
    SubsetSize(KeySet(g) - t, KeySet(g) - s);
  }

  lemma {:induction false} ClosureClosed(g: Graph, s: set<string>)
    ensures Closed(g, Closure(g, s))
    ensures Closure(g, s) <= s + KeySet(g)
    decreases |KeySet(g) - s|
  {
    StepIsDep(g, s);
    if Step(g, s) != s {
      StepShrinks(g, s);
      ClosureClosed(g, Step(g, s));
    }
  }

  /** The closure is the least closed set that holds the seed. */
  lemma ClosureIsLeastClosed(g: Graph, s: set<string>, r: set<string>)
    ensures r == Closure(g, s) <==>
            s <= r && Closed(g, r) && forall t :: s <= t && Closed(g, t) ==> r <= t
  {
    ClosureClosed(g, s);
    forall t | s <= t && Closed(g, t) ensures Closure(g, s) <= t {
      ClosureLeast(g, s, t);
    }
  }

  lemma ClosureOfClosed(g: Graph, s: set<string>)
    requires Closed(g, s)
    ensures Closure(g, s) == s
  {
    ClosureLeast(g, s, s);
  }

  lemma ClosureMonotone(g: Graph, s: set<string>, t: set<string>)
    requires s <= t
    ensures Closure(g, s) <= Closure(g, t)
  {
    ClosureClosed(g, t);
    ClosureLeast(g, s, Closure(g, t));
  }

  lemma ClosureUnion(g: Graph, s: set<string>, t: set<string>)
    ensures Closure(g, s + t) == Closure(g, s) + Closure(g, t)
  {
    ClosureClosed(g, s);
    ClosureClosed(g, t);
    assert Closed(g, Closure(g, s) + Closure(g, t));
    ClosureLeast(g, s + t, Closure(g, s) + Closure(g, t));
    ClosureMonotone(g, s, s + t);
    ClosureMonotone(g, t, s + t);
  }

  /** Whatever a set needs, one of its members needs. */
  lemma ClosurePoint(g: Graph, s: set<string>, x: string)
    requires x in Closure(g, s)
    ensures exists k :: k in s && x in Closure(g, {k})
  {
    var r := set y | y in Closure(g, s) && exists k :: k in s && y in Closure(g, {k});
    forall k | k in s ensures k in r {
      assert k in Closure(g, {k});
    }
    forall a, b | a in r && Dep(g, a, b) ensures b in r {
      var k :| k in s && a in Closure(g, {k});
      ClosureClosed(g, {k});
      ClosureClosed(g, s);
      assert b in Closure(g, {k}) && b in Closure(g, s);
    }
    ClosureLeast(g, s, r);
  }

  lemma ClosureTransitive(g: Graph, a: string, b: string)
    requires b in Closure(g, {a})
    ensures Closure(g, {b}) <= Closure(g, {a})
  {
    ClosureClosed(g, {a});
    ClosureLeast(g, {b}, Closure(g, {a}));
  }

  /** No two units need each other, directly or not. */
  ghost predicate Acyclic(g: Graph) {
    forall a, b :: a in KeySet(g) && b in KeySet(g) && b in Closure(g, {a}) && a in Closure(g, {b}) ==> a == b
  }

  /** In a loop-free graph a unit's closure is strictly larger than that of anything else it needs. */
  lemma DependencyIsSmaller(g: Graph, a: string, b: string)
    requires Acyclic(g) && a in KeySet(g) && b in KeySet(g)
    requires b in Closure(g, {a}) && b != a
    ensures |Closure(g, {b})| < |Closure(g, {a})|
  {
    ClosureTransitive(g, a, b);
    assert a in Closure(g, {a}) && a !in Closure(g, {b});
    SubsetSize(Closure(g, {b}), Closure(g, {a}));
  }

  function ClosureSize(g: Graph): string -> nat {
    k => |Closure(g, {k})|
  }

  /** The keys in ascending order of closure size, equal sizes by key. */
  function ByClosureSize(g: Graph, keys: seq<string>): seq<string> {
    SortBy(ClosureSize(g), keys)
  }

  ghost predicate SizeSorted(g: Graph, s: seq<string>) {
    RankSorted(ClosureSize(g), s)
  }

  lemma ByClosureSizeFacts(g: Graph, keys: seq<string>)
    ensures SizeSorted(g, ByClosureSize(g, keys))
    ensures |ByClosureSize(g, keys)| == |keys| && Elems(ByClosureSize(g, keys)) == Elems(keys)
    ensures NoDup(keys) ==> NoDup(ByClosureSize(g, keys))
  {
    SortBySorted(ClosureSize(g), keys);
  }

  /**
   * What makes halving exact: in a loop-free graph the front of the suspects,
   * in closure-size order, needs no suspect behind it.
   */
  lemma FrontNeedsNothingBehind(g: Graph, s: seq<string>, half: nat, x: string)
    requires Acyclic(g) && SizeSorted(g, s) && half <= |s|
    requires Elems(s) <= KeySet(g)
    requires x in s && x in Closure(g, Elems(s[..half]))
    ensures x in s[..half]
  {
    hide Closure, Acyclic, KeySet;
    ClosurePoint(g, Elems(s[..half]), x);
    var k :| k in Elems(s[..half]) && x in Closure(g, {k});
    assert k in s[..half] && k in Elems(s) && x in Elems(s);
    if x != k {
      DependencyIsSmaller(g, k, x);
      var i :| 0 <= i < half && s[i] == k;
      var j :| 0 <= j < |s| && s[j] == x;
      assert !(i < j);
      assert s[..half][j] == x;
    }
  }

  /** The normalised ids required by what is already in. */
  ghost function RequiredIds(g: Graph, us: seq<Unit>, s: set<string>): set<string> {
    set u, r | u in us && u.key in s && r in u.needs :: g.idKey(r)
  }

  predicate ProvidesOneOf(g: Graph, v: Unit, provided: set<string>) {
    exists id :: id in v.uniqueIds && g.idKey(id) in provided
  }

  function Providers(g: Graph, us: seq<Unit>, provided: set<string>): set<string> {
    set v | v in us && ProvidesOneOf(g, v, provided) :: v.key
  }

  method CollectRequiredIds(g: Graph, s: set<string>) returns (provided: set<string>)
    ensures provided == RequiredIds(g, g.units, s)
  {
    provided := {};
    for i := 0 to |g.units|
      invariant provided == RequiredIds(g, g.units[..i], s)
    {
      var u := g.units[i];
      assert g.units[..i + 1] == g.units[..i] + [u];
      if u.key in s {
        provided := provided + set r | r in u.needs :: g.idKey(r);
      }
    }
    assert g.units[..|g.units|] == g.units;
  }

  method AddProviders(g: Graph, s: set<string>, provided: set<string>) returns (result: set<string>)
    ensures result == s + Providers(g, g.units, provided)
  {
    result := s;
    for i := 0 to |g.units|
      invariant result == s + Providers(g, g.units[..i], provided)
    {
      var v := g.units[i];
      assert g.units[..i + 1] == g.units[..i] + [v];
      if ProvidesOneOf(g, v, provided) {
        result := result + {v.key};
      }
    }
    assert g.units[..|g.units|] == g.units;
  }

  /** The closure loop, which grows one set until a pass adds nothing. */
  method ComputeClosure(g: Graph, seed: set<string>) returns (result: set<string>)
    ensures result == Closure(g, seed)
  {
    hide *;
    result := seed;
    while true
      invariant Closure(g, result) == Closure(g, seed)
      decreases |KeySet(g) - result|
    {
      var provided := CollectRequiredIds(g, result);
      var before := result;
      result := AddProviders(g, result, provided);
      PassIsStep(g, before, result);
      PassGrows(g, before);
      if |result| == |before| {
        return;
      }
    }
  }

  /** A pass that adds nothing has reached the closure; any other gets closer to it. */
  lemma PassGrows(g: Graph, s: set<string>)
    ensures Closure(g, Step(g, s)) == Closure(g, s)
    ensures |Step(g, s)| == |s| ==> Step(g, s) == s == Closure(g, s)
    ensures |Step(g, s)| != |s| ==> |KeySet(g) - Step(g, s)| < |KeySet(g) - s|
  {
    hide KeySet, Step;
    StepKeepsAll(g, s);
    if Step(g, s) != s {
      SubsetSize(s, Step(g, s));
      StepShrinks(g, s);
    }
  }

  lemma StepKeepsAll(g: Graph, s: set<string>)
    ensures s <= Step(g, s)
  { }

  lemma PassIsStep(g: Graph, start: set<string>, result: set<string>)
    requires result == start + Providers(g, g.units, RequiredIds(g, g.units, start))
    ensures result == Step(g, start)
  {
    var provided := RequiredIds(g, g.units, start);
    forall v | v in g.units
      ensures ProvidesOneOf(g, v, provided) <==> exists u :: u in g.units && u.key in start && Needs(g, u, v)
    {
      if ProvidesOneOf(g, v, provided) {
        var id :| id in v.uniqueIds && g.idKey(id) in provided;
        var u, r :| u in g.units && u.key in start && r in u.needs && g.idKey(r) == g.idKey(id);
        assert Needs(g, u, v);
      }
      if u :| u in g.units && u.key in start && Needs(g, u, v) {
        var r, id :| r in u.needs && id in v.uniqueIds && g.idKey(r) == g.idKey(id);
        assert g.idKey(id) in provided;
      }
    }
  }
}
