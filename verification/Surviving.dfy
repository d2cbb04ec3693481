/**
 * Which requirements survive the merging of loops, and exactly when merging
 * changes what a unit needs.
 */
module Surviving {
  import opened Keys
  import opened Requirements
  import opened Collapse

  predicate Provides(g: Graph, v: Unit, x: string) {
    exists y :: y in v.uniqueIds && g.idKey(y) == g.idKey(x)
  }

  /** A requirement that merging forgets: the unit is on a loop, and something on that loop provides it. */
  predicate Dropped(g: Graph, u: Unit, x: string) {
    |Loop(g, u.key)| > 1 && exists w :: w in g.units && w.key in Loop(g, u.key) && Provides(g, w, x)
  }

  predicate DirectLink(g: Graph, u: Unit, v: Unit) {
    exists x :: x in u.needs && !Dropped(g, u, x) && Provides(g, v, x)
  }

  /** `b` is on `a`'s loop, or meets a requirement of `a` that survives. */
  predicate Link(g: Graph, a: string, b: string) {
    exists u, v :: u in g.units && v in g.units && u.key == a && v.key == b && (Mutual(g, a, b) || DirectLink(g, u, v))
  }

  // ---- what surviving requirements and loops reach ----

  function Follow(g: Graph, s: set<string>): set<string> {
    s + set v | v in g.units && exists u :: u in g.units && u.key in s && Link(g, u.key, v.key) :: v.key
  }

  ghost predicate Followed(g: Graph, s: set<string>) {
    forall a, b :: a in s && Link(g, a, b) ==> b in s
  }

  function Reached(g: Graph, s: set<string>): (r: set<string>)
    ensures s <= r
    decreases |KeySet(g) - s|
  {
    var t := Follow(g, s);
    if t == s then s
    else
      FollowShrinks(g, s);
      Reached(g, t)
  }

  lemma FollowShrinks(g: Graph, s: set<string>)
    requires Follow(g, s) != s
    ensures |KeySet(g) - Follow(g, s)| < |KeySet(g) - s|
  {
    hide Link;
    var t := Follow(g, s);
    var x :| x in t && x !in s;
    assert x in KeySet(g) - s && x !in KeySet(g) - t;
    assert KeySet(g) - t < KeySet(g) - s;
    SubsetSize(KeySet(g) - t, KeySet(g) - s);
  }

  lemma FollowIsLink(g: Graph, s: set<string>, b: string)
    ensures b in Follow(g, s) <==> b in s || exists a :: a in s && Link(g, a, b)
  {
    hide DirectLink, Mutual;
    if a :| a in s && Link(g, a, b) {
      var u, v :| u in g.units && v in g.units && u.key == a && v.key == b && (Mutual(g, a, b) || DirectLink(g, u, v));
      assert u.key in s && Link(g, u.key, v.key);
    }
  }

  lemma {:induction false} ReachedLeast(g: Graph, s: set<string>, t: set<string>)
    requires s <= t && Followed(g, t)
    ensures Reached(g, s) <= t
    decreases |KeySet(g) - s|
  {
    hide Link;
    if Follow(g, s) != s {
      FollowShrinks(g, s);
      forall b | b in Follow(g, s) ensures b in t {
        FollowIsLink(g, s, b);
      }
      ReachedLeast(g, Follow(g, s), t);
    }
  }

  lemma {:induction false} ReachedFollowed(g: Graph, s: set<string>)
    ensures Followed(g, Reached(g, s))
    decreases |KeySet(g) - s|
  {
    hide Link;
    if Follow(g, s) == s {
      forall a, b | a in s && Link(g, a, b) ensures b in s {
        FollowIsLink(g, s, b);
      }
    } else {
      FollowShrinks(g, s);
      ReachedFollowed(g, Follow(g, s));
    }
  }

  // ---- links are the links of the merged units ----

  /** A merged unit requires exactly what survives of its members' requirements. */
  lemma MergedNeedsExactly(g: Graph, k: string, x: string)
    requires DistinctKeys(g) && k in KeySet(g)
    ensures x in Merged(g, k).needs <==> exists u :: OnLoop(g, k, u) && x in u.needs && !Dropped(g, u, x)
  {
    hide Group, Provides;
    LoopKeys(g, k);
    var ms := MembersOf(g, Group(g, k));
    MembersFacts(g, Group(g, k));
    LoopSize(g, k);
    forall u ensures u in ms <==> OnLoop(g, k, u) {
      GroupUnits(g, k, u);
    }
    AllNeedsAre(ms, x);
    if |ms| == 1 {
      assert ms == [ms[0]];
      LoopOf(g, k, ms[0]);
    } else {
      OwnIs(g, k, x);
      forall u | OnLoop(g, k, u) ensures Dropped(g, u, x) <==> g.idKey(x) in Own(g, ms) {
        LoopOf(g, k, u);
      }
    }
  }

  lemma LoopSize(g: Graph, k: string)
    ensures |Group(g, k)| == |Loop(g, k)|
  {
    ElemsSize(Group(g, k));
  }

  lemma LoopOf(g: Graph, k: string, u: Unit)
    requires OnLoop(g, k, u)
    ensures Loop(g, u.key) == Loop(g, k)
  {
    LoopKeys(g, k);
    LoopSame(g, k, u.key);
  }

  lemma OwnIs(g: Graph, k: string, x: string)
    requires DistinctKeys(g) && k in KeySet(g) && forall j :: j in Group(g, k) ==> j in KeySet(g)
    ensures g.idKey(x) in Own(g, MembersOf(g, Group(g, k))) <==>
            exists w :: w in g.units && w.key in Loop(g, k) && Provides(g, w, x)
  {
    hide Loop, Group;
    var ms := MembersOf(g, Group(g, k));
    if g.idKey(x) in Own(g, ms) {
      var y :| y in AllIds(ms) && g.idKey(y) == g.idKey(x);
      AllIdsAre(ms, y);
      var w :| w in ms && y in w.uniqueIds;
      GroupUnits(g, k, w);
    }
    if w :| w in g.units && w.key in Loop(g, k) && Provides(g, w, x) {
      var y :| y in w.uniqueIds && g.idKey(y) == g.idKey(x);
      GroupUnits(g, k, w);
      AllIdsAre(ms, y);
    }
  }

  lemma ReachedTransitive(g: Graph, s: set<string>, a: string)
    requires a in Reached(g, s)
    ensures Reached(g, {a}) <= Reached(g, s)
  {
    ReachedFollowed(g, s);
    ReachedLeast(g, {a}, Reached(g, s));
  }

  lemma LoopIsReached(g: Graph, a: string, b: string)
    requires a in KeySet(g) && b in KeySet(g) && Mutual(g, a, b)
    ensures b in Reached(g, {a})
  {
    hide Mutual, Reached;
    var u, v :| u in g.units && v in g.units && u.key == a && v.key == b;
    ReachedFollowed(g, {a});
    assert Link(g, a, b);
  }

  /** A requirement between merged units is a surviving one between their members. */
  lemma MergedLinkSurvives(g: Graph, a: string, b: string, r: string, id: string)
    requires DistinctKeys(g) && PlainKeys(g) && a in KeySet(g) && b in KeySet(g)
    requires r in Merged(g, a).needs && id in Merged(g, b).uniqueIds && g.idKey(r) == g.idKey(id)
    ensures b in Reached(g, {a})
  {
    hide Merged, Loop, Mutual, Reached, Dropped;
    MergedNeedsExactly(g, a, r);
    MergedProvides(g, b, id);
    var m :| OnLoop(g, a, m) && r in m.needs && !Dropped(g, m, r);
    var n :| OnLoop(g, b, n) && id in n.uniqueIds;
    LoopKeys(g, a);
    LoopKeys(g, b);
    assert Provides(g, n, r);
    assert DirectLink(g, m, n);
    assert Link(g, m.key, n.key);
    LoopIsReached(g, a, m.key);
    ReachedFollowed(g, {a});
    assert Mutual(g, n.key, b) by {
      MutualBack(g, b, n.key);
    }
    LoopIsReached(g, n.key, b);
    ReachedTransitive(g, {a}, n.key);
  }

  lemma MutualBack(g: Graph, a: string, b: string)
    ensures Mutual(g, a, b) <==> Mutual(g, b, a)
  { }

  lemma CollapsedDepSurvives(g: Graph, a: string, b: string)
    requires DistinctKeys(g) && PlainKeys(g) && a in KeySet(g) && b in KeySet(g)
    requires Dep(CollapseCycles(g), GroupKey(g, a), GroupKey(g, b))
    ensures b in Reached(g, {a})
  {
    hide Merged, Loop, GroupKey, CollapseCycles, Mutual, Reached;
    CollapseIsPartition(g);
    var c := CollapseCycles(g);
    var u, v :| u in c.units && v in c.units && u.key == GroupKey(g, a) && v.key == GroupKey(g, b) && Needs(c, u, v);
    var a' :| StandsFor(g, u, a');
    var b' :| StandsFor(g, v, b');
    MergedKey(g, a');
    MergedKey(g, b');
    SameGroup(g, a, a');
    SameGroup(g, b, b');
    CollapsedKeyIds(g);
    var r, id :| r in u.needs && id in v.uniqueIds && c.idKey(r) == c.idKey(id);
    MergedLinkSurvives(g, a, b, r, id);
  }

  lemma CollapsedKeyIds(g: Graph)
    ensures CollapseCycles(g).idKey == g.idKey
  { }

  /** A merged unit reaches exactly what its members reach by loops and surviving requirements. */
  lemma CollapsedReachIs(g: Graph, a: string, b: string)
    requires DistinctKeys(g) && PlainKeys(g) && a in KeySet(g) && b in KeySet(g)
    ensures GroupKey(g, b) in Closure(CollapseCycles(g), {GroupKey(g, a)}) <==> b in Reached(g, {a})
  {
    hide *;
    if GroupKey(g, b) in Closure(CollapseCycles(g), {GroupKey(g, a)}) {
      CollapsedReachSurvives(g, a, b);
    }
    if b in Reached(g, {a}) {
      SurvivorsAreReached(g, a, b);
    }
  }

  lemma CollapsedReachSurvives(g: Graph, a: string, b: string)
    requires DistinctKeys(g) && PlainKeys(g) && a in KeySet(g) && b in KeySet(g)
    requires GroupKey(g, b) in Closure(CollapseCycles(g), {GroupKey(g, a)})
    ensures b in Reached(g, {a})
  {
    hide Merged, Loop, GroupKey, CollapseCycles, Mutual, Reached, Closure;
    var c := CollapseCycles(g);
    var reach := set x | x in KeySet(g) && x in Reached(g, {a}) :: GroupKey(g, x);
    CollapsedKeys(g);
    SelfReached(g, a);
    forall x, y | x in reach && Dep(c, x, y) ensures y in reach {
      var p :| p in KeySet(g) && p in Reached(g, {a}) && x == GroupKey(g, p);
      var u, v :| u in c.units && v in c.units && u.key == x && v.key == y && Needs(c, u, v);
      assert y in KeySet(c);
      var q :| q in KeySet(g) && y == GroupKey(g, q);
      CollapsedDepSurvives(g, p, q);
      ReachedTransitive(g, {a}, p);
    }
    ClosureLeast(c, {GroupKey(g, a)}, reach);
    var q :| q in KeySet(g) && q in Reached(g, {a}) && GroupKey(g, b) == GroupKey(g, q);
    SameGroup(g, b, q);
    MutualBack(g, b, q);
    LoopIsReached(g, q, b);
    ReachedTransitive(g, {a}, q);
  }

  lemma SelfReached(g: Graph, a: string)
    ensures a in Reached(g, {a})
  { }

  lemma SurvivingLink(g: Graph, a: string, b: string, r: string, id: string)
    requires DistinctKeys(g) && PlainKeys(g) && a in KeySet(g) && b in KeySet(g)
    requires r in Merged(g, a).needs && id in Merged(g, b).uniqueIds && g.idKey(r) == g.idKey(id)
    ensures GroupKey(g, b) in Closure(CollapseCycles(g), {GroupKey(g, a)})
  {
    hide Merged, Loop, GroupKey, CollapseFrom, Closure;
    var c := CollapseCycles(g);
    CollapseIsPartition(g);
    MergedKey(g, a);
    MergedKey(g, b);
    assert Needs(c, Merged(g, a), Merged(g, b));
    assert Dep(c, GroupKey(g, a), GroupKey(g, b));
    ClosureClosed(c, {GroupKey(g, a)});
  }

  lemma LinkLeads(g: Graph, a: string, b: string)
    requires DistinctKeys(g) && PlainKeys(g) && Link(g, a, b)
    ensures a in KeySet(g) && b in KeySet(g) && GroupKey(g, b) in Closure(CollapseCycles(g), {GroupKey(g, a)})
  {
    hide Merged, Loop, GroupKey, CollapseCycles, Mutual, Closure, Dropped;
    var c := CollapseCycles(g);
    var u, v :| u in g.units && v in g.units && u.key == a && v.key == b && (Mutual(g, a, b) || DirectLink(g, u, v));
    assert a in KeySet(g) && b in KeySet(g);
    if Mutual(g, a, b) {
      SameGroup(g, a, b);
    } else {
      var x :| x in u.needs && !Dropped(g, u, x) && Provides(g, v, x);
      var y :| y in v.uniqueIds && g.idKey(y) == g.idKey(x);
      SelfMutual(g, a);
      SelfMutual(g, b);
      assert OnLoop(g, a, u) && OnLoop(g, b, v);
      MergedNeedsExactly(g, a, x);
      MergedProvides(g, b, y);
      SurvivingLink(g, a, b, x, y);
    }
  }

  lemma SurvivorsAreReached(g: Graph, a: string, b: string)
    requires DistinctKeys(g) && PlainKeys(g) && a in KeySet(g) && b in KeySet(g) && b in Reached(g, {a})
    ensures GroupKey(g, b) in Closure(CollapseCycles(g), {GroupKey(g, a)})
  {
    hide Merged, Loop, GroupKey, CollapseCycles, Mutual, Closure, Reached, Link;
    var c := CollapseCycles(g);
    var r := Closure(c, {GroupKey(g, a)});
    var keys := set k | k in KeySet(g) && GroupKey(g, k) in r;
    assert {a} <= keys;
    forall p, q | p in keys && Link(g, p, q) ensures q in keys {
      LinkLeads(g, p, q);
      ClosureTransitive2(c, GroupKey(g, a), GroupKey(g, p), GroupKey(g, q));
    }
    ReachedLeast(g, {a}, keys);
  }

  lemma ClosureTransitive2(g: Graph, a: string, b: string, c: string)
    requires b in Closure(g, {a}) && c in Closure(g, {b})
    ensures c in Closure(g, {a})
  {
    ClosureTransitive(g, a, b);
  }

  // ---- exactly when merging changes no closure ----

  /** Whoever else provides a dropped requirement is still reached, by loops and the requirements that survive. */
  ghost predicate KeepsRequirements(g: Graph) {
    forall u, v, x :: u in g.units && v in g.units && x in u.needs && Dropped(g, u, x) && Provides(g, v, x) ==>
      v.key in Loop(g, u.key) || v.key in Reached(g, {u.key})
  }

  /** No dropped requirement is provided outside its loop. */
  ghost predicate DropsNoProvider(g: Graph) {
    forall u, v, x :: u in g.units && v in g.units && x in u.needs && Dropped(g, u, x) && Provides(g, v, x) ==>
      v.key in Loop(g, u.key)
  }

  /** No UniqueID is provided by two units. */
  ghost predicate OneProvider(g: Graph) {
    forall u, v, x, y :: u in g.units && v in g.units && x in u.uniqueIds && y in v.uniqueIds ==>
      g.idKey(x) == g.idKey(y) ==> u == v
  }

  lemma NeededIsProvided(g: Graph, u: Unit, v: Unit)
    ensures Needs(g, u, v) <==> exists x :: x in u.needs && Provides(g, v, x)
  {
    if Needs(g, u, v) {
      var r, id :| r in u.needs && id in v.uniqueIds && g.idKey(r) == g.idKey(id);
      assert Provides(g, v, r);
    }
  }

  lemma NeededIsReached(g: Graph, u: Unit, v: Unit)
    requires KeepsRequirements(g) && u in g.units && v in g.units && Needs(g, u, v)
    ensures u.key in KeySet(g) && v.key in KeySet(g) && v.key in Reached(g, {u.key})
  {
    hide Mutual, Reached, Dropped, Loop, Provides;
    NeededIsProvided(g, u, v);
    var x :| x in u.needs && Provides(g, v, x);
    assert u.key in KeySet(g) && v.key in KeySet(g);
    LoopKeys(g, u.key);
    if v.key in Loop(g, u.key) {
      LoopIsReached(g, u.key, v.key);
    } else if !Dropped(g, u, x) {
      assert DirectLink(g, u, v);
      assert Link(g, u.key, v.key);
      ReachedFollowed(g, {u.key});
      SelfReached(g, u.key);
    }
  }

  /**
   * Collapsing changes no closure exactly when every other provider of a
   * dropped requirement is still reached without it.
   */
  lemma SameClosuresIff(g: Graph)
    requires DistinctKeys(g) && PlainKeys(g)
    ensures SameClosures(g) <==> KeepsRequirements(g)
  {
    hide Reached, Dropped, Loop, GroupKey, CollapseCycles, SameClosures, Needs, Provides;
    SameClosuresByLinks(g);
    if KeepsRequirements(g) {
      forall u, v | u in g.units && v in g.units && Needs(g, u, v)
        ensures GroupKey(g, v.key) in Closure(CollapseCycles(g), {GroupKey(g, u.key)})
      {
        NeededIsReached(g, u, v);
        CollapsedReachIs(g, u.key, v.key);
      }
    }
    if LinksLead(g) {
      forall u, v, x | u in g.units && v in g.units && x in u.needs && Dropped(g, u, x) && Provides(g, v, x)
                       && v.key !in Loop(g, u.key)
        ensures v.key in Reached(g, {u.key})
      {
        NeededIsProvided(g, u, v);
        assert u.key in KeySet(g) && v.key in KeySet(g);
        CollapsedReachIs(g, u.key, v.key);
      }
    }
  }

  /**
   * It is enough that no dropped requirement is provided outside its loop, and for that, that no id has two
   * providers.
   */
  lemma OneProviderKeepsClosures(g: Graph)
    requires DistinctKeys(g) && PlainKeys(g)
    ensures OneProvider(g) ==> DropsNoProvider(g)
    ensures DropsNoProvider(g) ==> SameClosures(g)
  {
    hide SameClosures, Loop, Reached, Dropped, Provides, OneProvider;
    SameClosuresIff(g);
    if OneProvider(g) {
      forall u, v, x | u in g.units && v in g.units && x in u.needs && Dropped(g, u, x) && Provides(g, v, x)
        ensures v.key in Loop(g, u.key)
      {
        ProviderIsInside(g, u, v, x);
      }
    }
  }

  lemma ProviderIsInside(g: Graph, u: Unit, v: Unit, x: string)
    requires OneProvider(g) && v in g.units && Dropped(g, u, x) && Provides(g, v, x)
    ensures v.key in Loop(g, u.key)
  {
    hide Loop;
    var w :| w in g.units && w.key in Loop(g, u.key) && Provides(g, w, x);
    var y :| y in w.uniqueIds && g.idKey(y) == g.idKey(x);
    var z :| z in v.uniqueIds && g.idKey(z) == g.idKey(x);
    assert w == v;
  }

  /** A merged unit whose members meet each other's every requirement requires nothing. */
  lemma SelfSufficient(g: Graph, k: string, u: Unit, v: Unit)
    requires DistinctKeys(g) && k in KeySet(g) && OnLoop(g, k, u) && OnLoop(g, k, v) && u != v
    requires forall w, x :: OnLoop(g, k, w) && x in w.needs ==> x in u.uniqueIds || x in v.uniqueIds
    ensures Merged(g, k).needs == []
  {
    hide Loop, Group, OnLoop;
    LoopKeys(g, k);
    var ms := MembersOf(g, Group(g, k));
    GroupUnits(g, k, u);
    GroupUnits(g, k, v);
    assert |ms| != 1;
    var left := Outside(g, Own(g, ms), AllNeeds(ms));
    if left != [] {
      var x := left[0];
      assert x in left;
      AllNeedsAre(ms, x);
      var w :| w in ms && x in w.needs;
      GroupUnits(g, k, w);
      AllIdsAre(ms, x);
      assert false;
    }
  }

  lemma NothingNeeded(g: Graph, k: string)
    requires DistinctKeys(g) && PlainKeys(g) && k in KeySet(g) && Merged(g, k).needs == []
    ensures Closed(CollapseCycles(g), {GroupKey(g, k)})
  {
    hide GroupKey, Merged, CollapseCycles, Loop;
    CollapseIsPartition(g);
    var c := CollapseCycles(g);
    forall u | u in c.units && u.key == GroupKey(g, k) ensures u.needs == [] {
      var a :| StandsFor(g, u, a);
      MergedKey(g, a);
      SameGroup(g, a, k);
    }
    forall y ensures !Dep(c, GroupKey(g, k), y) { }
  }

  lemma BothNeeded(g: Graph, a: string, b: string)
    requires Dep(g, a, b) && Dep(g, b, a)
    ensures Mutual(g, a, a) && Mutual(g, a, b)
  {
    hide Dep;
    ClosureClosed(g, {a});
    ClosureClosed(g, {b});
    assert a in Closure(g, {a}) && b in Closure(g, {b});
  }

  lemma NotMutual(g: Graph, a: string, c: string)
    requires Closed(g, {c}) && a != c
    ensures !Mutual(g, a, c)
  {
    ClosureLeast(g, {c}, {c});
  }

  const MOD_A := Unit("a", ["x"], ["y"])
  const MOD_B := Unit("b", ["y"], ["x"])
  const MOD_C := Unit("c", ["y"], [])

  /** Two mods need each other's ids and a third provides one of those ids too. */
  function TwoProviders(): Graph {
    Graph([MOD_A, MOD_B, MOD_C], id => id)
  }

  lemma TwoProvidersKeys()
    ensures var g := TwoProviders();
            && DistinctKeys(g) && PlainKeys(g) && KeySet(g) == {"a", "b", "c"}
            && MOD_A in g.units && MOD_B in g.units && MOD_C in g.units
  {
    var g := TwoProviders();
    assert g.units[0] == MOD_A && g.units[1] == MOD_B && g.units[2] == MOD_C;
    assert MOD_A.key in KeySet(g) && MOD_B.key in KeySet(g) && MOD_C.key in KeySet(g);
  }

  lemma TwoProvidersFacts()
    ensures var g := TwoProviders();
            && DistinctKeys(g) && PlainKeys(g) && KeySet(g) == {"a", "b", "c"}
            && MOD_A in g.units && MOD_B in g.units && MOD_C in g.units
            && Dep(g, "a", "b") && Dep(g, "b", "a") && Needs(g, MOD_A, MOD_C)
            && Closed(g, {"c"})
  {
    hide KeySet, DistinctKeys, PlainKeys, Needs;
    var g := TwoProviders();
    TwoProvidersKeys();
    TwoProvidersNeeds();
    forall y ensures !Dep(g, "c", y) { }
  }

  lemma TwoProvidersNeeds()
    ensures var g := TwoProviders();
            && Needs(g, MOD_A, MOD_B) && Needs(g, MOD_B, MOD_A) && Needs(g, MOD_A, MOD_C)
            && forall v :: !Needs(g, MOD_C, v)
  {
    assert "y" in MOD_A.needs && "y" in MOD_B.uniqueIds && "y" in MOD_C.uniqueIds;
    assert "x" in MOD_B.needs && "x" in MOD_A.uniqueIds;
  }

  lemma TwoProvidersUnits(w: Unit, x: string)
    requires w in TwoProviders().units && x in w.needs
    ensures x in MOD_A.uniqueIds || x in MOD_B.uniqueIds
  {
    assert w == MOD_A || w == MOD_B || w == MOD_C;
    assert x == "y" || x == "x";
  }

  lemma TwoProvidersLoops()
    ensures var g := TwoProviders();
            OnLoop(g, "a", MOD_A) && OnLoop(g, "a", MOD_B) && !OnLoop(g, "a", MOD_C) && !Mutual(g, "a", "c")
  {
    hide Closure, TwoProviders, Dep, Closed, DistinctKeys, PlainKeys, Mutual;
    var g := TwoProviders();
    TwoProvidersFacts();
    BothNeeded(g, "a", "b");
    NotMutual(g, "a", "c");
    LoopKeys(g, "a");
  }

  /** Then the merged pair forgets the third mod, which either of them turned on before. */
  lemma TwoProvidersLoseOne()
    ensures var g := TwoProviders();
            DistinctKeys(g) && PlainKeys(g) && !KeepsRequirements(g) && !SameClosures(g)
  {
    hide GroupKey, Merged, CollapseCycles, SameClosures, Group, TwoProviders, Loop, Needs, Closure, KeepsRequirements;
    var g := TwoProviders();
    TwoProvidersFacts();
    TwoProvidersLoops();
    SameGroup(g, "a", "c");
    forall w, x | OnLoop(g, "a", w) && x in w.needs ensures x in MOD_A.uniqueIds || x in MOD_B.uniqueIds {
      TwoProvidersUnits(w, x);
    }
    SelfSufficient(g, "a", MOD_A, MOD_B);
    NothingNeeded(g, "a");
    ClosureLeast(CollapseCycles(g), {GroupKey(g, "a")}, {GroupKey(g, "a")});
    SameClosuresByLinks(g);
    SameClosuresIff(g);
  }

  const MOD_A2 := Unit("a", ["x"], ["y", "z"])
  const MOD_C2 := Unit("c", ["y", "z"], [])

  /** The same three mods, but the third is also needed for an id of its own. */
  function OtherWay(): Graph {
    Graph([MOD_A2, MOD_B, MOD_C2], id => id)
  }

  lemma OtherWayFacts()
    ensures var g := OtherWay();
            && DistinctKeys(g) && PlainKeys(g) && KeySet(g) == {"a", "b", "c"}
            && MOD_A2 in g.units && MOD_B in g.units && MOD_C2 in g.units
            && (forall u :: u in g.units ==> u == MOD_A2 || u == MOD_B || u == MOD_C2)
            && Dep(g, "a", "b") && Dep(g, "b", "a") && Closed(g, {"c"})
  {
    hide KeySet, DistinctKeys, PlainKeys, Needs;
    var g := OtherWay();
    OtherWayKeys();
    OtherWayNeeds();
    forall y ensures !Dep(g, "c", y) { }
  }

  lemma OtherWayNeeds()
    ensures var g := OtherWay();
            && Needs(g, MOD_A2, MOD_B) && Needs(g, MOD_B, MOD_A2) && forall v :: !Needs(g, MOD_C2, v)
  {
    assert "y" in MOD_A2.needs && "y" in MOD_B.uniqueIds && "x" in MOD_B.needs && "x" in MOD_A2.uniqueIds;
  }

  lemma OtherWayKeys()
    ensures var g := OtherWay();
            && DistinctKeys(g) && PlainKeys(g) && KeySet(g) == {"a", "b", "c"}
            && MOD_A2 in g.units && MOD_B in g.units && MOD_C2 in g.units
  {
    var g := OtherWay();
    assert g.units[0] == MOD_A2 && g.units[1] == MOD_B && g.units[2] == MOD_C2;
    assert MOD_A2.key in KeySet(g) && MOD_B.key in KeySet(g) && MOD_C2.key in KeySet(g);
  }

  lemma OtherWayLoops()
    ensures var g := OtherWay(); Loop(g, "a") == {"a", "b"} == Loop(g, "b")
  {
    hide Closure, OtherWay, Dep, Closed, DistinctKeys, PlainKeys, Mutual;
    var g := OtherWay();
    OtherWayFacts();
    BothNeeded(g, "a", "b");
    NotMutual(g, "a", "c");
    LoopKeys(g, "a");
    LoopSame(g, "a", "b");
  }

  lemma OtherWayReaches()
    ensures "c" in Reached(OtherWay(), {"a"}) && "c" in Reached(OtherWay(), {"b"})
  {
    hide Closure, OtherWay, Loop, Reached, KeySet, Mutual, Provides, Dropped;
    var g := OtherWay();
    OtherWayFacts();
    OtherWayLoops();
    OtherWayIds();
    assert DirectLink(g, MOD_A2, MOD_C2);
    assert Link(g, "a", "c");
    LoopKeys(g, "a");
    MutualBack(g, "a", "b");
    LoopIsReached(g, "b", "a");
    ReachedFollowed(g, {"a"});
    SelfReached(g, "a");
    ReachedTransitive(g, {"b"}, "a");
  }

  /** A dropped requirement may have a provider outside and nothing is lost, if that one is needed some other way. */
  lemma OtherWayKeeps()
    ensures var g := OtherWay(); DistinctKeys(g) && PlainKeys(g) && !DropsNoProvider(g) && SameClosures(g)
  {
    hide Closure, OtherWay, Loop, Reached, KeySet, SameClosures, Mutual, Provides, Dropped, Needs, Dep, Closed;
    var g := OtherWay();
    OtherWayFacts();
    OtherWayLoops();
    OtherWayIds();
    OtherWayReaches();
    assert "y" in MOD_A2.needs;
    SameClosuresIff(g);
  }

  lemma OtherWayIds()
    ensures var g := OtherWay(); Provides(g, MOD_C2, "y") && Provides(g, MOD_C2, "z")
    ensures var g := OtherWay(); Dropped(g, MOD_A2, "y") && !Dropped(g, MOD_A2, "z")
  {
    OtherWayFacts();
    OtherWayLoops();
    hide Loop, Closure, Dep, Closed;
    var g := OtherWay();
    assert "y" in MOD_B.uniqueIds && "y" in MOD_C2.uniqueIds && "z" in MOD_C2.uniqueIds;
    assert Provides(g, MOD_B, "y");
    assert !Provides(g, MOD_A2, "z") && !Provides(g, MOD_B, "z");
  }
}
