/** Merging requirement loops, so that a search never has to split one. */
module Collapse {
  import opened Keys
  import opened Requirements

  const GROUP_SEPARATOR := '+'

  /** The original keys a (possibly merged) key stands for. */
  function GroupMembers(key: string): seq<string> {
    Split(key, GROUP_SEPARATOR)
  }

  /** Each needs the other. */
  predicate Mutual(g: Graph, a: string, b: string) {
    a in Closure(g, {b}) && b in Closure(g, {a})
  }

  /** The keys that loop back on `k`, with `k` itself. */
  function Loop(g: Graph, k: string): set<string> {
    set u | u in g.units && Mutual(g, k, u.key) :: u.key
  }

  function Group(g: Graph, k: string): seq<string> {
    SortedSet(Loop(g, k))
  }

  function GroupKey(g: Graph, k: string): string {
    Join(Group(g, k), GROUP_SEPARATOR)
  }

  function MembersOf(g: Graph, keys: seq<string>): seq<Unit>
    requires forall k :: k in keys ==> k in KeySet(g)
  {
    if keys == [] then []
    else
      assert keys[0] in KeySet(g);
      [UnitOf(g.units, keys[0])] + MembersOf(g, keys[1..])
  }

  function UnitOf(us: seq<Unit>, k: string): (r: Unit)
    requires exists u :: u in us && u.key == k
    ensures r in us && r.key == k
  {
    if us[0].key == k then us[0] else UnitOf(us[1..], k)
  }

  function AllIds(us: seq<Unit>): seq<string> {
    if us == [] then [] else us[0].uniqueIds + AllIds(us[1..])
  }

  function AllNeeds(us: seq<Unit>): seq<string> {
    if us == [] then [] else us[0].needs + AllNeeds(us[1..])
  }

  /** The normalised ids some member provides. */
  function Own(g: Graph, us: seq<Unit>): set<string> {
    set id | id in AllIds(us) :: g.idKey(id)
  }

  function Outside(g: Graph, own: set<string>, needs: seq<string>): (r: seq<string>)
    ensures forall x :: x in r <==> x in needs && g.idKey(x) !in own
  {
    if needs == [] then []
    else
      var rest := Outside(g, own, needs[1..]);
      if g.idKey(needs[0]) in own then rest else [needs[0]] + rest
  }

  lemma LoopKeys(g: Graph, k: string)
    ensures forall x :: x in Group(g, k) <==> x in Loop(g, k)
    ensures Loop(g, k) <= KeySet(g)
    ensures forall x :: x in Loop(g, k) <==> x in KeySet(g) && Mutual(g, k, x)
  {
    forall x ensures x in Group(g, k) <==> x in Loop(g, k) {
      assert x in Elems(Group(g, k)) <==> x in Loop(g, k);
    }
  }

  /** The unit that stands for the loop `k` is on: itself if it is on none. */
  function Merged(g: Graph, k: string): Unit
    requires k in KeySet(g)
  {
    LoopKeys(g, k);
    var members := MembersOf(g, Group(g, k));
    if |members| == 1 then members[0]
    else Unit(GroupKey(g, k), AllIds(members), Outside(g, Own(g, members), AllNeeds(members)))
  }

  function CollapseFrom(g: Graph, i: nat, placed: set<string>): seq<Unit>
    requires i <= |g.units|
    decreases |g.units| - i
  {
    if i == |g.units| then []
    else
      var k := g.units[i].key;
      if k in placed then CollapseFrom(g, i + 1, placed)
      else
        assert k in KeySet(g);
        [Merged(g, k)] + CollapseFrom(g, i + 1, placed + Loop(g, k))
  }

  /** The profile with each loop merged into one unit. */
  function CollapseCycles(g: Graph): Graph {
    Graph(CollapseFrom(g, 0, {}), g.idKey)
  }

  // ---- loops are an equivalence ----

  lemma MutualTransitive(g: Graph, a: string, b: string, c: string)
    requires Mutual(g, a, b) && Mutual(g, b, c)
    ensures Mutual(g, a, c)
  {
    ClosureTransitive(g, a, b);
    ClosureTransitive(g, c, b);
  }

  lemma LoopSame(g: Graph, a: string, b: string)
    requires Mutual(g, a, b)
    ensures Loop(g, a) == Loop(g, b)
  {
    LoopKeys(g, a);
    LoopKeys(g, b);
    forall x ensures x in Loop(g, a) <==> x in Loop(g, b) {
      if x in Loop(g, a) {
        MutualTransitive(g, b, a, x);
      }
      if x in Loop(g, b) {
        MutualTransitive(g, a, b, x);
      }
    }
  }

  lemma SelfMutual(g: Graph, k: string)
    requires k in KeySet(g)
    ensures k in Loop(g, k) && Group(g, k) != []
  {
    LoopKeys(g, k);
    assert k in Closure(g, {k});
    assert k in Group(g, k);
  }

  /** Unit keys are deployment ids, which hold no separator. */
  ghost predicate PlainKeys(g: Graph) {
    forall k :: k in KeySet(g) ==> GROUP_SEPARATOR !in k
  }

  /** A merged key names exactly the keys of its loop, in order. */
  lemma GroupMembersRecover(g: Graph, k: string)
    requires PlainKeys(g) && k in KeySet(g)
    ensures GroupMembers(GroupKey(g, k)) == Group(g, k)
    ensures Elems(GroupMembers(GroupKey(g, k))) == Loop(g, k)
  {
    LoopKeys(g, k);
    SelfMutual(g, k);
    forall p | p in Group(g, k) ensures GROUP_SEPARATOR !in p {
      assert p in KeySet(g);
    }
    SplitJoin(Group(g, k), GROUP_SEPARATOR);
  }

  lemma SameGroup(g: Graph, a: string, b: string)
    requires PlainKeys(g) && a in KeySet(g) && b in KeySet(g)
    ensures GroupKey(g, a) == GroupKey(g, b) <==> Mutual(g, a, b)
    ensures Mutual(g, a, b) ==> Merged(g, a) == Merged(g, b)
  {
    if Mutual(g, a, b) {
      LoopSame(g, a, b);
    }
    if GroupKey(g, a) == GroupKey(g, b) {
      GroupMembersRecover(g, a);
      GroupMembersRecover(g, b);
      SelfMutual(g, b);
      LoopKeys(g, a);
    }
  }

  lemma {:induction false} MembersFacts(g: Graph, keys: seq<string>)
    requires forall k :: k in keys ==> k in KeySet(g)
    ensures |MembersOf(g, keys)| == |keys|
    ensures forall i :: 0 <= i < |keys| ==> MembersOf(g, keys)[i] in g.units && MembersOf(g, keys)[i].key == keys[i]
  {
    if keys != [] {
      assert forall k :: k in keys[1..] ==> k in keys;
      MembersFacts(g, keys[1..]);
    }
  }

  lemma {:induction false} AllIdsAre(us: seq<Unit>, x: string)
    ensures x in AllIds(us) <==> exists u :: u in us && x in u.uniqueIds
  {
    if us != [] {
      AllIdsAre(us[1..], x);
      assert us == [us[0]] + us[1..];
    }
  }

  lemma {:induction false} AllNeedsAre(us: seq<Unit>, x: string)
    ensures x in AllNeeds(us) <==> exists u :: u in us && x in u.needs
  {
    if us != [] {
      AllNeedsAre(us[1..], x);
      assert us == [us[0]] + us[1..];
    }
  }

  lemma SameUnit(g: Graph, u: Unit, v: Unit)
    requires DistinctKeys(g) && u in g.units && v in g.units && u.key == v.key
    ensures u == v
  {
    var p :| 0 <= p < |g.units| && g.units[p] == u;
    var q :| 0 <= q < |g.units| && g.units[q] == v;
    assert p == q;
  }

  ghost predicate OnLoop(g: Graph, k: string, u: Unit) {
    u in g.units && u.key in Loop(g, k)
  }

  /** With one folder per key, the members of a group are exactly the units keyed in the loop. */
  lemma GroupUnits(g: Graph, k: string, u: Unit)
    requires DistinctKeys(g) && k in KeySet(g)
    requires forall x :: x in Group(g, k) ==> x in KeySet(g)
    ensures u in MembersOf(g, Group(g, k)) <==> OnLoop(g, k, u)
  {
    hide Loop, Group;
    LoopKeys(g, k);
    MembersFacts(g, Group(g, k));
    var ms := MembersOf(g, Group(g, k));
    if u in ms {
      var i :| 0 <= i < |ms| && ms[i] == u;
      assert u.key in Group(g, k);
    }
    if OnLoop(g, k, u) {
      assert u.key in Group(g, k);
      var i :| 0 <= i < |ms| && Group(g, k)[i] == u.key;
      SameUnit(g, u, ms[i]);
    }
  }

  /** What a merged unit is called. */
  lemma MergedKey(g: Graph, k: string)
    requires DistinctKeys(g) && k in KeySet(g)
    ensures Merged(g, k).key == GroupKey(g, k)
  {
    hide Loop, Group;
    LoopKeys(g, k);
    SelfMutual(g, k);
    MembersFacts(g, Group(g, k));
    var ms := MembersOf(g, Group(g, k));
    if |ms| == 1 {
      assert ms[0].key == Group(g, k)[0];
    }
  }

  /** What a merged unit provides. */
  lemma MergedProvides(g: Graph, k: string, x: string)
    requires DistinctKeys(g) && k in KeySet(g)
    ensures x in Merged(g, k).uniqueIds <==> exists u :: OnLoop(g, k, u) && x in u.uniqueIds
  {
    hide Loop, Group, OnLoop;
    LoopKeys(g, k);
    var ms := MembersOf(g, Group(g, k));
    forall u ensures u in ms <==> OnLoop(g, k, u) {
      GroupUnits(g, k, u);
    }
    AllIdsAre(ms, x);
    if |ms| == 1 {
      assert ms == [ms[0]];
    }
  }

  /** What a merged unit requires, some member does. */
  lemma MergedNeeds(g: Graph, k: string, x: string)
    requires DistinctKeys(g) && k in KeySet(g) && x in Merged(g, k).needs
    ensures exists u :: OnLoop(g, k, u) && x in u.needs
  {
    hide Loop, Group, OnLoop;
    LoopKeys(g, k);
    var ms := MembersOf(g, Group(g, k));
    forall u ensures u in ms <==> OnLoop(g, k, u) {
      GroupUnits(g, k, u);
    }
    AllNeedsAre(ms, x);
    if |ms| == 1 {
      assert ms == [ms[0]];
    }
  }

  /** A merged unit drops only requirements one of its own members meets. */
  lemma MergedKeeps(g: Graph, k: string, u: Unit, x: string)
    requires DistinctKeys(g) && k in KeySet(g) && OnLoop(g, k, u) && x in u.needs
    ensures x in Merged(g, k).needs ||
            exists w, y :: OnLoop(g, k, w) && y in w.uniqueIds && g.idKey(y) == g.idKey(x)
  {
    hide Loop, Group;
    LoopKeys(g, k);
    var ms := MembersOf(g, Group(g, k));
    GroupUnits(g, k, u);
    AllNeedsAre(ms, x);
    if |ms| == 1 {
      assert ms == [ms[0]];
    } else if x !in Merged(g, k).needs {
      assert g.idKey(x) in Own(g, ms);
      var y :| y in AllIds(ms) && g.idKey(y) == g.idKey(x);
      AllIdsAre(ms, y);
      var w :| w in ms && y in w.uniqueIds;
      GroupUnits(g, k, w);
    }
  }

  // ---- the output: one unit per loop ----

  /** Every loop not yet placed is put out. */
  lemma {:induction false} CollapseHas(g: Graph, i: nat, placed: set<string>, j: nat)
    requires i <= j < |g.units| && PlainKeys(g) && g.units[j].key !in placed
    ensures g.units[j].key in KeySet(g)
    ensures Merged(g, g.units[j].key) in CollapseFrom(g, i, placed)
    decreases |g.units| - i
  {
    hide Merged, Loop;
    var k := g.units[i].key;
    assert k in KeySet(g) && g.units[j].key in KeySet(g);
    if k in placed {
      CollapseHas(g, i + 1, placed, j);
    } else {
      var out := CollapseFrom(g, i, placed);
      assert out[0] == Merged(g, k);
      LoopKeys(g, k);
      if g.units[j].key in Loop(g, k) {
        SameGroup(g, k, g.units[j].key);
      } else {
        SelfMutual(g, k);
        CollapseHas(g, i + 1, placed + Loop(g, k), j);
      }
    }
  }

  /** Only such loops are put out. */
  lemma {:induction false} CollapseOnly(g: Graph, i: nat, placed: set<string>, v: Unit) returns (j: nat)
    requires i <= |g.units| && v in CollapseFrom(g, i, placed)
    ensures i <= j < |g.units| && g.units[j].key !in placed
    ensures g.units[j].key in KeySet(g) && v == Merged(g, g.units[j].key)
    decreases |g.units| - i
  {
    hide Merged, Loop;
    var k := g.units[i].key;
    assert k in KeySet(g);
    if k in placed {
      j := CollapseOnly(g, i + 1, placed, v);
    } else if v == Merged(g, k) {
      j := i;
    } else {
      j := CollapseOnly(g, i + 1, placed + Loop(g, k), v);
    }
  }

  lemma {:induction false} CollapseSize(g: Graph, i: nat, placed: set<string>)
    requires i <= |g.units|
    ensures |CollapseFrom(g, i, placed)| <= |g.units| - i
    decreases |g.units| - i
  {
    hide Merged, Loop;
    if i < |g.units| {
      CollapseSize(g, i + 1, placed);
      CollapseSize(g, i + 1, placed + Loop(g, g.units[i].key));
    }
  }

  lemma {:induction false} CollapseDistinct(g: Graph, i: nat, placed: set<string>)
    requires i <= |g.units| && PlainKeys(g) && DistinctKeys(g)
    ensures DistinctKeys(Graph(CollapseFrom(g, i, placed), g.idKey))
    decreases |g.units| - i
  {
    hide Merged, Loop, GroupKey;
    if i < |g.units| {
      var k := g.units[i].key;
      assert k in KeySet(g);
      if k in placed {
        CollapseDistinct(g, i + 1, placed);
      } else {
        var more := placed + Loop(g, k);
        var rest := CollapseFrom(g, i + 1, more);
        CollapseDistinct(g, i + 1, more);
        forall n | 0 <= n < |rest| ensures rest[n].key != Merged(g, k).key {
          var j := CollapseOnly(g, i + 1, more, rest[n]);
          MergedKey(g, k);
          MergedKey(g, g.units[j].key);
          LoopKeys(g, k);
          SameGroup(g, k, g.units[j].key);
        }
      }
    }
  }

  /** The unit a key of the output stands for. */
  ghost predicate StandsFor(g: Graph, v: Unit, k: string) {
    k in KeySet(g) && v == Merged(g, k)
  }

  /** One merged unit for each loop, no two alike, and nothing else. */
  lemma CollapseIsPartition(g: Graph)
    requires DistinctKeys(g) && PlainKeys(g)
    ensures DistinctKeys(CollapseCycles(g))
    ensures |CollapseCycles(g).units| <= |g.units|
    ensures forall v :: v in CollapseCycles(g).units ==> exists k :: StandsFor(g, v, k)
    ensures forall k :: k in KeySet(g) ==> Merged(g, k) in CollapseCycles(g).units
  {
    hide Merged, CollapseFrom;
    CollapseDistinct(g, 0, {});
    CollapseSize(g, 0, {});
    forall v | v in CollapseCycles(g).units ensures exists k :: StandsFor(g, v, k) {
      var j := CollapseOnly(g, 0, {}, v);
      assert StandsFor(g, v, g.units[j].key);
    }
    forall k | k in KeySet(g) ensures Merged(g, k) in CollapseCycles(g).units {
      var u :| u in g.units && u.key == k;
      var j :| 0 <= j < |g.units| && g.units[j] == u;
      CollapseHas(g, 0, {}, j);
    }
  }

  /** Every original key is a member of exactly one unit of the output. */
  lemma EachKeyOnce(g: Graph, k: string, v: Unit)
    requires DistinctKeys(g) && PlainKeys(g) && k in KeySet(g) && v in CollapseCycles(g).units
    ensures k in GroupMembers(v.key) <==> v.key == GroupKey(g, k)
    ensures forall m :: m in GroupMembers(v.key) ==> m in KeySet(g)
  {
    hide Merged, Loop, GroupKey, GroupMembers, CollapseCycles;
    CollapseIsPartition(g);
    var a :| StandsFor(g, v, a);
    MergedKey(g, a);
    GroupMembersRecover(g, a);
    LoopKeys(g, a);
    SameGroup(g, a, k);
  }

  lemma CollapsedKeys(g: Graph)
    requires DistinctKeys(g) && PlainKeys(g)
    ensures forall x :: x in KeySet(CollapseCycles(g)) <==> exists k :: k in KeySet(g) && x == GroupKey(g, k)
  {
    hide Merged, GroupKey, CollapseCycles;
    CollapseIsPartition(g);
    var c := CollapseCycles(g);
    forall x ensures x in KeySet(c) <==> exists k :: k in KeySet(g) && x == GroupKey(g, k) {
      if x in KeySet(c) {
        var v :| v in c.units && v.key == x;
        var k :| StandsFor(g, v, k);
        MergedKey(g, k);
      }
      if k :| k in KeySet(g) && x == GroupKey(g, k) {
        MergedKey(g, k);
        assert Merged(g, k) in c.units;
      }
    }
  }

  // ---- requirements between merged units ----

  /** Anything on `a`'s loop that directly needs something on `b`'s makes `a` need `b`. */
  lemma LoopsLink(g: Graph, a: string, b: string, m: Unit, n: Unit)
    requires a in KeySet(g) && b in KeySet(g)
    requires OnLoop(g, a, m) && OnLoop(g, b, n) && Needs(g, m, n)
    ensures b in Closure(g, {a})
  {
    LoopKeys(g, a);
    LoopKeys(g, b);
    assert Dep(g, m.key, n.key);
    ClosureClosed(g, {a});
    assert n.key in Closure(g, {a});
    ClosureTransitive(g, a, n.key);
  }

  /** A requirement between merged units comes from one between their members. */
  lemma MergedLink(g: Graph, u: Unit, v: Unit, a: string, b: string) returns (m: Unit, n: Unit)
    requires DistinctKeys(g) && StandsFor(g, u, a) && StandsFor(g, v, b)
    requires Needs(CollapseCycles(g), u, v)
    ensures OnLoop(g, a, m) && OnLoop(g, b, n) && Needs(g, m, n)
  {
    hide Merged, Loop, CollapseFrom;
    var r, id :| r in u.needs && id in v.uniqueIds && g.idKey(r) == g.idKey(id);
    MergedNeeds(g, a, r);
    MergedProvides(g, b, id);
    m :| OnLoop(g, a, m) && r in m.needs;
    n :| OnLoop(g, b, n) && id in n.uniqueIds;
  }

  lemma CollapsedDep(g: Graph, a: string, b: string)
    requires DistinctKeys(g) && PlainKeys(g) && a in KeySet(g) && b in KeySet(g)
    requires Dep(CollapseCycles(g), GroupKey(g, a), GroupKey(g, b))
    ensures b in Closure(g, {a})
  {
    hide Merged, Loop, GroupKey, CollapseCycles;
    CollapseIsPartition(g);
    var c := CollapseCycles(g);
    var u, v :| u in c.units && v in c.units && u.key == GroupKey(g, a) && v.key == GroupKey(g, b) && Needs(c, u, v);
    var a' :| StandsFor(g, u, a');
    var b' :| StandsFor(g, v, b');
    MergedKey(g, a');
    MergedKey(g, b');
    var m, n := MergedLink(g, u, v, a', b');
    SameGroup(g, a, a');
    SameGroup(g, b, b');
    LoopsLink(g, a', b', m, n);
    ClosureTransitive(g, a, a');
    ClosureTransitive(g, a', b');
    ClosureTransitive(g, b', b);
  }

  /** So a merged unit never needs more than its members do. */
  lemma CollapsedReach(g: Graph, a: string, b: string)
    requires DistinctKeys(g) && PlainKeys(g) && a in KeySet(g) && b in KeySet(g)
    requires GroupKey(g, b) in Closure(CollapseCycles(g), {GroupKey(g, a)})
    ensures b in Closure(g, {a})
  {
    var c := CollapseCycles(g);
    var reach := set x | x in KeySet(g) && x in Closure(g, {a}) :: GroupKey(g, x);
    CollapsedKeys(g);
    assert a in Closure(g, {a});
    forall x, y | x in reach && Dep(c, x, y) ensures y in reach {
      var p :| p in KeySet(g) && p in Closure(g, {a}) && x == GroupKey(g, p);
      var u, v :| u in c.units && v in c.units && u.key == x && v.key == y && Needs(c, u, v);
      assert y in KeySet(c);
      var q :| q in KeySet(g) && y == GroupKey(g, q);
      CollapsedDep(g, p, q);
      ClosureTransitive(g, a, p);
    }
    ClosureLeast(c, {GroupKey(g, a)}, reach);
    var q :| q in KeySet(g) && q in Closure(g, {a}) && GroupKey(g, b) == GroupKey(g, q);
    SameGroup(g, b, q);
    ClosureTransitive(g, a, q);
  }

  /** After collapsing, no two units need each other: any profile can be bisected. */
  lemma CollapseIsAcyclic(g: Graph)
    requires DistinctKeys(g) && PlainKeys(g)
    ensures Acyclic(CollapseCycles(g))
  {
    var c := CollapseCycles(g);
    CollapsedKeys(g);
    forall x, y | x in KeySet(c) && y in KeySet(c) && y in Closure(c, {x}) && x in Closure(c, {y})
      ensures x == y
    {
      var a :| a in KeySet(g) && x == GroupKey(g, a);
      var b :| b in KeySet(g) && y == GroupKey(g, b);
      CollapsedReach(g, a, b);
      CollapsedReach(g, b, a);
      SameGroup(g, a, b);
    }
  }

  // ---- running merged units is running their members ----

  /** The original keys a set of (possibly merged) keys stands for. */
  function Expand(s: set<string>): set<string> {
    set k, m | k in s && m in GroupMembers(k) :: m
  }

  lemma Expanded(g: Graph, s: set<string>, k: string)
    requires DistinctKeys(g) && PlainKeys(g) && s <= KeySet(CollapseCycles(g)) && k in KeySet(g)
    ensures k in Expand(s) <==> GroupKey(g, k) in s
  {
    hide Merged, Loop, GroupKey, GroupMembers, CollapseCycles;
    var c := CollapseCycles(g);
    if k in Expand(s) {
      var x :| x in s && k in GroupMembers(x);
      var v :| v in c.units && v.key == x;
      EachKeyOnce(g, k, v);
    }
    if GroupKey(g, k) in s {
      GroupMembersRecover(g, k);
      SelfMutual(g, k);
      assert k in Elems(GroupMembers(GroupKey(g, k)));
    }
  }

  lemma ExpandedKeys(g: Graph, s: set<string>)
    requires DistinctKeys(g) && PlainKeys(g) && s <= KeySet(CollapseCycles(g))
    ensures Expand(s) <= KeySet(g)
  {
    hide GroupMembers, CollapseCycles;
    forall m | m in Expand(s) ensures m in KeySet(g) {
      var x :| x in s && m in GroupMembers(x);
      var v :| v in CollapseCycles(g).units && v.key == x;
      if k :| k in KeySet(g) {
        EachKeyOnce(g, k, v);
      } else {
        CollapsedKeys(g);
      }
    }
  }

  lemma CollapsedPoint(g: Graph, s: set<string>, b: string)
    requires DistinctKeys(g) && PlainKeys(g) && s <= KeySet(CollapseCycles(g))
    requires b in KeySet(g) && GroupKey(g, b) in Closure(CollapseCycles(g), s)
    ensures b in Closure(g, Expand(s))
  {
    hide Merged, Loop, GroupKey, GroupMembers, CollapseCycles, Expand, Closure, KeySet;
    var c := CollapseCycles(g);
    ClosurePoint(c, s, GroupKey(g, b));
    var x :| x in s && GroupKey(g, b) in Closure(c, {x});
    CollapsedKeys(g);
    var a :| a in KeySet(g) && x == GroupKey(g, a);
    CollapsedReach(g, a, b);
    Expanded(g, s, a);
    ClosureMonotone(g, {a}, Expand(s));
  }

  /** Turning merged units on never turns on more than their members need. */
  lemma CollapsedClosureIsWithin(g: Graph, s: set<string>)
    requires DistinctKeys(g) && PlainKeys(g) && s <= KeySet(CollapseCycles(g))
    ensures Expand(Closure(CollapseCycles(g), s)) <= Closure(g, Expand(s))
  {
    hide Merged, Loop, GroupKey, GroupMembers, CollapseCycles, Expand, Closure, KeySet;
    var r := Closure(CollapseCycles(g), s);
    ClosureClosed(CollapseCycles(g), s);
    ExpandedKeys(g, r);
    forall b | b in Expand(r) ensures b in Closure(g, Expand(s)) {
      Expanded(g, r, b);
      CollapsedPoint(g, s, b);
    }
  }

  /** Every direct requirement between original units leads somewhere in the output too. */
  ghost predicate LinksLead(g: Graph) {
    forall u, v :: u in g.units && v in g.units && Needs(g, u, v) ==>
      GroupKey(g, v.key) in Closure(CollapseCycles(g), {GroupKey(g, u.key)})
  }

  ghost predicate SameClosures(g: Graph) {
    forall s :: s <= KeySet(CollapseCycles(g)) ==> Expand(Closure(CollapseCycles(g), s)) == Closure(g, Expand(s))
  }

  lemma KeepsOne(g: Graph, a: string, b: string)
    requires LinksLead(g) && Dep(g, a, b)
    ensures a in KeySet(g) && b in KeySet(g) && GroupKey(g, b) in Closure(CollapseCycles(g), {GroupKey(g, a)})
  {
    hide GroupKey, CollapseCycles, Closure, Needs;
    var u, v :| u in g.units && v in g.units && u.key == a && v.key == b && Needs(g, u, v);
    assert u.key in KeySet(g) && v.key in KeySet(g);
  }

  lemma ExpandedIsClosed(g: Graph, r: set<string>, a: string, b: string)
    requires DistinctKeys(g) && PlainKeys(g) && LinksLead(g)
    requires r <= KeySet(CollapseCycles(g)) && Closed(CollapseCycles(g), r)
    requires a in Expand(r) && Dep(g, a, b)
    ensures b in Expand(r)
  {
    hide GroupKey, CollapseCycles, Expand, Closure, Dep, LinksLead, KeySet;
    KeepsOne(g, a, b);
    Expanded(g, r, a);
    ClosureLeast(CollapseCycles(g), {GroupKey(g, a)}, r);
    Expanded(g, r, b);
  }

  lemma LinksLeadKeepClosure(g: Graph, s: set<string>)
    requires DistinctKeys(g) && PlainKeys(g) && LinksLead(g) && s <= KeySet(CollapseCycles(g))
    ensures Expand(Closure(CollapseCycles(g), s)) == Closure(g, Expand(s))
  {
    hide Merged, Loop, GroupKey, GroupMembers, CollapseCycles, Expand, Closure, KeySet, LinksLead, Dep;
    var c := CollapseCycles(g);
    var r := Closure(c, s);
    CollapsedClosureIsWithin(g, s);
    ClosureClosed(c, s);
    ExpandedKeys(g, s);
    forall k | k in Expand(s) ensures k in Expand(r) {
      Expanded(g, s, k);
      Expanded(g, r, k);
    }
    forall a, b | a in Expand(r) && Dep(g, a, b) ensures b in Expand(r) {
      ExpandedIsClosed(g, r, a, b);
    }
    ClosureLeast(g, Expand(s), Expand(r));
  }

  lemma SameClosuresByLinks(g: Graph)
    requires DistinctKeys(g) && PlainKeys(g)
    ensures SameClosures(g) <==> LinksLead(g)
  {
    hide Merged, Loop, GroupKey, GroupMembers, CollapseCycles, Expand;
    var c := CollapseCycles(g);
    if LinksLead(g) {
      forall s | s <= KeySet(c) ensures Expand(Closure(c, s)) == Closure(g, Expand(s)) {
        LinksLeadKeepClosure(g, s);
      }
    }
    if SameClosures(g) {
      forall u, v | u in g.units && v in g.units && Needs(g, u, v)
        ensures GroupKey(g, v.key) in Closure(c, {GroupKey(g, u.key)})
      {
        var s := {GroupKey(g, u.key)};
        assert u.key in KeySet(g) && v.key in KeySet(g);
        CollapsedKeys(g);
        assert s <= KeySet(c);
        Expanded(g, s, u.key);
        ClosureClosed(g, Expand(s));
        assert Dep(g, u.key, v.key);
        assert v.key in Expand(Closure(c, s));
        ClosureClosed(c, s);
        Expanded(g, Closure(c, s), v.key);
      }
    }
  }

  // ---- the loop that does it ----

  /** The keys of the units on `k`'s loop. */
  method FindLoop(g: Graph, index: nat, reach: seq<set<string>>) returns (members: set<string>)
    requires index < |g.units| == |reach|
    requires forall j :: 0 <= j < |g.units| ==> reach[j] == Closure(g, {g.units[j].key})
    ensures members == Loop(g, g.units[index].key)
  {
    hide Closure;
    var k := g.units[index].key;
    members := {};
    for j := 0 to |g.units|
      invariant members == set u | u in g.units[..j] && Mutual(g, k, u.key) :: u.key
    {
      assert g.units[..j + 1] == g.units[..j] + [g.units[j]];
      assert j == index ==> Mutual(g, k, g.units[j].key);
      if j == index || (g.units[j].key in reach[index] && k in reach[j]) {
        members := members + {g.units[j].key};
      }
    }
    assert g.units[..|g.units|] == g.units;
  }

  /** Merges each requirement loop into one unit, in the order the units come. */
  method ComputeCollapse(g: Graph) returns (out: seq<Unit>)
    ensures out == CollapseCycles(g).units
  {
    hide Closure, Merged, Loop;
    var reach: seq<set<string>> := [];
    for i := 0 to |g.units|
      invariant |reach| == i
      invariant forall j :: 0 <= j < i ==> reach[j] == Closure(g, {g.units[j].key})
    {
      var r := ComputeClosure(g, {g.units[i].key});
      reach := reach + [r];
    }
    var placed: set<string> := {};
    out := [];
    for i := 0 to |g.units|
      invariant out + CollapseFrom(g, i, placed) == CollapseFrom(g, 0, {})
    {
      var unit := g.units[i];
      if unit.key in placed {
        continue;
      }
      assert unit.key in KeySet(g);
      var members := FindLoop(g, i, reach);
      placed := placed + members;
      out := out + [Merged(g, unit.key)];
    }
  }
}
