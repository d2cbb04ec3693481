/** The search as a profile runs it: requirement loops merged first, then bisected. */
module ProfileSearch {
  import opened Keys
  import opened Options
  import opened Requirements
  import opened Troubleshoot
  import opened Collapse
  import opened Surviving
  import opened SearchInvariant
  import opened SearchBounds
  import opened SearchVerdict

  /** On any profile, loops or none, the search ends within two answers more than the halvings. */
  lemma AnyProfileIsLogarithmic(g: Graph, bs: seq<bool>)
    requires DistinctKeys(g) && PlainKeys(g)
    ensures var c := CollapseCycles(g);
            && (|bs| >= 2 + CeilLog2(|g.units|) ==> Over(Answers(c, Start(), bs).phase))
            && Answers(c, Start(), bs).steps <= 2 + CeilLog2(|g.units|)
  {
    hide CollapseFrom, Answers;
    var c := CollapseCycles(g);
    CollapseIsPartition(g);
    CollapseIsAcyclic(g);
    MainSearchIsLogarithmic(c, bs);
    CeilLog2Monotone(|c.units|, |g.units|);
  }

  // ---- whatever is on can run ----

  /** Some history leaves exactly these units on. */
  ghost predicate CanBeOn(g: Graph, x: set<string>) {
    exists events :: Elems(Run(g, events).enabled) == x
  }

  lemma RecordKeepsOne(g: Graph, s: State, a: string)
    requires Inv(g, s) && s.phase == Testing && a in S(s)
    ensures var present := a in Elems(s.enabled);
            var r := Record(Counted(s), present);
            && a in S(r) && MainSearch(g, r) && 1 <= |r.suspects| < |s.suspects|
            && r.lastPresent == (if present then Some(s.enabled) else s.lastPresent)
  {
    hide MainSearch, Runnable;
    CountedInv(g, s);
    if a in Elems(s.enabled) {
      RecordPresent(g, Counted(s));
    } else {
      RecordAbsent(g, Counted(s));
    }
  }

  lemma NextTestKeepsOne(g: Graph, r: State, a: string)
    requires Acyclic(g) && MainSearch(g, r) && a in S(r)
    ensures var t := AfterTest(g, r);
            if |r.suspects| >= 2 then
              t.phase == Testing && a in S(t) && |t.suspects| == |r.suspects| && t.lastPresent == r.lastPresent
            else t == Confirm(g, r)
  {
    hide Confirm, Closed, Acyclic;
    if |r.suspects| >= 2 {
      NextTestAlwaysSplits(g, r);
      ByClosureSizeFacts(g, r.suspects);
    }
  }

  /** Where one more answer leads when the suspect sought is kept. */
  lemma TowardsOne(g: Graph, s: State, a: string)
    requires Acyclic(g) && Inv(g, s) && s.phase == Testing && a in S(s)
    ensures var present := a in Elems(s.enabled);
            var r := Record(Counted(s), present);
            var t := Answer(g, s, present);
            && a in S(r) && MainSearch(g, r) && 1 <= |r.suspects| < |s.suspects|
            && r.lastPresent == (if present then Some(s.enabled) else s.lastPresent)
            && (|r.suspects| >= 2 ==> && t.phase == Testing && a in S(t) && |t.suspects| == |r.suspects|
                                      && t.lastPresent == r.lastPresent)
            && (|r.suspects| == 1 ==> t == Confirm(g, r))
  {
    hide *;
    var present := a in Elems(s.enabled);
    AnswerByPhase(g, s, present);
    RecordKeepsOne(g, s, a);
    NextTestKeepsOne(g, Record(Counted(s), present), a);
  }

  lemma OnlyOneLeft(g: Graph, r: State, a: string)
    requires MainSearch(g, r) && |r.suspects| == 1 && a in S(r)
    ensures Elems(Confirm(g, r).enabled) == Closure(g, {a}) || Elems(r.lastPresent.value) == Closure(g, {a})
  {
    assert r.suspects[0] == a;
    var last := Elems(r.lastPresent.value);
    if last <= Closure(g, {a}) {
      ClosureLeast(g, {a}, last);
    }
  }

  /** Answers that keep a suspect end with exactly what it needs on, or it needs everything. */
  lemma {:induction false} EachIsTried(g: Graph, events: seq<Event>, a: string)
    requires DistinctKeys(g) && Acyclic(g)
    requires Run(g, events).phase == Testing && a in S(Run(g, events)) && Run(g, events).lastPresent.Some?
    requires var last := Elems(Run(g, events).lastPresent.value); last == KeySet(g) || CanBeOn(g, last)
    ensures Closure(g, {a}) == KeySet(g) || CanBeOn(g, Closure(g, {a}))
    decreases |Run(g, events).suspects|
  {
    hide *;
    var s := Run(g, events);
    RunInv(g, events);
    TowardsOne(g, s, a);
    var present := a in Elems(s.enabled);
    var r := Record(Counted(s), present);
    var more := events + [Answered(present)];
    NextEvent(g, events, Answered(present));
    AnswersApply(g, s, present);
    LeavesOn(g, events);
    LeavesOn(g, more);
    if |r.suspects| >= 2 {
      EachIsTried(g, more, a);
    } else {
      OnlyOneLeft(g, r, a);
    }
  }

  lemma AnswersApply(g: Graph, s: State, present: bool)
    ensures Apply(g, s, Answered(present)) == Answer(g, s, present)
  { }

  lemma LeavesOn(g: Graph, events: seq<Event>)
    ensures CanBeOn(g, Elems(Run(g, events).enabled))
  { }

  lemma ClosureCanBeOn(g: Graph, a: string)
    requires DistinctKeys(g) && Acyclic(g) && a in KeySet(g)
    ensures Closure(g, {a}) == KeySet(g) || CanBeOn(g, Closure(g, {a}))
  {
    hide Closure, CanBeOn, NextTest, Conclude, Acyclic;
    if |g.units| >= 2 {
      var events := [] + [Answered(false)];
      NextEvent(g, [], Answered(false));
      FirstSplits(g, Counted(Start()));
      AllKeysFacts(g);
      FirstTest(g);
      EachIsTried(g, events, a);
    } else {
      OneUnit(g, a);
    }
  }

  lemma FirstTest(g: Graph)
    requires DistinctKeys(g) && |g.units| >= 2
    ensures var s := Answer(g, Start(), false); S(s) == KeySet(g) && s.lastPresent == Some(AllKeys(g))
  {
    AllKeysFacts(g);
    ByClosureSizeFacts(g, AllKeys(g));
  }

  lemma OneUnit(g: Graph, a: string)
    requires a in KeySet(g) && |g.units| < 2
    ensures Closure(g, {a}) == KeySet(g)
  {
    assert g.units == [g.units[0]];
    ClosureClosed(g, {a});
  }

  /** Whatever a test turns on, it turns on with everything the originals require. */
  lemma EnabledOriginalsCanRun(g: Graph, events: seq<Event>)
    requires DistinctKeys(g) && PlainKeys(g) && KeepsRequirements(g)
    ensures Closed(g, Expand(Elems(Run(CollapseCycles(g), events).enabled)))
  {
    hide CollapseCycles, Run, Expand, PhaseInv, KeepsRequirements;
    var c := CollapseCycles(g);
    CollapseIsPartition(g);
    RunInv(c, events);
    var on := Elems(Run(c, events).enabled);
    ClosureOfClosed(c, on);
    SameClosuresIff(g);
    ClosureClosed(g, Expand(on));
  }

  /** Whatever any session on the merged units turns on has everything the originals require. */
  ghost predicate AlwaysRunnable(g: Graph) {
    forall events :: Closed(g, Expand(Elems(Run(CollapseCycles(g), events).enabled)))
  }

  /** A merged unit and what it needs can run as originals, if every set a session can turn on can. */
  lemma TriedCanRun(g: Graph, k: string)
    requires DistinctKeys(g) && PlainKeys(g) && k in KeySet(g)
    requires AlwaysRunnable(g)
    ensures Closed(g, Expand(Closure(CollapseCycles(g), {GroupKey(g, k)})))
  {
    hide CollapseCycles, Run, Expand, Closed, Closure, GroupKey;
    var c := CollapseCycles(g);
    CollapseIsPartition(g);
    CollapseIsAcyclic(g);
    CollapsedKeys(g);
    ClosureCanBeOn(c, GroupKey(g, k));
    if Closure(c, {GroupKey(g, k)}) == KeySet(c) {
      AllExpands(g);
      AllKeysClosed(g);
    }
  }

  lemma AllExpands(g: Graph)
    requires DistinctKeys(g) && PlainKeys(g)
    ensures Expand(KeySet(CollapseCycles(g))) == KeySet(g)
  {
    hide CollapseCycles, Expand, GroupKey;
    CollapsedKeys(g);
    ExpandedKeys(g, KeySet(CollapseCycles(g)));
    forall k | k in KeySet(g) ensures k in Expand(KeySet(CollapseCycles(g))) {
      Expanded(g, KeySet(CollapseCycles(g)), k);
    }
  }

  lemma KeptIsRunnable(g: Graph)
    requires DistinctKeys(g) && PlainKeys(g) && KeepsRequirements(g)
    ensures AlwaysRunnable(g)
  {
    hide CollapseCycles, Run, Expand, KeepsRequirements, Closed;
    forall events ensures Closed(g, Expand(Elems(Run(CollapseCycles(g), events).enabled))) {
      EnabledOriginalsCanRun(g, events);
    }
  }

  /** Whatever any session turns on can run as originals exactly when merging loses no provider. */
  lemma EnabledOriginalsCanRunIff(g: Graph)
    requires DistinctKeys(g) && PlainKeys(g)
    ensures KeepsRequirements(g) <==> AlwaysRunnable(g)
  {
    hide *;
    if KeepsRequirements(g) {
      KeptIsRunnable(g);
    }
    if AlwaysRunnable(g) {
      forall u, v | u in g.units && v in g.units && Needs(g, u, v)
        ensures GroupKey(g, v.key) in Closure(CollapseCycles(g), {GroupKey(g, u.key)})
      {
        UnitKey(g, u);
        TriedCanRun(g, u.key);
        ClosedLeads(g, u, v);
      }
      LinksLeadIf(g);
      SameClosuresByLinks(g);
      SameClosuresIff(g);
    }
  }

  lemma UnitKey(g: Graph, u: Unit)
    requires u in g.units
    ensures u.key in KeySet(g)
  { }

  lemma LinksLeadIf(g: Graph)
    requires forall u, v :: u in g.units && v in g.units && Needs(g, u, v) ==>
               GroupKey(g, v.key) in Closure(CollapseCycles(g), {GroupKey(g, u.key)})
    ensures LinksLead(g)
  { }

  lemma ClosedLeads(g: Graph, u: Unit, v: Unit)
    requires DistinctKeys(g) && PlainKeys(g) && u in g.units && v in g.units && Needs(g, u, v)
    requires Closed(g, Expand(Closure(CollapseCycles(g), {GroupKey(g, u.key)})))
    ensures GroupKey(g, v.key) in Closure(CollapseCycles(g), {GroupKey(g, u.key)})
  {
    hide CollapseCycles, Expand, GroupKey, Closure, Needs;
    var c := CollapseCycles(g);
    var r := Closure(c, {GroupKey(g, u.key)});
    assert u.key in KeySet(g) && v.key in KeySet(g);
    CollapsedKeys(g);
    ClosureClosed(c, {GroupKey(g, u.key)});
    Expanded(g, r, u.key);
    assert Dep(g, u.key, v.key);
    Expanded(g, r, v.key);
  }

  // ---- the verdicts, on the original mods ----

  /** The problem as a session on merged units sees it: with their originals on. */
  ghost function SeenBy(g: Graph, o: Problem): Problem {
    x => o(Expand(x * KeySet(CollapseCycles(g))))
  }

  lemma SeenByFacts(g: Graph, o: Problem)
    requires DistinctKeys(g) && PlainKeys(g) && Monotone(o) && o(KeySet(g))
    ensures Monotone(SeenBy(g, o)) && SeenBy(g, o)(KeySet(CollapseCycles(g)))
    ensures forall x :: x <= KeySet(CollapseCycles(g)) ==> SeenBy(g, o)(x) == o(Expand(x))
  {
    hide CollapseCycles, Expand;
    var c := CollapseCycles(g);
    AllExpands(g);
    assert KeySet(c) * KeySet(c) == KeySet(c);
    forall x, y | x <= y && SeenBy(g, o)(x) ensures SeenBy(g, o)(y) {
      ExpandMore(x * KeySet(c), y * KeySet(c));
    }
    forall x | x <= KeySet(c) ensures SeenBy(g, o)(x) == o(Expand(x)) {
      assert x * KeySet(c) == x;
    }
  }

  lemma ExpandMore(x: set<string>, y: set<string>)
    requires x <= y
    ensures Expand(x) <= Expand(y)
  { }

  /** Taking one merged unit out takes out its members and nothing else. */
  lemma ExpandWithout(g: Graph, x: set<string>, k: string)
    requires DistinctKeys(g) && PlainKeys(g) && x <= KeySet(CollapseCycles(g)) && k in KeySet(CollapseCycles(g))
    ensures Expand(x - {k}) == Expand(x) - Elems(GroupMembers(k))
  {
    hide CollapseCycles, Expand, GroupKey, GroupMembers;
    var c := CollapseCycles(g);
    CollapsedKeys(g);
    var a :| a in KeySet(g) && k == GroupKey(g, a);
    ExpandedKeys(g, x);
    ExpandedKeys(g, x - {k});
    GroupMembersRecover(g, a);
    forall m | m in KeySet(g) ensures m in Expand(x - {k}) <==> m in Expand(x) && m !in Elems(GroupMembers(k)) {
      Expanded(g, x - {k}, m);
      Expanded(g, x, m);
      SameGroup(g, a, m);
      LoopKeys(g, a);
    }
  }

  /** What a unit needs, as originals. */
  ghost function OriginalsOf(g: Graph, units: set<string>): set<string> {
    Expand(Closure(CollapseCycles(g), units))
  }

  /** They are what its members need, when merging loses no provider. */
  lemma OriginalsAreNeeded(g: Graph, units: set<string>)
    requires DistinctKeys(g) && PlainKeys(g) && KeepsRequirements(g) && units <= KeySet(CollapseCycles(g))
    ensures OriginalsOf(g, units) == Closure(g, Expand(units))
  {
    hide CollapseCycles, Expand, KeepsRequirements, Closure;
    SameClosuresIff(g);
  }

  /** The mods of a unit that is named cause the problem with only what they need on, and not when taken out of that. */
  lemma NamedOriginalsArePivotal(g: Graph, o: Problem, events: seq<Event>)
    requires DistinctKeys(g) && PlainKeys(g) && Monotone(o) && o(KeySet(g))
    requires Truthful(CollapseCycles(g), SeenBy(g, o), events)
    requires Run(CollapseCycles(g), events).phase == Found
    ensures var s := Run(CollapseCycles(g), events);
            && s.culprit.Some? && s.culprit.value in KeySet(CollapseCycles(g))
            && var on := OriginalsOf(g, {s.culprit.value});
               o(on) && !o(on - Elems(GroupMembers(s.culprit.value)))
  {
    hide CollapseCycles, Expand, Run, Truthful, GroupMembers, SeenBy, Closure;
    var c := CollapseCycles(g);
    CollapseIsPartition(g);
    SeenByFacts(g, o);
    NamedCulpritIsPivotal(c, SeenBy(g, o), events);
    var k := Run(c, events).culprit.value;
    ClosureClosed(c, {k});
    ExpandWithout(g, Closure(c, {k}), k);
  }

  /** The mods of two units named as a pair cause it together, and those of neither do alone. */
  lemma NamedOriginalPairIsPivotal(g: Graph, o: Problem, events: seq<Event>)
    requires DistinctKeys(g) && PlainKeys(g) && Monotone(o) && o(KeySet(g))
    requires Truthful(CollapseCycles(g), SeenBy(g, o), events)
    requires Run(CollapseCycles(g), events).phase == FoundPair
    ensures var s := Run(CollapseCycles(g), events);
            && s.involved.Some? && s.partner.Some? && s.involved.value != s.partner.value
            && o(OriginalsOf(g, {s.involved.value, s.partner.value}))
            && !o(OriginalsOf(g, {s.involved.value})) && !o(OriginalsOf(g, {s.partner.value}))
  {
    hide CollapseCycles, Expand, Run, Truthful, SeenBy, Closure, PhaseInv;
    var c := CollapseCycles(g);
    CollapseIsPartition(g);
    SeenByFacts(g, o);
    NamedPairIsPivotal(c, SeenBy(g, o), events);
    var s := Run(c, events);
    RunInv(c, events);
    PairKeys(c, s);
    ClosureClosed(c, {s.involved.value, s.partner.value});
    ClosureClosed(c, {s.involved.value});
    ClosureClosed(c, {s.partner.value});
  }

  lemma PairKeys(g: Graph, s: State)
    requires Inv(g, s) && s.phase == FoundPair && s.involved.Some? && s.partner.Some?
    ensures s.involved.value in KeySet(g) && s.partner.value in KeySet(g)
  {
    assert s.partnerSuspects[0] in Elems(s.partnerSuspects);
  }

  /** Two mods that cause the problem only together, and do not need each other, are found as the members of a pair. */
  lemma AnyPairIsFound(g: Graph, o: Problem, a: string, b: string, n: nat, m: nat)
    requires DistinctKeys(g) && PlainKeys(g) && CausedByPair(g, o, a, b)
    requires n >= 2 + CeilLog2(|g.units|)
    requires m >= NarrowTests(Ask(CollapseCycles(g), SeenBy(g, o), Start(), n))
    ensures var c := CollapseCycles(g);
            var s := Ask(c, SeenBy(g, o), Start(), n);
            && CanNarrow(s) && s.culprit == None
            && NamesPair(GroupKey(g, a), GroupKey(g, b), s, Ask(c, SeenBy(g, o), Narrow(c, s), m))
            && a in GroupMembers(GroupKey(g, a)) && b in GroupMembers(GroupKey(g, b))
  {
    hide CollapseCycles, Expand, GroupMembers, GroupKey, Ask, Narrow, NarrowTests, NamesPair;
    var c := CollapseCycles(g);
    CollapseIsPartition(g);
    CollapseIsAcyclic(g);
    CeilLog2Monotone(|c.units|, |g.units|);
    PairOfUnits(g, o, a, b);
    PairIsReportedAsPair(c, SeenBy(g, o), GroupKey(g, a), GroupKey(g, b), n);
    PairIsFound(c, SeenBy(g, o), GroupKey(g, a), GroupKey(g, b), n, m);
    InOwnGroup(g, a);
    InOwnGroup(g, b);
  }

  lemma InOwnGroup(g: Graph, k: string)
    requires PlainKeys(g) && k in KeySet(g)
    ensures k in GroupMembers(GroupKey(g, k))
  {
    hide GroupMembers, GroupKey;
    GroupMembersRecover(g, k);
    SelfMutual(g, k);
    assert k in Elems(GroupMembers(GroupKey(g, k)));
  }

  lemma PairOfUnits(g: Graph, o: Problem, a: string, b: string)
    requires DistinctKeys(g) && PlainKeys(g) && CausedByPair(g, o, a, b)
    ensures CausedByPair(CollapseCycles(g), SeenBy(g, o), GroupKey(g, a), GroupKey(g, b))
  {
    hide CollapseCycles, Expand, GroupKey, Closure;
    var c := CollapseCycles(g);
    CollapsedKeys(g);
    if GroupKey(g, a) in Closure(c, {GroupKey(g, b)}) {
      CollapsedReach(g, b, a);
    }
    if GroupKey(g, b) in Closure(c, {GroupKey(g, a)}) {
      CollapsedReach(g, a, b);
    }
    forall x ensures SeenBy(g, o)(x) <==> GroupKey(g, a) in x && GroupKey(g, b) in x {
      Expanded(g, x * KeySet(c), a);
      Expanded(g, x * KeySet(c), b);
    }
  }

  /** A mod, or a loop of mods, that alone causes the problem is found on any profile. */
  lemma AnyCauseIsFound(g: Graph, o: Problem, k: string, n: nat)
    requires DistinctKeys(g) && PlainKeys(g) && k in KeySet(g) && n >= 2 + CeilLog2(|g.units|)
    requires forall x :: o(x) <==> k in x
    ensures var c := CollapseCycles(g);
            var s := Ask(c, SeenBy(g, o), Start(), n);
            s.phase == Found && s.culprit.Some? && k in GroupMembers(s.culprit.value)
  {
    hide CollapseCycles, Expand, GroupMembers, GroupKey;
    var c := CollapseCycles(g);
    var seen := SeenBy(g, o);
    CollapseIsPartition(g);
    CollapseIsAcyclic(g);
    CollapsedKeys(g);
    CeilLog2Monotone(|c.units|, |g.units|);
    var culprit := GroupKey(g, k);
    forall x ensures seen(x) <==> culprit in x {
      Expanded(g, x * KeySet(c), k);
    }
    SingleCauseIsFound(c, seen, culprit, n);
    GroupMembersRecover(g, k);
    SelfMutual(g, k);
    assert k in Elems(GroupMembers(culprit));
  }
}
