/** What every reachable session keeps, on every requirement graph and for every answer. */
module SearchInvariant {
  import opened Keys
  import opened Options
  import opened Requirements
  import opened Troubleshoot

  ghost function S(s: State): set<string> { Elems(s.suspects) }

  ghost function Good(s: State): set<string> { Elems(s.knownGood) }

  /** The suspects the test in progress asks about. */
  ghost function Front(list: seq<string>): set<string> {
    Elems(list[..Half(|list|)])
  }

  /** While the cause is among the suspects: what is cleared, and what is cleared or suspected, runs on its own. */
  ghost predicate MainSearch(g: Graph, s: State) {
    && NoDup(s.suspects) && S(s) <= KeySet(g)
    && Good(s) <= KeySet(g) && S(s) !! Good(s)
    && Closed(g, Good(s)) && Closed(g, S(s) + Good(s))
    && s.lastPresent.Some? && NoDup(s.lastPresent.value) && Elems(s.lastPresent.value) == S(s) + Good(s)
    && s.involved == None
  }

  /** One suspect is known to be involved, and the rest of a pair is wanted. */
  ghost predicate PairSearch(g: Graph, s: State) {
    && |s.suspects| == 1 && s.involved == Some(s.suspects[0]) && s.suspects[0] in KeySet(g)
    && Good(s) <= KeySet(g) && Closed(g, Good(s))
    && s.lastPresent.Some?
  }

  /** Candidates for the other half of a pair: cleared units the involved one does not need. */
  ghost predicate Candidates(g: Graph, s: State, list: seq<string>) {
    NoDup(list) && Elems(list) <= Good(s) && Elems(list) !! Closure(g, Holding(s.involved))
  }

  ghost predicate PhaseInv(g: Graph, s: State) {
    match s.phase
    case AllOff => s == Start()
    case Testing =>
      && MainSearch(g, s) && |s.suspects| >= 2 && SizeSorted(g, s.suspects)
      && Elems(s.enabled) == Closure(g, Front(s.suspects) + Good(s))
      && !(S(s) <= Elems(s.enabled))
    case Confirming =>
      && MainSearch(g, s) && |s.suspects| == 1
      && Elems(s.enabled) == Closure(g, S(s))
      && !(Elems(s.lastPresent.value) <= Elems(s.enabled))
    case Found =>
      && s.culprit == FirstOf(s.suspects) && |s.suspects| <= 1
      && S(s) <= KeySet(g)
      && Elems(s.enabled) == RunsWithout(g, S(s))
    case Inconclusive =>
      && Elems(s.enabled) == Good(s)
      && (s.note == Some(StillThereWithAllOff) ==> s.enabled == [])
      && (s.involved.Some? ==> PairSearch(g, s) && Candidates(g, s, s.partners))
    case PartnerSearch =>
      && PairSearch(g, s) && Candidates(g, s, s.partnerSuspects)
      && |s.partnerSuspects| >= 2 && SizeSorted(g, s.partnerSuspects)
      && Elems(s.enabled) == Closure(g, Front(s.partnerSuspects) + Holding(s.involved))
      && !(Elems(s.partnerSuspects) <= Elems(s.enabled))
    case PartnerConfirm =>
      && PairSearch(g, s) && Candidates(g, s, s.partnerSuspects) && |s.partnerSuspects| == 1
      && Elems(s.enabled) == Closure(g, Elems(s.partnerSuspects) + Holding(s.involved))
      && !(Elems(s.lastPresent.value) <= Elems(s.enabled))
    case FoundPair =>
      && PairSearch(g, s) && Candidates(g, s, s.partnerSuspects) && |s.partnerSuspects| == 1
      && s.partner == Some(s.partnerSuspects[0])
      && Elems(s.enabled) == RunsWithout(g, Holding(s.involved))
  }

  /** Nothing is ever enabled without what it requires. */
  ghost predicate Runnable(g: Graph, s: State) {
    Closed(g, Elems(s.enabled)) && Elems(s.enabled) <= KeySet(g) && NoDup(s.enabled)
  }

  ghost predicate Inv(g: Graph, s: State) {
    PhaseInv(g, s) && Runnable(g, s)
  }

  lemma RunsWithoutClosed(g: Graph, bad: set<string>)
    ensures Closed(g, RunsWithout(g, bad)) && RunsWithout(g, bad) <= KeySet(g)
  {
    forall a, b | a in RunsWithout(g, bad) && Dep(g, a, b) ensures b in RunsWithout(g, bad) {
      var u, v :| u in g.units && v in g.units && u.key == a && v.key == b && Needs(g, u, v);
      ClosureClosed(g, {a});
      assert b in Closure(g, {a});
      ClosureTransitive(g, a, b);
      assert v.key == b;
    }
  }

  /** After a find, exactly the culprit and what cannot run without it is off. */
  lemma RunsWithoutIsGreatest(g: Graph, bad: set<string>, t: set<string>)
    requires Closed(g, t) && t <= KeySet(g) && t !! bad
    ensures t <= RunsWithout(g, bad) && RunsWithout(g, bad) !! bad
  {
    forall k | k in t ensures k in RunsWithout(g, bad) {
      ClosureLeast(g, {k}, t);
      var u :| u in g.units && u.key == k;
    }
    forall k | k in RunsWithout(g, bad) ensures k !in bad {
      assert k in Closure(g, {k});
    }
  }

  lemma AllKeysFacts(g: Graph)
    requires DistinctKeys(g)
    ensures |AllKeys(g)| == |g.units| && Elems(AllKeys(g)) == KeySet(g) && NoDup(AllKeys(g))
  {
    var raw := seq(|g.units|, i requires 0 <= i < |g.units| => g.units[i].key);
    forall k ensures k in raw <==> k in KeySet(g) {
      if k in KeySet(g) {
        var u :| u in g.units && u.key == k;
        var i :| 0 <= i < |g.units| && g.units[i] == u;
        assert raw[i] == k;
      }
    }
    SortFacts(raw);
  }

  lemma NextTestInv(g: Graph, s: State)
    requires MainSearch(g, s) && |s.suspects| >= 2
    ensures Inv(g, NextTest(g, s))
  {
    ByClosureSizeFacts(g, s.suspects);
    var sorted := ByClosureSize(g, s.suspects);
    var seed := Elems(sorted[..Half(|sorted|)]) + Good(s);
    ClosureClosed(g, seed);
    ClosureClosed(g, Good(s));
    ClosureOfClosed(g, Good(s));
    assert Elems(sorted[..Half(|sorted|)]) <= Elems(sorted);
  }

  lemma ConcludeInv(g: Graph, s: State)
    requires |s.suspects| <= 1 && S(s) <= KeySet(g)
    ensures Inv(g, Conclude(g, s))
  {
    RunsWithoutClosed(g, S(s));
    assert S(s) == Holding(FirstOf(s.suspects));
  }

  lemma ConfirmInv(g: Graph, s: State)
    requires MainSearch(g, s) && |s.suspects| == 1
    ensures Inv(g, Confirm(g, s))
  {
    assert S(s) == {s.suspects[0]};
    ClosureClosed(g, S(s));
    ConcludeInv(g, s);
  }

  lemma FrontNotEmpty(list: seq<string>)
    requires list != []
    ensures list[0] in Front(list) && Front(list) <= Elems(list)
  {
    assert list[0] in list[..Half(|list|)];
  }

  /** A test lies between what is cleared and what is cleared or suspected, and splits the suspects. */
  lemma TestSplits(g: Graph, s: State)
    requires Inv(g, s) && s.phase == Testing
    ensures Good(s) <= Elems(s.enabled) <= S(s) + Good(s)
    ensures S(s) * Elems(s.enabled) != {} && S(s) - Elems(s.enabled) != {}
  {
    FrontNotEmpty(s.suspects);
    ClosureLeast(g, Front(s.suspects) + Good(s), S(s) + Good(s));
    assert s.suspects[0] in S(s) * Elems(s.enabled);
  }

  lemma Shrinks(s: seq<string>, r: seq<string>)
    requires NoDup(s) && NoDup(r) && Elems(r) < Elems(s) && Elems(r) != {}
    ensures 1 <= |r| < |s|
  {
    ElemsSize(s);
    ElemsSize(r);
    SubsetSize(Elems(r), Elems(s));
    assert r != [];
  }

  /** The answer to a test leaves at least one suspect and rules at least one out; nothing is pulled in. */
  lemma RecordPresent(g: Graph, s: State)
    requires Inv(g, s) && s.phase == Testing
    ensures var r := Record(s, true);
            && 1 <= |r.suspects| < |s.suspects|
            && MainSearch(g, r)
            && AddMissing(Blamed(s), s.enabled, Good(s)) == Blamed(s)
            && S(r) == S(s) * Elems(s.enabled)
            && S(r) + Good(r) == Elems(s.enabled)
  {
    var r := Record(s, true);
    TestSplits(g, s);
    AddNothing(Blamed(s), s.enabled, Good(s));
    SortFacts(Blamed(s));
    assert S(r) == S(s) * Elems(s.enabled);
    Shrinks(s.suspects, r.suspects);
  }

  lemma RecordAbsent(g: Graph, s: State)
    requires Inv(g, s) && s.phase == Testing
    ensures var r := Record(s, false);
            && 1 <= |r.suspects| < |s.suspects|
            && MainSearch(g, r)
            && S(r) == S(s) - Elems(s.enabled)
            && Good(r) == Elems(s.enabled)
            && S(r) + Good(r) == S(s) + Good(s)
  {
    var r := Record(s, false);
    TestSplits(g, s);
    SortFacts(AddMissing(s.knownGood, s.enabled, {}));
    assert Good(r) == Elems(s.enabled);
    assert S(r) == S(s) - Elems(s.enabled);
    assert S(r) + Good(r) == S(s) + Good(s);
    Shrinks(s.suspects, r.suspects);
  }

  lemma CombinationInv(g: Graph, s: State)
    requires MainSearch(g, s) && |s.suspects| == 1
    ensures Inv(g, Combination(g, s))
    ensures Elems(Combination(g, s).partners) == Good(s) - Closure(g, S(s))
  {
    var c := s.suspects[0];
    assert S(s) == {c} == Holding(FirstOf(s.suspects));
    var present := s.lastPresent.value;
    ClosureOfClosed(g, Good(s));
    var kept := Without(present, Closure(g, {c}));
    SortFacts(kept);
    assert c in Closure(g, {c});
    assert Elems(kept) == Good(s) - Closure(g, {c});
  }

  lemma AfterTestInv(g: Graph, s: State)
    requires MainSearch(g, s) && |s.suspects| >= 1
    ensures Inv(g, AfterTest(g, s))
  {
    if |s.suspects| == 1 {
      ConfirmInv(g, s);
    } else {
      NextTestInv(g, s);
    }
  }

  lemma NeedsMoreThanTwoInv(g: Graph, s: State)
    requires PairSearch(g, s) && Candidates(g, s, s.partnerSuspects)
    ensures Inv(g, NeedsMoreThanTwo(g, s))
  {
    ClosureOfClosed(g, Good(s));
  }

  lemma MarkFoundPairInv(g: Graph, s: State)
    requires PairSearch(g, s) && Candidates(g, s, s.partnerSuspects) && |s.partnerSuspects| == 1
    ensures Inv(g, MarkFoundPair(g, s))
  {
    RunsWithoutClosed(g, Holding(s.involved));
  }

  lemma NextPartnerStepInv(g: Graph, s: State)
    requires PairSearch(g, s) && Candidates(g, s, s.partnerSuspects)
    ensures Inv(g, NextPartnerStep(g, s))
  {
    var list := s.partnerSuspects;
    if |list| == 0 {
      NeedsMoreThanTwoInv(g, s);
    } else if |list| == 1 {
      assert Elems(list) == {list[0]};
      ClosureClosed(g, Elems(list) + Holding(s.involved));
      MarkFoundPairInv(g, s);
    } else {
      ByClosureSizeFacts(g, list);
      var sorted := ByClosureSize(g, list);
      FrontNotEmpty(sorted);
      ClosureClosed(g, Front(sorted) + Holding(s.involved));
      NeedsMoreThanTwoInv(g, s.(partnerSuspects := sorted));
    }
  }

  /** The same for a partner test: it keeps a candidate and rules one out. */
  lemma PartnerSplit(g: Graph, s: State, present: bool)
    requires Inv(g, s) && s.phase == PartnerSearch
    ensures var r := RecordPartner(s, present);
            1 <= |r.partnerSuspects| < |s.partnerSuspects| && PairSearch(g, r) && Candidates(g, r, r.partnerSuspects)
  {
    FrontNotEmpty(s.partnerSuspects);
    var r := RecordPartner(s, present);
    assert s.partnerSuspects[0] in Elems(s.partnerSuspects) * Elems(s.enabled);
    Shrinks(s.partnerSuspects, r.partnerSuspects);
  }

  lemma FirstAnswerInv(g: Graph, s: State, present: bool)
    requires DistinctKeys(g) && s == Counted(Start())
    ensures Inv(g, AnswerAllOff(g, s, present))
  {
    if present {
      assert Elems([]) == {};
    } else {
      AllKeysFacts(g);
      var a := s.(suspects := AllKeys(g), lastPresent := Some(AllKeys(g)));
      if |a.suspects| <= 1 {
        ConcludeInv(g, a);
      } else {
        assert Good(a) == {};
        AllKeysClosed(g);
        assert S(a) + Good(a) == KeySet(g);
        NextTestInv(g, a);
      }
    }
  }

  lemma AllKeysClosed(g: Graph)
    ensures Closed(g, KeySet(g))
  {
    forall x, y | x in KeySet(g) && Dep(g, x, y) ensures y in KeySet(g) {
      var u, v :| u in g.units && v in g.units && u.key == x && v.key == y && Needs(g, u, v);
      assert v.key in KeySet(g);
    }
  }

  lemma TestAnswerInv(g: Graph, s: State, present: bool)
    requires Inv(g, s) && s.phase == Testing
    ensures Inv(g, AfterTest(g, Record(s, present)))
  {
    if present {
      RecordPresent(g, s);
    } else {
      RecordAbsent(g, s);
    }
    AfterTestInv(g, Record(s, present));
  }

  lemma PartnerAnswerInv(g: Graph, s: State, present: bool)
    requires Inv(g, s) && s.phase == PartnerSearch
    ensures Inv(g, NextPartnerStep(g, RecordPartner(s, present)))
  {
    PartnerSplit(g, s, present);
    NextPartnerStepInv(g, RecordPartner(s, present));
  }

  lemma CountedInv(g: Graph, s: State)
    requires Inv(g, s) && s.phase != AllOff
    ensures Inv(g, Counted(s))
  { }

  lemma AnswerInv(g: Graph, s: State, present: bool)
    requires DistinctKeys(g) && Inv(g, s)
    ensures Inv(g, Answer(g, s, present))
  {
    match s.phase
    case Found | Inconclusive | FoundPair =>
    case AllOff => FirstAnswerInv(g, Counted(s), present);
    case PartnerSearch =>
      CountedInv(g, s);
      PartnerAnswerInv(g, Counted(s), present);
    case PartnerConfirm =>
      CountedInv(g, s);
      MarkFoundPairInv(g, Seen(Counted(s)));
      NeedsMoreThanTwoInv(g, Counted(s));
    case Confirming =>
      CountedInv(g, s);
      ConcludeInv(g, Seen(Counted(s)));
      CombinationInv(g, Counted(s));
    case Testing =>
      CountedInv(g, s);
      TestAnswerInv(g, Counted(s), present);
  }

  lemma NarrowInv(g: Graph, s: State)
    requires Inv(g, s)
    ensures Inv(g, Narrow(g, s))
  {
    if CanNarrow(s) {
      NextPartnerStepInv(g, s.(partnerSuspects := s.partners, note := None));
    }
  }

  /** Every history, on every graph, keeps the invariant: in particular the enabled units can always run. */
  lemma {:induction false} RunInv(g: Graph, events: seq<Event>)
    requires DistinctKeys(g)
    ensures Inv(g, Run(g, events))
    decreases |events|
  {
    if events == [] {
      assert Elems(Start().enabled) == {};
    } else {
      var before := events[..|events| - 1];
      RunInv(g, before);
      match events[|events| - 1]
      case Answered(present) => AnswerInv(g, Run(g, before), present);
      case Narrowed => NarrowInv(g, Run(g, before));
    }
  }
}
