/**
 * What a finished search has shown. The problem is a predicate on the set of
 * units that are on; a truthful user answers every test by it.
 */
module SearchVerdict {
  import opened Keys
  import opened Options
  import opened Requirements
  import opened Troubleshoot
  import opened SearchInvariant
  import opened SearchBounds

  type Problem = set<string> -> bool

  /** Turning more units on never makes the problem go away. */
  ghost predicate Monotone(o: Problem) {
    forall a, b :: a <= b && o(a) ==> o(b)
  }

  ghost predicate MainVerdict(o: Problem, s: State) {
    o(S(s) + Good(s)) && !o(Good(s))
  }

  ghost predicate PairVerdict(g: Graph, o: Problem, s: State) {
    && s.lastPresent.Some? && o(Elems(s.lastPresent.value))
    && !o(Closure(g, Holding(s.involved))) && !o(Good(s))
  }

  /** `c` causes the problem with only what it requires, and that does not happen without `c`. */
  ghost predicate Pivotal(g: Graph, o: Problem, c: string) {
    o(Closure(g, {c})) && !o(Closure(g, {c}) - {c})
  }

  ghost predicate Verdict(g: Graph, o: Problem, s: State) {
    match s.phase
    case AllOff => true
    case Testing | Confirming => MainVerdict(o, s)
    case Found => |s.suspects| == 1 && Pivotal(g, o, s.suspects[0])
    case Inconclusive =>
      && (s.note == Some(StillThereWithAllOff) ==> o({}))
      && (s.note != Some(StillThereWithAllOff) ==> !o(Good(s)))
      && (s.involved.Some? ==> PairVerdict(g, o, s))
    case PartnerSearch | PartnerConfirm => PairVerdict(g, o, s)
    case FoundPair =>
      PairVerdict(g, o, s) && o(Closure(g, Elems(s.partnerSuspects) + Holding(s.involved)))
  }

  lemma ConcludeVerdict(g: Graph, o: Problem, s: State)
    requires Monotone(o) && |s.suspects| == 1 && Closed(g, S(s) + Good(s))
    requires !o(Good(s)) && o(Closure(g, S(s)))
    ensures Verdict(g, o, Conclude(g, s))
  {
    var c := s.suspects[0];
    assert S(s) == {c};
    ClosureLeast(g, S(s), S(s) + Good(s));
    assert Closure(g, {c}) - {c} <= Good(s);
  }

  lemma ConfirmVerdict(g: Graph, o: Problem, s: State)
    requires Monotone(o) && MainSearch(g, s) && |s.suspects| == 1 && MainVerdict(o, s)
    ensures Verdict(g, o, Confirm(g, s))
  {
    assert S(s) == {s.suspects[0]};
    if Elems(s.lastPresent.value) <= Closure(g, S(s)) {
      assert o(Elems(s.lastPresent.value));
      assert o(Closure(g, S(s)));
      ConcludeVerdict(g, o, s);
    }
  }

  lemma NextTestVerdict(g: Graph, o: Problem, s: State)
    requires MainSearch(g, s) && MainVerdict(o, s)
    ensures Verdict(g, o, NextTest(g, s))
  {
    ByClosureSizeFacts(g, s.suspects);
  }

  lemma CombinationVerdict(g: Graph, o: Problem, s: State)
    requires MainSearch(g, s) && |s.suspects| == 1 && MainVerdict(o, s)
    requires !o(Closure(g, S(s)))
    ensures Verdict(g, o, Combination(g, s))
  {
    assert S(s) == Holding(FirstOf(s.suspects));
  }

  lemma NextPartnerStepVerdict(g: Graph, o: Problem, s: State)
    requires Monotone(o) && PairVerdict(g, o, s)
    ensures Verdict(g, o, NextPartnerStep(g, s))
  {
    if |s.partnerSuspects| == 1 {
      var pair := Closure(g, {s.partnerSuspects[0]} + Holding(s.involved));
      assert Elems(s.partnerSuspects) == {s.partnerSuspects[0]};
      if Elems(s.lastPresent.value) <= pair {
        assert o(pair);
      }
    }
  }

  lemma TestAnswerVerdict(g: Graph, o: Problem, s: State)
    requires Monotone(o) && Inv(g, s) && s.phase == Testing && MainVerdict(o, s)
    ensures Verdict(g, o, AfterTest(g, Record(s, o(Elems(s.enabled)))))
  {
    var r := Record(s, o(Elems(s.enabled)));
    RecordVerdict(g, o, s);
    if |r.suspects| == 1 {
      ConfirmVerdict(g, o, r);
    } else {
      NextTestVerdict(g, o, r);
    }
  }

  lemma RecordVerdict(g: Graph, o: Problem, s: State)
    requires Inv(g, s) && s.phase == Testing && MainVerdict(o, s)
    ensures var r := Record(s, o(Elems(s.enabled)));
            r.suspects != [] && MainSearch(g, r) && MainVerdict(o, r)
  {
    if o(Elems(s.enabled)) {
      RecordPresent(g, s);
    } else {
      RecordAbsent(g, s);
    }
  }

  lemma FirstAnswerVerdict(g: Graph, o: Problem, s: State)
    requires DistinctKeys(g) && Monotone(o) && o(KeySet(g)) && s == Counted(Start())
    ensures Verdict(g, o, AnswerAllOff(g, s, o({})))
  {
    if !o({}) {
      AllKeysFacts(g);
      AllKeysClosed(g);
      var a := s.(suspects := AllKeys(g), lastPresent := Some(AllKeys(g)));
      assert Good(a) == {};
      assert S(a) + Good(a) == KeySet(g);
      if |a.suspects| <= 1 {
        assert S(a) != {};
        assert S(a) <= Closure(g, S(a));
        ConcludeVerdict(g, o, a);
      } else {
        NextTestVerdict(g, o, a);
      }
    }
  }

  /** A truthful answer keeps the verdict. */
  lemma AnswerVerdict(g: Graph, o: Problem, s: State)
    requires DistinctKeys(g) && Monotone(o) && o(KeySet(g))
    requires Inv(g, s) && Verdict(g, o, s)
    ensures Verdict(g, o, Answer(g, s, o(Elems(s.enabled))))
  {
    match s.phase
    case Found | Inconclusive | FoundPair =>
    case AllOff =>
      assert Elems(s.enabled) == {};
      FirstAnswerVerdict(g, o, Counted(s));
    case Testing =>
      CountedInv(g, s);
      TestAnswerVerdict(g, o, Counted(s));
    case Confirming => ConfirmingVerdict(g, o, s);
    case PartnerSearch =>
      NextPartnerStepVerdict(g, o, RecordPartner(Counted(s), o(Elems(s.enabled))));
    case PartnerConfirm =>
  }

  lemma ConfirmingVerdict(g: Graph, o: Problem, s: State)
    requires Monotone(o) && Inv(g, s) && Verdict(g, o, s) && s.phase == Confirming
    ensures Verdict(g, o, Answer(g, s, o(Elems(s.enabled))))
  {
    if o(Elems(s.enabled)) {
      ConcludeVerdict(g, o, Seen(Counted(s)));
    } else {
      CombinationVerdict(g, o, Counted(s));
    }
  }

  lemma NarrowVerdict(g: Graph, o: Problem, s: State)
    requires Monotone(o) && Verdict(g, o, s)
    ensures Verdict(g, o, Narrow(g, s))
  {
    if CanNarrow(s) {
      NextPartnerStepVerdict(g, o, s.(partnerSuspects := s.partners, note := None));
    }
  }

  /** Every answer that counts says whether the problem happens with the units then on. */
  ghost predicate Truthful(g: Graph, o: Problem, events: seq<Event>)
    decreases |events|
  {
    events != [] ==>
      var s := Run(g, events[..|events| - 1]);
      var e := events[|events| - 1];
      && Truthful(g, o, events[..|events| - 1])
      && (e.Answered? && !Over(s.phase) ==> e.present == o(Elems(s.enabled)))
  }

  lemma {:induction false} RunVerdict(g: Graph, o: Problem, events: seq<Event>)
    requires DistinctKeys(g) && Monotone(o) && o(KeySet(g)) && Truthful(g, o, events)
    ensures Verdict(g, o, Run(g, events))
    decreases |events|
  {
    if events != [] {
      var before := events[..|events| - 1];
      RunVerdict(g, o, before);
      RunInv(g, before);
      match events[|events| - 1]
      case Answered(present) =>
        if !Over(Run(g, before).phase) {
          AnswerVerdict(g, o, Run(g, before));
        }
      case Narrowed => NarrowVerdict(g, o, Run(g, before));
    }
  }

  /** A mod that is named as the cause is one: the problem is there with it and gone without it. */
  lemma NamedCulpritIsPivotal(g: Graph, o: Problem, events: seq<Event>)
    requires DistinctKeys(g) && Monotone(o) && o(KeySet(g)) && Truthful(g, o, events)
    requires Run(g, events).phase == Found
    ensures var s := Run(g, events);
            s.culprit.Some? && s.culprit.value in KeySet(g) && Pivotal(g, o, s.culprit.value)
  {
    RunVerdict(g, o, events);
    RunInv(g, events);
    var s := Run(g, events);
    assert s.suspects[0] in S(s);
  }

  /** After a find, everything is on except the culprit and what cannot run without it. */
  lemma FoundLeavesTheRestOn(g: Graph, events: seq<Event>, t: set<string>)
    requires DistinctKeys(g)
    requires Run(g, events).phase == Found && Run(g, events).culprit.Some?
    requires Closed(g, t) && t <= KeySet(g) && Run(g, events).culprit.value !in t
    ensures var s := Run(g, events);
            t <= Elems(s.enabled) && s.culprit.value !in Elems(s.enabled) && Closed(g, Elems(s.enabled))
  {
    hide Run;
    var s := Run(g, events);
    RunInv(g, events);
    assert S(s) == {s.culprit.value};
    RunsWithoutIsGreatest(g, S(s), t);
  }

  /** A named pair causes the problem together, and neither half does alone. */
  lemma NamedPairIsPivotal(g: Graph, o: Problem, events: seq<Event>)
    requires DistinctKeys(g) && Monotone(o) && o(KeySet(g)) && Truthful(g, o, events)
    requires Run(g, events).phase == FoundPair
    ensures var s := Run(g, events);
            && s.involved.Some? && s.partner.Some? && s.involved.value != s.partner.value
            && o(Closure(g, {s.involved.value, s.partner.value}))
            && !o(Closure(g, {s.involved.value})) && !o(Closure(g, {s.partner.value}))
  {
    hide Run, Truthful, PhaseInv, Verdict;
    RunVerdict(g, o, events);
    RunInv(g, events);
    PairVerdictMeans(g, o, Run(g, events));
  }

  lemma PairVerdictMeans(g: Graph, o: Problem, s: State)
    requires Monotone(o) && Inv(g, s) && Verdict(g, o, s) && s.phase == FoundPair
    ensures s.involved.Some? && s.partner.Some? && s.involved.value != s.partner.value
    ensures o(Closure(g, {s.involved.value, s.partner.value}))
    ensures !o(Closure(g, {s.involved.value})) && !o(Closure(g, {s.partner.value}))
  {
    var c, q := s.involved.value, s.partner.value;
    assert Holding(s.involved) == {c} && Elems(s.partnerSuspects) == {q};
    assert {c, q} == Elems(s.partnerSuspects) + Holding(s.involved);
    assert q in Good(s) && c in Closure(g, {c}) && q !in Closure(g, {c});
    ClosureLeast(g, {q}, Good(s));
  }

  // ---- completeness ----

  /** The session after `n` truthful answers. */
  ghost function Ask(g: Graph, o: Problem, s: State, n: nat): State
    decreases n
  {
    if n == 0 then s else Ask(g, o, Answer(g, s, o(Elems(s.enabled))), n - 1)
  }

  lemma OverStays(g: Graph, s: State, present: bool)
    requires Over(s.phase)
    ensures Answer(g, s, present) == s
  { }

  lemma {:induction false} AskEnds(g: Graph, o: Problem, s: State, n: nat)
    requires DistinctKeys(g) && Acyclic(g) && Inv(g, s)
    decreases n
    ensures n >= LogBudget(g, s) ==> Over(Ask(g, o, s, n).phase)
    ensures Ask(g, o, s, n).steps <= s.steps + LogBudget(g, s)
  {
    hide Answer, PhaseInv;
    if n > 0 {
      var b := o(Elems(s.enabled));
      AnswerInv(g, s, b);
      if Over(s.phase) {
        OverStays(g, s, b);
      } else {
        AnswerSpendsBudget(g, s, b);
        AnswerSpendsLogBudget(g, s, b);
      }
      AskEnds(g, o, Answer(g, s, b), n - 1);
    }
  }

  /** The problem is there exactly when `c` is on. */
  ghost predicate CausedBy(o: Problem, c: string) {
    forall x :: o(x) <==> c in x
  }

  ghost predicate OnTrack(g: Graph, o: Problem, s: State) {
    Inv(g, s) && Verdict(g, o, s) && OnTrackPhase(s.phase)
  }

  ghost predicate OnTrackPhase(p: Phase) {
    p == AllOff || p == Testing || p == Confirming || p == Found
  }

  lemma SinglePhase(g: Graph, o: Problem, c: string, s: State)
    requires DistinctKeys(g) && Acyclic(g) && c in KeySet(g) && CausedBy(o, c)
    requires Inv(g, s) && Verdict(g, o, s) && OnTrackPhase(s.phase)
    ensures OnTrackPhase(Answer(g, s, o(Elems(s.enabled))).phase)
  {
    hide AfterTest, AnswerAllOff, Combination, Closed, Acyclic;
    match s.phase
    case AllOff =>
      assert s == Start();
      SingleStarts(g, o, s);
    case Testing => SingleTests(g, o, s);
    case Confirming => SingleConfirms(g, o, c, s);
    case Found =>
  }

  lemma SingleStarts(g: Graph, o: Problem, s: State)
    requires DistinctKeys(g) && Acyclic(g) && s == Start() && !o({})
    ensures OnTrackPhase(AnswerAllOff(g, Counted(s), o(Elems(s.enabled))).phase)
  {
    hide AnswerAllOff;
    assert Elems(s.enabled) == {};
    FirstSplits(g, Counted(s));
  }

  lemma SingleTests(g: Graph, o: Problem, s: State)
    requires Acyclic(g) && Inv(g, s) && Verdict(g, o, s) && s.phase == Testing
    ensures OnTrackPhase(AfterTest(g, Record(Counted(s), o(Elems(s.enabled)))).phase)
  {
    hide AfterTest;
    CountedInv(g, s);
    RecordVerdict(g, o, Counted(s));
    AfterTestSplits(g, Record(Counted(s), o(Elems(s.enabled))));
  }

  lemma SingleConfirms(g: Graph, o: Problem, c: string, s: State)
    requires CausedBy(o, c) && Inv(g, s) && Verdict(g, o, s) && s.phase == Confirming
    ensures o(Elems(s.enabled))
  {
    assert S(s) == {s.suspects[0]};
    assert s.suspects[0] == c;
    assert c in Elems(s.enabled);
  }

  lemma SingleStaysOnTrack(g: Graph, o: Problem, c: string, s: State)
    requires DistinctKeys(g) && Acyclic(g) && c in KeySet(g) && CausedBy(o, c)
    requires OnTrack(g, o, s)
    ensures OnTrack(g, o, Answer(g, s, o(Elems(s.enabled))))
  {
    hide Answer, PhaseInv, Verdict;
    AnswerInv(g, s, o(Elems(s.enabled)));
    AnswerVerdict(g, o, s);
    SinglePhase(g, o, c, s);
  }

  lemma FirstSplits(g: Graph, s: State)
    requires DistinctKeys(g) && Acyclic(g) && s == Counted(Start())
    ensures var r := AnswerAllOff(g, s, false); r.phase == Testing || r.phase == Found
    ensures |g.units| >= 2 ==> AnswerAllOff(g, s, false).phase == Testing
  {
    AllKeysFacts(g);
    AllKeysClosed(g);
    var a := s.(suspects := AllKeys(g), lastPresent := Some(AllKeys(g)));
    assert Good(a) == {};
    assert S(a) + Good(a) == KeySet(g);
    if |a.suspects| >= 2 {
      NextTestAlwaysSplits(g, a);
    }
  }

  lemma AfterTestSplits(g: Graph, s: State)
    requires MainSearch(g, s) && s.suspects != [] && Acyclic(g)
    ensures var r := AfterTest(g, s); r.phase == Testing || r.phase == Confirming || r.phase == Found
  {
    if |s.suspects| >= 2 {
      NextTestAlwaysSplits(g, s);
    }
  }

  lemma {:induction false} SingleAsk(g: Graph, o: Problem, c: string, s: State, n: nat)
    requires DistinctKeys(g) && Acyclic(g) && c in KeySet(g) && CausedBy(o, c)
    requires OnTrack(g, o, s)
    ensures OnTrack(g, o, Ask(g, o, s, n))
    decreases n
  {
    hide Answer, OnTrack;
    if n > 0 {
      SingleStaysOnTrack(g, o, c, s);
      SingleAsk(g, o, c, Answer(g, s, o(Elems(s.enabled))), n - 1);
    }
  }

  /** Without requirement loops, a problem one mod causes is always traced to that mod. */
  lemma SingleCauseIsFound(g: Graph, o: Problem, c: string, n: nat)
    requires DistinctKeys(g) && Acyclic(g) && c in KeySet(g) && CausedBy(o, c)
    requires n >= 2 + CeilLog2(|g.units|)
    ensures var s := Ask(g, o, Start(), n);
            s.phase == Found && s.culprit == Some(c) && s.steps <= 2 + CeilLog2(|g.units|)
  {
    RunInv(g, []);
    SingleAsk(g, o, c, Start(), n);
    AskEnds(g, o, Start(), n);
    var s := Ask(g, o, Start(), n);
    assert Pivotal(g, o, s.suspects[0]);
    assert c in Closure(g, {s.suspects[0]});
  }

  /** The problem is there exactly when both are on, and neither needs the other. */
  ghost predicate CausedByPair(g: Graph, o: Problem, a: string, b: string) {
    && a in KeySet(g) && b in KeySet(g)
    && a !in Closure(g, {b}) && b !in Closure(g, {a})
    && forall x :: o(x) <==> a in x && b in x
  }

  ghost function Other(a: string, b: string, c: string): string {
    if c == a then b else a
  }

  /** While a pair is sought it is never lost. */
  ghost predicate PairOnTrack(g: Graph, o: Problem, a: string, b: string, s: State) {
    Inv(g, s) && Verdict(g, o, s) && PairPlace(a, b, s)
  }

  ghost predicate PairListed(s: State, q: string) {
    match s.phase
    case Inconclusive => q in s.partners
    case PartnerSearch | PartnerConfirm | FoundPair => q in s.partnerSuspects
    case _ => false
  }

  lemma PairHasNoPivot(g: Graph, o: Problem, a: string, b: string, c: string)
    requires CausedByPair(g, o, a, b)
    ensures !Pivotal(g, o, c)
  {
    if c != a && c != b {
      assert o(Closure(g, {c})) ==> o(Closure(g, {c}) - {c});
    }
  }

  lemma PairIsNoCulprit(g: Graph, o: Problem, a: string, b: string, s: State)
    requires CausedByPair(g, o, a, b) && Verdict(g, o, s)
    ensures s.phase != Found
  {
    forall c ensures !Pivotal(g, o, c) {
      PairHasNoPivot(g, o, a, b, c);
    }
  }

  /** With truthful answers a pair is never blamed on one of its mods, in any run on any graph. */
  lemma PairIsNotBlamedOnOne(g: Graph, o: Problem, a: string, b: string, events: seq<Event>)
    requires DistinctKeys(g) && CausedByPair(g, o, a, b) && Truthful(g, o, events)
    ensures Run(g, events).phase != Found
  {
    hide Run, Truthful, Verdict;
    RunVerdict(g, o, events);
    PairIsNoCulprit(g, o, a, b, Run(g, events));
  }

  lemma CombinationListsPair(g: Graph, o: Problem, a: string, b: string, s: State)
    requires CausedByPair(g, o, a, b) && MainSearch(g, s) && |s.suspects| == 1 && MainVerdict(o, s)
    ensures var r := Combination(g, s);
            r.involved.Some? && r.involved.value in {a, b} && PairListed(r, Other(a, b, r.involved.value))
  {
    var c := s.suspects[0];
    assert S(s) == {c};
    assert c in {a, b} && Other(a, b, c) in Good(s);
    CombinationInv(g, s);
    assert Other(a, b, c) in Elems(Combination(g, s).partners);
  }

  lemma PairTestStaysOnTrack(g: Graph, o: Problem, a: string, b: string, s: State)
    requires DistinctKeys(g) && Acyclic(g) && CausedByPair(g, o, a, b)
    requires PairOnTrack(g, o, a, b, s) && s.phase == Testing
    ensures var r := AfterTest(g, Record(Counted(s), o(Elems(s.enabled))));
            (r.phase == Testing || r.phase == Confirming) && r.culprit == None
  {
    var c := Counted(s);
    CountedInv(g, s);
    RecordVerdict(g, o, c);
    AfterTestSplits(g, Record(c, o(Elems(s.enabled))));
    TestAnswerVerdict(g, o, c);
    PairIsNoCulprit(g, o, a, b, AfterTest(g, Record(c, o(Elems(s.enabled)))));
    hide AfterTest;
    KeepsCulprit(g, Record(c, o(Elems(s.enabled))));
  }

  lemma KeepsCulprit(g: Graph, s: State)
    ensures AfterTest(g, s).phase != Found ==> AfterTest(g, s).culprit == s.culprit
  { }

  lemma PartnerStepKeeps(g: Graph, s: State, q: string)
    requires PairSearch(g, s) && Candidates(g, s, s.partnerSuspects) && q in s.partnerSuspects && Acyclic(g)
    ensures PairListed(NextPartnerStep(g, s), q) && NextPartnerStep(g, s).involved == s.involved
    ensures NextPartnerStep(g, s).phase != Inconclusive && NextPartnerStep(g, s).culprit == s.culprit
  {
    NextPartnerStepAlwaysSplits(g, s);
    if |s.partnerSuspects| >= 2 {
      ByClosureSizeFacts(g, s.partnerSuspects);
      assert q in Elems(ByClosureSize(g, s.partnerSuspects));
    }
  }

  lemma RecordPartnerKeeps(g: Graph, o: Problem, a: string, b: string, s: State)
    requires CausedByPair(g, o, a, b)
    requires Inv(g, s) && PairPlace(a, b, s) && s.phase == PartnerSearch
    ensures Other(a, b, s.involved.value) in RecordPartner(Counted(s), o(Elems(s.enabled))).partnerSuspects
  {
    hide Closed, RecordPartner, SizeSorted, Candidates, PairSearch, Runnable, Closure;
    var c, q := s.involved.value, Other(a, b, s.involved.value);
    InvolvedIsOn(g, s, c);
    assert o(Elems(s.enabled)) <==> q in Elems(s.enabled);
    KeptPartners(Counted(s), o(Elems(s.enabled)), q);
  }

  lemma InvolvedIsOn(g: Graph, s: State, c: string)
    requires Inv(g, s) && s.phase == PartnerSearch && s.involved == Some(c)
    ensures c in Elems(s.enabled)
  {
    hide Closed, SizeSorted, Candidates, PairSearch, Runnable;
    assert c in Holding(s.involved);
  }

  lemma KeptPartners(s: State, present: bool, q: string)
    ensures q in RecordPartner(s, present).partnerSuspects <==>
              q in s.partnerSuspects && (present <==> q in Elems(s.enabled))
  {
    assert q in Elems(s.partnerSuspects) <==> q in s.partnerSuspects;
    assert q in Elems(RecordPartner(s, present).partnerSuspects) <==> q in RecordPartner(s, present).partnerSuspects;
  }

  lemma PartnerAnswerKeeps(g: Graph, o: Problem, a: string, b: string, s: State)
    requires Acyclic(g) && CausedByPair(g, o, a, b)
    requires Inv(g, s) && PairPlace(a, b, s) && s.phase == PartnerSearch
    ensures var r := NextPartnerStep(g, RecordPartner(Counted(s), o(Elems(s.enabled))));
            r.phase != Inconclusive && r.culprit == None && r.involved == s.involved &&
                PairListed(r, Other(a, b, s.involved.value))
  {
    hide NextPartnerStep, PhaseInv, Closed;
    var r := RecordPartner(Counted(s), o(Elems(s.enabled)));
    RecordPartnerKeeps(g, o, a, b, s);
    CountedInv(g, s);
    PartnerSplit(g, Counted(s), o(Elems(s.enabled)));
    PartnerStepKeeps(g, r, Other(a, b, s.involved.value));
  }

  ghost predicate InPairSearch(p: Phase) {
    p == PartnerSearch || p == PartnerConfirm || p == FoundPair
  }

  /** Where a session seeking a pair can be. */
  ghost predicate PairPlace(a: string, b: string, s: State) {
    && s.culprit == None
    && (s.phase == AllOff || s.phase == Testing || s.phase == Confirming
        || (s.involved.Some? && s.involved.value in {a, b} && PairListed(s, Other(a, b, s.involved.value))))
  }

  lemma PairFirstStep(g: Graph, o: Problem, a: string, b: string, s: State)
    requires DistinctKeys(g) && Acyclic(g) && CausedByPair(g, o, a, b)
    requires s == Counted(Start()) && Verdict(g, o, AnswerAllOff(g, s, false))
    ensures var r := AnswerAllOff(g, s, false); r.phase == Testing && r.culprit == None
  {
    hide Verdict;
    PairIsNoCulprit(g, o, a, b, AnswerAllOff(g, s, false));
    FirstSplits(g, s);
  }

  lemma PairConfirmStep(g: Graph, o: Problem, a: string, b: string, s: State)
    requires CausedByPair(g, o, a, b)
    requires Inv(g, s) && Verdict(g, o, s) && s.phase == Confirming && s.culprit == None
    requires Verdict(g, o, Answer(g, s, o(Elems(s.enabled))))
    ensures var r := Answer(g, s, o(Elems(s.enabled))); PairPlace(a, b, r) && r.phase == Inconclusive
  {
    var present := o(Elems(s.enabled));
    if present {
      PairIsNoCulprit(g, o, a, b, Answer(g, s, true));
    }
    CombinationListsPair(g, o, a, b, Counted(s));
  }

  lemma PairMainStep(g: Graph, o: Problem, a: string, b: string, s: State)
    requires DistinctKeys(g) && Acyclic(g) && CausedByPair(g, o, a, b)
    requires PairOnTrack(g, o, a, b, s) && (s.phase == AllOff || s.phase == Testing || s.phase == Confirming)
    requires Verdict(g, o, Answer(g, s, o(Elems(s.enabled))))
    ensures var r := Answer(g, s, o(Elems(s.enabled))); PairPlace(a, b, r) && !InPairSearch(r.phase)
  {
    hide Answer, AfterTest, Record, AnswerAllOff, Verdict, CausedByPair, Closed, Acyclic, Runnable;
    AnswerByPhase(g, s, o(Elems(s.enabled)));
    match s.phase
    case AllOff =>
      assert Elems(s.enabled) == {};
      NoneIsNotBoth(g, o, a, b);
      PairFirstStep(g, o, a, b, Counted(s));
    case Testing => PairTestStaysOnTrack(g, o, a, b, s);
    case Confirming => PairConfirmStep(g, o, a, b, s);
  }

  lemma NoneIsNotBoth(g: Graph, o: Problem, a: string, b: string)
    requires CausedByPair(g, o, a, b)
    ensures !o({})
  { }

  lemma PairPartnerConfirmStep(g: Graph, o: Problem, a: string, b: string, s: State)
    requires CausedByPair(g, o, a, b)
    requires Inv(g, s) && PairPlace(a, b, s) && s.phase == PartnerConfirm
    ensures o(Elems(s.enabled)) && PairPlace(a, b, MarkFoundPair(g, Seen(Counted(s))))
  {
    hide Closed, Closure;
    var q := Other(a, b, s.involved.value);
    assert q in Elems(s.partnerSuspects);
    assert s.involved.value in Elems(s.enabled) && q in Elems(s.enabled);
  }

  lemma PairPartnerStep(g: Graph, o: Problem, a: string, b: string, s: State)
    requires DistinctKeys(g) && Acyclic(g) && CausedByPair(g, o, a, b)
    requires PairOnTrack(g, o, a, b, s) && (s.phase == PartnerSearch || s.phase == PartnerConfirm)
    ensures var r := Answer(g, s, o(Elems(s.enabled)));
            PairPlace(a, b, r) && InPairSearch(r.phase) && r.involved == s.involved
  {
    if s.phase == PartnerSearch {
      hide NextPartnerStep, PhaseInv, Verdict;
      PartnerAnswerKeeps(g, o, a, b, s);
    } else {
      hide PhaseInv, Verdict;
      PairPartnerConfirmStep(g, o, a, b, s);
    }
  }

  lemma PairStaysOnTrack(g: Graph, o: Problem, a: string, b: string, s: State)
    requires DistinctKeys(g) && Acyclic(g) && CausedByPair(g, o, a, b)
    requires PairOnTrack(g, o, a, b, s)
    ensures var r := Answer(g, s, o(Elems(s.enabled)));
            && PairOnTrack(g, o, a, b, r)
            && (InPairSearch(s.phase) <==> InPairSearch(r.phase))
            && (InPairSearch(s.phase) ==> r.involved == s.involved)
  {
    hide Answer, PhaseInv, Verdict;
    AnswerInv(g, s, o(Elems(s.enabled)));
    AnswerVerdict(g, o, s);
    if Over(s.phase) {
      OverStays(g, s, o(Elems(s.enabled)));
    } else if s.phase == PartnerSearch || s.phase == PartnerConfirm {
      PairPartnerStep(g, o, a, b, s);
    } else {
      PairMainStep(g, o, a, b, s);
    }
  }

  lemma {:induction false} PairAsk(g: Graph, o: Problem, a: string, b: string, s: State, n: nat)
    requires DistinctKeys(g) && Acyclic(g) && CausedByPair(g, o, a, b)
    requires PairOnTrack(g, o, a, b, s)
    ensures PairOnTrack(g, o, a, b, Ask(g, o, s, n))
    ensures InPairSearch(s.phase) <==> InPairSearch(Ask(g, o, s, n).phase)
    ensures InPairSearch(s.phase) ==> Ask(g, o, s, n).involved == s.involved
    decreases n
  {
    hide Answer, PairOnTrack;
    if n > 0 {
      PairStaysOnTrack(g, o, a, b, s);
      PairAsk(g, o, a, b, Answer(g, s, o(Elems(s.enabled))), n - 1);
    }
  }

  /** A problem two mods cause together ends the main search with one of them named and the other a candidate. */
  lemma PairIsReportedAsPair(g: Graph, o: Problem, a: string, b: string, n: nat)
    requires DistinctKeys(g) && Acyclic(g) && CausedByPair(g, o, a, b)
    requires n >= 2 + CeilLog2(|g.units|)
    ensures var s := Ask(g, o, Start(), n);
            && CanNarrow(s) && s.culprit == None
            && s.involved.value in {a, b} && Other(a, b, s.involved.value) in s.partners
  {
    hide Answer;
    StartOnTrack(g, o, a, b);
    PairAsk(g, o, a, b, Start(), n);
    AskEnds(g, o, Start(), n);
  }

  lemma StartOnTrack(g: Graph, o: Problem, a: string, b: string)
    ensures PairOnTrack(g, o, a, b, Start())
  {
    assert Elems([]) == {};
  }

  lemma NarrowStaysOnTrack(g: Graph, o: Problem, a: string, b: string, s: State)
    requires Acyclic(g) && CausedByPair(g, o, a, b) && PairOnTrack(g, o, a, b, s) && CanNarrow(s)
    ensures var r := Narrow(g, s);
            && PairOnTrack(g, o, a, b, r) && InPairSearch(r.phase)
            && r.involved == s.involved && r.steps == s.steps && LogBudget(g, r) <= NarrowTests(s)
  {
    hide NextPartnerStep;
    var p := s.(partnerSuspects := s.partners, note := None);
    NarrowInv(g, s);
    NarrowVerdict(g, o, s);
    PartnerStepKeeps(g, p, Other(a, b, s.involved.value));
    PartnerStepLeads(g, p);
  }

  lemma FoundPairNames(g: Graph, o: Problem, a: string, b: string, s: State)
    requires PairOnTrack(g, o, a, b, s) && InPairSearch(s.phase) && Over(s.phase)
    ensures s.phase == FoundPair && s.partner.Some? && {s.involved.value, s.partner.value} == {a, b}
  { }

  /** The search ended in `r`, having begun narrowing in `s`, with the two named as a pair. */
  ghost predicate NamesPair(a: string, b: string, s: State, r: State)
  {
    && r.phase == FoundPair && r.culprit == None
    && r.involved.Some? && r.partner.Some? && {r.involved.value, r.partner.value} == {a, b}
    && r.steps <= s.steps + NarrowTests(s)
  }

  lemma PairNarrowFinds(g: Graph, o: Problem, a: string, b: string, s: State, m: nat)
    requires DistinctKeys(g) && Acyclic(g) && CausedByPair(g, o, a, b)
    requires PairOnTrack(g, o, a, b, s) && CanNarrow(s)
    requires m >= NarrowTests(s)
    ensures NamesPair(a, b, s, Ask(g, o, Narrow(g, s), m))
  {
    hide Ask, Narrow, NarrowTests, PhaseInv, Verdict;
    NarrowStaysOnTrack(g, o, a, b, s);
    PairAsk(g, o, a, b, Narrow(g, s), m);
    AskEnds(g, o, Narrow(g, s), m);
    FoundPairNames(g, o, a, b, Ask(g, o, Narrow(g, s), m));
  }

  /** And looking for the other mod then names exactly the two, within as many tests. */
  lemma PairIsFound(g: Graph, o: Problem, a: string, b: string, n: nat, m: nat)
    requires DistinctKeys(g) && Acyclic(g) && CausedByPair(g, o, a, b)
    requires n >= 2 + CeilLog2(|g.units|)
    requires m >= NarrowTests(Ask(g, o, Start(), n))
    ensures var s := Ask(g, o, Start(), n); NamesPair(a, b, s, Ask(g, o, Narrow(g, s), m))
  {
    hide Ask, Narrow, NarrowTests, PairOnTrack;
    PairIsReportedAsPair(g, o, a, b, n);
    StartOnTrack(g, o, a, b);
    PairAsk(g, o, a, b, Start(), n);
    PairNarrowFinds(g, o, a, b, Ask(g, o, Start(), n), m);
  }
}
