/**
 * The session as the program keeps it: one object, overwritten by each call,
 * and what a caller can rely on after any calls in any order.
 */
module TroubleshootSession {
  import opened Keys
  import opened Options
  import opened Requirements
  import opened SearchInvariant
  import opened SearchBounds
  import opened SearchHistory
  import opened SearchVerdict
  import T = Troubleshoot

  ghost predicate OnlyAnswers(events: seq<T.Event>) {
    forall e :: e in events ==> e.Answered?
  }

  /** The units on can run, and nothing is listed twice. */
  ghost predicate CanRun(g: Graph, on: seq<string>) {
    Closed(g, Elems(on)) && Elems(on) <= KeySet(g) && NoDup(on)
  }

  /** A find leaves off the culprit, and only what cannot run without it. */
  ghost predicate RestIsOn(g: Graph, culprit: string, on: seq<string>) {
    && culprit !in on
    && forall t :: Closed(g, t) && t <= KeySet(g) && culprit !in t ==> t <= Elems(on)
  }

  /** The units a finished session names. */
  ghost function Named(s: T.State): set<string> {
    match s.phase
    case Found => T.Holding(s.culprit)
    case FoundPair => T.Holding(s.involved) + T.Holding(s.partner)
    case _ => {}
  }

  lemma NamedAreUnits(g: Graph, s: T.State)
    requires Inv(g, s)
    ensures Named(s) <= KeySet(g)
  {
    hide Closed;
    match s.phase
    case Found =>
      if s.culprit.Some? {
        assert s.suspects[0] in S(s);
      }
    case FoundPair => assert s.partnerSuspects[0] in Elems(s.partnerSuspects);
    case _ =>
  }

  /** What is named causes the problem, and nothing less of it does. */
  ghost predicate NamesTheCause(g: Graph, o: Problem, s: T.State) {
    && (s.phase == T.Found ==> s.culprit.Some? && s.culprit.value in KeySet(g) && Pivotal(g, o, s.culprit.value))
    && (s.phase == T.FoundPair ==>
          && s.involved.Some? && s.partner.Some? && s.involved.value != s.partner.value
          && o(Closure(g, {s.involved.value, s.partner.value}))
          && !o(Closure(g, {s.involved.value})) && !o(Closure(g, {s.partner.value})))
  }

  /**
   * A search without a name to give leaves the problem absent, or, if it was
   * there with everything off, says so.
   */
  ghost predicate EndsWithoutProblem(o: Problem, s: T.State) {
    s.phase == T.Inconclusive ==>
      && (s.note == Some(T.StillThereWithAllOff) <==> o({}))
      && (!o({}) ==> !o(Elems(s.enabled)))
  }

  ghost predicate Truth(g: Graph, o: Problem, events: seq<T.Event>) {
    Monotone(o) && o(KeySet(g)) && Truthful(g, o, events)
  }

  /** What is on at an end that names nothing, and what is listed to go on with: what the history cleared and left. */
  ghost predicate KeepsToHistory(g: Graph, events: seq<T.Event>, s: T.State) {
    && NoteFits(s)
    && Elems(s.knownGood) == Cleared(g, events)
    && (s.phase == T.Inconclusive ==> Elems(s.enabled) == Cleared(g, events))
    && (s.phase == T.Inconclusive && s.note == Some(T.StillThereWithAllOff) ==> s.enabled == [])
    && (s.phase == T.Inconclusive && s.note == Some(T.NeedsTwoOrMore) ==>
          s.involved.Some? && Elems(s.partners) == Cleared(g, events) - Closure(g, {s.involved.value}))
    && (s.phase == T.Inconclusive && s.note == Some(T.NeedsThreeOrMore) ==>
          Elems(s.partners) == Remaining(g, events))
  }

  /** What a session that stands in `s` after `events` promises its caller. */
  ghost predicate Sound(g: Graph, events: seq<T.Event>, s: T.State) {
    && CanRun(g, s.enabled) && Named(s) <= KeySet(g)
    && (s.phase == T.Found && s.culprit.Some? ==> RestIsOn(g, s.culprit.value, s.enabled))
    && (s.phase == T.FoundPair ==> s.involved.Some? && RestIsOn(g, s.involved.value, s.enabled))
    && KeepsToHistory(g, events, s)
    && (forall o: Problem :: Truth(g, o, events) ==> NamesTheCause(g, o, s) && EndsWithoutProblem(o, s))
    && (OnlyAnswers(events) ==>
          && s.steps <= |g.units| + 1
          && (Acyclic(g) ==> s.steps <= 2 + CeilLog2(|g.units|)))
  }

  /** Answers alone never take more than they may. */
  lemma {:induction false} AnswersKeepWithin(g: Graph, events: seq<T.Event>)
    requires DistinctKeys(g) && OnlyAnswers(events)
    ensures var s := T.Run(g, events);
            && s.steps + Budget(g, s) <= |g.units| + 1
            && (Acyclic(g) ==> s.steps + LogBudget(g, s) <= 2 + CeilLog2(|g.units|))
    decreases |events|
  {
    if events != [] {
      hide T.Answer, Inv, Budget, LogBudget, Acyclic;
      var before := events[..|events| - 1];
      var s, present := T.Run(g, before), events[|events| - 1].present;
      AnswersKeepWithin(g, before);
      RunInv(g, before);
      if T.Over(s.phase) {
        OverStays(g, s, present);
      } else {
        AnswerSpendsBudget(g, s, present);
        if Acyclic(g) {
          AnswerSpendsLogBudget(g, s, present);
        }
      }
    }
  }

  lemma TruthNames(g: Graph, o: Problem, events: seq<T.Event>)
    requires DistinctKeys(g) && Truth(g, o, events)
    ensures NamesTheCause(g, o, T.Run(g, events))
  {
    hide T.Run, Pivotal, Closure, Monotone, Truthful;
    var s := T.Run(g, events);
    if s.phase == T.Found {
      NamedCulpritIsPivotal(g, o, events);
    } else if s.phase == T.FoundPair {
      NamedPairIsPivotal(g, o, events);
    }
  }

  lemma TruthEnds(g: Graph, o: Problem, events: seq<T.Event>)
    requires DistinctKeys(g) && Truth(g, o, events)
    ensures EndsWithoutProblem(o, T.Run(g, events))
  {
    hide T.Run, Truthful;
    RunVerdict(g, o, events);
    RunInv(g, events);
    hide PhaseInv, Runnable;
    InconclusiveOn(g, T.Run(g, events));
  }

  lemma InconclusiveOn(g: Graph, s: T.State)
    requires Inv(g, s)
    ensures s.phase == T.Inconclusive ==> Elems(s.enabled) == Good(s)
    ensures s.phase == T.Inconclusive && s.note == Some(T.StillThereWithAllOff) ==> s.enabled == []
  { }

  lemma KeepsHistory(g: Graph, events: seq<T.Event>)
    requires DistinctKeys(g)
    ensures KeepsToHistory(g, events, T.Run(g, events))
  {
    hide T.Run, Inv, NoteFits, Closure;
    RunInv(g, events);
    InconclusiveOn(g, T.Run(g, events));
    GoodIsCleared(g, events);
    HistoryLeaves(g, events);
  }

  lemma PairRestIsOn(g: Graph, events: seq<T.Event>)
    requires DistinctKeys(g)
    ensures var s := T.Run(g, events);
            s.phase == T.FoundPair ==> s.involved.Some? && RestIsOn(g, s.involved.value, s.enabled)
  {
    hide T.Run, Closed;
    var s := T.Run(g, events);
    if s.phase == T.FoundPair {
      RunInv(g, events);
      var c := s.involved.value;
      assert T.Holding(s.involved) == {c};
      NothingClosed(g);
      RunsWithoutIsGreatest(g, {c}, {});
      forall t | Closed(g, t) && t <= KeySet(g) && c !in t ensures t <= Elems(s.enabled) {
        RunsWithoutIsGreatest(g, {c}, t);
      }
    }
  }

  lemma FoundRestIsOn(g: Graph, events: seq<T.Event>)
    requires DistinctKeys(g)
    ensures var s := T.Run(g, events);
            s.phase == T.Found && s.culprit.Some? ==> RestIsOn(g, s.culprit.value, s.enabled)
  {
    hide T.Run, Closed;
    var s := T.Run(g, events);
    if s.phase == T.Found && s.culprit.Some? {
      NothingClosed(g);
      FoundLeavesTheRestOn(g, events, {});
      forall t | Closed(g, t) && t <= KeySet(g) && s.culprit.value !in t ensures t <= Elems(s.enabled) {
        FoundLeavesTheRestOn(g, events, t);
      }
    }
  }

  lemma NothingClosed(g: Graph)
    ensures Closed(g, {})
  { }

  /** Every history, on every graph, leaves a session that keeps its promises. */
  lemma HistoryIsSound(g: Graph, events: seq<T.Event>)
    requires DistinctKeys(g)
    ensures Sound(g, events, T.Run(g, events))
  {
    hide T.Run, RestIsOn, Truth, NamesTheCause, EndsWithoutProblem, KeepsToHistory, Named, PhaseInv, Closed, Acyclic;
    RunInv(g, events);
    NamedAreUnits(g, T.Run(g, events));
    FoundRestIsOn(g, events);
    PairRestIsOn(g, events);
    KeepsHistory(g, events);
    forall o: Problem | Truth(g, o, events)
      ensures NamesTheCause(g, o, T.Run(g, events)) && EndsWithoutProblem(o, T.Run(g, events))
    {
      TruthNames(g, o, events);
      TruthEnds(g, o, events);
    }
    if OnlyAnswers(events) {
      AnswersKeepWithin(g, events);
    }
  }

  lemma {:induction false} AskMore(g: Graph, o: Problem, s: T.State, n: nat)
    ensures var r := Ask(g, o, s, n); Ask(g, o, s, n + 1) == T.Answer(g, r, o(Elems(r.enabled)))
    decreases n
  {
    hide T.Answer;
    if n > 0 {
      AskMore(g, o, T.Answer(g, s, o(Elems(s.enabled))), n - 1);
    }
  }

  lemma {:induction false} AskStays(g: Graph, o: Problem, s: T.State, n: nat, m: nat)
    requires n <= m && T.Over(Ask(g, o, s, n).phase)
    ensures Ask(g, o, s, m) == Ask(g, o, s, n)
    decreases m
  {
    hide T.Answer, Ask;
    if n < m {
      AskStays(g, o, s, n, m - 1);
      AskMore(g, o, s, m - 1);
      OverStays(g, Ask(g, o, s, n), o(Elems(Ask(g, o, s, n).enabled)));
    }
  }

  lemma NoHistory(g: Graph, o: Problem)
    ensures Truthful(g, o, []) && T.Run(g, []) == T.Start()
  { }

  lemma TruthfulMore(g: Graph, o: Problem, events: seq<T.Event>, present: bool)
    requires present == o(Elems(T.Run(g, events).enabled)) && Truthful(g, o, events)
    ensures Truthful(g, o, events + [T.Answered(present)])
  {
    hide T.Run;
    assert (events + [T.Answered(present)])[..|events|] == events;
  }

  lemma TruthfulNarrowed(g: Graph, o: Problem, events: seq<T.Event>)
    requires Truthful(g, o, events)
    ensures Truthful(g, o, events + [T.Narrowed])
  {
    hide T.Run;
    assert (events + [T.Narrowed])[..|events|] == events;
  }

  lemma FinishedNames(g: Graph, o: Problem, events: seq<T.Event>)
    requires DistinctKeys(g) && Truthful(g, o, events)
    ensures Monotone(o) && o(KeySet(g)) ==> NamesTheCause(g, o, T.Run(g, events))
  {
    hide T.Run, NamesTheCause, Monotone, Truthful;
    if Monotone(o) && o(KeySet(g)) {
      TruthNames(g, o, events);
    }
  }

  /** A search over after `n` answers ends as one asked for longer would. */
  lemma OneIsFound(g: Graph, o: Problem, c: string, n: nat, m: nat)
    requires DistinctKeys(g) && Acyclic(g) && c in KeySet(g) && CausedBy(o, c)
    requires var found := Ask(g, o, T.Start(), n);
             T.Over(found.phase) && T.Over(Ask(g, o, T.Narrow(g, found), m).phase)
    ensures var found := Ask(g, o, T.Start(), n);
            && found.phase == T.Found && found.culprit == Some(c) && found.steps <= 2 + CeilLog2(|g.units|)
            && Ask(g, o, T.Narrow(g, found), m) == found
  {
    hide T.Answer, Ask, CeilLog2, CausedBy, Acyclic;
    var k := n + 2 + CeilLog2(|g.units|);
    var found := Ask(g, o, T.Start(), n);
    SingleCauseIsFound(g, o, c, k);
    AskStays(g, o, T.Start(), n, k);
    AskNone(g, o, found);
    AskStays(g, o, found, 0, m);
  }

  lemma PairOfThemIsFound(g: Graph, o: Problem, a: string, b: string, n: nat, m: nat)
    requires DistinctKeys(g) && Acyclic(g) && CausedByPair(g, o, a, b)
    requires var found := Ask(g, o, T.Start(), n);
             T.Over(found.phase) && T.Over(Ask(g, o, T.Narrow(g, found), m).phase)
    ensures var found := Ask(g, o, T.Start(), n);
            found.culprit == None && NamesPair(a, b, found, Ask(g, o, T.Narrow(g, found), m))
  {
    hide T.Answer, Ask, T.Narrow, T.CanNarrow, CeilLog2, CausedByPair, NamesPair, Acyclic;
    var k := n + 2 + CeilLog2(|g.units|);
    var found := Ask(g, o, T.Start(), n);
    AskStays(g, o, T.Start(), n, k);
    PairIsReportedAsPair(g, o, a, b, k);
    var l := m + NarrowTests(found);
    PairIsFound(g, o, a, b, k, l);
    AskStays(g, o, T.Narrow(g, found), m, l);
  }

  lemma AskNone(g: Graph, o: Problem, s: T.State)
    ensures Ask(g, o, s, 0) == s
  { }

  lemma FindsThem(g: Graph, o: Problem, found: T.State, n: nat, m: nat)
    requires DistinctKeys(g) && found == Ask(g, o, T.Start(), n) && T.Over(found.phase)
    requires T.Over(Ask(g, o, T.Narrow(g, found), m).phase)
    ensures Acyclic(g) ==> forall c :: c in KeySet(g) && CausedBy(o, c) ==>
              && found.phase == T.Found && found.culprit == Some(c) && found.steps <= 2 + CeilLog2(|g.units|)
              && Ask(g, o, T.Narrow(g, found), m) == found
    ensures Acyclic(g) ==> forall a, b :: CausedByPair(g, o, a, b) ==>
              found.culprit == None && NamesPair(a, b, found, Ask(g, o, T.Narrow(g, found), m))
  {
    hide Ask, T.Narrow, CeilLog2, CausedBy, CausedByPair, NamesPair, Acyclic;
    if Acyclic(g) {
      forall c | c in KeySet(g) && CausedBy(o, c)
        ensures found.phase == T.Found && found.culprit == Some(c) && found.steps <= 2 + CeilLog2(|g.units|)
        ensures Ask(g, o, T.Narrow(g, found), m) == found
      {
        OneIsFound(g, o, c, n, m);
      }
      forall a, b | CausedByPair(g, o, a, b)
        ensures found.culprit == None && NamesPair(a, b, found, Ask(g, o, T.Narrow(g, found), m))
      {
        PairOfThemIsFound(g, o, a, b, n, m);
      }
    }
  }

  class Session {
    var phase: T.Phase
    var suspects: seq<string>
    var knownGood: seq<string>
    var enabled: seq<string>
    var steps: nat
    var culprit: Option<string>
    var note: Option<T.Note>
    var lastPresent: Option<seq<string>>
    var involved: Option<string>
    var partners: seq<string>
    var partnerSuspects: seq<string>
    var partner: Option<string>

    /** The session's value. */
    function View(): T.State
      reads this
    {
      T.State(phase, suspects, knownGood, enabled, steps, culprit, note, lastPresent,
              involved, partners, partnerSuspects, partner)
    }

    /** The units the session is about, and the calls made so far. */
    ghost const graph: Graph
    ghost var events: seq<T.Event>

    ghost predicate Valid()
      reads this
    {
      View() == T.Run(graph, events)
    }

    /** What the caller of a session can rely on. */
    ghost predicate Promises()
      reads this
    {
      Sound(graph, events, View())
    }

    constructor Start(ghost g: Graph)
      ensures Valid() && graph == g && events == []
    {
      graph, events := g, [];
      phase := T.AllOff;
      suspects, knownGood, enabled, partners, partnerSuspects := [], [], [], [], [];
      steps := 0;
      culprit, involved, partner := None, None, None;
      note, lastPresent := None, None;
    }

    predicate CanNarrow()
      reads this
    {
      phase == T.Inconclusive && involved.Some? && partners != []
    }

    /** Begins looking for the other mod of a pair; does nothing unless it can. */
    method Narrow(g: Graph) returns (on: seq<string>)
      requires Valid() && g == graph
      modifies this
      ensures Valid() && events == old(events) + [T.Narrowed] && on == enabled
      ensures DistinctKeys(g) ==> Promises()
      ensures steps == old(steps)
      ensures !old(CanNarrow()) ==> View() == old(View())
      ensures View() == T.Narrow(g, old(View()))
      ensures old(CanNarrow()) ==> Budget(g, View()) <= |old(partners)|
      ensures old(CanNarrow()) ==> LogBudget(g, View()) <= NarrowTests(old(View()))
    {
      hide T.NextPartnerStep, Sound;
      ghost var was := View();
      if CanNarrow() {
        partnerSuspects := partners;
        note := None;
        on := NextPartnerStep(g);
        PartnerStepLeads(g, was.(partnerSuspects := was.partners, note := None));
      } else {
        on := enabled;
      }
      T.NextEvent(g, events, T.Narrowed);
      events := events + [T.Narrowed];
      if DistinctKeys(g) {
        HistoryIsSound(g, events);
      }
    }

    method InvolvedClosure(g: Graph) returns (r: set<string>)
      ensures r == Closure(g, T.Holding(involved))
    {
      match involved
      case Some(key) => r := ComputeClosure(g, {key});
      case None =>
        assert Step(g, {}) == {};
        r := {};
    }

    method NextPartnerStep(g: Graph) returns (on: seq<string>)
      modifies this
      ensures events == old(events)
      ensures View() == T.NextPartnerStep(g, old(View())) && on == enabled
    {
      hide Closure, ByClosureSize, SortedSet;
      if |partnerSuspects| == 0 {
        on := NeedsMoreThanTwo(g);
        return;
      }
      if |partnerSuspects| == 1 {
        var pair := ComputeClosure(g, {partnerSuspects[0]} + T.Holding(involved));
        if lastPresent.Some? && Elems(lastPresent.value) <= pair {
          on := MarkFoundPair(g);
          return;
        }
        enabled := SortedSet(pair);
        phase := T.PartnerConfirm;
        return enabled;
      }
      partnerSuspects := ByClosureSize(g, partnerSuspects);
      var half := T.Half(|partnerSuspects|);
      var seed := Elems(partnerSuspects[..half]) + T.Holding(involved);
      var test := ComputeClosure(g, seed);
      if Elems(partnerSuspects) <= test {
        on := NeedsMoreThanTwo(g);
        return;
      }
      enabled := SortedSet(test);
      phase := T.PartnerSearch;
      on := enabled;
    }

    method MarkFoundPair(g: Graph) returns (on: seq<string>)
      modifies this
      ensures events == old(events)
      ensures View() == T.MarkFoundPair(g, old(View())) && on == enabled
    {
      phase := T.FoundPair;
      partner := T.FirstOf(partnerSuspects);
      var without := Without(g, T.Holding(involved));
      enabled := SortedSet(without);
      note := Some(T.LikelyPair);
      on := enabled;
    }

    method NeedsMoreThanTwo(g: Graph) returns (on: seq<string>)
      modifies this
      ensures events == old(events)
      ensures View() == T.NeedsMoreThanTwo(g, old(View())) && on == enabled
    {
      hide Closure, SortedSet;
      phase := T.Inconclusive;
      partners := partnerSuspects;
      partnerSuspects := [];
      note := Some(T.NeedsThreeOrMore);
      var good := ComputeClosure(g, Elems(knownGood));
      enabled := SortedSet(good);
      on := enabled;
    }

    /** The keys whose closure avoids `bad`. */
    method Without(g: Graph, bad: set<string>) returns (r: set<string>)
      ensures r == T.RunsWithout(g, bad)
    {
      r := {};
      for i := 0 to |g.units|
        invariant r == set u | u in g.units[..i] && Closure(g, {u.key}) !! bad :: u.key
      {
        var u := g.units[i];
        assert g.units[..i + 1] == g.units[..i] + [u];
        var needed := ComputeClosure(g, {u.key});
        if needed !! bad {
          r := r + {u.key};
        }
      }
      assert g.units[..|g.units|] == g.units;
    }

    method NextTest(g: Graph)
      modifies this
      ensures events == old(events)
      ensures View() == T.NextTest(g, old(View()))
    {
      hide Closure, ByClosureSize, SortedSet;
      suspects := ByClosureSize(g, suspects);
      var half := T.Half(|suspects|);
      var seed := Elems(suspects[..half]) + Elems(knownGood);
      var test := ComputeClosure(g, seed);
      if Elems(suspects) <= test {
        phase := T.Inconclusive;
        note := Some(T.NeedEachOther);
        var good := ComputeClosure(g, Elems(knownGood));
        enabled := SortedSet(good);
        return;
      }
      enabled := SortedSet(test);
      phase := T.Testing;
    }

    method Confirm(g: Graph) returns (on: seq<string>)
      modifies this
      ensures events == old(events)
      ensures View() == T.Confirm(g, old(View())) && on == enabled
    {
      if suspects == [] {
        return enabled;
      }
      var alone := ComputeClosure(g, {suspects[0]});
      if lastPresent.Some? && Elems(lastPresent.value) <= alone {
        on := Conclude(g);
        return;
      }
      enabled := SortedSet(alone);
      phase := T.Confirming;
      on := enabled;
    }

    method Conclude(g: Graph) returns (on: seq<string>)
      modifies this
      ensures events == old(events)
      ensures View() == T.Conclude(g, old(View())) && on == enabled
    {
      phase := T.Found;
      culprit := T.FirstOf(suspects);
      var without := Without(g, T.Holding(culprit));
      enabled := SortedSet(without);
      note := Some(T.LikelyCause);
      on := enabled;
    }

    method Combination(g: Graph) returns (on: seq<string>)
      modifies this
      ensures events == old(events)
      ensures View() == T.Combination(g, old(View())) && on == enabled
    {
      hide Closure, ByClosureSize, SortedSet, Sort, T.Holding, T.FirstOf, Keys.Without;
      phase := T.Inconclusive;
      involved := T.FirstOf(suspects);
      var alone := InvolvedClosure(g);
      var present := if lastPresent.Some? then lastPresent.value else [];
      partners := Sort(Keys.Without(present, alone));
      note := Some(T.NeedsTwoOrMore);
      var good := ComputeClosure(g, Elems(knownGood));
      enabled := SortedSet(good);
      on := enabled;
    }

    /** Pushes each of `keys` that is neither skipped nor there already. */
    method PushMissing(start: seq<string>, keys: seq<string>, skip: set<string>) returns (r: seq<string>)
      ensures r == AddMissing(start, keys, skip)
    {
      r := start;
      for i := 0 to |keys|
        invariant AddMissing(r, keys[i..], skip) == AddMissing(start, keys, skip)
      {
        assert keys[i..][1..] == keys[i + 1..];
        if keys[i] !in skip && keys[i] !in r {
          r := r + [keys[i]];
        }
      }
    }

    /** What a test's answer does to the suspects and the cleared units. */
    method RecordAnswer(present: bool)
      modifies this
      ensures events == old(events)
      ensures View() == T.Record(old(View()), present)
    {
      var tested := Elems(enabled);
      var good := Elems(knownGood);
      if present {
        lastPresent := Some(enabled);
        suspects := Keys.Without(Within(suspects, tested), good);
        suspects := PushMissing(suspects, enabled, good);
        suspects := Sort(suspects);
      } else {
        knownGood := PushMissing(knownGood, enabled, {});
        knownGood := Sort(knownGood);
        suspects := Keys.Without(suspects, tested);
      }
    }

    /** Records whether the problem is there with the units now on, and moves on. */
    method Answer(g: Graph, present: bool) returns (on: seq<string>)
      requires Valid() && g == graph
      modifies this
      ensures Valid() && events == old(events) + [T.Answered(present)] && on == enabled
      ensures DistinctKeys(g) ==> Promises()
      ensures T.Over(old(phase)) ==> View() == old(View())
      ensures !T.Over(old(phase)) && DistinctKeys(g) ==>
                && steps == old(steps) + 1 && Budget(g, View()) < old(Budget(g, View()))
                && (Acyclic(g) ==> LogBudget(g, View()) < old(LogBudget(g, View())))
      ensures View() == T.Answer(g, old(View()), present)
    {
      hide T.Answer, Sound, Inv, Budget, LogBudget, Acyclic;
      ghost var was := View();
      on := Decide(g, present);
      T.NextEvent(g, events, T.Answered(present));
      if DistinctKeys(g) {
        RunInv(g, events);
        HistoryIsSound(g, events + [T.Answered(present)]);
      }
      events := events + [T.Answered(present)];
      if T.Over(was.phase) {
        OverStays(g, was, present);
      } else if DistinctKeys(g) {
        AnswerSpendsBudget(g, was, present);
        if Acyclic(g) {
          AnswerSpendsLogBudget(g, was, present);
        }
      }
    }

    method Decide(g: Graph, present: bool) returns (on: seq<string>)
      modifies this
      ensures events == old(events)
      ensures View() == T.Answer(g, old(View()), present) && on == enabled
    {
      hide T.NextPartnerStep, T.AfterTest, T.Record, T.AnswerAllOff, T.Conclude, T.Combination, T.MarkFoundPair,
           T.NeedsMoreThanTwo;
      match phase {
        case Found | Inconclusive | FoundPair =>
          return enabled;
        case PartnerSearch =>
          steps := steps + 1;
          var tested := Elems(enabled);
          if present {
            lastPresent := Some(enabled);
            partnerSuspects := Within(partnerSuspects, tested);
          } else {
            partnerSuspects := Keys.Without(partnerSuspects, tested);
          }
          on := NextPartnerStep(g);
        case PartnerConfirm =>
          steps := steps + 1;
          if present {
            lastPresent := Some(enabled);
            on := MarkFoundPair(g);
          } else {
            on := NeedsMoreThanTwo(g);
          }
        case Confirming =>
          steps := steps + 1;
          if present {
            lastPresent := Some(enabled);
            on := Conclude(g);
          } else {
            on := Combination(g);
          }
        case AllOff =>
          on := AnswerAllOff(g, present);
        case Testing =>
          on := AnswerTest(g, present);
      }
    }

    method AnswerAllOff(g: Graph, present: bool) returns (on: seq<string>)
      modifies this
      ensures events == old(events)
      ensures View() == T.AnswerAllOff(g, T.Counted(old(View())), present) && on == enabled
    {
      hide T.NextTest, T.Conclude, T.AllKeys;
      steps := steps + 1;
      if present {
        phase := T.Inconclusive;
        note := Some(T.StillThereWithAllOff);
        enabled := [];
        return [];
      }
      suspects := T.AllKeys(g);
      lastPresent := Some(suspects);
      if |suspects| <= 1 {
        on := Conclude(g);
        return;
      }
      NextTest(g);
      on := enabled;
    }

    method AnswerTest(g: Graph, present: bool) returns (on: seq<string>)
      modifies this
      ensures events == old(events)
      ensures View() == T.AfterTest(g, T.Record(T.Counted(old(View())), present)) && on == enabled
    {
      hide T.NextTest, T.Confirm, T.Record, Closure, SortedSet;
      steps := steps + 1;
      RecordAnswer(present);
      if |suspects| == 0 {
        phase := T.Inconclusive;
        note := Some(T.NoSingleMod);
        var good := ComputeClosure(g, Elems(knownGood));
        enabled := SortedSet(good);
      } else if |suspects| == 1 {
        on := Confirm(g);
        return;
      } else {
        NextTest(g);
      }
      on := enabled;
    }

    /** Answers truthfully until the search is over. */
    method AskUntilOver(g: Graph, o: Problem) returns (ghost n: nat)
      requires Valid() && g == graph && DistinctKeys(g)
      modifies this
      ensures Valid() && T.Over(phase) && View() == Ask(g, o, old(View()), n)
      ensures old(Truthful(g, o, events)) ==> Truthful(g, o, events)
    {
      hide T.Answer, Sound, Inv, Budget, LogBudget, Ask, T.Run, Truthful, Acyclic;
      n := 0;
      ghost var start := View();
      AskNone(g, o, start);
      while !T.Over(phase)
        invariant Valid() && View() == Ask(g, o, start, n)
        invariant old(Truthful(g, o, events)) ==> Truthful(g, o, events)
        decreases Budget(g, View())
      {
        var present := o(Elems(enabled));
        AskMore(g, o, start, n);
        if Truthful(g, o, events) {
          TruthfulMore(g, o, events, present);
        }
        var on := Answer(g, present);
        n := n + 1;
      }
    }

    /**
     * A whole search by a truthful user. A single cause is named, whichever
     * it is; and after a pair the narrowing that follows names the two.
     */
    method Find(g: Graph, o: Problem) returns (ghost found: T.State)
      requires Valid() && g == graph && DistinctKeys(g) && events == []
      modifies this
      ensures Valid() && T.Over(phase) && T.Over(found.phase)
      ensures Monotone(o) && o(KeySet(g)) ==> NamesTheCause(g, o, found) && NamesTheCause(g, o, View())
      ensures Acyclic(g) ==> forall c :: c in KeySet(g) && CausedBy(o, c) ==>
                && found.phase == T.Found && found.culprit == Some(c) && found.steps <= 2 + CeilLog2(|g.units|)
                && View() == found
      ensures Acyclic(g) ==> forall a, b :: CausedByPair(g, o, a, b) ==>
                found.culprit == None && NamesPair(a, b, found, View())
    {
      hide T.Answer, T.Narrow, T.Run, Ask, Truthful, NamesTheCause, Monotone, CausedBy, CausedByPair, NamesPair,
           CeilLog2, Budget, LogBudget, NarrowTests, Sound, Acyclic, DistinctKeys;
      NoHistory(g, o);
      ghost var n := AskUntilOver(g, o);
      found := View();
      FinishedNames(g, o, events);
      TruthfulNarrowed(g, o, events);
      var on := Narrow(g);
      ghost var m := AskUntilOver(g, o);
      FinishedNames(g, o, events);
      FindsThem(g, o, found, n, m);
    }
  }
}
