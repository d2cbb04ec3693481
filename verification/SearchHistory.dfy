/**
 * What a history of calls has shown, read off the history itself: which units
 * it cleared, which candidates for a partner it left, and why it ended.
 */
module SearchHistory {
  import opened Keys
  import opened Options
  import opened Requirements
  import opened Troubleshoot
  import opened SearchInvariant

  /** Every unit that was on in a main test without the problem. */
  ghost function Cleared(g: Graph, events: seq<Event>): set<string>
    decreases |events|
  {
    if events == [] then {}
    else
      var before, e := events[..|events| - 1], events[|events| - 1];
      var s := Run(g, before);
      Cleared(g, before) + if e == Answered(false) && s.phase == Testing then Elems(s.enabled) else {}
  }

  /**
   * The candidates of the narrowing begun last that were on in each of its
   * tests with the problem and off in each without.
   */
  ghost function Remaining(g: Graph, events: seq<Event>): set<string>
    decreases |events|
  {
    if events == [] then {}
    else
      var before, e := events[..|events| - 1], events[|events| - 1];
      var s := Run(g, before);
      match e
      case Narrowed => if CanNarrow(s) then Elems(s.partners) else Remaining(g, before)
      case Answered(present) =>
        if s.phase != PartnerSearch then Remaining(g, before)
        else if present then Remaining(g, before) * Elems(s.enabled)
        else Remaining(g, before) - Elems(s.enabled)
  }

  // ---- what is cleared ----

  lemma StepsKeepGood(g: Graph, s: State)
    ensures NextTest(g, s).knownGood == Conclude(g, s).knownGood == Combination(g, s).knownGood == s.knownGood
    ensures MarkFoundPair(g, s).knownGood == NeedsMoreThanTwo(g, s).knownGood == s.knownGood
  {
    hide Closure, ByClosureSize, SortedSet, RunsWithout, Sort;
  }

  lemma KeepsGood(g: Graph, s: State)
    ensures NextTest(g, s).knownGood == Conclude(g, s).knownGood == Combination(g, s).knownGood == s.knownGood
    ensures MarkFoundPair(g, s).knownGood == NeedsMoreThanTwo(g, s).knownGood == s.knownGood
    ensures NextPartnerStep(g, s).knownGood == AfterTest(g, s).knownGood == s.knownGood
  {
    hide Closure, SortedSet, NextTest, Conclude, Combination, MarkFoundPair, NeedsMoreThanTwo, ByClosureSize;
    StepsKeepGood(g, s);
    StepsKeepGood(g, s.(partnerSuspects := ByClosureSize(g, s.partnerSuspects)));
  }

  lemma RecordClears(s: State, present: bool)
    ensures Good(Record(s, present)) == Good(s) + if present then {} else Elems(s.enabled)
  {
    SortFacts(AddMissing(s.knownGood, s.enabled, {}));
  }

  lemma AnswerClears(g: Graph, s: State, present: bool)
    ensures Good(Answer(g, s, present)) == Good(s) + if !present && s.phase == Testing then Elems(s.enabled) else {}
  {
    hide NextTest, Conclude, Confirm, Combination, MarkFoundPair, NeedsMoreThanTwo, NextPartnerStep, AfterTest, Record;
    match s.phase
    case Found | Inconclusive | FoundPair =>
    case AllOff =>
      var a := Counted(s).(suspects := AllKeys(g), lastPresent := Some(AllKeys(g)));
      KeepsGood(g, a);
    case Testing =>
      RecordClears(Counted(s), present);
      KeepsGood(g, Record(Counted(s), present));
    case PartnerSearch => KeepsGood(g, RecordPartner(Counted(s), present));
    case _ =>
      KeepsGood(g, Counted(s));
      KeepsGood(g, Seen(Counted(s)));
  }

  /** What a session counts as cleared is what its history has cleared. */
  lemma {:induction false} GoodIsCleared(g: Graph, events: seq<Event>)
    ensures Good(Run(g, events)) == Cleared(g, events)
    decreases |events|
  {
    hide Answer;
    if events != [] {
      var before := events[..|events| - 1];
      GoodIsCleared(g, before);
      match events[|events| - 1]
      case Answered(present) => AnswerClears(g, Run(g, before), present);
      case Narrowed => KeepsGood(g, Run(g, before).(partnerSuspects := Run(g, before).partners, note := None));
    }
  }

  // ---- why a session ended ----

  /** The note fits the end, and there is none before it. */
  ghost predicate NoteFits(s: State) {
    match s.phase
    case Found => s.note == Some(LikelyCause)
    case FoundPair => s.note == Some(LikelyPair)
    case Inconclusive =>
      && s.note.Some? && s.note != Some(LikelyCause) && s.note != Some(LikelyPair)
      && (s.involved.Some? <==> s.note == Some(NeedsTwoOrMore) || s.note == Some(NeedsThreeOrMore))
    case _ => s.note == None
  }

  // ---- the candidates left ----

  predicate SeeksPartner(p: Phase) {
    p == PartnerSearch || p == PartnerConfirm || p == FoundPair
  }

  /** The partners listed, or sought among, are those the history leaves. */
  ghost predicate LeavesCandidates(g: Graph, s: State, left: set<string>) {
    && (SeeksPartner(s.phase) ==> Elems(s.partnerSuspects) == left)
    && (s.phase == Inconclusive && s.note == Some(NeedsThreeOrMore) ==> Elems(s.partners) == left)
    && (s.phase == Inconclusive && s.note == Some(NeedsTwoOrMore) ==>
          s.involved.Some? && Elems(s.partners) == Good(s) - Closure(g, {s.involved.value}))
  }

  lemma PartnerStepLeaves(g: Graph, s: State)
    requires s.note == None && s.involved.Some?
    ensures LeavesCandidates(g, NextPartnerStep(g, s), Elems(s.partnerSuspects)) && NoteFits(NextPartnerStep(g, s))
  {
    hide Closure;
    if |s.partnerSuspects| >= 2 {
      ByClosureSizeFacts(g, s.partnerSuspects);
    }
  }

  lemma RecordPartnerLeaves(s: State, present: bool)
    ensures Elems(RecordPartner(s, present).partnerSuspects) ==
            if present then Elems(s.partnerSuspects) * Elems(s.enabled) else Elems(s.partnerSuspects) - Elems(s.enabled)
  { }

  lemma MainStepNotes(g: Graph, s: State)
    requires s.note == None && s.involved == None && s.suspects != []
    ensures var r := NextTest(g, s); NoteFits(r) && !SeeksPartner(r.phase)
    ensures var r := Conclude(g, s); NoteFits(r) && !SeeksPartner(r.phase)
    ensures s.phase == Testing ==> var r := Confirm(g, s); NoteFits(r) && !SeeksPartner(r.phase)
  { }

  lemma CombinationLeaves(g: Graph, s: State, left: set<string>)
    requires MainSearch(g, s) && |s.suspects| == 1
    ensures NoteFits(Combination(g, s)) && LeavesCandidates(g, Combination(g, s), left)
  {
    CombinationInv(g, s);
    assert S(s) == {s.suspects[0]};
  }

  lemma FirstLeaves(g: Graph, s: State, present: bool, left: set<string>)
    requires s == Counted(Start())
    ensures var r := AnswerAllOff(g, s, present); NoteFits(r) && LeavesCandidates(g, r, left)
  {
    hide ByClosureSize, Closure, SortedSet;
  }

  lemma TestLeaves(g: Graph, s: State, left: set<string>)
    requires MainSearch(g, s) && s.suspects != [] && s.note == None && s.phase == Testing
    ensures var r := AfterTest(g, s); NoteFits(r) && LeavesCandidates(g, r, left)
  {
    hide NextTest, Confirm;
    MainStepNotes(g, s);
    MainStepEnds(g, s);
  }

  lemma MainStepEnds(g: Graph, s: State)
    requires s.phase == Testing
    ensures var r := NextTest(g, s);
            r.phase == Inconclusive ==> r.note != Some(NeedsTwoOrMore) && r.note != Some(NeedsThreeOrMore)
    ensures Confirm(g, s).phase != Inconclusive
  { }

  /** The candidates after one more answer. */
  ghost function AnswerLeaves(s: State, present: bool, left: set<string>): set<string> {
    if s.phase != PartnerSearch then left
    else if present then left * Elems(s.enabled)
    else left - Elems(s.enabled)
  }

  lemma AnswerKeepsLedger(g: Graph, s: State, present: bool, left: set<string>)
    requires DistinctKeys(g) && Inv(g, s) && NoteFits(s) && LeavesCandidates(g, s, left)
    ensures var r := Answer(g, s, present); NoteFits(r) && LeavesCandidates(g, r, AnswerLeaves(s, present, left))
  {
    hide NextPartnerStep, Record, AfterTest, AnswerAllOff, Combination, RecordPartner, Closed, Closure;
    match s.phase
    case Found | Inconclusive | FoundPair =>
    case AllOff => FirstLeaves(g, Counted(s), present, left);
    case Testing =>
      CountedInv(g, s);
      TestRecorded(g, Counted(s), present);
      TestLeaves(g, Record(Counted(s), present), left);
    case Confirming =>
      CountedInv(g, s);
      CombinationLeaves(g, Counted(s), left);
    case PartnerSearch =>
      RecordPartnerLeaves(Counted(s), present);
      RecordPartnerKeepsNote(Counted(s), present);
      PartnerStepLeaves(g, RecordPartner(Counted(s), present));
    case PartnerConfirm =>
  }

  lemma RecordPartnerKeepsNote(s: State, present: bool)
    ensures var r := RecordPartner(s, present); r.note == s.note && r.involved == s.involved
  { }

  lemma TestRecorded(g: Graph, s: State, present: bool)
    requires Inv(g, s) && s.phase == Testing
    ensures var r := Record(s, present);
            MainSearch(g, r) && r.suspects != [] && r.note == s.note && r.phase == Testing
  {
    if present {
      RecordPresent(g, s);
    } else {
      RecordAbsent(g, s);
    }
  }

  lemma NarrowKeepsLedger(g: Graph, s: State, left: set<string>)
    requires NoteFits(s) && LeavesCandidates(g, s, left)
    ensures var r := Narrow(g, s);
            NoteFits(r) && LeavesCandidates(g, r, if CanNarrow(s) then Elems(s.partners) else left)
  {
    hide NextPartnerStep;
    if CanNarrow(s) {
      PartnerStepLeaves(g, s.(partnerSuspects := s.partners, note := None));
    }
  }

  /** In every session the note fits, and the partners are exactly those its history leaves. */
  lemma {:induction false} HistoryLeaves(g: Graph, events: seq<Event>)
    requires DistinctKeys(g)
    ensures var s := Run(g, events); NoteFits(s) && LeavesCandidates(g, s, Remaining(g, events))
    decreases |events|
  {
    hide Answer, Narrow, NoteFits, LeavesCandidates, PhaseInv;
    if events == [] {
      StartLeaves(g);
    } else {
      var before := events[..|events| - 1];
      var s := Run(g, before);
      HistoryLeaves(g, before);
      RunInv(g, before);
      match events[|events| - 1]
      case Answered(present) => AnswerKeepsLedger(g, s, present, Remaining(g, before));
      case Narrowed => NarrowKeepsLedger(g, s, Remaining(g, before));
    }
  }

  lemma StartLeaves(g: Graph)
    ensures NoteFits(Start()) && LeavesCandidates(g, Start(), {})
  { }
}
