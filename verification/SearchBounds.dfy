/** How many answers a search takes. */
module SearchBounds {
  import opened Keys
  import opened Options
  import opened Requirements
  import opened Troubleshoot
  import opened SearchInvariant

  // ---- logarithms ----

  function Pow2(n: nat): (r: nat)
    ensures r >= 1
  {
    if n == 0 then 1 else 2 * Pow2(n - 1)
  }

  function CeilLog2(n: nat): nat {
    if n <= 1 then 0 else 1 + CeilLog2(Half(n))
  }

  /** `CeilLog2(n)` is the least exponent whose power of two reaches `n`. */
  lemma {:induction false} CeilLog2Least(n: nat)
    requires n >= 1
    ensures n <= Pow2(CeilLog2(n))
    ensures CeilLog2(n) > 0 ==> Pow2(CeilLog2(n) - 1) < n
  {
    if n > 1 {
      CeilLog2Least(Half(n));
    }
  }

  lemma {:induction false} CeilLog2Monotone(a: nat, b: nat)
    requires a <= b
    ensures CeilLog2(a) <= CeilLog2(b)
  {
    if a > 1 {
      CeilLog2Monotone(Half(a), Half(b));
    }
  }

  /** `u32::leading_zeros` of a number below two to the `bits`. */
  function LeadingZeros(x: nat, bits: nat): (r: nat)
    ensures r <= bits
  {
    if bits == 0 || x >= Pow2(bits - 1) then 0 else 1 + LeadingZeros(x, bits - 1)
  }

  const U32 := 0x1_0000_0000

  /** What a partner search takes at most: halving the candidates, then one test of the pair. */
  function NarrowTests(s: State): nat {
    CeilLog2(|s.partners|) + 1
  }

  /** What the window tells the user it will take, in 32-bit arithmetic that wraps around. */
  function NarrowEstimate(s: State): nat {
    var candidates := (if |s.partners| == 0 then 1 else |s.partners|) % U32;
    32 - LeadingZeros((candidates - 1) % U32, 32) + 1
  }

  lemma {:induction false} BitsAreLog(n: nat, bits: nat)
    requires 1 <= n <= Pow2(bits)
    ensures bits - LeadingZeros(n - 1, bits) == CeilLog2(n)
  {
    if bits > 0 {
      if n - 1 >= Pow2(bits - 1) {
        CeilLog2Least(n);
        LogUnique(n, bits);
      } else {
        BitsAreLog(n, bits - 1);
      }
    }
  }

  lemma {:induction false} LogUnique(n: nat, k: nat)
    requires k >= 1 && Pow2(k - 1) < n <= Pow2(k)
    ensures CeilLog2(n) == k
  {
    if k > 1 {
      LogUnique(Half(n), k - 1);
    }
  }

  lemma Pow2_32()
    ensures Pow2(32) == U32
  {
    assert Pow2(8) == 256;
    assert Pow2(16) == 65536;
    assert Pow2(24) == 0x100_0000;
  }

  /**
   * The estimate's bit trick is the least sufficient number of halvings and
   * one test of the pair exactly up to two to the thirty-second candidates,
   * where the cast of their number begins to lose some.
   */
  lemma NarrowEstimateIsLog(s: State)
    requires s.partners != []
    ensures NarrowEstimate(s) == NarrowTests(s) <==> |s.partners| <= U32
  {
    Pow2_32();
    var n := |s.partners|;
    if n <= U32 {
      BitsAreLog(n, 32);
      assert n < U32 ==> n % U32 == n;
      assert (n % U32 - 1) % U32 == n - 1;
    } else {
      CeilLog2Least(n);
      if CeilLog2(n) <= 32 {
        Pow2Monotone(CeilLog2(n), 32);
      }
    }
  }

  lemma {:induction false} Pow2Monotone(a: nat, b: nat)
    requires a <= b
    ensures Pow2(a) <= Pow2(b)
  {
    if a < b {
      Pow2Monotone(a, b - 1);
    }
  }

  // ---- any graph: each answer shrinks what is left ----

  /** The session after a list of answers. */
  function Answers(g: Graph, s: State, bs: seq<bool>): State
    decreases |bs|
  {
    if bs == [] then s else Answers(g, Answer(g, s, bs[0]), bs[1..])
  }

  ghost function Budget(g: Graph, s: State): nat {
    match s.phase
    case AllOff => |g.units| + 1
    case Testing => |s.suspects|
    case PartnerSearch => |s.partnerSuspects|
    case Confirming | PartnerConfirm => 1
    case Found | Inconclusive | FoundPair => 0
  }

  /** Where a partner step can lead. */
  lemma PartnerStepLeads(g: Graph, s: State)
    ensures var r := NextPartnerStep(g, s);
            && r.steps == s.steps
            && (r.phase == Inconclusive || r.phase == FoundPair
                || (r.phase == PartnerConfirm && |s.partnerSuspects| == 1)
                || (r.phase == PartnerSearch && |r.partnerSuspects| == |s.partnerSuspects| >= 2))
  {
    if |s.partnerSuspects| >= 2 {
      ByClosureSizeFacts(g, s.partnerSuspects);
    } else if |s.partnerSuspects| == 1 {
    } else {
    }
  }

  /** Where a test's answer can lead. */
  lemma TestLeads(g: Graph, s: State)
    requires s.suspects != []
    ensures var r := AfterTest(g, s);
            && r.steps == s.steps
            && (r.phase == Inconclusive || r.phase == Found
                || (r.phase == Confirming && |s.suspects| == 1)
                || (r.phase == Testing && |r.suspects| == |s.suspects| >= 2))
  {
    if |s.suspects| >= 2 {
      ByClosureSizeFacts(g, s.suspects);
    }
  }

  lemma FirstLeads(g: Graph, s: State, present: bool)
    requires DistinctKeys(g)
    ensures var r := AnswerAllOff(g, s, present);
            && r.steps == s.steps
            && (r.phase == Inconclusive || r.phase == Found
                || (r.phase == Testing && |r.suspects| == |g.units| >= 2))
  {
    AllKeysFacts(g);
    ByClosureSizeFacts(g, AllKeys(g));
  }

  lemma RecordCounts(g: Graph, s: State, present: bool)
    requires Inv(g, s) && s.phase == Testing
    ensures var r := Record(Counted(s), present);
            1 <= |r.suspects| < |s.suspects| && r.steps == s.steps + 1
  {
    CountedInv(g, s);
    RecordPresent(g, Counted(s));
    RecordAbsent(g, Counted(s));
  }

  lemma RecordPartnerCounts(g: Graph, s: State, present: bool)
    requires Inv(g, s) && s.phase == PartnerSearch
    ensures var r := RecordPartner(Counted(s), present);
            1 <= |r.partnerSuspects| < |s.partnerSuspects| && r.steps == s.steps + 1
  {
    CountedInv(g, s);
    PartnerSplit(g, Counted(s), present);
  }

  lemma TestAnswerSpends(g: Graph, s: State, present: bool)
    requires Inv(g, s) && s.phase == Testing
    ensures var r := AfterTest(g, Record(Counted(s), present));
            Budget(g, r) < Budget(g, s) && r.steps == s.steps + 1
  {
    hide AfterTest, Record, PhaseInv;
    RecordCounts(g, s, present);
    TestLeads(g, Record(Counted(s), present));
  }

  lemma PartnerAnswerSpends(g: Graph, s: State, present: bool)
    requires Inv(g, s) && s.phase == PartnerSearch
    ensures var r := NextPartnerStep(g, RecordPartner(Counted(s), present));
            Budget(g, r) < Budget(g, s) && r.steps == s.steps + 1
  {
    hide NextPartnerStep, RecordPartner, PhaseInv;
    RecordPartnerCounts(g, s, present);
    PartnerStepLeads(g, RecordPartner(Counted(s), present));
  }

  lemma FirstAnswerSpends(g: Graph, s: State, present: bool)
    requires DistinctKeys(g)
    ensures var r := AnswerAllOff(g, s, present);
            Budget(g, r) <= |g.units| && LogBudget(g, r) <= 1 + CeilLog2(|g.units|) && r.steps == s.steps
  {
    hide AnswerAllOff;
    FirstLeads(g, s, present);
  }

  lemma ConfirmAnswerSpends(g: Graph, s: State)
    ensures var r := Conclude(g, s); Over(r.phase) && r.steps == s.steps
    ensures var r := Combination(g, s); Over(r.phase) && r.steps == s.steps
    ensures var r := MarkFoundPair(g, s); Over(r.phase) && r.steps == s.steps
    ensures var r := NeedsMoreThanTwo(g, s); Over(r.phase) && r.steps == s.steps
  { }

  lemma AnswerSpendsBudget(g: Graph, s: State, present: bool)
    requires DistinctKeys(g) && Inv(g, s) && !Over(s.phase)
    ensures Budget(g, Answer(g, s, present)) < Budget(g, s)
    ensures Answer(g, s, present).steps == s.steps + 1
  {
    hide AnswerAllOff, AfterTest, Record, NextPartnerStep, RecordPartner, Conclude, Combination, MarkFoundPair,
         NeedsMoreThanTwo;
    match s.phase
    case AllOff => FirstAnswerSpends(g, Counted(s), present);
    case Confirming | PartnerConfirm =>
      ConfirmAnswerSpends(g, Counted(s));
      ConfirmAnswerSpends(g, Seen(Counted(s)));
    case PartnerSearch => PartnerAnswerSpends(g, s, present);
    case Testing => TestAnswerSpends(g, s, present);
  }

  lemma {:induction false} AnswersEnd(g: Graph, s: State, bs: seq<bool>)
    requires DistinctKeys(g) && Inv(g, s)
    ensures |bs| >= Budget(g, s) ==> Over(Answers(g, s, bs).phase)
    ensures Answers(g, s, bs).steps <= s.steps + Budget(g, s)
    decreases |bs|
  {
    if bs != [] {
      AnswerInv(g, s, bs[0]);
      if !Over(s.phase) {
        AnswerSpendsBudget(g, s, bs[0]);
      }
      AnswersEnd(g, Answer(g, s, bs[0]), bs[1..]);
    }
  }

  /** The main search ends on every graph, requirement loops included, whatever the answers. */
  lemma MainSearchEnds(g: Graph, bs: seq<bool>)
    requires DistinctKeys(g)
    ensures |bs| > |g.units| ==> Over(Answers(g, Start(), bs).phase)
    ensures Answers(g, Start(), bs).steps <= |g.units| + 1
  {
    RunInv(g, []);
    AnswersEnd(g, Start(), bs);
  }

  /** So does every search for a partner, at any point of any history. */
  lemma NarrowEnds(g: Graph, events: seq<Event>, bs: seq<bool>)
    requires DistinctKeys(g) && CanNarrow(Run(g, events))
    ensures var s := Run(g, events);
            var end := Answers(g, Narrow(g, s), bs);
            (|bs| >= |s.partners| ==> Over(end.phase)) && end.steps <= s.steps + |s.partners|
  {
    var s := Run(g, events);
    RunInv(g, events);
    NarrowInv(g, s);
    PartnerStepLeads(g, s.(partnerSuspects := s.partners, note := None));
    AnswersEnd(g, Narrow(g, s), bs);
  }

  // ---- graphs without loops: each answer halves what is left ----

  lemma FrontSize(list: seq<string>, kept: seq<string>, rest: seq<string>, test: set<string>)
    requires NoDup(list) && Elems(list) * test == Front(list)
    requires NoDup(kept) && Elems(kept) == Elems(list) * test
    requires NoDup(rest) && Elems(rest) == Elems(list) - test
    ensures |kept| == Half(|list|) && |rest| == |list| - Half(|list|)
  {
    ElemsSize(list);
    ElemsSize(kept);
    ElemsSize(rest);
    ElemsSize(list[..Half(|list|)]);
    assert Elems(list) == Elems(kept) + Elems(rest);
    assert Elems(kept) !! Elems(rest);
  }

  lemma FrontRuns(g: Graph, s: State)
    requires MainSearch(g, s) && SizeSorted(g, s.suspects) && Acyclic(g)
    ensures Closure(g, Front(s.suspects) + Good(s)) <= Front(s.suspects) + Good(s)
  {
    var front := Front(s.suspects);
    ClosureUnion(g, front, Good(s));
    ClosureOfClosed(g, Good(s));
    assert front <= S(s);
    ClosureLeast(g, front, S(s) + Good(s));
    forall x | x in Closure(g, front) && x !in Good(s) ensures x in front {
      FrontNeedsNothingBehind(g, s.suspects, Half(|s.suspects|), x);
    }
  }

  /** A test is exactly the front half of the suspects and what is already cleared. */
  lemma TestIsFrontHalf(g: Graph, s: State)
    requires Inv(g, s) && s.phase == Testing && Acyclic(g)
    ensures Elems(s.enabled) == Front(s.suspects) + Good(s)
    ensures S(s) * Elems(s.enabled) == Front(s.suspects)
  {
    var front := Front(s.suspects);
    TestSplits(g, s);
    FrontNotEmpty(s.suspects);
    FrontRuns(g, s);
    assert front <= Closure(g, front + Good(s));
  }

  lemma RecordHalves(g: Graph, s: State, present: bool)
    requires Inv(g, s) && s.phase == Testing && Acyclic(g)
    ensures |Record(s, present).suspects| == (if present then Half(|s.suspects|) else |s.suspects| - Half(|s.suspects|))
  {
    hide *;
    TestIsFrontHalf(g, s);
    RecordParts(g, s);
    FrontSize(s.suspects, Record(s, true).suspects, Record(s, false).suspects, Elems(s.enabled));
  }

  lemma RecordParts(g: Graph, s: State)
    requires Inv(g, s) && s.phase == Testing
    ensures var kept, rest := Record(s, true).suspects, Record(s, false).suspects;
            && NoDup(s.suspects) && NoDup(kept) && NoDup(rest) && Elems(s.suspects) == S(s)
            && Elems(kept) == S(s) * Elems(s.enabled) && Elems(rest) == S(s) - Elems(s.enabled)
  {
    hide Record, Closed;
    RecordPresent(g, s);
    RecordAbsent(g, s);
  }

  /** Of a partner's candidates, a test holds exactly the front half. */
  lemma PartnerTestIsFrontHalf(g: Graph, s: State, list: seq<string>)
    requires PairSearch(g, s) && Candidates(g, s, list) && SizeSorted(g, list) && Acyclic(g)
    ensures Elems(list) * Closure(g, Front(list) + Holding(s.involved)) == Front(list)
  {
    var front := Front(list);
    ClosureUnion(g, front, Holding(s.involved));
    assert front <= Closure(g, front);
    forall x | x in Elems(list) && x in Closure(g, front) ensures x in front {
      FrontNeedsNothingBehind(g, list, Half(|list|), x);
    }
    assert front <= Elems(list);
  }

  lemma RecordPartnerHalves(g: Graph, s: State, present: bool)
    requires Inv(g, s) && s.phase == PartnerSearch && Acyclic(g)
    ensures |RecordPartner(s, present).partnerSuspects| ==
            (if present then Half(|s.partnerSuspects|) else |s.partnerSuspects| - Half(|s.partnerSuspects|))
  {
    PartnerTestIsFrontHalf(g, s, s.partnerSuspects);
    FrontSize(s.partnerSuspects, RecordPartner(s, true).partnerSuspects, RecordPartner(s, false).partnerSuspects,
              Elems(s.enabled));
  }

  ghost function LogBudget(g: Graph, s: State): nat {
    match s.phase
    case AllOff => 2 + CeilLog2(|g.units|)
    case Testing => 1 + CeilLog2(|s.suspects|)
    case PartnerSearch => 1 + CeilLog2(|s.partnerSuspects|)
    case Confirming | PartnerConfirm => 1
    case Found | Inconclusive | FoundPair => 0
  }

  lemma HalfLog(n: nat, m: nat)
    requires n >= 2 && (m == Half(n) || m == n - Half(n))
    ensures CeilLog2(m) + 1 <= CeilLog2(n)
  {
    CeilLog2Monotone(m, Half(n));
  }

  lemma RecordHalvesLog(g: Graph, s: State, present: bool)
    requires Inv(g, s) && s.phase == Testing && Acyclic(g)
    ensures Record(s, present).suspects != []
    ensures CeilLog2(|Record(s, present).suspects|) + 1 <= CeilLog2(|s.suspects|)
  {
    RecordHalves(g, s, present);
    HalfLog(|s.suspects|, |Record(s, present).suspects|);
  }

  lemma RecordPartnerHalvesLog(g: Graph, s: State, present: bool)
    requires Inv(g, s) && s.phase == PartnerSearch && Acyclic(g)
    ensures CeilLog2(|RecordPartner(s, present).partnerSuspects|) + 1 <= CeilLog2(|s.partnerSuspects|)
  {
    RecordPartnerHalves(g, s, present);
    HalfLog(|s.partnerSuspects|, |RecordPartner(s, present).partnerSuspects|);
  }

  lemma TestAnswerHalves(g: Graph, s: State, present: bool)
    requires Inv(g, s) && s.phase == Testing && Acyclic(g)
    ensures LogBudget(g, AfterTest(g, Record(Counted(s), present))) < LogBudget(g, s)
  {
    hide AfterTest, Record, PhaseInv;
    CountedInv(g, s);
    RecordHalvesLog(g, Counted(s), present);
    TestLeads(g, Record(Counted(s), present));
  }

  lemma PartnerAnswerHalves(g: Graph, s: State, present: bool)
    requires Inv(g, s) && s.phase == PartnerSearch && Acyclic(g)
    ensures LogBudget(g, NextPartnerStep(g, RecordPartner(Counted(s), present))) < LogBudget(g, s)
  {
    hide NextPartnerStep, RecordPartner, PhaseInv;
    CountedInv(g, s);
    RecordPartnerHalvesLog(g, Counted(s), present);
    PartnerStepLeads(g, RecordPartner(Counted(s), present));
  }

  lemma AnswerSpendsLogBudget(g: Graph, s: State, present: bool)
    requires DistinctKeys(g) && Inv(g, s) && !Over(s.phase) && Acyclic(g)
    ensures LogBudget(g, Answer(g, s, present)) < LogBudget(g, s)
  {
    hide AnswerAllOff, AfterTest, Record, NextPartnerStep, RecordPartner, Conclude, Combination, MarkFoundPair,
         NeedsMoreThanTwo;
    match s.phase
    case AllOff => FirstAnswerSpends(g, Counted(s), present);
    case Confirming | PartnerConfirm =>
      ConfirmAnswerSpends(g, Counted(s));
      ConfirmAnswerSpends(g, Seen(Counted(s)));
    case PartnerSearch => PartnerAnswerHalves(g, s, present);
    case Testing => TestAnswerHalves(g, s, present);
  }

  lemma {:induction false} AnswersEndInLog(g: Graph, s: State, bs: seq<bool>)
    requires DistinctKeys(g) && Inv(g, s) && Acyclic(g)
    ensures |bs| >= LogBudget(g, s) ==> Over(Answers(g, s, bs).phase)
    ensures Answers(g, s, bs).steps <= s.steps + LogBudget(g, s)
    decreases |bs|
  {
    if bs != [] {
      AnswerInv(g, s, bs[0]);
      if !Over(s.phase) {
        AnswerSpendsBudget(g, s, bs[0]);
        AnswerSpendsLogBudget(g, s, bs[0]);
      }
      AnswersEndInLog(g, Answer(g, s, bs[0]), bs[1..]);
    }
  }

  /** Without requirement loops the main search takes at most two answers more than the halvings. */
  lemma MainSearchIsLogarithmic(g: Graph, bs: seq<bool>)
    requires DistinctKeys(g) && Acyclic(g)
    ensures |bs| >= 2 + CeilLog2(|g.units|) ==> Over(Answers(g, Start(), bs).phase)
    ensures Answers(g, Start(), bs).steps <= 2 + CeilLog2(|g.units|)
  {
    RunInv(g, []);
    AnswersEndInLog(g, Start(), bs);
  }

  /** And every partner search keeps to the estimate the user is shown. */
  lemma NarrowKeepsToEstimate(g: Graph, events: seq<Event>, bs: seq<bool>)
    requires DistinctKeys(g) && Acyclic(g) && CanNarrow(Run(g, events))
    ensures var s := Run(g, events);
            var end := Answers(g, Narrow(g, s), bs);
            && (|bs| >= NarrowTests(s) ==> Over(end.phase))
            && end.steps <= s.steps + NarrowTests(s)
  {
    var s := Run(g, events);
    RunInv(g, events);
    NarrowInv(g, s);
    var p := s.(partnerSuspects := s.partners, note := None);
    PartnerStepLeads(g, p);
    AnswersEndInLog(g, Narrow(g, s), bs);
  }

  // ---- the branches that cannot be taken ----

  lemma NextTestAlwaysSplits(g: Graph, s: State)
    requires MainSearch(g, s) && |s.suspects| >= 2 && Acyclic(g)
    ensures NextTest(g, s).phase == Testing
  {
    var sorted := ByClosureSize(g, s.suspects);
    ByClosureSizeFacts(g, s.suspects);
    var last := sorted[|sorted| - 1];
    assert last in Elems(sorted);
    if last in Closure(g, Front(sorted) + Good(s)) {
      ClosureUnion(g, Front(sorted), Good(s));
      ClosureOfClosed(g, Good(s));
      FrontNeedsNothingBehind(g, sorted, Half(|sorted|), last);
      assert false;
    }
  }

  lemma FrontIsNotAll(list: seq<string>)
    requires NoDup(list) && |list| >= 2
    ensures !(Elems(list) <= Front(list))
  {
    var last := list[|list| - 1];
    assert last in Elems(list);
    assert last !in list[..Half(|list|)];
  }

  lemma NextPartnerStepAlwaysSplits(g: Graph, s: State)
    requires PairSearch(g, s) && Candidates(g, s, s.partnerSuspects) && |s.partnerSuspects| >= 1 && Acyclic(g)
    ensures NextPartnerStep(g, s).phase != Inconclusive
  {
    if |s.partnerSuspects| >= 2 {
      var sorted := ByClosureSize(g, s.partnerSuspects);
      ByClosureSizeFacts(g, s.partnerSuspects);
      PartnerTestIsFrontHalf(g, s, sorted);
      hide ByClosureSize, Closed, Acyclic;
      FrontIsNotAll(sorted);
    }
  }

  ghost predicate NoDeadEnd(g: Graph, s: State) {
    s.note != Some(NoSingleMod) && (Acyclic(g) ==> s.note != Some(NeedEachOther))
  }

  lemma AfterTestNote(g: Graph, s: State)
    requires MainSearch(g, s) && |s.suspects| >= 1
    requires NoDeadEnd(g, s)
    ensures NoDeadEnd(g, AfterTest(g, s))
  {
    if |s.suspects| >= 2 && Acyclic(g) {
      NextTestAlwaysSplits(g, s);
    }
  }

  lemma FirstNote(g: Graph, s: State)
    requires DistinctKeys(g) && s == Counted(Start())
    ensures NoDeadEnd(g, AnswerAllOff(g, s, false))
  {
    AllKeysFacts(g);
    AllKeysClosed(g);
    var a := s.(suspects := AllKeys(g), lastPresent := Some(AllKeys(g)));
    if |a.suspects| >= 2 && Acyclic(g) {
      assert Good(a) == {};
      assert S(a) + Good(a) == KeySet(g);
      NextTestAlwaysSplits(g, a);
    }
  }

  lemma PartnerStepNote(g: Graph, s: State)
    requires NoDeadEnd(g, s)
    ensures NoDeadEnd(g, NextPartnerStep(g, s))
  {
    if |s.partnerSuspects| >= 2 {
    } else if |s.partnerSuspects| == 1 {
    } else {
    }
  }

  lemma AnswerNote(g: Graph, s: State, present: bool)
    requires DistinctKeys(g) && Inv(g, s) && NoDeadEnd(g, s)
    ensures NoDeadEnd(g, Answer(g, s, present))
  {
    match s.phase
    case AllOff => FirstNote(g, Counted(s));
    case PartnerSearch => PartnerStepNote(g, RecordPartner(Counted(s), present));
    case Testing =>
      CountedInv(g, s);
      if present {
        RecordPresent(g, Counted(s));
      } else {
        RecordAbsent(g, Counted(s));
      }
      AfterTestNote(g, Record(Counted(s), present));
    case _ =>
  }

  /** No history reaches the "no suspects left" end, and without loops none reaches "need each other". */
  lemma {:induction false} DeadBranches(g: Graph, events: seq<Event>)
    requires DistinctKeys(g)
    ensures NoDeadEnd(g, Run(g, events))
    decreases |events|
  {
    if events != [] {
      var before := events[..|events| - 1];
      DeadBranches(g, before);
      RunInv(g, before);
      match events[|events| - 1]
      case Answered(present) => AnswerNote(g, Run(g, before), present);
      case Narrowed => 
        if CanNarrow(Run(g, before)) {
          PartnerStepNote(g, Run(g, before).(partnerSuspects := Run(g, before).partners, note := None));
        }
    }
  }
}
