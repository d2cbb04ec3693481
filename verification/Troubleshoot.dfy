/**
 * Guided fault isolation: what each call does to a session, as functions on
 * the session's value. `TroubleshootSession` holds the mutable session.
 */
module Troubleshoot {
  import opened Keys
  import opened Options
  import opened Requirements

  datatype Phase =
    | AllOff
    | Testing
    | Confirming
    | Found
    | Inconclusive
    | PartnerSearch
    | PartnerConfirm
    | FoundPair

  /** Why a session stands where it does; the wording is the window's. */
  datatype Note =
    | StillThereWithAllOff
    | NeedEachOther
    | NoSingleMod
    | LikelyCause
    | NeedsTwoOrMore
    | LikelyPair
    | NeedsThreeOrMore

  datatype State = State(
    phase: Phase,
    suspects: seq<string>,
    knownGood: seq<string>,
    enabled: seq<string>,
    steps: nat,
    culprit: Option<string>,
    note: Option<Note>,
    lastPresent: Option<seq<string>>,
    involved: Option<string>,
    partners: seq<string>,
    partnerSuspects: seq<string>,
    partner: Option<string>)

  function Start(): State {
    State(AllOff, [], [], [], 0, None, None, None, None, [], [], None)
  }

  function FirstOf(s: seq<string>): Option<string> {
    if s == [] then None else Some(s[0])
  }

  function Holding(o: Option<string>): set<string> {
    if o.Some? then {o.value} else {}
  }

  /** How many candidates the next test takes from the front. */
  function Half(n: nat): nat {
    (n + 1) / 2
  }

  /** The keys that can run without any of `bad`. */
  function RunsWithout(g: Graph, bad: set<string>): set<string> {
    set u | u in g.units && Closure(g, {u.key}) !! bad :: u.key
  }

  function AllKeys(g: Graph): seq<string> {
    Sort(seq(|g.units|, i requires 0 <= i < |g.units| => g.units[i].key))
  }

  predicate CanNarrow(s: State) {
    s.phase == Inconclusive && s.involved.Some? && s.partners != []
  }

  function NextTest(g: Graph, s: State): State {
    var suspects := ByClosureSize(g, s.suspects);
    var test := Closure(g, Elems(suspects[..Half(|suspects|)]) + Elems(s.knownGood));
    if Elems(suspects) <= test then
      s.(suspects := suspects, phase := Inconclusive, note := Some(NeedEachOther),
         enabled := SortedSet(Closure(g, Elems(s.knownGood))))
    else
      s.(suspects := suspects, enabled := SortedSet(test), phase := Testing)
  }

  function Conclude(g: Graph, s: State): State {
    s.(phase := Found, culprit := FirstOf(s.suspects), note := Some(LikelyCause),
       enabled := SortedSet(RunsWithout(g, Holding(FirstOf(s.suspects)))))
  }

  function Confirm(g: Graph, s: State): State {
    if s.suspects == [] then s
    else
      var alone := Closure(g, {s.suspects[0]});
      if s.lastPresent.Some? && Elems(s.lastPresent.value) <= alone then Conclude(g, s)
      else s.(enabled := SortedSet(alone), phase := Confirming)
  }

  function Combination(g: Graph, s: State): State {
    var involved := FirstOf(s.suspects);
    var alone := Closure(g, Holding(involved));
    var present := if s.lastPresent.Some? then s.lastPresent.value else [];
    s.(phase := Inconclusive, involved := involved, partners := Sort(Without(present, alone)),
       note := Some(NeedsTwoOrMore), enabled := SortedSet(Closure(g, Elems(s.knownGood))))
  }

  function MarkFoundPair(g: Graph, s: State): State {
    s.(phase := FoundPair, partner := FirstOf(s.partnerSuspects), note := Some(LikelyPair),
       enabled := SortedSet(RunsWithout(g, Holding(s.involved))))
  }

  function NeedsMoreThanTwo(g: Graph, s: State): State {
    s.(phase := Inconclusive, partners := s.partnerSuspects, partnerSuspects := [],
       note := Some(NeedsThreeOrMore), enabled := SortedSet(Closure(g, Elems(s.knownGood))))
  }

  function NextPartnerStep(g: Graph, s: State): State {
    if |s.partnerSuspects| == 0 then NeedsMoreThanTwo(g, s)
    else if |s.partnerSuspects| == 1 then
      var pair := Closure(g, {s.partnerSuspects[0]} + Holding(s.involved));
      if s.lastPresent.Some? && Elems(s.lastPresent.value) <= pair then MarkFoundPair(g, s)
      else s.(enabled := SortedSet(pair), phase := PartnerConfirm)
    else
      var sorted := ByClosureSize(g, s.partnerSuspects);
      var test := Closure(g, Elems(sorted[..Half(|sorted|)]) + Holding(s.involved));
      if Elems(sorted) <= test then NeedsMoreThanTwo(g, s.(partnerSuspects := sorted))
      else s.(partnerSuspects := sorted, enabled := SortedSet(test), phase := PartnerSearch)
  }

  function Narrow(g: Graph, s: State): State {
    if !CanNarrow(s) then s
    else NextPartnerStep(g, s.(partnerSuspects := s.partners, note := None))
  }

  /** The suspects left after a test showed the problem, before they are sorted. */
  function Blamed(s: State): seq<string> {
    Without(Within(s.suspects, Elems(s.enabled)), Elems(s.knownGood))
  }

  /** What a test's answer says about the suspects. */
  function Record(s: State, present: bool): State {
    if present then
      s.(lastPresent := Some(s.enabled),
         suspects := Sort(AddMissing(Blamed(s), s.enabled, Elems(s.knownGood))))
    else
      s.(knownGood := Sort(AddMissing(s.knownGood, s.enabled, {})),
         suspects := Without(s.suspects, Elems(s.enabled)))
  }

  function AfterTest(g: Graph, s: State): State {
    if |s.suspects| == 0 then
      s.(phase := Inconclusive, note := Some(NoSingleMod),
         enabled := SortedSet(Closure(g, Elems(s.knownGood))))
    else if |s.suspects| == 1 then Confirm(g, s)
    else NextTest(g, s)
  }

  predicate Over(p: Phase) {
    p == Found || p == Inconclusive || p == FoundPair
  }

  /** The answer to the baseline: every unit off. */
  function AnswerAllOff(g: Graph, s: State, present: bool): State {
    if present then s.(phase := Inconclusive, note := Some(StillThereWithAllOff), enabled := [])
    else
      var a := s.(suspects := AllKeys(g), lastPresent := Some(AllKeys(g)));
      if |a.suspects| <= 1 then Conclude(g, a) else NextTest(g, a)
  }

  function Seen(s: State): State {
    s.(lastPresent := Some(s.enabled))
  }

  function RecordPartner(s: State, present: bool): State {
    if present then Seen(s).(partnerSuspects := Within(s.partnerSuspects, Elems(s.enabled)))
    else s.(partnerSuspects := Without(s.partnerSuspects, Elems(s.enabled)))
  }

  function Counted(s: State): State {
    s.(steps := s.steps + 1)
  }

  function Answer(g: Graph, s: State, present: bool): State {
    match s.phase
    case Found | Inconclusive | FoundPair => s
    case AllOff => AnswerAllOff(g, Counted(s), present)
    case Confirming => if present then Conclude(g, Seen(Counted(s))) else Combination(g, Counted(s))
    case PartnerConfirm =>
      if present then MarkFoundPair(g, Seen(Counted(s))) else NeedsMoreThanTwo(g, Counted(s))
    case PartnerSearch => NextPartnerStep(g, RecordPartner(Counted(s), present))
    case Testing => AfterTest(g, Record(Counted(s), present))
  }

  /** What the window can do to a session. */
  datatype Event = Answered(present: bool) | Narrowed

  function Apply(g: Graph, s: State, e: Event): State {
    match e
    case Answered(present) => Answer(g, s, present)
    case Narrowed => Narrow(g, s)
  }

  /** The session after a history of events. */
  function Run(g: Graph, events: seq<Event>): State
    decreases |events|
  {
    if events == [] then Start()
    else Apply(g, Run(g, events[..|events| - 1]), events[|events| - 1])
  }

  lemma NextEvent(g: Graph, events: seq<Event>, e: Event)
    ensures Run(g, events + [e]) == Apply(g, Run(g, events), e)
  {
    assert (events + [e])[..|events|] == events;
  }

  lemma AnswerByPhase(g: Graph, s: State, present: bool)
    ensures var r := Answer(g, s, present);
            && (Over(s.phase) ==> r == s)
            && (s.phase == AllOff ==> r == AnswerAllOff(g, Counted(s), present))
            && (s.phase == Testing ==> r == AfterTest(g, Record(Counted(s), present)))
            && (s.phase == PartnerSearch ==> r == NextPartnerStep(g, RecordPartner(Counted(s), present)))
  {
    hide AnswerAllOff, AfterTest, Record, NextPartnerStep, RecordPartner;
  }
}
