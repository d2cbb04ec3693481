/**
 * Saving the window's place: move and resize events put the newest geometry
 * in a slot, and writers on other threads take it from there, one at a time.
 *
 * A state machine over the atomic steps of the event thread and the writers,
 * in any interleaving. A geometry is named by the number of its event.
 */
module Geometry {
  import opened Options
  import opened Runs

  /** The event thread, between events or with a writer still to ask for. */
  datatype EventThread = Idle | MustSpawn

  /** The writer that holds the writing lock. */
  datatype Writer = Looking | Saving(event: nat)

  /** One call that saves a geometry, which may fail. */
  datatype Attempt = Attempt(event: nat, ok: bool)

  datatype State = State(
    events: nat,              // how many events there have been
    pending: Option<nat>,     // the slot
    main: EventThread,
    waiting: nat,             // writers asked for that have not had the lock yet
    writer: Option<Writer>,
    saves: seq<Attempt>,      // the saves made, in order
    stored: Option<nat>)      // what the last save that did not fail stored

  datatype Action =
    | Event
    | Spawn
    | Enter
    | Take
    | Save(ok: bool)

  function Start(): State {
    State(0, None, Idle, 0, None, [], None)
  }

  predicate Enabled(s: State, a: Action) {
    match a
    case Event => s.main.Idle?
    case Spawn => s.main.MustSpawn?
    case Enter => s.writer.None? && s.waiting > 0
    case Take => s.writer == Some(Looking)
    case Save(_) => s.writer.Some? && s.writer.value.Saving?
  }

  function Do(s: State, a: Action): State
    requires Enabled(s, a)
  {
    match a
    case Event =>
      // The slot is replaced; a writer is asked for only if it was empty.
      s.(events := s.events + 1, pending := Some(s.events), main := if s.pending.None? then MustSpawn else Idle)
    case Spawn => s.(main := Idle, waiting := s.waiting + 1)
    case Enter => s.(writer := Some(Looking), waiting := s.waiting - 1)
    case Take =>
      if s.pending.Some? then s.(writer := Some(Saving(s.pending.value)), pending := None)
      else s.(writer := None)
    case Save(ok) =>
      var k := s.writer.value.event;
      s.(writer := Some(Looking), saves := s.saves + [Attempt(k, ok)], stored := if ok then Some(k) else s.stored)
  }

  ghost predicate Next(s: State, t: State) {
    exists a :: Enabled(s, a) && t == Do(s, a)
  }

  ghost predicate Run(tr: seq<State>) {
    Steps(tr, Next) && tr[0] == Start()
  }

  // ---- what every reachable state keeps ----

  /** Someone will still look into the slot. */
  predicate WriterToCome(s: State) {
    s.main.MustSpawn? || s.waiting > 0 || s.writer.Some?
  }

  predicate Rising(saves: seq<Attempt>) {
    forall i, j :: 0 <= i < j < |saves| ==> saves[i].event < saves[j].event
  }

  function Last(saves: seq<Attempt>): Option<Attempt> {
    if saves == [] then None else Some(saves[|saves| - 1])
  }

  /** The event of the last save that did not fail. */
  function LastKept(saves: seq<Attempt>): Option<nat> {
    if saves == [] then None
    else if saves[|saves| - 1].ok then Some(saves[|saves| - 1].event)
    else LastKept(saves[..|saves| - 1])
  }

  /** Where the newest geometry is. */
  predicate NewestIsKnown(s: State) {
    s.events == 0
    || s.pending == Some(s.events - 1)
    || s.writer == Some(Saving(s.events - 1))
    || (Last(s.saves).Some? && Last(s.saves).value.event == s.events - 1)
  }

  predicate Inv(s: State) {
    && (s.pending.Some? ==> s.pending.value == s.events - 1 && WriterToCome(s))
    && NewestIsKnown(s)
    && Rising(s.saves)
    && (forall x :: x in s.saves ==> x.event < s.events && s.pending != Some(x.event))
    && (s.writer.Some? && s.writer.value.Saving? ==>
          var k := s.writer.value.event;
          k < s.events && s.pending != Some(k) && forall x :: x in s.saves ==> x.event < k)
    && s.stored == LastKept(s.saves)
  }

  lemma OneMoreSave(saves: seq<Attempt>, x: Attempt)
    requires Rising(saves) && forall y :: y in saves ==> y.event < x.event
    ensures Rising(saves + [x]) && Last(saves + [x]) == Some(x)
    ensures LastKept(saves + [x]) == if x.ok then Some(x.event) else LastKept(saves)
  {
    assert (saves + [x])[..|saves|] == saves;
    forall i, j | 0 <= i < j < |saves + [x]| ensures (saves + [x])[i].event < (saves + [x])[j].event {
      assert saves[i] in saves;
    }
  }

  lemma SaveKeeps(s: State, ok: bool)
    requires Inv(s) && s.writer.Some? && s.writer.value.Saving?
    ensures Inv(Do(s, Save(ok)))
  {
    OneMoreSave(s.saves, Attempt(s.writer.value.event, ok));
    hide LastKept, Rising;
  }

  lemma StepKeeps(s: State, a: Action)
    requires Inv(s) && Enabled(s, a)
    ensures Inv(Do(s, a))
  {
    hide LastKept, Rising;
    match a
    case Save(ok) => SaveKeeps(s, ok);
    case Event =>
    case Spawn =>
    case Enter =>
    case Take =>
  }

  lemma {:induction false} RunKeeps(tr: seq<State>, i: nat)
    requires Run(tr) && i < |tr|
    ensures Inv(tr[i])
  {
    if i > 0 {
      RunKeeps(tr, i - 1);
      OneStep(tr, Next, i);
      var a :| Enabled(tr[i - 1], a) && tr[i] == Do(tr[i - 1], a);
      StepKeeps(tr[i - 1], a);
    }
  }

  predicate AllWritersDone(s: State) {
    s.main.Idle? && s.waiting == 0 && s.writer.None?
  }

  /**
   * In every reachable state a geometry in the slot has a writer that will
   * still look for it, and the saves are in event order. Once no writer is
   * left the slot is empty and the last save was the last event's, so what is
   * stored is the last event's geometry exactly when that save did not fail.
   */
  lemma NewestIsSavedLast(tr: seq<State>, i: nat)
    requires Run(tr) && i < |tr|
    ensures tr[i].pending.Some? ==> WriterToCome(tr[i])
    ensures Rising(tr[i].saves) && forall x :: x in tr[i].saves ==> x.event < tr[i].events
    ensures AllWritersDone(tr[i]) ==> tr[i].pending.None?
    ensures AllWritersDone(tr[i]) && tr[i].events > 0 ==>
              var last := Last(tr[i].saves);
              && last.Some? && last.value.event == tr[i].events - 1
              && (tr[i].stored == Some(tr[i].events - 1) <==> last.value.ok)
  {
    RunKeeps(tr, i);
    KeptIsSaved(tr[i].saves);
  }

  /** What is stored was the last save or came before it. */
  lemma {:induction false} KeptIsSaved(saves: seq<Attempt>)
    requires Rising(saves)
    ensures LastKept(saves).Some? ==>
              saves != [] && (LastKept(saves).value == saves[|saves| - 1].event <==> saves[|saves| - 1].ok)
              && exists i :: 0 <= i < |saves| && saves[i].event == LastKept(saves).value
  {
    if saves != [] && !saves[|saves| - 1].ok {
      var before := saves[..|saves| - 1];
      KeptIsSaved(before);
      if LastKept(before).Some? {
        var i :| 0 <= i < |before| && before[i].event == LastKept(before).value;
        assert saves[i].event == LastKept(before).value;
      }
    }
  }

  // ---- a failed save is not made up for ----

  /** One event, whose writer's save fails. */
  function FailedSave(): seq<State> {
    [Start(),
     State(1, Some(0), MustSpawn, 0, None, [], None),
     State(1, Some(0), Idle, 1, None, [], None),
     State(1, Some(0), Idle, 0, Some(Looking), [], None),
     State(1, None, Idle, 0, Some(Saving(0)), [], None),
     State(1, None, Idle, 0, Some(Looking), [Attempt(0, false)], None),
     State(1, None, Idle, 0, None, [Attempt(0, false)], None)]
  }

  function FailedSteps(): seq<Action> {
    [Event, Spawn, Enter, Take, Save(false), Take]
  }

  lemma FailedStep(i: nat)
    requires i < 6
    ensures Next(FailedSave()[i], FailedSave()[i + 1])
  {
    var s, a := FailedSave()[i], FailedSteps()[i];
    assert Enabled(s, a) && Do(s, a) == FailedSave()[i + 1];
  }

  /** After a save that fails, nothing is pending, no writer is left, and the last event's geometry is not stored. */
  lemma FailedSaveIsLost()
    ensures var tr := FailedSave();
            Run(tr) && AllWritersDone(tr[6]) && tr[6].events == 1 && tr[6].pending == None && tr[6].stored == None
  {
    hide Next;
    forall i | 0 <= i < |FailedSave()| - 1 ensures Next(FailedSave()[i], FailedSave()[i + 1]) {
      FailedStep(i);
    }
  }

  // ---- the program's own code, with the other threads running in between ----

  lemma RunMore(tr: seq<State>, a: Action)
    requires Run(tr) && Enabled(tr[|tr| - 1], a)
    ensures Run(tr + [Do(tr[|tr| - 1], a)])
  {
    hide Do, Enabled;
    StepsMore(tr, Next, Do(tr[|tr| - 1], a));
  }

  class World {
    var now: State
    ghost var tr: seq<State>

    ghost predicate Valid()
      reads this
    {
      Run(tr) && tr[|tr| - 1] == now
    }

    constructor ()
      ensures Valid() && now == Start()
    {
      now, tr := Start(), [Start()];
    }

    method Step(a: Action)
      requires Valid() && Enabled(now, a)
      modifies this
      ensures Valid() && now == Do(old(now), a) && tr == old(tr) + [now]
    {
      RunMore(tr, a);
      now := Do(now, a);
      tr := tr + [now];
    }

    lemma InvNow()
      requires Valid()
      ensures Inv(now)
    {
      RunKeeps(tr, |tr| - 1);
    }

    /** Any steps of the writers. */
    method Writers()
      requires Valid()
      modifies this
      ensures Valid() && now.main == old(now).main && now.events == old(now).events
    {
      hide Run;
      var n: nat := *;
      while n > 0
        invariant Valid() && now.main == old(now).main && now.events == old(now).events
      {
        var a: Action := *;
        if Enabled(now, a) && !a.Event? && !a.Spawn? {
          Step(a);
        }
        n := n - 1;
      }
    }

    /** A move or resize event: its geometry is in the slot, being saved or saved, with a writer for it. */
    method Persist()
      requires Valid() && now.main.Idle?
      modifies this
      ensures Valid() && now.main.Idle? && now.events == old(now).events + 1
      ensures NewestIsKnown(now) && (now.pending.Some? ==> now.pending == Some(now.events - 1) && WriterToCome(now))
    {
      hide Run;
      Step(Event);
      Writers();
      if now.main.Idle? {
        InvNow();
        return;
      }
      Step(Spawn);
      InvNow();
    }

    /**
     * A writer that gets the lock saves whatever is in the slot until it finds
     * it empty, while at most `events` further ones come in; the last save is then the
     * last event's.
     */
    method Write(events: nat)
      requires Valid() && now.writer.None? && now.waiting > 0 && now.main.Idle?
      modifies this
      ensures Valid() && now.writer.None? && now.pending.None?
      ensures now.events > 0 ==> Last(now.saves).Some? && Last(now.saves).value.event == now.events - 1
    {
      hide Run;
      Step(Enter);
      var more := events;
      while true
        invariant Valid() && now.writer == Some(Looking) && now.main.Idle?
        decreases more, One(now.pending.Some?)
      {
        Step(Take);
        if now.writer.None? {
          break;
        }
        var comes: bool := *;
        if comes && more > 0 {
          Step(Event);
          if now.main.MustSpawn? {
            Step(Spawn);
          }
          more := more - 1;
        }
        var ok: bool := *;
        Step(Save(ok));
      }
      InvNow();
    }
  }

  function One(b: bool): nat {
    if b then 1 else 0
  }
}
