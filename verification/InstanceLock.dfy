/**
 * The cross-process instance lock: guards counted inside each process, the
 * operating system's file lock between processes, and probes that look
 * whether it is held.
 *
 * A state machine over the atomic steps of any number of processes, in any
 * interleaving. Inside a process the state's mutex lets one thread at a time
 * take or drop a guard; probes run beside it, and may fail to open the file or
 * be refused for reasons of their own.
 */
module InstanceLock {
  /** What the thread that holds a process's mutex is doing. */
  datatype Busy =
    | Free
    | Entered    // in acquire_guard, before it has looked at the holders
    | Trying     // the file is open and being tried for
    | Locked     // the file is locked and not recorded yet
    | Dropping   // a guard is being dropped
    | Releasing  // the last guard is gone and the file not unlocked yet

  datatype Process = Process(
    busy: Busy,
    file: bool,     // whether the process keeps a locked file
    holders: nat,
    guards: nat,    // the guards alive
    checked: nat,   // probes that have found no local holder
    probes: nat)    // probes that hold the file shared

  /**
   * `exclusive` is the process whose file holds the operating system's lock;
   * `made` says whether the lock file is there.
   */
  datatype State = State(processes: map<nat, Process>, exclusive: Owner, made: bool)

  datatype Owner = Nobody | Owner(process: nat)

  /** How a probe went: the file not opened, refused for a reason of its own, or tried for. */
  datatype Look = CannotOpen | LockError | Tried

  datatype Action =
    | Enter(p: nat)
    | Share(p: nat)
    | Open(p: nat, ok: bool)
    | TryLock(p: nat)
    | GiveUp(p: nat)
    | Record(p: nat)
    | DropGuard(p: nat)
    | CountDown(p: nat)
    | Unlock(p: nat)
    | Check(p: nat)
    | Probe(p: nat, look: Look)
    | EndProbe(p: nat)
    | Die(p: nat)

  const NEW_PROCESS := Process(Free, false, 0, 0, 0, 0)

  predicate NoProbes(s: State) {
    forall q :: q in s.processes ==> s.processes[q].probes == 0
  }

  predicate Enabled(s: State, a: Action) {
    && a.p in s.processes
    && var x := s.processes[a.p];
       match a
       case Enter(_) => x.busy.Free?
       case Share(_) => x.busy.Entered? && x.holders > 0
       case Open(_, _) => x.busy.Entered? && x.holders == 0
       case TryLock(_) => x.busy.Trying? && s.exclusive.Nobody? && NoProbes(s)
       case GiveUp(_) => x.busy.Trying?
       case Record(_) => x.busy.Locked?
       case DropGuard(_) => x.busy.Free? && x.guards > 0
       case CountDown(_) => x.busy.Dropping?
       case Unlock(_) => x.busy.Releasing?
       case Check(_) => x.busy.Free?
       // A probe never makes the file.
       case Probe(_, look) => x.checked > 0 && (look.CannotOpen? || s.made)
       case EndProbe(_) => x.probes > 0
       case Die(_) => true
  }

  /** What the process itself changes. */
  function Step(s: State, a: Action): Process
    requires Enabled(s, a)
  {
    var x := s.processes[a.p];
    match a
    case Enter(_) => x.(busy := Entered)
    case Share(_) => x.(busy := Free, holders := x.holders + 1, guards := x.guards + 1)
    case Open(_, ok) => x.(busy := if ok then Trying else Free)
    case TryLock(_) => x.(busy := Locked)
    case GiveUp(_) => x.(busy := Free)
    case Record(_) => x.(busy := Free, file := true, holders := 1, guards := x.guards + 1)
    case DropGuard(_) => x.(busy := Dropping, guards := x.guards - 1)
    case CountDown(_) =>
      // The holders are counted down but never below none.
      var left := if x.holders > 0 then x.holders - 1 else 0;
      if left == 0 && x.file then x.(busy := Releasing, holders := 0, file := false)
      else x.(busy := Free, holders := left)
    case Unlock(_) => x.(busy := Free)
    case Check(_) => if x.holders > 0 then x else x.(checked := x.checked + 1)
    case Probe(_, look) =>
      if look.Tried? && s.exclusive.Nobody? then x.(checked := x.checked - 1, probes := x.probes + 1)
      else x.(checked := x.checked - 1)
    case EndProbe(_) => x.(probes := x.probes - 1)
    case Die(_) => NEW_PROCESS
  }

  function Do(s: State, a: Action): State
    requires Enabled(s, a)
  {
    var exclusive :=
      if a.TryLock? then Owner(a.p)
      else if a.Unlock? || (a.Die? && s.exclusive == Owner(a.p)) then Nobody
      else s.exclusive;
    State(s.processes[a.p := Step(s, a)], exclusive, s.made || (a.Open? && a.ok))
  }

  /** What `held_by_another_process` answers at a step, if the step answers. */
  datatype Answer = Silent | Held | NotHeld

  function Answers(s: State, a: Action): Answer
    requires Enabled(s, a)
  {
    match a
    case Check(p) => if s.processes[p].holders > 0 then NotHeld else Silent
    case Probe(_, look) =>
      if look.LockError? || (look.Tried? && s.exclusive.Owner?) then Held else NotHeld
    case _ => Silent
  }

  ghost predicate Init(s: State) {
    s.exclusive.Nobody? && forall p :: p in s.processes ==> s.processes[p] == NEW_PROCESS
  }

  /** `tr` is what the actions `did` lead through. */
  ghost predicate Run(tr: seq<State>, did: seq<Action>) {
    && |tr| == |did| + 1
    && Init(tr[0])
    && forall i :: 0 <= i < |did| ==> Enabled(tr[i], did[i]) && tr[i + 1] == Do(tr[i], did[i])
  }

  // ---- what every reachable state keeps ----

  /** Whether the process has the operating system's lock. */
  predicate HasLock(x: Process) {
    x.file || x.busy.Locked? || x.busy.Releasing?
  }

  predicate ProcessInv(x: Process) {
    && x.holders == x.guards + (if x.busy.Dropping? then 1 else 0)
    && (x.file <==> x.holders > 0)
    && (x.busy.Trying? || x.busy.Locked? || x.busy.Releasing? ==> x.holders == 0)
  }

  ghost predicate Inv(s: State) {
    && (forall p :: p in s.processes ==> ProcessInv(s.processes[p]))
    && (forall p :: p in s.processes ==> (HasLock(s.processes[p]) <==> s.exclusive == Owner(p)))
    && (s.exclusive.Owner? ==> s.exclusive.process in s.processes && NoProbes(s) && s.made)
    && (forall p :: p in s.processes && s.processes[p].busy.Trying? ==> s.made)
  }

  lemma ProcessKeeps(s: State, a: Action)
    requires Inv(s) && Enabled(s, a)
    ensures ProcessInv(Step(s, a))
    ensures HasLock(Step(s, a)) <==> Do(s, a).exclusive == Owner(a.p)
  { }

  lemma StepKeeps(s: State, a: Action)
    requires Inv(s) && Enabled(s, a)
    ensures Inv(Do(s, a))
  {
    ProcessKeeps(s, a);
    var t := Do(s, a);
    forall q | q in t.processes && q != a.p ensures HasLock(t.processes[q]) <==> t.exclusive == Owner(q) {
      assert t.processes[q] == s.processes[q];
    }
  }

  lemma {:induction false} RunKeeps(tr: seq<State>, did: seq<Action>, i: nat)
    requires Run(tr, did) && i < |tr|
    ensures Inv(tr[i])
  {
    if i > 0 {
      RunKeeps(tr, did, i - 1);
      StepKeeps(tr[i - 1], did[i - 1]);
    }
  }

  /**
   * In every reachable state, however processes interleave or die: between
   * calls a process has a live guard exactly when it holds the operating
   * system's lock, its count is its guards and never counts below none, and
   * no two processes hold the lock.
   */
  lemma GuardsAreTheLock(tr: seq<State>, did: seq<Action>, i: nat, p: nat)
    requires Run(tr, did) && i < |tr| && p in tr[i].processes
    ensures var x := tr[i].processes[p];
            && (x.busy.Free? ==> x.holders == x.guards && (x.guards > 0 <==> tr[i].exclusive == Owner(p)))
            && (x.guards > 0 ==> tr[i].exclusive == Owner(p))
            && (x.busy.Dropping? ==> x.holders > 0)
    ensures forall q :: q in tr[i].processes && HasLock(tr[i].processes[p]) && HasLock(tr[i].processes[q]) ==> p == q
  {
    RunKeeps(tr, did, i);
  }

  /** The lock is let go exactly by the unlocking that the last guard's drop begins, or by the process dying. */
  lemma ReleasedByLastGuard(tr: seq<State>, did: seq<Action>, i: nat, a: Action)
    requires Run(tr, did) && i < |tr| && Enabled(tr[i], a)
    ensures var s, t := tr[i], Do(tr[i], a);
            && (s.exclusive.Owner? && t.exclusive != s.exclusive <==>
                  (a.Unlock? || a.Die?) && s.exclusive == Owner(a.p))
            && (a.CountDown? ==> (t.processes[a.p].busy.Releasing? <==> s.processes[a.p].guards == 0))
            && (t.exclusive.Owner? && t.exclusive != s.exclusive ==> a.TryLock? && s.exclusive.Nobody?)
  {
    RunKeeps(tr, did, i);
  }

  // ---- when an answer is right ----

  /** Whether `q` takes the lock at one of the steps from `i` and has not let go of it before `j`. */
  ghost predicate Stands(did: seq<Action>, i: nat, j: nat, q: nat)
    requires j <= |did|
  {
    exists k :: i <= k < j && did[k] == TryLock(q) && !LetsGo(did, k + 1, j, q)
  }

  ghost predicate LetsGo(did: seq<Action>, i: nat, j: nat, q: nat)
    requires j <= |did|
  {
    exists k :: i <= k < j && (did[k] == Unlock(q) || did[k] == Die(q))
  }

  lemma StandsMore(did: seq<Action>, i: nat, j: nat, q: nat)
    requires i < j <= |did|
    ensures Stands(did, i, j, q) <==>
              did[j - 1] == TryLock(q) || (Stands(did, i, j - 1, q) && !LetsGo(did, j - 1, j, q))
  {
    assert forall k :: i <= k < j ==> (LetsGo(did, k, j, q) <==> LetsGo(did, k, j - 1, q) || LetsGo(did, j - 1, j, q));
    if did[j - 1] == TryLock(q) {
      assert !LetsGo(did, j, j, q);
    }
    if Stands(did, i, j - 1, q) && !LetsGo(did, j - 1, j, q) {
      var k :| i <= k < j - 1 && did[k] == TryLock(q) && !LetsGo(did, k + 1, j - 1, q);
      assert !LetsGo(did, k + 1, j, q);
    }
  }

  /** One step more: the process has the lock if it takes it now, or had it and does not let go. */
  lemma OwnerStep(s: State, a: Action, q: nat)
    requires Inv(s) && Enabled(s, a)
    ensures Do(s, a).exclusive == Owner(q) <==>
              a == TryLock(q) || (s.exclusive == Owner(q) && a != Unlock(q) && a != Die(q))
  { }

  /**
   * From any step at which a process is without the lock, it has the lock
   * later exactly when it took it in between and that still stands.
   */
  lemma {:induction false} OwnerStands(tr: seq<State>, did: seq<Action>, i: nat, j: nat, q: nat)
    requires Run(tr, did) && i <= j < |tr| && tr[i].exclusive != Owner(q)
    ensures tr[j].exclusive == Owner(q) <==> Stands(did, i, j, q)
  {
    hide Do, Enabled, Init, Inv;
    if i < j {
      OwnerStands(tr, did, i, j - 1, q);
      RunKeeps(tr, did, j - 1);
      OwnerStep(tr[j - 1], did[j - 1], q);
      StandsMore(did, i, j, q);
      assert LetsGo(did, j - 1, j, q) <==> did[j - 1] == Unlock(q) || did[j - 1] == Die(q);
    }
  }

  /** Whether another process holds the lock: what is asked. */
  predicate HeldByOther(s: State, p: nat) {
    s.exclusive.Owner? && s.exclusive.process != p
  }

  /** Whether another process took the lock in the first `j` steps and that still stands. */
  ghost predicate OtherStands(did: seq<Action>, j: nat, p: nat)
    requires j <= |did|
  {
    exists q :: q != p && Stands(did, 0, j, q)
  }

  /** What keeps a process that has no lock from taking it. */
  predicate Contended(s: State, p: nat) {
    HeldByOther(s, p) || !NoProbes(s)
  }

  lemma OtherHoldsIff(tr: seq<State>, did: seq<Action>, j: nat, p: nat)
    requires Run(tr, did) && j < |tr|
    ensures HeldByOther(tr[j], p) <==> OtherStands(did, j, p)
  {
    if HeldByOther(tr[j], p) {
      OwnerStands(tr, did, 0, j, tr[j].exclusive.process);
    }
    if OtherStands(did, j, p) {
      var q :| q != p && Stands(did, 0, j, q);
      OwnerStands(tr, did, 0, j, q);
    }
  }

  /** A process that holds the lock itself answers at once that no other does, and is right. */
  lemma HolderIsRight(tr: seq<State>, did: seq<Action>, i: nat)
    requires Run(tr, did) && i < |did| && did[i].Check?
    ensures Answers(tr[i], did[i]) == NotHeld ==> !HeldByOther(tr[i], did[i].p)
    ensures Answers(tr[i], did[i]) == Silent ==> tr[i].exclusive != Owner(did[i].p)
  {
    RunKeeps(tr, did, i);
  }

  /** What makes a probe's answer right, from its process's own check at `i` to the probe at `j`. */
  ghost predicate AnswersRight(did: seq<Action>, i: nat, j: nat)
    requires j < |did| && did[j].Probe?
  {
    match did[j].look
    case Tried => !Stands(did, i, j, did[j].p)
    case CannotOpen => !OtherStands(did, j, did[j].p)
    case LockError => OtherStands(did, j, did[j].p)
  }

  /**
   * Exactly when the answer is the truth, for a check that found no local
   * holder at `i` and the probe at `j`, with anything in between. A probe that
   * tried the lock is right exactly when its own process did not take the lock
   * between the two and keep it; one that could not open the file (answering
   * that it is not held) exactly when no other process had taken it and kept
   * it; one refused for a reason of its own (answering that it is held)
   * exactly when one had.
   */
  lemma RightIff(tr: seq<State>, did: seq<Action>, i: nat, j: nat)
    requires Run(tr, did) && i < j < |did| && did[j].Probe? && did[i] == Check(did[j].p)
    requires Answers(tr[i], did[i]) == Silent
    ensures (Answers(tr[j], did[j]) == Held <==> HeldByOther(tr[j], did[j].p)) <==> AnswersRight(did, i, j)
  {
    var p := did[j].p;
    HolderIsRight(tr, did, i);
    OwnerStands(tr, did, i, j, p);
    OtherHoldsIff(tr, did, j, p);
  }

  /** A probe that finds no file is right, and a probe that gets the lock is right that nobody holds it. */
  lemma NotHeldIsRight(tr: seq<State>, did: seq<Action>, j: nat)
    requires Run(tr, did) && j < |did| && did[j].Probe? && Answers(tr[j], did[j]) == NotHeld
    ensures !tr[j].made || did[j].look.Tried? ==> tr[j].exclusive.Nobody?
  {
    RunKeeps(tr, did, j);
  }

  // ---- each wrong answer can be given ----

  /** Two processes; a thread of the first has checked, and one of the given process is taking the lock. */
  function Two(taker: nat, busy: Busy): State {
    var first := NEW_PROCESS.(checked := 1);
    var ps := map[7 := first, 8 := NEW_PROCESS];
    State(if taker in ps then ps[taker := ps[taker].(busy := busy)] else ps,
          if busy.Locked? then Owner(taker) else Nobody, true)
  }

  /** Process 7 checks; then `taker` takes the lock; then process 7 probes. */
  function TakenRun(taker: nat): seq<State> {
    [State(map[7 := NEW_PROCESS, 8 := NEW_PROCESS], Nobody, true),
     Two(taker, Free), Two(taker, Entered), Two(taker, Trying), Two(taker, Locked)]
  }

  function Taking(taker: nat): seq<Action> {
    [Check(7), Enter(taker), Open(taker, true), TryLock(taker)]
  }

  lemma TakenStep(taker: nat, i: nat)
    requires (taker == 7 || taker == 8) && i < 4
    ensures Enabled(TakenRun(taker)[i], Taking(taker)[i])
    ensures TakenRun(taker)[i + 1] == Do(TakenRun(taker)[i], Taking(taker)[i])
  {
    hide Inv, Init, Run;
    var s, t := TakenRun(taker)[i], TakenRun(taker)[i + 1];
    assert t.processes == s.processes[Taking(taker)[i].p := Step(s, Taking(taker)[i])];
  }

  lemma TakenRuns(taker: nat)
    requires taker == 7 || taker == 8
    ensures Run(TakenRun(taker), Taking(taker))
  {
    hide Enabled, Do;
    forall i | 0 <= i < |Taking(taker)|
      ensures Enabled(TakenRun(taker)[i], Taking(taker)[i])
      ensures TakenRun(taker)[i + 1] == Do(TakenRun(taker)[i], Taking(taker)[i])
    {
      TakenStep(taker, i);
    }
  }

  /**
   * A thread that found no local holder probes after another thread of its
   * process has taken the lock, and is told that another process holds it.
   */
  lemma ProbeSeesOwnLock()
    ensures var tr, a := TakenRun(7), Probe(7, Tried);
            && Run(tr, Taking(7)) && Enabled(tr[4], a) && Answers(tr[4], a) == Held
            && tr[4].exclusive == Owner(7)
  {
    TakenRuns(7);
  }

  /** A probe that cannot open the file answers that it is not held while another process holds it. */
  lemma UnopenedProbeMisses()
    ensures var tr, a := TakenRun(8), Probe(7, CannotOpen);
            && Run(tr, Taking(8)) && Enabled(tr[4], a) && Answers(tr[4], a) == NotHeld
            && HeldByOther(tr[4], 7)
  {
    TakenRuns(8);
  }

  /** A probe refused for a reason of its own answers that it is held while nobody holds it. */
  lemma RefusedProbeMisleads()
    ensures var tr, a := TakenRun(8)[..2], Probe(7, LockError);
            && Run(tr, Taking(8)[..1]) && Enabled(tr[1], a) && Answers(tr[1], a) == Held
            && tr[1].exclusive == Nobody
  {
    TakenRuns(8);
  }

  // ---- the lock's own code, with every other thread running in between ----

  lemma RunMore(tr: seq<State>, did: seq<Action>, a: Action)
    requires Run(tr, did) && Enabled(tr[|did|], a)
    ensures Run(tr + [Do(tr[|did|], a)], did + [a])
  {
    hide Do, Enabled, Init;
  }

  /** The steps other threads can take while one holds the mutex of process `p`. */
  predicate Foreign(a: Action, p: nat) {
    a.p != p || a.Probe? || a.EndProbe?
  }

  /** What other threads leave as it is for the one that holds the mutex. */
  predicate Undisturbed(s: State, t: State, p: nat) {
    && p in s.processes && p in t.processes
    && var x, y := s.processes[p], t.processes[p];
       && x.busy == y.busy && x.file == y.file && x.holders == y.holders && x.guards == y.guards
       && (s.exclusive == Owner(p) <==> t.exclusive == Owner(p))
  }

  lemma ForeignLeaves(s: State, a: Action, p: nat)
    requires Inv(s) && Enabled(s, a) && Foreign(a, p) && p in s.processes
    ensures Undisturbed(s, Do(s, a), p)
  {
    StepKeeps(s, a);
  }

  class World {
    var now: State
    ghost var tr: seq<State>
    ghost var did: seq<Action>

    ghost predicate Valid()
      reads this
    {
      Run(tr, did) && |tr| == |did| + 1 && tr[|did|] == now
    }

    constructor (start: State)
      requires Init(start)
      ensures Valid() && now == start
    {
      now, tr, did := start, [start], [];
    }

    method Perform(a: Action)
      requires Valid() && Enabled(now, a)
      modifies this
      ensures Valid() && now == Do(old(now), a) && tr == old(tr) + [now] && did == old(did) + [a]
    {
      RunMore(tr, did, a);
      now := Do(now, a);
      tr, did := tr + [now], did + [a];
    }

    /** Any steps of other threads and processes. */
    method Others(p: nat)
      requires Valid() && p in now.processes
      modifies this
      ensures Valid() && Undisturbed(old(now), now, p) && old(tr) <= tr && old(did) <= did
    {
      hide Do, Run;
      var n: nat := *;
      while n > 0
        invariant Valid() && Undisturbed(old(now), now, p) && old(tr) <= tr && old(did) <= did
      {
        var a: Action := *;
        if Enabled(now, a) && Foreign(a, p) {
          InvNow();
          ForeignLeaves(now, a, p);
          Perform(a);
        }
        n := n - 1;
      }
    }

    lemma InvNow()
      requires Valid()
      ensures Inv(now)
    {
      RunKeeps(tr, did, |did|);
    }

    /**
     * Tries the open file until it is locked or the time is up; every try that fails found the lock or a probe in its
     * way.
     */
    method TryBriefly(p: nat) returns (ok: bool)
      requires Valid() && p in now.processes && now.processes[p].busy.Trying?
      modifies this
      ensures Valid() && old(tr) <= tr && old(did) <= did && |old(did)| < |did|
      ensures p in now.processes && now.processes[p].guards == old(now).processes[p].guards
      ensures now.processes[p].busy == if ok then Locked else Free
      ensures !ok ==> Contended(tr[|did| - 1], p)
    {
      hide Run;
      var tries: nat := *;
      while true
        invariant Valid() && p in now.processes && now.processes[p].busy.Trying?
        invariant now.processes[p].guards == old(now).processes[p].guards && old(tr) <= tr && old(did) <= did
        decreases tries
      {
        Others(p);
        if Enabled(now, TryLock(p)) {
          Perform(TryLock(p));
          return true;
        }
        if tries == 0 {
          NotLockable(p);
          Perform(GiveUp(p));
          return false;
        }
        tries := tries - 1;
      }
    }

    lemma NotLockable(p: nat)
      requires Valid() && p in now.processes && now.processes[p].busy.Trying? && !Enabled(now, TryLock(p))
      ensures Contended(now, p)
    {
      InvNow();
    }

    /**
     * A guard, with the operating system's lock behind it; or none, and
     * nothing kept. `found` is how the open at step `at` goes, if it comes to
     * that: without it there is no guard, and with it there is one unless
     * another process held the lock, or a probe was under way, afterwards.
     */
    method AcquireGuard(p: nat, found: bool) returns (ok: bool, ghost at: nat)
      requires Valid() && p in now.processes && now.processes[p].busy.Free?
      modifies this
      ensures Valid() && p in now.processes && now.processes[p].busy.Free?
      ensures now.processes[p].guards == old(now).processes[p].guards + (if ok then 1 else 0)
      ensures ok ==> now.exclusive == Owner(p)
      ensures old(now).processes[p].guards > 0 ==> ok
      ensures old(now).processes[p].guards == 0 ==>
                && old(tr) <= tr && old(did) <= did && |old(did)| <= at < |did| && did[at] == Open(p, found)
                && (ok ==> found)
                && (found && !ok ==> exists k :: at < k < |did| && Contended(tr[k], p))
      ensures old(now).processes[p].guards == 0 && (forall k :: at < k < |did| ==> !Contended(tr[k], p)) ==>
                (ok <==> found)
    {
      hide Run, Contended;
      at := 0;
      InvNow();
      Perform(Enter(p));
      Others(p);
      if now.processes[p].holders > 0 {
        Perform(Share(p));
        InvNow();
        return true, at;
      }
      at := |did|;
      Perform(Open(p, found));
      if !found {
        return false, at;
      }
      var locked := TryBriefly(p);
      if !locked {
        return false, at;
      }
      Others(p);
      Perform(Record(p));
      InvNow();
      return true, at;
    }

    /** Drops a guard; the last one's drop lets go of the operating system's lock. */
    method Drop(p: nat)
      requires Valid() && p in now.processes && now.processes[p].busy.Free? && now.processes[p].guards > 0
      modifies this
      ensures Valid() && p in now.processes && now.processes[p].busy.Free?
      ensures now.processes[p].guards == old(now).processes[p].guards - 1
      ensures now.exclusive == Owner(p) <==> old(now).processes[p].guards > 1
    {
      hide Run;
      Perform(DropGuard(p));
      Others(p);
      InvNow();
      Perform(CountDown(p));
      if now.processes[p].busy.Releasing? {
        Others(p);
        Perform(Unlock(p));
      }
      InvNow();
    }

    /** Any steps of any thread but the one that has checked in process `p` and is about to probe. */
    method BeforeProbe(p: nat)
      requires Valid() && p in now.processes && now.processes[p].checked > 0
      modifies this
      ensures Valid() && p in now.processes && now.processes[p].checked > 0
      ensures old(tr) <= tr && old(did) <= did
    {
      hide Do, Run, Enabled;
      var n: nat := *;
      while n > 0
        invariant Valid() && p in now.processes && now.processes[p].checked > 0
        invariant old(tr) <= tr && old(did) <= did
      {
        var a: Action := *;
        if Enabled(now, a) && p in Do(now, a).processes && Do(now, a).processes[p].checked > 0 {
          Perform(a);
        }
        n := n - 1;
      }
    }

    /** Any steps of any thread but the one of process `p` that is about to let go of its probe's hold. */
    method BeforeEnd(p: nat)
      requires Valid() && p in now.processes && now.processes[p].probes > 0
      modifies this
      ensures Valid() && p in now.processes && now.processes[p].probes > 0
      ensures old(tr) <= tr && old(did) <= did
    {
      hide Do, Run, Enabled;
      var n: nat := *;
      while n > 0
        invariant Valid() && p in now.processes && now.processes[p].probes > 0
        invariant old(tr) <= tr && old(did) <= did
      {
        var a: Action := *;
        if Enabled(now, a) && p in Do(now, a).processes && Do(now, a).processes[p].probes > 0 {
          Perform(a);
        }
        n := n - 1;
      }
    }

    /**
     * Whether another process is using the files: answered at once by a
     * process that holds the lock, and otherwise by a probe some time after
     * the check. The answer is that of step `at`, and right exactly then.
     */
    method HeldByAnother(p: nat, look: Look) returns (held: bool, ghost at: nat)
      requires Valid() && p in now.processes && now.processes[p].busy.Free?
      modifies this
      ensures Valid() && old(tr) <= tr && old(did) <= did && |old(did)| <= at < |did|
      ensures old(now).processes[p].holders > 0 ==> !held && at == |old(did)| && !HeldByOther(tr[at], p)
      ensures old(now).processes[p].holders == 0 ==>
                && did[at] == Probe(p, if tr[at].made then look else CannotOpen)
                && ((held <==> HeldByOther(tr[at], p)) <==> AnswersRight(did, |old(did)|, at))
      ensures !held && did[at].Probe? && did[at].look.Tried? ==>
                && at + 1 < |did| && did[|did| - 1] == EndProbe(p)
                && p in tr[|did| - 1].processes && p in now.processes
                && now.processes[p].probes == tr[|did| - 1].processes[p].probes - 1
    {
      hide Run, AnswersRight;
      ghost var first := |did|;
      var s := now;
      Perform(Check(p));
      assert tr[first] == s && did[first] == Check(p);
      if s.processes[p].holders > 0 {
        HolderIsRight(tr, did, first);
        return false, first;
      }
      BeforeProbe(p);
      assert tr[first] == s && did[first] == Check(p);
      var a := Probe(p, if now.made then look else CannotOpen);
      at := |did|;
      var t := now;
      Perform(a);
      assert tr[first] == s && did[first] == Check(p) && tr[at] == t && did[at] == a;
      held := Answers(t, a) == Held;
      if a.look.Tried? && !held {
        BeforeEnd(p);
        Perform(EndProbe(p));
      }
      assert tr[first] == s && did[first] == Check(p) && tr[at] == t && did[at] == a;
      RightIff(tr, did, first, at);
    }
  }
}
