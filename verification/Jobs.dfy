/**
 * The window's jobs: changes run one at a time on their own thread, reads on
 * a few others, dialogs answer from anywhere, and the main thread asks for
 * all of them, collects the results and closes the window.
 *
 * A state machine over the atomic steps of those threads, in any interleaving.
 */
module Jobs {
  import opened Runs

  type Job = nat

  /** Where the main thread is between two atomic steps. */
  datatype Main =
    | Idle
    | Asking(job: Job)   // a change has its number
    | Counted(job: Job)  // and is counted, but not queued yet
    | Unqueued           // the changes thread is gone, the count still to be taken back
    | AskingRead(job: Job)
    | SawChanges         // the user closes the window while changes wait
    | MayClose           // or while none do
    | Took               // results are collected
    | SawClosing         // and a close was waiting
    | SawNone            // and no change is
    | Gone               // the window is closed

  /** Where a thread that runs bodies is. */
  datatype Worker =
    | Free
    | Running(job: Job)
    | Ended(job: Job)    // the body is over
    | Recorded(job: Job) // and its result can be collected

  datatype State = State(
    next: Job,
    waiting: int,             // changes asked for and not finished yet
    closing: bool,
    finished: set<Job>,       // results to be collected
    queue: seq<Job>,          // changes in line
    readLine: seq<Job>,       // reads in line
    changes: bool,            // whether the changes thread is there
    readers: seq<Worker>,
    worker: Worker,           // the changes thread
    open: set<Job>,           // dialogs with no answer yet
    sent: set<Job>,           // answers sent and not recorded yet
    main: Main,
    // What has happened so far.
    asked: seq<Job>,          // changes, in the order they were queued
    began: seq<Job>,          // change bodies begun
    ended: seq<Job>,          // change bodies over
    readsAsked: seq<Job>,     // reads, in the order they were queued
    readsBegan: seq<Job>,     // read bodies begun
    readsOver: seq<Job>,      // read bodies over
    answered: seq<Job>,       // dialogs answered, or dropped unanswered
    refused: seq<Job>,        // jobs refused for want of a thread
    recorded: seq<Job>,       // results recorded
    handed: seq<Job>)         // results handed to the window

  datatype Action =
    | AskChange | Count | Queue | TakeBack
    | AskRead | QueueRead | AskDialog
    | Receive | EndBody | Record | Uncount
    | ReceiveRead(reader: nat) | EndRead(reader: nat) | RecordRead(reader: nat)
    | Send(job: Job) | RecordSent(job: Job) | Drop(job: Job)
    | Close | SetClosing | CloseNow
    | Collect(jobs: seq<Job>) | SeeClosing | SeeWaiting | Destroy

  ghost predicate Init(s: State) {
    && s.next == 1 && s.waiting == 0 && !s.closing && s.finished == {} && s.queue == [] && s.readLine == []
    && (forall i :: 0 <= i < |s.readers| ==> s.readers[i].Free?)
    && s.worker.Free? && s.open == {} && s.sent == {} && s.main.Idle?
    && s.asked == [] && s.began == [] && s.ended == [] && s.readsAsked == [] && s.readsBegan == [] &&
        s.readsOver == [] && s.answered == []
    && s.refused == [] && s.recorded == [] && s.handed == []
  }

  predicate Enabled(s: State, a: Action) {
    match a
    case AskChange | AskRead | AskDialog | Close | Collect(_) => s.main.Idle?
    case Count => s.main.Asking?
    case Queue => s.main.Counted?
    case TakeBack => s.main.Unqueued?
    case QueueRead => s.main.AskingRead?
    case Receive => s.changes && s.worker.Free? && s.queue != []
    case EndBody => s.worker.Running?
    case Record => s.worker.Ended?
    case Uncount => s.worker.Recorded?
    case ReceiveRead(i) => i < |s.readers| && s.readers[i].Free? && s.readLine != []
    case EndRead(i) => i < |s.readers| && s.readers[i].Running?
    case RecordRead(i) => i < |s.readers| && s.readers[i].Ended?
    case Send(j) => j in s.open
    case RecordSent(j) => j in s.sent
    case Drop(j) => j in s.open
    case SetClosing => s.main.SawChanges?
    case CloseNow => s.main.MayClose?
    case SeeClosing => s.main.Took?
    case SeeWaiting => s.main.SawClosing?
    case Destroy => s.main.SawNone?
  }

  /** The results among `jobs` that are there, each once. */
  function Collected(finished: set<Job>, jobs: seq<Job>): seq<Job> {
    if jobs == [] then []
    else if jobs[0] in finished then [jobs[0]] + Collected(finished - {jobs[0]}, jobs[1..])
    else Collected(finished, jobs[1..])
  }

  function Finish(s: State, j: Job): State {
    s.(finished := s.finished + {j}, recorded := s.recorded + [j])
  }

  function Do(s: State, a: Action): State
    requires Enabled(s, a)
  {
    match a
    // Asking, on the main thread.
    case AskChange => s.(main := Asking(s.next), next := s.next + 1)
    case Count => s.(main := Counted(s.main.job), waiting := s.waiting + 1)
    case Queue =>
      if s.changes then s.(main := Idle, queue := s.queue + [s.main.job], asked := s.asked + [s.main.job])
      else s.(main := Unqueued, refused := s.refused + [s.main.job])
    case TakeBack => s.(main := Idle, waiting := s.waiting - 1)
    case AskRead => s.(main := AskingRead(s.next), next := s.next + 1)
    case QueueRead =>
      if s.readers != [] then
        s.(main := Idle, readLine := s.readLine + [s.main.job], readsAsked := s.readsAsked + [s.main.job])
      else s.(main := Idle, refused := s.refused + [s.main.job])
    case AskDialog => s.(open := s.open + {s.next}, next := s.next + 1)
    // The changes thread.
    case Receive => s.(worker := Running(s.queue[0]), queue := s.queue[1..], began := s.began + [s.queue[0]])
    case EndBody => s.(worker := Ended(s.worker.job), ended := s.ended + [s.worker.job])
    case Record => Finish(s, s.worker.job).(worker := Recorded(s.worker.job))
    case Uncount => s.(worker := Free, waiting := s.waiting - 1)
    // The read threads.
    case ReceiveRead(i) =>
      s.(readers := s.readers[i := Running(s.readLine[0])], readLine := s.readLine[1..],
         readsBegan := s.readsBegan + [s.readLine[0]])
    case EndRead(i) =>
      s.(readers := s.readers[i := Ended(s.readers[i].job)], readsOver := s.readsOver + [s.readers[i].job])
    case RecordRead(i) => Finish(s, s.readers[i].job).(readers := s.readers[i := Free])
    // Dialogs: an answer sent, or dropped unsent.
    case Send(j) => s.(open := s.open - {j}, sent := s.sent + {j}, answered := s.answered + [j])
    case RecordSent(j) => Finish(s, j).(sent := s.sent - {j})
    case Drop(j) => Finish(s, j).(open := s.open - {j}, answered := s.answered + [j])
    // Closing.
    case Close => s.(main := if s.waiting > 0 then SawChanges else MayClose)
    case SetClosing => s.(main := Idle, closing := true)
    case CloseNow => s.(main := Gone)
    // Collecting results.
    case Collect(jobs) =>
      var done := Collected(s.finished, jobs);
      s.(main := Took, finished := s.finished - (set j | j in done), handed := s.handed + done)
    case SeeClosing => s.(main := if s.closing then SawClosing else Idle)
    case SeeWaiting => s.(main := if s.waiting == 0 then SawNone else Idle)
    case Destroy => s.(main := Gone)
  }

  ghost predicate Next(s: State, t: State) {
    exists a :: Enabled(s, a) && t == Do(s, a)
  }

  ghost predicate Run(tr: seq<State>) {
    Steps(tr, Next) && Init(tr[0])
  }

  // ---- changes: one at a time, in order, all of them counted ----

  /** The body begun last and not over. */
  function UnderWay(w: Worker): seq<Job> {
    if w.Running? then [w.job] else []
  }

  /** Everything counted: the line, the one at work, and what the main thread is about to queue or take back. */
  function CountOf(s: State): nat {
    |s.queue| + (if s.worker.Free? then 0 else 1) + (if s.main.Counted? || s.main.Unqueued? then 1 else 0)
  }

  predicate ChangesInv(s: State) {
    && s.asked == s.began + s.queue
    && s.began == s.ended + UnderWay(s.worker)
    && s.readsAsked == s.readsBegan + s.readLine
    && s.waiting == CountOf(s)
    && (s.main.SawNone? || s.main.MayClose? || s.main.Gone? ==> s.waiting == 0)
    && (!s.changes ==> s.queue == [] && s.worker.Free?)
  }

  lemma ChangesKept(s: State, a: Action)
    requires ChangesInv(s) && Enabled(s, a)
    ensures ChangesInv(Do(s, a))
  {
    match a
    case Queue => assert s.began + (s.queue + [s.main.job]) == (s.began + s.queue) + [s.main.job];
    case Receive => assert s.began + s.queue == (s.began + [s.queue[0]]) + s.queue[1..];
    case QueueRead => assert s.readsBegan + (s.readLine + [s.main.job]) == (s.readsBegan + s.readLine) + [s.main.job];
    case ReceiveRead(_) =>
      assert s.readsBegan + s.readLine == (s.readsBegan + [s.readLine[0]]) + s.readLine[1..];
    case _ =>
  }

  // ---- results: each job in exactly one place, each result once ----

  function One(b: bool): nat {
    if b then 1 else 0
  }

  function Times(q: seq<Job>, j: Job): nat {
    multiset(q)[j]
  }

  /** Whether a job has been given its number; the first is 1. */
  predicate Numbered(s: State, j: Job) {
    1 <= j < s.next
  }

  predicate MainHas(m: Main, j: Job) {
    (m.Asking? || m.Counted? || m.AskingRead?) && m.job == j
  }

  predicate Works(w: Worker, j: Job) {
    (w.Running? || w.Ended?) && w.job == j
  }

  /** How many of the read threads are at a job. */
  function Busy(readers: seq<Worker>, j: Job): nat {
    if readers == [] then 0 else One(Works(readers[0], j)) + Busy(readers[1..], j)
  }

  /** In how many places a job is: under way, recorded, or refused. */
  function Places(s: State, j: Job): nat {
    One(MainHas(s.main, j)) + Times(s.queue, j) + Times(s.readLine, j) + Busy(s.readers, j) + One(Works(s.worker, j))
    + One(j in s.open) + One(j in s.sent) + Times(s.recorded, j) + Times(s.refused, j)
  }

  /** Whether a step gives the job its number. */
  predicate Numbers(s: State, a: Action, j: Job) {
    (a.AskChange? || a.AskRead? || a.AskDialog?) && j == s.next
  }

  ghost predicate ResultsInv(s: State) {
    s.next >= 1 && forall j: Job ::
      && Places(s, j) == One(Numbered(s, j))
      && Times(s.recorded, j) == One(j in s.finished) + Times(s.handed, j)
  }

  /** Some read thread has the job's body over and its result not recorded yet. */
  ghost predicate AtReader(readers: seq<Worker>, j: Job) {
    exists i :: 0 <= i < |readers| && readers[i] == Ended(j)
  }

  /** A body that is over has its result recorded, or is about to; and nothing else is recorded. */
  ghost predicate OverInv(s: State) {
    forall j: Job ::
      && (j in s.ended ==> s.worker == Ended(j) || j in s.recorded)
      && (j in s.readsOver ==> AtReader(s.readers, j) || j in s.recorded)
      && (j in s.answered ==> j in s.sent || j in s.recorded)
      && (j in s.recorded ==> j in s.ended || j in s.readsOver || j in s.answered)
      && (s.worker == Ended(j) ==> j in s.ended)
      && (AtReader(s.readers, j) ==> j in s.readsOver)
      && (j in s.sent ==> j in s.answered)
  }

  lemma AtReaderUpdate(readers: seq<Worker>, i: nat, w: Worker, j: Job)
    requires i < |readers|
    ensures AtReader(readers[i := w], j) ==> w == Ended(j) || AtReader(readers, j)
    ensures w == Ended(j) ==> AtReader(readers[i := w], j)
    ensures AtReader(readers, j) ==> AtReader(readers[i := w], j) || readers[i] == Ended(j)
    ensures readers[i] == Ended(j) ==> AtReader(readers, j)
  {
    var after := readers[i := w];
    if AtReader(after, j) {
      var k :| 0 <= k < |after| && after[k] == Ended(j);
      assert k != i ==> readers[k] == Ended(j);
    }
    if AtReader(readers, j) {
      var k :| 0 <= k < |readers| && readers[k] == Ended(j);
      assert k != i ==> after[k] == Ended(j);
    }
    assert after[i] == w;
  }

  lemma ReadOverKept(s: State, a: Action)
    requires OverInv(s) && Enabled(s, a) && (a.ReceiveRead? || a.EndRead? || a.RecordRead?)
    ensures OverInv(Do(s, a))
  {
    hide AtReader;
    var t := Do(s, a);
    forall j: Job {
      AtReaderUpdate(s.readers, a.reader, t.readers[a.reader], j);
    }
  }

  lemma OverKept(s: State, a: Action)
    requires OverInv(s) && Enabled(s, a)
    ensures OverInv(Do(s, a))
  {
    hide AtReader, Collected;
    if a.ReceiveRead? || a.EndRead? || a.RecordRead? {
      ReadOverKept(s, a);
    }
  }

  /** Nothing is refused while its thread is there. */
  ghost predicate RefusedInv(s: State) {
    s.refused != [] ==> !s.changes || s.readers == []
  }

  lemma {:induction false} BusyUpdate(readers: seq<Worker>, i: nat, w: Worker, j: Job)
    requires i < |readers|
    ensures Busy(readers[i := w], j) + One(Works(readers[i], j)) == Busy(readers, j) + One(Works(w, j))
  {
    var after := readers[i := w];
    if i == 0 {
      assert after[1..] == readers[1..];
    } else {
      BusyUpdate(readers[1..], i - 1, w, j);
      assert after[1..] == readers[1..][i - 1 := w] && after[0] == readers[0];
    }
  }

  lemma TimesFront(q: seq<Job>, j: Job)
    requires q != []
    ensures Times(q, j) == One(q[0] == j) + Times(q[1..], j)
  {
    assert q == [q[0]] + q[1..];
  }

  lemma TimesMore(q: seq<Job>, r: seq<Job>, k: Job, j: Job)
    ensures Times(q + [k], j) == Times(q, j) + One(k == j)
    ensures Times(q + r, j) == Times(q, j) + Times(r, j)
  { }

  lemma ReadPlacesKept(s: State, a: Action, j: Job)
    requires Enabled(s, a) && (a.ReceiveRead? || a.EndRead? || a.RecordRead?)
    ensures Places(Do(s, a), j) == Places(s, j)
  {
    hide Busy, Collected, Times;
    match a
    case ReceiveRead(i) =>
      TimesFront(s.readLine, j);
      BusyUpdate(s.readers, i, Running(s.readLine[0]), j);
    case EndRead(i) => BusyUpdate(s.readers, i, Ended(s.readers[i].job), j);
    case RecordRead(i) =>
      BusyUpdate(s.readers, i, Free, j);
      TimesMore(s.recorded, [], s.readers[i].job, j);
  }

  predicate Asks(a: Action) {
    a.AskChange? || a.Count? || a.Queue? || a.TakeBack? || a.AskRead? || a.QueueRead? || a.AskDialog?
  }

  lemma AskPlacesKept(s: State, a: Action, j: Job)
    requires Enabled(s, a) && Asks(a) && Places(s, j) == One(Numbered(s, j))
    ensures Places(Do(s, a), j) == Places(s, j) + One(Numbers(s, a, j))
  {
    hide Busy, Collected, Times, Works;
    match a
    case Queue =>
      TimesMore(s.queue, [], s.main.job, j);
      TimesMore(s.refused, [], s.main.job, j);
    case QueueRead =>
      TimesMore(s.readLine, [], s.main.job, j);
      TimesMore(s.refused, [], s.main.job, j);
    case _ =>
  }

  /** A step moves a job on, and brings none in but the one it numbers. */
  lemma PlacesKept(s: State, a: Action, j: Job)
    requires Enabled(s, a) && Places(s, j) == One(Numbered(s, j))
    ensures Places(Do(s, a), j) == Places(s, j) + One(Numbers(s, a, j))
  {
    hide Busy, Collected, Times;
    if Asks(a) {
      AskPlacesKept(s, a, j);
    } else if a.ReceiveRead? || a.EndRead? || a.RecordRead? {
      ReadPlacesKept(s, a, j);
    } else {
      match a
      case Receive => TimesFront(s.queue, j);
      case Record => TimesMore(s.recorded, [], s.worker.job, j);
      case RecordSent(k) => TimesMore(s.recorded, [], k, j);
      case Drop(k) => TimesMore(s.recorded, [], k, j);
      case _ =>
    }
  }

  lemma {:induction false} CollectedOnce(finished: set<Job>, jobs: seq<Job>, j: Job)
    ensures Times(Collected(finished, jobs), j) == One(j in finished && j in jobs)
    ensures j in Collected(finished, jobs) <==> j in finished && j in jobs
    decreases |jobs|
  {
    if jobs != [] {
      var first := jobs[0];
      assert jobs == [first] + jobs[1..];
      if first in finished {
        CollectedOnce(finished - {first}, jobs[1..], j);
        TimesFront(Collected(finished, jobs), j);
        assert Collected(finished, jobs)[1..] == Collected(finished - {first}, jobs[1..]);
      } else {
        CollectedOnce(finished, jobs[1..], j);
      }
    }
  }

  /** What is recorded is there to collect or was handed out, never both. */
  lemma ResultsKept(s: State, a: Action)
    requires ResultsInv(s) && Enabled(s, a)
    ensures ResultsInv(Do(s, a))
  {
    hide Places, Times, Busy, Collected, Do, Enabled;
    var t := Do(s, a);
    NumbersOn(s, a, 0);
    forall j: Job
      ensures Places(t, j) == One(Numbered(t, j))
      ensures Times(t.recorded, j) == One(j in t.finished) + Times(t.handed, j)
    {
      PlacesKept(s, a, j);
      NumbersOn(s, a, j);
      RecordKept(s, a, j);
    }
  }

  lemma NumbersOn(s: State, a: Action, j: Job)
    requires Enabled(s, a) && s.next >= 1
    ensures One(Numbered(s, j)) + One(Numbers(s, a, j)) == One(Numbered(Do(s, a), j))
    ensures Do(s, a).next >= s.next
  {
    hide Collected;
  }

  lemma RecordKept(s: State, a: Action, j: Job)
    requires Enabled(s, a) && Places(s, j) <= 1 && Times(s.recorded, j) == One(j in s.finished) + Times(s.handed, j)
    ensures var t := Do(s, a); Times(t.recorded, j) == One(j in t.finished) + Times(t.handed, j)
  {
    hide Collected, Times;
    match a
    case Record => TimesMore(s.recorded, [], s.worker.job, j);
    case RecordRead(i) =>
      BusyUpdate(s.readers, i, Free, j);
      TimesMore(s.recorded, [], s.readers[i].job, j);
    case RecordSent(k) => TimesMore(s.recorded, [], k, j);
    case Drop(k) => TimesMore(s.recorded, [], k, j);
    case Collect(jobs) =>
      var done := Collected(s.finished, jobs);
      CollectedOnce(s.finished, jobs, j);
      TimesMore(s.handed, done, 0, j);
      assert j in (set k | k in done) <==> j in done;
    case _ =>
  }

  // ---- over whole runs ----

  lemma {:induction false} NothingBusy(readers: seq<Worker>, j: Job)
    requires forall i :: 0 <= i < |readers| ==> readers[i].Free?
    ensures Busy(readers, j) == 0
  {
    if readers != [] {
      NothingBusy(readers[1..], j);
    }
  }

  lemma Starts(s: State)
    requires Init(s)
    ensures ChangesInv(s) && ResultsInv(s) && OverInv(s) && RefusedInv(s)
  {
    forall j: Job ensures Busy(s.readers, j) == 0 {
      NothingBusy(s.readers, j);
    }
  }

  lemma RefusedKept(s: State, a: Action)
    requires RefusedInv(s) && Enabled(s, a)
    ensures RefusedInv(Do(s, a))
  {
    hide Collected;
  }

  lemma {:induction false} RunKeeps(tr: seq<State>, i: nat)
    requires Run(tr) && i < |tr|
    ensures ChangesInv(tr[i]) && ResultsInv(tr[i]) && OverInv(tr[i]) && RefusedInv(tr[i])
  {
    hide ChangesInv, ResultsInv, OverInv, RefusedInv, Enabled, Do;
    if i == 0 {
      Starts(tr[0]);
    } else {
      RunKeeps(tr, i - 1);
      OneStep(tr, Next, i);
      var a :| Enabled(tr[i - 1], a) && tr[i] == Do(tr[i - 1], a);
      ChangesKept(tr[i - 1], a);
      ResultsKept(tr[i - 1], a);
      OverKept(tr[i - 1], a);
      RefusedKept(tr[i - 1], a);
    }
  }

  /**
   * In every reachable state the change bodies have begun in the order they
   * were asked for, each after the one before it was over; the count covers
   * every change that is not finished, and is none only when there is none.
   */
  lemma ChangesTakeTurns(tr: seq<State>, i: nat)
    requires Run(tr) && i < |tr|
    ensures var s := tr[i];
            && s.began <= s.asked && s.ended <= s.began && |s.began| <= |s.ended| + 1
            && |s.asked| - |s.ended| <= s.waiting
            && (s.waiting == 0 <==> s.queue == [] && s.worker.Free? && !s.main.Counted? && !s.main.Unqueued?)
            && (s.waiting == 0 ==> s.ended == s.asked)
  {
    RunKeeps(tr, i);
  }

  /** Reads begin in the order they were asked for, on as many threads as there are. */
  lemma ReadsBeginInOrder(tr: seq<State>, i: nat)
    requires Run(tr) && i < |tr|
    ensures tr[i].readsBegan <= tr[i].readsAsked
    ensures tr[i].readsAsked == tr[i].readsBegan + tr[i].readLine
  {
    RunKeeps(tr, i);
  }

  /** A result is recorded at most once for a job, and handed to the window at most once, only if recorded. */
  lemma ResultsHandedOnce(tr: seq<State>, i: nat, j: Job)
    requires Run(tr) && i < |tr|
    ensures var s := tr[i];
            && Times(s.recorded, j) <= 1
            && Times(s.handed, j) <= Times(s.recorded, j)
            && (j in s.finished ==> Times(s.handed, j) == 0 && Times(s.recorded, j) == 1)
            && (Times(s.recorded, j) == 1 ==> j in s.finished || Times(s.handed, j) == 1)
            && (j >= s.next ==> Times(s.recorded, j) == 0)
  {
    RunKeeps(tr, i);
    assert Places(tr[i], j) == One(Numbered(tr[i], j));
  }

  /**
   * No job is lost or doubled: one that has its number is in exactly one
   * place, and while the threads are there none is refused.
   */
  lemma EveryJobIsSomewhere(tr: seq<State>, i: nat, j: Job)
    requires Run(tr) && i < |tr|
    ensures Places(tr[i], j) == One(Numbered(tr[i], j))
    ensures tr[i].changes && tr[i].readers != [] ==> j !in tr[i].refused
  {
    RunKeeps(tr, i);
  }

  /**
   * Every change and every read whose body is over and off its thread, and
   * every dialog answered or dropped whose answer is not on its way, is
   * recorded exactly once, so it is there to collect or was handed out; and
   * nothing else ever is recorded.
   */
  lemma OverIsRecorded(tr: seq<State>, i: nat, j: Job)
    requires Run(tr) && i < |tr|
    ensures var s := tr[i];
            && (|| (j in s.ended && s.worker != Ended(j))
                || (j in s.readsOver && !AtReader(s.readers, j))
                || (j in s.answered && j !in s.sent) ==>
                  Times(s.recorded, j) == 1 && One(j in s.finished) + Times(s.handed, j) == 1)
            && (j in s.recorded ==> j in s.ended || j in s.readsOver || j in s.answered)
  {
    hide Busy, AtReader;
    RunKeeps(tr, i);
    assert Places(tr[i], j) == One(Numbered(tr[i], j));
    assert j in tr[i].recorded ==> Times(tr[i].recorded, j) >= 1;
  }

  /** The window is never closed while a change is queued or running, and none is asked for afterwards. */
  lemma NeverClosedOnAChange(tr: seq<State>, i: nat, k: nat)
    requires Run(tr) && i <= k < |tr| && tr[i].main.Gone?
    ensures tr[k].main.Gone? && tr[k].queue == [] && tr[k].worker.Free? && tr[k].ended == tr[k].asked == tr[i].asked
  {
    RunKeeps(tr, k);
    GoneStays(tr, i, k);
  }

  lemma GoneStep(s: State, a: Action)
    requires s.main.Gone? && Enabled(s, a)
    ensures Do(s, a).main.Gone? && Do(s, a).asked == s.asked
  {
    hide Collected;
  }

  lemma {:induction false} GoneStays(tr: seq<State>, i: nat, k: nat)
    requires Run(tr) && i <= k < |tr| && tr[i].main.Gone?
    ensures tr[k].main.Gone? && tr[k].asked == tr[i].asked
    decreases k
  {
    hide Do, Enabled, Init;
    if i < k {
      GoneStays(tr, i, k - 1);
      OneStep(tr, Next, k);
      var a :| Enabled(tr[k - 1], a) && tr[k] == Do(tr[k - 1], a);
      GoneStep(tr[k - 1], a);
    }
  }

  // ---- the program's own code, with the other threads running in between ----

  lemma RunMore(tr: seq<State>, a: Action)
    requires Run(tr) && Enabled(tr[|tr| - 1], a)
    ensures Run(tr + [Do(tr[|tr| - 1], a)])
  {
    hide Do, Enabled, Init;
    StepsMore(tr, Next, Do(tr[|tr| - 1], a));
  }

  /** The steps of the main thread. */
  predicate OnMain(a: Action) {
    || a.AskChange? || a.Count? || a.Queue? || a.TakeBack? || a.AskRead? || a.QueueRead? || a.AskDialog?
    || a.Close? || a.SetClosing? || a.CloseNow? || a.Collect? || a.SeeClosing? || a.SeeWaiting? || a.Destroy?
  }

  /** The steps of the changes thread. */
  predicate OnChanges(a: Action) {
    a.Receive? || a.EndBody? || a.Record? || a.Uncount?
  }

  /** What no other thread changes between two steps of the main thread. */
  predicate MainUndisturbed(s: State, t: State) {
    t.main == s.main && t.next == s.next && t.closing == s.closing && t.asked == s.asked && t.handed == s.handed
    && t.changes == s.changes
  }

  lemma BodyLeavesMain(s: State, a: Action)
    requires Enabled(s, a) && !OnMain(a)
    ensures MainUndisturbed(s, Do(s, a))
  {
    hide Collected;
    match a
    case _ =>
  }

  class World {
    var now: State
    ghost var tr: seq<State>

    ghost predicate Valid()
      reads this
    {
      Run(tr) && tr[|tr| - 1] == now
    }

    constructor (start: State)
      requires Init(start)
      ensures Valid() && now == start
    {
      now, tr := start, [start];
    }

    method Step(a: Action)
      requires Valid() && Enabled(now, a)
      modifies this
      ensures Valid() && now == Do(old(now), a) && tr == old(tr) + [now]
    {
      RunMore(tr, a);
      now := Do(now, a);
      tr := tr + [now];
    }

    lemma ChangesNow()
      requires Valid()
      ensures ChangesInv(now)
    {
      RunKeeps(tr, |tr| - 1);
    }

    /** Whether the count is none says whether a change is in line or at work; a closed window has none. */
    lemma CountNow()
      requires Valid()
      ensures now.waiting >= 0
      ensures now.main.Idle? || now.main.SawClosing? ==> (now.waiting > 0 <==> now.queue != [] || !now.worker.Free?)
      ensures now.main.Gone? || now.main.MayClose? ==> now.ended == now.asked && now.worker.Free?
    {
      ChangesNow();
    }

    /** Any steps of the threads that run bodies and of those that answer dialogs. */
    method Bodies()
      requires Valid()
      modifies this
      ensures Valid() && MainUndisturbed(old(now), now)
    {
      hide Run;
      var n: nat := *;
      while n > 0
        invariant Valid() && MainUndisturbed(old(now), now)
      {
        var a: Action := *;
        if Enabled(now, a) && !OnMain(a) {
          BodyLeavesMain(now, a);
          Step(a);
        }
        n := n - 1;
      }
    }

    /** Any steps but those of the changes thread. */
    method RestOfProgram()
      requires Valid()
      modifies this
      ensures Valid() && now.worker == old(now).worker && now.began == old(now).began && now.ended == old(now).ended
      ensures now.changes == old(now).changes && old(now).asked <= now.asked && old(now).recorded <= now.recorded
    {
      hide Run;
      var n: nat := *;
      while n > 0
        invariant Valid() && now.worker == old(now).worker && now.began == old(now).began && now.ended == old(now).ended
        invariant now.changes == old(now).changes && old(now).asked <= now.asked && old(now).recorded <= now.recorded
      {
        var a: Action := *;
        if Enabled(now, a) && !OnChanges(a) {
          Step(a);
        }
        n := n - 1;
      }
    }

    /** Asks for a change: it goes last in line, or is refused and leaves nothing counted for it. */
    method Change() returns (job: Job, ok: bool)
      requires Valid() && now.main.Idle?
      modifies this
      ensures Valid() && now.main.Idle? && job == old(now).next && now.next == job + 1
      ensures ok <==> old(now).changes
      ensures ok ==> now.asked == old(now).asked + [job]
      ensures !ok ==> now.asked == old(now).asked && now.waiting == 0
    {
      hide Run;
      job := now.next;
      Step(AskChange);
      Bodies();
      Step(Count);
      Bodies();
      Step(Queue);
      if now.main.Unqueued? {
        Bodies();
        Step(TakeBack);
        ChangesNow();
        NoThread(tr);
        return job, false;
      }
      return job, true;
    }

    /** One turn of the changes thread: the change that has waited longest, from its body to its result. */
    method NextChange()
      requires Valid() && now.changes && now.worker.Free? && now.queue != []
      modifies this
      ensures Valid() && now.worker.Free?
      ensures |now.ended| == |old(now).ended| + 1 && now.ended == now.began <= now.asked
      ensures now.ended[|now.ended| - 1] == old(now).queue[0]
      ensures Times(now.recorded, old(now).queue[0]) == 1
      ensures One(old(now).queue[0] in now.finished) + Times(now.handed, old(now).queue[0]) == 1
    {
      hide Run;
      ghost var job := now.queue[0];
      ChangesNow();
      Step(Receive);
      RestOfProgram();
      Step(EndBody);
      RestOfProgram();
      Step(Record);
      assert now.recorded[|now.recorded| - 1] == job;
      RestOfProgram();
      Step(Uncount);
      ChangesNow();
      OverIsRecorded(tr, |tr| - 1, job);
    }

    /** The user closes the window: whether the window has to wait. */
    method CloseAfterChanges() returns (waits: bool)
      requires Valid() && now.main.Idle?
      modifies this
      ensures Valid()
      ensures waits <==> old(now).queue != [] || !old(now).worker.Free?
      ensures waits ==> now.closing && now.main.Idle?
      ensures !waits ==> now.main.MayClose? && now.ended == now.asked && now.worker.Free?
    {
      hide Run;
      CountNow();
      Step(Close);
      if now.main.MayClose? {
        CountNow();
        return false;
      }
      Bodies();
      Step(SetClosing);
      return true;
    }

    /** Hands finished jobs to the window, and closes it if a close waited for changes that are now all over. */
    method TakeResults(jobs: seq<Job>) returns (done: seq<Job>)
      requires Valid() && now.main.Idle?
      modifies this
      ensures Valid() && (now.main.Idle? || now.main.Gone?)
      ensures done == Collected(old(now).finished, jobs) && now.handed == old(now).handed + done
      ensures now.main.Gone? ==> old(now).closing && now.ended == now.asked && now.worker.Free?
      ensures old(now).closing && now.main.Idle? ==> now.queue != [] || !now.worker.Free?
    {
      hide Run, Collected, ChangesInv;
      var finished := now.finished;
      done := Gather(finished, jobs);
      Step(Collect(jobs));
      CloseIfOver();
    }

    /** Closes the window if a close waited, unless a change is in line or at work. */
    method CloseIfOver()
      requires Valid() && now.main.Took?
      modifies this
      ensures Valid() && now.handed == old(now).handed && now.closing == old(now).closing
      ensures now.main.Gone? || now.main.Idle?
      ensures now.main.Gone? ==> now.closing && now.ended == now.asked && now.worker.Free?
      ensures now.main.Idle? && now.closing ==> now.queue != [] || !now.worker.Free?
    {
      hide Run, Collected, ChangesInv;
      Bodies();
      Step(SeeClosing);
      if now.main.Idle? {
        return;
      }
      Bodies();
      CountNow();
      Step(SeeWaiting);
      if now.main.Idle? {
        return;
      }
      Bodies();
      Step(Destroy);
      CountNow();
    }
  }

  /** The results asked for that are there, taken out one by one. */
  method Gather(finished: set<Job>, jobs: seq<Job>) returns (done: seq<Job>)
    ensures done == Collected(finished, jobs)
  {
    var left := finished;
    done := [];
    var k := 0;
    assert jobs[0..] == jobs;
    while k < |jobs|
      invariant k <= |jobs| && Collected(finished, jobs) == done + Collected(left, jobs[k..])
    {
      var job := jobs[k];
      assert jobs[k..][0] == job && jobs[k..][1..] == jobs[k + 1..];
      if job in left {
        left := left - {job};
        done := done + [job];
      }
      k := k + 1;
    }
  }

  /** Without the changes thread nothing is ever counted once the main thread is idle. */
  lemma NoThread(tr: seq<State>)
    requires Run(tr)
    ensures var s := tr[|tr| - 1]; !s.changes && s.main.Idle? ==> s.waiting == 0
  {
    RunKeeps(tr, |tr| - 1);
  }
}
