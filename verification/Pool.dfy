/** The thread pool as a transition system: workers and waiting threads. */
module Pool {
  import opened Common

  type Task = nat

  // ----- the shared part ---------------------------------------------------------------------

  // One step is one pass through the code under the mutex.

  datatype Shared = Shared(queue: seq<Task>, pending: int, shutdown: bool)

  function Submitted(p: Shared, t: Task): Shared { p.(queue := p.queue + [t], pending := p.pending + 1) }

  datatype Pick = Sleep | Quit | Run(t: Task)

  /** What a worker does with the mutex at the top of its loop. */
  function PickUp(p: Shared): (Shared, Pick) {
    if p.queue == [] then (p, if p.shutdown then Quit else Sleep)
    else (p.(queue := p.queue[1..]), Run(p.queue[0]))
  }

  function Finished(p: Shared): Shared { p.(pending := p.pending - 1) }

  // ----- threads -----------------------------------------------------------------------------

  /** AtTop: on the way to the mutex.  Asleep, Signalled, Woken: in the wait, chosen by a signal or
      broadcast, woken for no reason. */
  datatype Mode = AtTop | Asleep | Signalled | Woken | Running | Exited

  datatype Worker = Worker(mode: Mode, task: Task)

  type Tid = nat

  /** waiting: the threads in a wait call.  submitted, started and finished are histories. */
  datatype Sys = Sys(p: Shared, workers: map<Tid, Worker>, waiting: map<Tid, Mode>,
                     submitted: seq<Task>, started: seq<Task>, finished: seq<Task>)

  function In(ws: map<Tid, Worker>, m: Mode): set<Tid> { set w | w in ws && ws[w].mode == m }

  function WaitersIn(ws: map<Tid, Mode>, m: Mode): set<Tid> { set w | w in ws && ws[w] == m }

  function To(ws: map<Tid, Worker>, w: Tid, m: Mode): map<Tid, Worker>
    requires w in ws
  {
    ws[w := ws[w].(mode := m)]
  }

  predicate CanSignal(ws: map<Tid, Worker>, w: Tid) { In(ws, Asleep) == {} || w in In(ws, Asleep) }

  function Signal(ws: map<Tid, Worker>, w: Tid): map<Tid, Worker> {
    if w in In(ws, Asleep) then To(ws, w, Signalled) else ws
  }

  function WakeWorkers(ws: map<Tid, Worker>): map<Tid, Worker> {
    map w | w in ws :: if ws[w].mode == Asleep then ws[w].(mode := Signalled) else ws[w]
  }

  function WakeWaiters(ws: map<Tid, Mode>): map<Tid, Mode> {
    map w | w in ws :: if ws[w] == Asleep then Signalled else ws[w]
  }

  datatype Action =
    | Submit(t: Task, w: Tid)      // w is the worker that is signalled, if any sleeps
    | Pass(w: Tid)                 // a worker at the top of its loop gets the mutex
    | Done(w: Tid)                 // its task has returned
    | CallWait(t: Tid)
    | WaitPass(t: Tid)
    | Shutdown
    | WakeWorker(w: Tid)           // spurious
    | WakeWaiter(t: Tid)           // spurious

  predicate MayPass(m: Mode) { m == AtTop || m == Signalled || m == Woken }

  function Step(s: Sys, a: Action): Option<Sys> {
    match a
    case Submit(t, w) =>
      if CanSignal(s.workers, w)
      then Some(s.(p := Submitted(s.p, t), workers := Signal(s.workers, w), submitted := s.submitted + [t]))
      else None
    case Pass(w) =>
      if w in s.workers && MayPass(s.workers[w].mode) then
        match PickUp(s.p)
        case (_, Sleep) => Some(s.(workers := To(s.workers, w, Asleep)))
        case (_, Quit) => Some(s.(workers := To(s.workers, w, Exited)))
        case (p, Run(t)) => Some(s.(p := p, workers := s.workers[w := Worker(Running, t)], started := s.started + [t]))
      else None
    case Done(w) =>
      if w in s.workers && s.workers[w].mode == Running then
        var p := Finished(s.p);
        Some(s.(p := p, workers := To(s.workers, w, AtTop), finished := s.finished + [s.workers[w].task],
                waiting := if p.pending == 0 then WakeWaiters(s.waiting) else s.waiting))
      else None
    case CallWait(t) => if t in s.waiting then None else Some(s.(waiting := s.waiting[t := AtTop]))
    case WaitPass(t) =>
      if t in s.waiting && MayPass(s.waiting[t]) then
        Some(s.(waiting := if s.p.pending > 0 then s.waiting[t := Asleep] else s.waiting - {t}))
      else None
    case Shutdown => Some(s.(p := s.p.(shutdown := true), workers := WakeWorkers(s.workers)))
    case WakeWorker(w) =>
      if w in s.workers && s.workers[w].mode == Asleep
      then Some(s.(workers := To(s.workers, w, Woken))) else None
    case WakeWaiter(t) =>
      if t in s.waiting && s.waiting[t] == Asleep then Some(s.(waiting := s.waiting[t := Woken])) else None
  }

  /** n workers, or four when n is not positive. */
  function Start(n: int): Sys {
    Sys(Shared([], 0, false), Fresh(if n <= 0 then 4 else n), map[], [], [], [])
  }

  function Fresh(n: nat): map<Tid, Worker> {
    if n == 0 then map[] else Fresh(n - 1)[n - 1 := Worker(AtTop, 0)]
  }

  function RunAll(s: Sys, run: seq<Action>): Option<Sys>
    decreases |run|
  {
    if run == [] then Some(s)
    else
      match Step(s, run[0])
      case Some(s1) => RunAll(s1, run[1..])
      case None => None
  }

  // ----- invariants --------------------------------------------------------------------------

  /** The tasks that are running, by worker. */
  function Tasks(ws: map<Tid, Worker>, t: Task): set<Tid> {
    set w | w in ws && ws[w].mode == Running && ws[w].task == t
  }

  predicate Counts(s: Sys) {
    && s.p.pending == |s.p.queue| + |In(s.workers, Running)|
    && s.submitted == s.started + s.p.queue
  }

  /** A task has been started as often as it has been finished and is running. */
  ghost predicate Runs(s: Sys) {
    forall t :: multiset(s.started)[t] == multiset(s.finished)[t] + |Tasks(s.workers, t)|
  }

  predicate Awake(s: Sys) {
    && (WaitersIn(s.waiting, Asleep) != {} ==> s.p.pending > 0)
    && (In(s.workers, Asleep) != {} ==> !s.p.shutdown && |s.p.queue| <= |In(s.workers, Signalled)|)
    && (In(s.workers, Exited) != {} ==> s.p.shutdown)
    && s.workers != map[]
  }

  ghost predicate Inv(s: Sys) { Counts(s) && Runs(s) && Awake(s) }

  lemma InPut(ws: map<Tid, Worker>, w: Tid, x: Worker, m: Mode)
    ensures In(ws[w := x], m) == In(ws, m) - {w} + (if x.mode == m then {w} else {})
  {}

  lemma TasksPut(ws: map<Tid, Worker>, w: Tid, x: Worker, t: Task)
    ensures Tasks(ws[w := x], t) == Tasks(ws, t) - {w} + (if x.mode == Running && x.task == t then {w} else {})
  {}

  /** A worker moves between modes in which it runs nothing. */
  lemma MoveKeeps(s: Sys, w: Tid, m: Mode)
    requires Counts(s) && Runs(s) && w in s.workers && s.workers[w].mode != Running && m != Running
    ensures Counts(s.(workers := To(s.workers, w, m))) && Runs(s.(workers := To(s.workers, w, m)))
  {
    var s1, x := s.(workers := To(s.workers, w, m)), s.workers[w].(mode := m);
    assert w !in In(s.workers, Running);
    InPut(s.workers, w, x, Running);
    forall t ensures multiset(s1.started)[t] == multiset(s1.finished)[t] + |Tasks(s1.workers, t)| {
      TasksPut(s.workers, w, x, t);
      assert w !in Tasks(s.workers, t);
    }
  }

  lemma SignalSets(ws: map<Tid, Worker>, w: Tid)
    requires CanSignal(ws, w)
    ensures In(Signal(ws, w), Asleep) <= In(ws, Asleep)
    ensures In(ws, Asleep) != {} ==> |In(Signal(ws, w), Signalled)| == |In(ws, Signalled)| + 1
    ensures In(Signal(ws, w), Exited) == In(ws, Exited)
  {
    if w in In(ws, Asleep) {
      assert w !in In(ws, Signalled) && w !in In(ws, Exited);
      hide In;
      InPut(ws, w, ws[w].(mode := Signalled), Asleep);
      InPut(ws, w, ws[w].(mode := Signalled), Signalled);
      InPut(ws, w, ws[w].(mode := Signalled), Exited);
    }
  }

  lemma SubmitKeeps(s: Sys, t: Task, w: Tid)
    requires Inv(s) && CanSignal(s.workers, w)
    ensures Inv(Step(s, Submit(t, w)).value)
  {
    hide CanSignal, Runs;
    var s1 := Step(s, Submit(t, w)).value;
    SignalSets(s.workers, w);
    if w in In(s.workers, Asleep) {
      MoveKeeps(s, w, Signalled);
    }
    assert s.submitted + [t] == s.started + s1.p.queue;
    var s2 := s.(workers := Signal(s.workers, w));
    assert Counts(s2) && Runs(s2);
    RunsSame(s2, s1);
  }

  lemma RunsSame(s: Sys, s1: Sys)
    requires Runs(s) && s1.workers == s.workers && s1.started == s.started && s1.finished == s.finished
    ensures Runs(s1)
  {}

  lemma PassKeeps(s: Sys, w: Tid)
    requires Inv(s) && Step(s, Pass(w)).Some?
    ensures Inv(Step(s, Pass(w)).value)
  {
    hide Runs;
    var s1 := Step(s, Pass(w)).value;
    match PickUp(s.p) {
      case (_, Sleep) =>
        MoveKeeps(s, w, Asleep);
        assert w !in In(s1.workers, Exited);
        assert In(s1.workers, Exited) <= In(s.workers, Exited);
      case (_, Quit) =>
        MoveKeeps(s, w, Exited);
        assert In(s1.workers, Asleep) <= In(s.workers, Asleep);
      case (p, Run(t)) => TakeKeeps(s, w, s1);
    }
  }

  /** How many workers are in a mode after one of them changes. */
  lemma InChange(ws: map<Tid, Worker>, w: Tid, x: Worker, m: Mode)
    requires w in ws
    ensures |In(ws[w := x], m)|
            == |In(ws, m)| - (if ws[w].mode == m then 1 else 0) + (if x.mode == m then 1 else 0)
    ensures x.mode != m ==> In(ws[w := x], m) <= In(ws, m)
  {
    InPut(ws, w, x, m);
    assert w in In(ws, m) <==> ws[w].mode == m;
  }

  lemma TakeKeeps(s: Sys, w: Tid, s1: Sys)
    requires Inv(s) && Step(s, Pass(w)) == Some(s1) && s.p.queue != []
    ensures Inv(s1)
  {
    hide Runs, In;
    var x := Worker(Running, s.p.queue[0]);
    InChange(s.workers, w, x, Running);
    InChange(s.workers, w, x, Asleep);
    InChange(s.workers, w, x, Signalled);
    InChange(s.workers, w, x, Exited);
    assert s.started + s.p.queue == s1.started + s1.p.queue;
    TakeRuns(s, w, s1);
  }

  lemma TakeRuns(s: Sys, w: Tid, s1: Sys)
    requires Runs(s) && Step(s, Pass(w)) == Some(s1) && s.p.queue != []
    ensures Runs(s1)
  {
    forall t ensures multiset(s1.started)[t] == multiset(s1.finished)[t] + |Tasks(s1.workers, t)| {
      TasksPut(s.workers, w, Worker(Running, s.p.queue[0]), t);
      assert w !in Tasks(s.workers, t);
    }
  }

  lemma DoneKeeps(s: Sys, w: Tid)
    requires Inv(s) && Step(s, Done(w)).Some?
    ensures Inv(Step(s, Done(w)).value)
  {
    hide Runs, In, WaitersIn, WakeWaiters;
    var x := s.workers[w].(mode := AtTop);
    InChange(s.workers, w, x, Running);
    InChange(s.workers, w, x, Asleep);
    InChange(s.workers, w, x, Signalled);
    InChange(s.workers, w, x, Exited);
    DoneRuns(s, w);
    NoneAsleep(s.waiting);
  }

  lemma NoneAsleep(ws: map<Tid, Mode>)
    ensures WaitersIn(WakeWaiters(ws), Asleep) == {}
  {}

  lemma DoneRuns(s: Sys, w: Tid)
    requires Runs(s) && Step(s, Done(w)).Some?
    ensures Runs(Step(s, Done(w)).value)
  {
    var s1, x := Step(s, Done(w)).value, s.workers[w].(mode := AtTop);
    forall t ensures multiset(s1.started)[t] == multiset(s1.finished)[t] + |Tasks(s1.workers, t)| {
      TasksPut(s.workers, w, x, t);
      assert w in Tasks(s.workers, t) <==> t == s.workers[w].task;
    }
  }

  lemma StepKeeps(s: Sys, a: Action)
    requires Inv(s) && Step(s, a).Some?
    ensures Inv(Step(s, a).value)
  {
    var s1 := Step(s, a).value;
    match a {
      case Submit(t, w) => SubmitKeeps(s, t, w);
      case Pass(w) => PassKeeps(s, w);
      case Done(w) => DoneKeeps(s, w);
      case CallWait(t) => assert WaitersIn(s1.waiting, Asleep) == WaitersIn(s.waiting, Asleep);
      case WaitPass(t) =>
        assert s.p.pending <= 0 ==> WaitersIn(s1.waiting, Asleep) <= WaitersIn(s.waiting, Asleep);
      case Shutdown => ShutdownKeeps(s);
      case WakeWorker(w) =>
        MoveKeeps(s, w, Woken);
        assert In(s1.workers, Asleep) <= In(s.workers, Asleep);
        assert In(s1.workers, Signalled) == In(s.workers, Signalled);
        assert In(s1.workers, Exited) == In(s.workers, Exited);
      case WakeWaiter(t) => assert WaitersIn(s1.waiting, Asleep) <= WaitersIn(s.waiting, Asleep);
    }
  }

  lemma ShutdownKeeps(s: Sys)
    requires Inv(s)
    ensures Inv(Step(s, Shutdown).value)
  {
    var s1 := Step(s, Shutdown).value;
    assert In(s1.workers, Asleep) == {};
    assert In(s1.workers, Running) == In(s.workers, Running);
    forall t ensures Tasks(s1.workers, t) == Tasks(s.workers, t) {}
    var w :| w in s.workers;
    assert w in s1.workers;
  }

  lemma {:induction false} FreshModes(n: nat)
    ensures forall w :: w in Fresh(n) ==> Fresh(n)[w].mode == AtTop
    ensures n > 0 ==> Fresh(n) != map[]
  {
    if n > 0 {
      FreshModes(n - 1);
      assert n - 1 in Fresh(n);
    }
  }

  lemma StartInv(n: int)
    ensures Inv(Start(n))
  {
    hide Fresh;
    var s := Start(n);
    FreshModes(if n <= 0 then 4 else n);
    forall t ensures Tasks(s.workers, t) == {} {}
    assert In(s.workers, Running) == {} && In(s.workers, Asleep) == {} && In(s.workers, Exited) == {};
    assert WaitersIn(s.waiting, Asleep) == {};
  }

  lemma {:induction false} RunKeeps(s: Sys, run: seq<Action>)
    requires Inv(s) && RunAll(s, run).Some?
    ensures Inv(RunAll(s, run).value)
    decreases |run|
  {
    hide Inv, Step;
    if run != [] {
      StepKeeps(s, run[0]);
      RunKeeps(Step(s, run[0]).value, run[1..]);
    }
  }

  // ----- results -----------------------------------------------------------------------------

  /** After any run, with any number of workers, submitters and waiting threads: pending counts what is
      queued or running; tasks start in the order of submission and are finished at most as often as
      started; a sleeping wait has something to wait for; and before the shutdown no queued task is
      left without a signalled worker while another worker sleeps. */
  lemma PoolAccounting(n: int, run: seq<Action>)
    requires RunAll(Start(n), run).Some?
    ensures var s := RunAll(Start(n), run).value;
            && s.p.pending == |s.p.queue| + |In(s.workers, Running)|
            && s.submitted == s.started + s.p.queue
            && (forall t :: multiset(s.started)[t] == multiset(s.finished)[t] + |Tasks(s.workers, t)|)
            && (WaitersIn(s.waiting, Asleep) != {} ==> s.p.pending > 0)
            && (In(s.workers, Asleep) != {} ==>
                  !s.p.shutdown && |s.p.queue| <= |In(s.workers, Signalled)|)
  {
    hide Step, In;
    StartInv(n);
    RunKeeps(Start(n), run);
  }

  /** A wait returns only when everything submitted so far is finished. */
  lemma WaitSeesAllDone(n: int, run: seq<Action>, t: Tid)
    requires RunAll(Start(n), run).Some?
    requires var s := RunAll(Start(n), run).value;
             t in s.waiting && Step(s, WaitPass(t)).Some? && t !in Step(s, WaitPass(t)).value.waiting
    ensures var s := RunAll(Start(n), run).value;
            && s.p.queue == [] && In(s.workers, Running) == {}
            && multiset(s.finished) == multiset(s.submitted)
  {
    hide RunAll;
    StartInv(n);
    RunKeeps(Start(n), run);
    var s := RunAll(Start(n), run).value;
    forall x ensures multiset(s.finished)[x] == multiset(s.submitted)[x] {
      assert Tasks(s.workers, x) <= In(s.workers, Running);
      assert s.submitted == s.started;
    }
  }

  predicate Active(m: Mode) { m != Asleep && m != Exited }

  /** A sleeping wait is never stuck: until the last worker exits, some worker can go on by itself. */
  lemma WaiterIsNotStuck(n: int, run: seq<Action>)
    requires RunAll(Start(n), run).Some?
    requires var s := RunAll(Start(n), run).value;
             WaitersIn(s.waiting, Asleep) != {} && exists w :: w in s.workers && s.workers[w].mode != Exited
    ensures var s := RunAll(Start(n), run).value;
            exists w :: w in s.workers && Active(s.workers[w].mode)
  {
    hide RunAll;
    StartInv(n);
    RunKeeps(Start(n), run);
    var s := RunAll(Start(n), run).value;
    var w :| w in s.workers && s.workers[w].mode != Exited;
    if s.workers[w].mode == Asleep {
      assert w in In(s.workers, Asleep);
      if s.p.queue == [] {
        var r :| r in In(s.workers, Running);
        assert Active(s.workers[r].mode);
      } else {
        var r :| r in In(s.workers, Signalled);
        assert Active(s.workers[r].mode);
      }
    } else {
      assert Active(s.workers[w].mode);
    }
  }

  predicate AllExited(s: Sys) { forall w :: w in s.workers ==> s.workers[w].mode == Exited }

  /** When the last worker exits, nothing is queued and nothing is running. */
  lemma LastExitLeavesNothing(n: int, run: seq<Action>, w: Tid)
    requires RunAll(Start(n), run).Some?
    requires var s := RunAll(Start(n), run).value;
             !AllExited(s) && Step(s, Pass(w)).Some? && AllExited(Step(s, Pass(w)).value)
    ensures var s := RunAll(Start(n), run).value;
            && s.p.queue == [] && s.p.pending == 0 && s.started == s.submitted
            && multiset(s.finished) == multiset(s.submitted)
  {
    hide RunAll;
    StartInv(n);
    RunKeeps(Start(n), run);
    var s := RunAll(Start(n), run).value;
    var s1 := Step(s, Pass(w)).value;
    assert s1.workers[w].mode == Exited;
    assert In(s.workers, Running) == {} by {
      forall v | v in s.workers ensures s.workers[v].mode != Running {
        assert v in s1.workers && s1.workers[v].mode == Exited;
      }
    }
    forall x ensures multiset(s.finished)[x] == multiset(s.submitted)[x] {
      assert Tasks(s.workers, x) <= In(s.workers, Running);
    }
  }

  // ----- after the shutdown ------------------------------------------------------------------

  /** What is left to do: two steps per queued task, one per running task, one per worker. */
  function Left(s: Sys): nat {
    2 * |s.p.queue| + |In(s.workers, Running)| + |Alive(s.workers)|
  }

  function Alive(ws: map<Tid, Worker>): set<Tid> { set w | w in ws && ws[w].mode != Exited }

  predicate WorkerStep(a: Action) { a.Pass? || a.Done? }

  function WorkerSteps(run: seq<Action>): nat {
    if run == [] then 0 else (if WorkerStep(run[0]) then 1 else 0) + WorkerSteps(run[1..])
  }

  predicate NoSubmit(run: seq<Action>) { forall i :: 0 <= i < |run| ==> !run[i].Submit? }

  /** One worker changes from a mode that is not Asleep to one that is not. */
  lemma ChangeLeft(ws: map<Tid, Worker>, w: Tid, x: Worker)
    requires w in ws && In(ws, Asleep) == {} && x.mode != Asleep && ws[w].mode != Exited
    ensures In(ws[w := x], Asleep) == {}
    ensures |In(ws[w := x], Running)|
            == |In(ws, Running)| - (if ws[w].mode == Running then 1 else 0) + (if x.mode == Running then 1 else 0)
    ensures |Alive(ws[w := x])| == |Alive(ws)| - (if x.mode == Exited then 1 else 0)
  {
    InChange(ws, w, x, Asleep);
    InChange(ws, w, x, Running);
    assert w in Alive(ws);
    assert Alive(ws[w := x]) == Alive(ws) - (if x.mode == Exited then {w} else {});
  }

  lemma StepLeft(s: Sys, a: Action)
    requires s.p.shutdown && In(s.workers, Asleep) == {} && Step(s, a).Some? && !a.Submit?
    ensures var s1 := Step(s, a).value;
            && s1.p.shutdown && In(s1.workers, Asleep) == {}
            && Left(s1) + (if WorkerStep(a) then 1 else 0) == Left(s)
  {
    var s1 := Step(s, a).value;
    NoSleeper(s.workers);
    hide In, Alive;
    match a {
      case Pass(w) => ChangeLeft(s.workers, w, s1.workers[w]);
      case Done(w) => ChangeLeft(s.workers, w, s1.workers[w]);
      case Shutdown => NoneToWake(s.workers);
      case _ =>
    }
  }

  lemma NoSleeper(ws: map<Tid, Worker>)
    requires In(ws, Asleep) == {}
    ensures forall w :: w in ws ==> ws[w].mode != Asleep
  {
    forall w | w in ws ensures ws[w].mode != Asleep { assert w !in In(ws, Asleep); }
  }

  lemma NoneToWake(ws: map<Tid, Worker>)
    requires In(ws, Asleep) == {}
    ensures WakeWorkers(ws) == ws
  {
    NoSleeper(ws);
  }

  /** A shutdown pool drains: once nothing more is submitted, workers take at most Left more steps,
      and until all of them have exited one can always take another. */
  lemma {:induction false} ShutdownDrains(s: Sys, run: seq<Action>)
    requires s.p.shutdown && In(s.workers, Asleep) == {} && RunAll(s, run).Some? && NoSubmit(run)
    ensures var s1 := RunAll(s, run).value;
            && WorkerSteps(run) + Left(s1) == Left(s)
            && (AllExited(s1) || exists w :: w in s1.workers && Active(s1.workers[w].mode))
    decreases |run|
  {
    hide Step, Left;
    if run == [] {
      if !AllExited(s) {
        var w :| w in s.workers && s.workers[w].mode != Exited;
        assert w !in In(s.workers, Asleep);
        assert Active(s.workers[w].mode);
      }
    } else {
      StepLeft(s, run[0]);
      ShutdownDrains(Step(s, run[0]).value, run[1..]);
    }
  }

  /** The failing case: a task that is submitted after the last worker has exited stays queued for
      ever, and a wait for it sleeps for ever. */
  lemma {:induction false} SubmitAfterExitIsLost(s: Sys, run: seq<Action>)
    requires AllExited(s) && s.p.pending > 0 && RunAll(s, run).Some?
    ensures var s1 := RunAll(s, run).value;
            && AllExited(s1) && s1.p.pending > 0 && s.p.queue <= s1.p.queue && s1.started == s.started
            && s.waiting.Keys <= s1.waiting.Keys
    decreases |run|
  {
    hide RunAll;
    if run != [] {
      assert Step(s, run[0]).Some? by { RunFirst(s, run); }
      var s1 := Step(s, run[0]).value;
      assert In(s.workers, Asleep) == {};
      assert AllExited(s1) && s1.p.pending > 0 && s.p.queue <= s1.p.queue && s1.started == s.started;
      RunFirst(s, run);
      SubmitAfterExitIsLost(s1, run[1..]);
    } else {
      RunFirst(s, run);
    }
  }

  lemma RunFirst(s: Sys, run: seq<Action>)
    requires RunAll(s, run).Some?
    ensures run == [] ==> RunAll(s, run) == Some(s)
    ensures run != [] ==> Step(s, run[0]).Some? && RunAll(s, run) == RunAll(Step(s, run[0]).value, run[1..])
  {}

  /** Such a state is reached: one worker, shutdown, it exits, and then a task is submitted. */
  lemma SubmitAfterExitHappens(t: Task)
    ensures var s := Sys(Shared([t], 1, true), map[0 := Worker(Exited, 0)], map[], [t], [], []);
            && RunAll(Start(1), [Shutdown, Pass(0), Submit(t, 0)]) == Some(s)
            && AllExited(s) && s.p.pending > 0
  {
    var top, gone := map[0 := Worker(AtTop, 0)], map[0 := Worker(Exited, 0)];
    assert Fresh(1) == top by { assert Fresh(0) == map[]; }
    var s0 := Sys(Shared([], 0, false), top, map[], [], [], []);
    var s1 := s0.(p := Shared([], 0, true));
    var s2 := s1.(workers := gone);
    assert Start(1) == s0;
    assert Step(s0, Shutdown) == Some(s1) by { assert WakeWorkers(top) == top; }
    assert Step(s1, Pass(0)) == Some(s2) by { assert To(top, 0, Exited) == gone; }
    var s3 := s2.(p := Shared([t], 1, true), submitted := [t]);
    assert Step(s2, Submit(t, 0)) == Some(s3) by {
      assert In(gone, Asleep) == {};
      assert s2.p.queue + [t] == [t] && s2.submitted + [t] == [t];
    }
    var run := [Shutdown, Pass(0), Submit(t, 0)];
    assert run[1..] == [Pass(0), Submit(t, 0)] && run[1..][1..] == [Submit(t, 0)] && run[1..][1..][1..] == [];
    hide Step;
    assert RunAll(s3, []) == Some(s3);
    assert RunAll(s2, [Submit(t, 0)]) == Some(s3);
    assert RunAll(s1, run[1..]) == Some(s3);
  }

  /** Until all workers have exited, the last one to go leaves an empty queue; without new
      submissions it stays so. */
  lemma {:induction false} DrainedQueue(s: Sys, run: seq<Action>)
    requires Inv(s) && RunAll(s, run).Some? && NoSubmit(run) && AllExited(RunAll(s, run).value)
    requires AllExited(s) ==> s.p.queue == []
    ensures RunAll(s, run).value.p.queue == []
    decreases |run|
  {
    hide RunAll, Inv;
    RunFirst(s, run);
    if run != [] {
      var s1 := Step(s, run[0]).value;
      StepKeeps(s, run[0]);
      assert !run[0].Submit?;
      if AllExited(s1) && !AllExited(s) { LastGone(s, run[0]); }
      if AllExited(s) { assert s1.p.queue == [] by { GoneStays(s, run[0]); } }
      DrainedQueue(s1, run[1..]);
    }
  }

  lemma GoneStays(s: Sys, a: Action)
    requires AllExited(s) && s.p.queue == [] && Step(s, a).Some? && !a.Submit?
    ensures Step(s, a).value.p.queue == []
  {}

  lemma LastGone(s: Sys, a: Action)
    requires !AllExited(s) && Step(s, a).Some? && AllExited(Step(s, a).value)
    ensures Step(s, a).value.p.queue == []
  {
    var s1 := Step(s, a).value;
    var w :| w in s.workers && s.workers[w].mode != Exited;
    assert w in s1.workers;
  }

  /** A task that is submitted to a pool which later has lost all its workers, with nothing more
      submitted, has been started if and only if some worker was left at the submission. */
  lemma StartedIffAWorkerWasLeft(n: int, before: seq<Action>, t: Task, w: Tid, after: seq<Action>)
    requires RunAll(Start(n), before).Some?
    requires Step(RunAll(Start(n), before).value, Submit(t, w)).Some?
    requires var s := Step(RunAll(Start(n), before).value, Submit(t, w)).value;
             RunAll(s, after).Some? && NoSubmit(after) && AllExited(RunAll(s, after).value)
    ensures var s0 := RunAll(Start(n), before).value;
            var s2 := RunAll(Step(s0, Submit(t, w)).value, after).value;
            && (s2.started == s2.submitted <==> !AllExited(s0))
            && s0.submitted + [t] == s2.submitted
  {
    hide RunAll, Inv, Counts;
    StartInv(n);
    RunKeeps(Start(n), before);
    var s0 := RunAll(Start(n), before).value;
    StepKeeps(s0, Submit(t, w));
    var s1 := Step(s0, Submit(t, w)).value;
    RunKeeps(s1, after);
    var s2 := RunAll(s1, after).value;
    SameSubmitted(s1, after);
    SubmitExits(s0, t, w);
    QueueIsRest(s0);
    QueueIsRest(s1);
    QueueIsRest(s2);
    if AllExited(s0) {
      SubmitAfterExitIsLost(s1, after);
    } else {
      DrainedQueue(s1, after);
    }
  }

  lemma QueueIsRest(s: Sys)
    requires Inv(s)
    ensures s.submitted == s.started + s.p.queue && s.p.pending >= |s.p.queue|
    ensures s.started == s.submitted <==> s.p.queue == []
  {}

  lemma SubmitExits(s: Sys, t: Task, w: Tid)
    requires Step(s, Submit(t, w)).Some?
    ensures var s1 := Step(s, Submit(t, w)).value;
            && (AllExited(s1) <==> AllExited(s)) && s1.p.queue == s.p.queue + [t]
            && s1.submitted == s.submitted + [t]
  {
    var s1 := Step(s, Submit(t, w)).value;
    if !AllExited(s) {
      var v :| v in s.workers && s.workers[v].mode != Exited;
      assert v in s1.workers && s1.workers[v].mode != Exited;
    }
  }

  lemma {:induction false} SameSubmitted(s: Sys, run: seq<Action>)
    requires RunAll(s, run).Some? && NoSubmit(run)
    ensures RunAll(s, run).value.submitted == s.submitted
    decreases |run|
  {
    hide RunAll;
    RunFirst(s, run);
    if run != [] {
      assert !run[0].Submit?;
      SameSubmitted(Step(s, run[0]).value, run[1..]);
    }
  }
}
