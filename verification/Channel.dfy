/** A bounded channel as a transition system over any number of threads. */
module Channel {
  import opened Common

  type Val = int

  // ----- the channel -------------------------------------------------------------------------

  // A thread holds the mutex from lock to unlock or wait, so each pass through that code is one step.

  /** cap <= 0 is the unbounded channel. */
  datatype Chan = Chan(cap: int, items: seq<Val>, closed: bool)

  predicate Full(c: Chan) { c.cap > 0 && |c.items| >= c.cap }

  /** What one pass of a send does: wait for room, be dropped by a closed channel, or be accepted. */
  datatype SendResult = MustWait | Dropped | Accepted

  function SendPass(c: Chan, v: Val): (Chan, SendResult) {
    if !c.closed && Full(c) then (c, MustWait)
    else if c.closed then (c, Dropped)
    else (c.(items := c.items + [v]), Accepted)
  }

  datatype RecvResult = Waits | Ended | Got(v: Val)

  function RecvPass(c: Chan): (Chan, RecvResult) {
    if c.items == [] then (c, if c.closed then Ended else Waits)
    else (c.(items := c.items[1..]), Got(c.items[0]))
  }

  function TrySend(c: Chan, v: Val): (Chan, bool) {
    if c.closed || Full(c) then (c, false) else (c.(items := c.items + [v]), true)
  }

  /** Without waiting; Waits stands for the answer that nothing is there yet. */
  function TryRecv(c: Chan): (Chan, RecvResult) { RecvPass(c) }

  function Close(c: Chan): Chan { c.(closed := true) }

  // ----- threads -----------------------------------------------------------------------------

  datatype Role = Sender | Receiver

  /** Ready: has called and waits for the mutex.  Asleep: in a condition wait.  Signalled: chosen by a
      signal or broadcast.  Woken: woken for no reason.  The last two still need the mutex. */
  datatype Mode = Ready | Asleep | Signalled | Woken

  datatype Phase = Phase(role: Role, mode: Mode, v: Val)

  type Tid = nat

  /** Threads outside the map are not in a call.  accepted and delivered record what went in and out. */
  datatype Sys = Sys(chan: Chan, threads: map<Tid, Phase>, accepted: seq<Val>, delivered: seq<Val>)

  function In(threads: map<Tid, Phase>, role: Role, mode: Mode): set<Tid> {
    set t | t in threads && threads[t].role == role && threads[t].mode == mode
  }

  function To(threads: map<Tid, Phase>, t: Tid, mode: Mode): map<Tid, Phase>
    requires t in threads
  {
    threads[t := threads[t].(mode := mode)]
  }

  /** A signal chooses one sleeper, if there is any. */
  predicate CanSignal(threads: map<Tid, Phase>, role: Role, w: Tid) {
    In(threads, role, Asleep) == {} || w in In(threads, role, Asleep)
  }

  function Signal(threads: map<Tid, Phase>, role: Role, w: Tid): map<Tid, Phase> {
    if w in In(threads, role, Asleep) then To(threads, w, Signalled) else threads
  }

  function Broadcast(threads: map<Tid, Phase>): map<Tid, Phase> {
    map t | t in threads :: if threads[t].mode == Asleep then threads[t].(mode := Signalled) else threads[t]
  }

  datatype Action =
    | CallSend(t: Tid, v: Val)
    | CallRecv(t: Tid)
    | Pass(t: Tid, w: Tid)            // t gets the mutex; w is whom it signals, if it does
    | Try(t: Tid, send: bool, v: Val, w: Tid)
    | DoClose
    | WakeUp(t: Tid)                  // spurious

  function PassOf(s: Sys, t: Tid, w: Tid): (r: Option<Sys>)
    requires t in s.threads
  {
    var ph := s.threads[t];
    var rest := s.threads - {t};
    match ph.role
    case Sender =>
      (match SendPass(s.chan, ph.v)
       case (_, MustWait) => Some(s.(threads := To(s.threads, t, Asleep)))
       case (_, Dropped) => Some(s.(threads := rest))
       case (c, Accepted) =>
         if CanSignal(rest, Receiver, w)
         then Some(Sys(c, Signal(rest, Receiver, w), s.accepted + [ph.v], s.delivered))
         else None)
    case Receiver =>
      match RecvPass(s.chan)
      case (_, Waits) => Some(s.(threads := To(s.threads, t, Asleep)))
      case (_, Ended) => Some(s.(threads := rest))
      case (c, Got(v)) =>
        if CanSignal(rest, Sender, w)
        then Some(Sys(c, Signal(rest, Sender, w), s.accepted, s.delivered + [v]))
        else None
  }

  function TryOf(s: Sys, send: bool, v: Val, w: Tid): Option<Sys> {
    if send then
      match TrySend(s.chan, v)
      case (_, false) => Some(s)
      case (c, true) =>
        if CanSignal(s.threads, Receiver, w)
        then Some(Sys(c, Signal(s.threads, Receiver, w), s.accepted + [v], s.delivered))
        else None
    else
      match TryRecv(s.chan)
      case (c, Got(x)) =>
        if CanSignal(s.threads, Sender, w)
        then Some(Sys(c, Signal(s.threads, Sender, w), s.accepted, s.delivered + [x]))
        else None
      case _ => Some(s)
  }

  /** The state after an action, or None where the action cannot happen. */
  function Step(s: Sys, a: Action): Option<Sys> {
    match a
    case CallSend(t, v) =>
      if t in s.threads then None else Some(s.(threads := s.threads[t := Phase(Sender, Ready, v)]))
    case CallRecv(t) =>
      if t in s.threads then None else Some(s.(threads := s.threads[t := Phase(Receiver, Ready, 0)]))
    case Pass(t, w) => if t in s.threads && s.threads[t].mode != Asleep then PassOf(s, t, w) else None
    case Try(t, send, v, w) => if t in s.threads then None else TryOf(s, send, v, w)
    case DoClose => Some(s.(chan := Close(s.chan), threads := Broadcast(s.threads)))
    case WakeUp(t) =>
      if t in s.threads && s.threads[t].mode == Asleep
      then Some(s.(threads := To(s.threads, t, Woken))) else None
  }

  function Start(cap: int): Sys { Sys(Chan(cap, [], false), map[], [], []) }

  function Run(s: Sys, run: seq<Action>): Option<Sys>
    decreases |run|
  {
    if run == [] then Some(s)
    else
      match Step(s, run[0])
      case Some(s1) => Run(s1, run[1..])
      case None => None
  }

  // ----- invariants --------------------------------------------------------------------------

  /** Everything accepted has been delivered or is still there, in order; the bound is kept. */
  predicate Fifo(s: Sys) {
    s.accepted == s.delivered + s.chan.items && (s.chan.cap > 0 ==> |s.chan.items| <= s.chan.cap)
  }

  /** While a receiver sleeps, enough receivers are signalled for the items there are. */
  predicate ItemsCovered(c: Chan, threads: map<Tid, Phase>, slack: nat) {
    In(threads, Receiver, Asleep) != {} ==>
      !c.closed && |c.items| <= |In(threads, Receiver, Signalled)| + slack
  }

  /** While a sender sleeps, enough senders are signalled for the room there is. */
  predicate RoomCovered(c: Chan, threads: map<Tid, Phase>, slack: nat) {
    In(threads, Sender, Asleep) != {} ==>
      !c.closed && c.cap > 0 && c.cap - |c.items| <= |In(threads, Sender, Signalled)| + slack
  }

  predicate Inv(s: Sys) {
    Fifo(s) && ItemsCovered(s.chan, s.threads, 0) && RoomCovered(s.chan, s.threads, 0)
  }

  lemma InPut(threads: map<Tid, Phase>, t: Tid, ph: Phase, role: Role, mode: Mode)
    ensures In(threads[t := ph], role, mode)
            == In(threads, role, mode) - {t} + (if ph.role == role && ph.mode == mode then {t} else {})
  {}

  lemma InRemove(threads: map<Tid, Phase>, t: Tid, role: Role, mode: Mode)
    ensures In(threads - {t}, role, mode) == In(threads, role, mode) - {t}
  {}

  lemma SignalOther(threads: map<Tid, Phase>, role: Role, w: Tid, r: Role)
    requires r != role
    ensures In(Signal(threads, role, w), r, Asleep) == In(threads, r, Asleep)
    ensures In(Signal(threads, role, w), r, Signalled) == In(threads, r, Signalled)
  {
    if w in In(threads, role, Asleep) {
      assert w !in In(threads, r, Asleep) && w !in In(threads, r, Signalled);
      hide In;
      InPut(threads, w, threads[w].(mode := Signalled), r, Asleep);
      InPut(threads, w, threads[w].(mode := Signalled), r, Signalled);
    }
  }

  /** When someone sleeps, a signal adds one to the signalled. */
  lemma SignalSame(threads: map<Tid, Phase>, role: Role, w: Tid)
    requires CanSignal(threads, role, w)
    ensures var after := Signal(threads, role, w);
            && In(after, role, Asleep) <= In(threads, role, Asleep)
            && (In(threads, role, Asleep) != {} ==>
                  |In(after, role, Signalled)| == |In(threads, role, Signalled)| + 1)
  {
    if w in In(threads, role, Asleep) {
      assert w !in In(threads, role, Signalled);
      hide In;
      InPut(threads, w, threads[w].(mode := Signalled), role, Asleep);
      InPut(threads, w, threads[w].(mode := Signalled), role, Signalled);
    }
  }

  /** An item goes in, and one sleeping receiver is signalled. */
  lemma PutKeeps(c: Chan, threads: map<Tid, Phase>, v: Val, w: Tid)
    requires !c.closed && CanSignal(threads, Receiver, w)
    requires ItemsCovered(c, threads, 0) && RoomCovered(c, threads, 1)
    ensures var (c1, after) := (c.(items := c.items + [v]), Signal(threads, Receiver, w));
            ItemsCovered(c1, after, 0) && RoomCovered(c1, after, 0)
  {
    hide In, Signal, CanSignal;
    SignalOther(threads, Receiver, w, Sender);
    SignalSame(threads, Receiver, w);
  }

  /** An item comes out, and one sleeping sender is signalled. */
  lemma TakeKeeps(c: Chan, threads: map<Tid, Phase>, w: Tid)
    requires c.items != [] && CanSignal(threads, Sender, w)
    requires ItemsCovered(c, threads, 1) && RoomCovered(c, threads, 0)
    ensures var (c1, after) := (c.(items := c.items[1..]), Signal(threads, Sender, w));
            ItemsCovered(c1, after, 0) && RoomCovered(c1, after, 0)
  {
    hide In, Signal, CanSignal;
    SignalOther(threads, Sender, w, Receiver);
    SignalSame(threads, Sender, w);
  }

  /** A thread that leaves takes at most one signal with it. */
  lemma LeaveKeeps(c: Chan, threads: map<Tid, Phase>, t: Tid)
    requires t in threads && ItemsCovered(c, threads, 0) && RoomCovered(c, threads, 0)
    ensures var rest := threads - {t};
            && ItemsCovered(c, rest, if threads[t].role == Receiver then 1 else 0)
            && RoomCovered(c, rest, if threads[t].role == Sender then 1 else 0)
  {
    var role := threads[t].role;
    var other := if role == Sender then Receiver else Sender;
    assert t !in In(threads, other, Asleep) && t !in In(threads, other, Signalled);
    hide In;
    InRemove(threads, t, Sender, Asleep);
    InRemove(threads, t, Sender, Signalled);
    InRemove(threads, t, Receiver, Asleep);
    InRemove(threads, t, Receiver, Signalled);
  }

  /** Going to sleep: the channel is empty for a receiver, full for a sender. */
  lemma SleepKeeps(c: Chan, threads: map<Tid, Phase>, t: Tid)
    requires t in threads && threads[t].mode != Asleep && !c.closed
    requires if threads[t].role == Receiver then c.items == [] else Full(c)
    requires ItemsCovered(c, threads, 0) && RoomCovered(c, threads, 0)
    ensures ItemsCovered(c, To(threads, t, Asleep), 0) && RoomCovered(c, To(threads, t, Asleep), 0)
  {
    var ph := threads[t].(mode := Asleep);
    var other := if ph.role == Sender then Receiver else Sender;
    assert t !in In(threads, other, Asleep) && t !in In(threads, other, Signalled);
    hide In;
    InPut(threads, t, ph, other, Asleep);
    InPut(threads, t, ph, other, Signalled);
  }

  /** A thread that is not asleep and not signalled does not matter. */
  lemma AddKeeps(c: Chan, threads: map<Tid, Phase>, t: Tid, ph: Phase)
    requires (ph.mode == Ready && t !in threads)
             || (ph.mode == Woken && t in threads && threads[t].mode == Asleep)
    requires ItemsCovered(c, threads, 0) && RoomCovered(c, threads, 0)
    ensures ItemsCovered(c, threads[t := ph], 0) && RoomCovered(c, threads[t := ph], 0)
  {
    assert t !in In(threads, Sender, Signalled) && t !in In(threads, Receiver, Signalled);
    hide In;
    InPut(threads, t, ph, Sender, Asleep);
    InPut(threads, t, ph, Sender, Signalled);
    InPut(threads, t, ph, Receiver, Asleep);
    InPut(threads, t, ph, Receiver, Signalled);
  }

  lemma PassKeeps(s: Sys, t: Tid, w: Tid)
    requires Inv(s) && t in s.threads && s.threads[t].mode != Asleep && PassOf(s, t, w).Some?
    ensures Inv(PassOf(s, t, w).value)
  {
    hide In, CanSignal, Signal, To, ItemsCovered, RoomCovered;
    var ph, rest := s.threads[t], s.threads - {t};
    LeaveKeeps(s.chan, s.threads, t);
    match ph.role {
      case Sender =>
        match SendPass(s.chan, ph.v) {
          case (_, MustWait) => SleepKeeps(s.chan, s.threads, t);
          case (_, Dropped) => ClosedKeeps(s.chan, rest, 0, 1);
          case (c, Accepted) =>
            PutKeeps(s.chan, rest, ph.v, w);
            assert s.accepted + [ph.v] == s.delivered + c.items;
        }
      case Receiver =>
        match RecvPass(s.chan) {
          case (_, Waits) => SleepKeeps(s.chan, s.threads, t);
          case (_, Ended) => ClosedKeeps(s.chan, rest, 1, 0);
          case (c, Got(v)) =>
            TakeKeeps(s.chan, rest, w);
            assert s.delivered + [v] + c.items == s.delivered + s.chan.items;
        }
    }
  }

  lemma ClosedKeeps(c: Chan, threads: map<Tid, Phase>, i: nat, j: nat)
    requires c.closed && ItemsCovered(c, threads, i) && RoomCovered(c, threads, j)
    ensures ItemsCovered(c, threads, 0) && RoomCovered(c, threads, 0)
  {}

  lemma TryKeeps(s: Sys, send: bool, v: Val, w: Tid)
    requires Inv(s) && TryOf(s, send, v, w).Some?
    ensures Inv(TryOf(s, send, v, w).value)
  {
    hide In, CanSignal, Signal, To, ItemsCovered, RoomCovered;
    MoreSlack(s.chan, s.threads);
    if send {
      match TrySend(s.chan, v) {
        case (_, false) =>
        case (c, true) =>
          PutKeeps(s.chan, s.threads, v, w);
          assert s.accepted + [v] == s.delivered + c.items;
      }
    } else {
      match TryRecv(s.chan) {
        case (c, Got(x)) =>
          TakeKeeps(s.chan, s.threads, w);
          assert s.delivered + [x] + c.items == s.delivered + s.chan.items;
        case _ =>
      }
    }
  }

  lemma MoreSlack(c: Chan, threads: map<Tid, Phase>)
    requires ItemsCovered(c, threads, 0) && RoomCovered(c, threads, 0)
    ensures ItemsCovered(c, threads, 1) && RoomCovered(c, threads, 1)
  {}

  lemma StepKeeps(s: Sys, a: Action)
    requires Inv(s) && Step(s, a).Some?
    ensures Inv(Step(s, a).value)
  {
    hide In, PassOf, TryOf, ItemsCovered, RoomCovered;
    match a {
      case CallSend(t, v) => AddKeeps(s.chan, s.threads, t, Phase(Sender, Ready, v));
      case CallRecv(t) => AddKeeps(s.chan, s.threads, t, Phase(Receiver, Ready, 0));
      case Pass(t, w) => PassKeeps(s, t, w);
      case Try(t, send, v, w) => TryKeeps(s, send, v, w);
      case DoClose => CloseKeeps(s);
      case WakeUp(t) => AddKeeps(s.chan, s.threads, t, s.threads[t].(mode := Woken));
    }
  }

  lemma CloseKeeps(s: Sys)
    requires Inv(s)
    ensures Inv(Step(s, DoClose).value)
  {
    var after := Broadcast(s.threads);
    assert In(after, Receiver, Asleep) == {} && In(after, Sender, Asleep) == {};
  }

  lemma StartInv(cap: int)
    ensures Inv(Start(cap))
  {
    assert In(map[], Receiver, Asleep) == {} && In(map[], Sender, Asleep) == {};
  }

  lemma {:induction false} RunKeeps(s: Sys, run: seq<Action>)
    requires Inv(s) && Run(s, run).Some?
    ensures Inv(Run(s, run).value)
    decreases |run|
  {
    hide Inv, Step;
    if run != [] {
      StepKeeps(s, run[0]);
      RunKeeps(Step(s, run[0]).value, run[1..]);
    }
  }

  // ----- results -----------------------------------------------------------------------------

  /** After any run, for any number of threads: a receiver that sleeps unsignalled on an open channel
      has at least as many signalled receivers ahead of it as there are items, and likewise for
      senders and room; after a close nobody sleeps. */
  lemma NoWakeupIsLost(cap: int, run: seq<Action>)
    requires Run(Start(cap), run).Some?
    ensures var s := Run(Start(cap), run).value;
            && (In(s.threads, Receiver, Asleep) != {} ==>
                  |s.chan.items| <= |In(s.threads, Receiver, Signalled)|)
            && (In(s.threads, Sender, Asleep) != {} ==>
                  s.chan.cap - |s.chan.items| <= |In(s.threads, Sender, Signalled)|)
            && (s.chan.closed ==>
                  In(s.threads, Receiver, Asleep) == {} && In(s.threads, Sender, Asleep) == {})
  {
    hide Step, In;
    StartInv(cap);
    RunKeeps(Start(cap), run);
  }

  /** Nobody can go on by itself: every thread in a call sleeps without having been signalled. */
  predicate AllAsleep(s: Sys) { forall t :: t in s.threads ==> s.threads[t].mode == Asleep }

  /** Then all of them are receivers of an empty open channel, or all are senders to a full one. */
  lemma AllAsleepMeansWaiting(cap: int, run: seq<Action>)
    requires Run(Start(cap), run).Some?
    ensures var s := Run(Start(cap), run).value;
            AllAsleep(s) && s.threads != map[] ==>
              && !s.chan.closed
              && ((s.chan.items == [] && forall t :: t in s.threads ==> s.threads[t].role == Receiver)
                  || (Full(s.chan) && forall t :: t in s.threads ==> s.threads[t].role == Sender))
  {
    hide Step, Run;
    StartInv(cap);
    RunKeeps(Start(cap), run);
    var s := Run(Start(cap), run).value;
    if AllAsleep(s) && s.threads != map[] {
      assert In(s.threads, Receiver, Signalled) == {} && In(s.threads, Sender, Signalled) == {};
      forall t | t in s.threads
        ensures t in In(s.threads, s.threads[t].role, Asleep)
      {}
      if In(s.threads, Receiver, Asleep) != {} {
        assert s.chan.items == [];
        assert In(s.threads, Sender, Asleep) == {};
      }
      var t :| t in s.threads;
    }
  }

  /** Between any two moments of a run: what was accepted and delivered only grows at the end; items
      leave in the order in which they were accepted, none twice and none lost. */
  lemma {:induction false} HistoryGrows(s: Sys, run: seq<Action>)
    requires Run(s, run).Some?
    ensures var s1 := Run(s, run).value;
            && s.accepted <= s1.accepted && s.delivered <= s1.delivered
            && (s.chan.closed ==> s1.chan.closed && s1.accepted == s.accepted)
            && s1.chan.cap == s.chan.cap
    decreases |run|
  {
    hide In, CanSignal, Signal, Broadcast, To;
    if run != [] {
      var s1 := Step(s, run[0]).value;
      HistoryGrows(s1, run[1..]);
    }
  }

  /** The channel is a bounded queue at every moment, and closing loses nothing: later receives deliver
      exactly what was accepted before. */
  lemma QueueIsFifo(cap: int, run: seq<Action>, more: seq<Action>)
    requires Run(Start(cap), run).Some? && Run(Run(Start(cap), run).value, more).Some?
    ensures var s := Run(Start(cap), run).value;
            var s1 := Run(s, more).value;
            && s.accepted == s.delivered + s.chan.items
            && (cap > 0 ==> |s.chan.items| <= cap)
            && (s.chan.closed ==> s.delivered + s.chan.items == s1.delivered + s1.chan.items)
  {
    hide Step, ItemsCovered, RoomCovered, Run;
    StartInv(cap);
    RunKeeps(Start(cap), run);
    var s := Run(Start(cap), run).value;
    RunKeeps(s, more);
    HistoryGrows(Start(cap), run);
    HistoryGrows(s, more);
  }
}
