/** The lifecycle of a topology or a node: a state guarded by a lock and a condition variable, used by
    any number of threads. Every step below is what one thread does between acquiring the lock and
    releasing it, either by returning or by falling asleep on the condition variable. */
module Lifecycle {
  datatype State = Initialized | Starting | Running | Paused | Stopping | Stopped

  function Rank(s: State): nat {
    match s
    case Initialized => 0
    case Starting => 1
    case Running => 2
    case Paused => 3
    case Stopping => 4
    case Stopped => 5
  }

  /** Running and paused are the same phase of a life. */
  function Phase(s: State): nat {
    if s == Initialized then 0 else if s == Starting then 1 else if s == Stopping then 3 else if s == Stopped then 4 else 2
  }

  /** A state cannot be set to an earlier one, except that a paused component may run again. */
  predicate Allowed(from: State, to: State) {
    Rank(from) <= Rank(to) || (from == Paused && to == Running)
  }

  /** The condition on which waiting for a state ends. */
  predicate Reached(target: State, current: State) {
    Rank(target) <= Rank(current) && !(target == Running && current == Paused)
  }

  datatype Call = Set(to: State) | Wait(target: State) | Run | Stop(keepInitialized: bool)

  datatype Answer =
    | SetDone(to: State, ok: bool)
    | Waited(target: State, state: State)
    | RunAnswer(won: bool)
    | StopAnswer(alreadyStopped: bool)

  /** Who waits: Wait itself, a second runner, a runner of a stopping component, a stopper of a
      starting component, and a stopper of a component that someone else is stopping. */
  datatype Reason = Waiter | Runner | LateRunner | Stopper(keepInitialized: bool) | LateStopper

  datatype Thread = Idle | Asleep(target: State, reason: Reason) | Awake(target: State, reason: Reason) | Returned(answer: Answer)

  /** The effect of one atomic section: the state to set, if any, and where the thread is left. */
  datatype Outcome = Outcome(change: Setting, thread: Thread)
  datatype Setting = Keep | To(state: State)

  /** Sleep until the target is reached; a thread that finds it reached goes on at once. */
  function OnWait(state: State, target: State, reason: Reason): Outcome {
    if !Reached(target, state) then Outcome(Keep, Asleep(target, reason)) else
      match reason
      case Waiter => Outcome(Keep, Returned(Waited(target, state)))
      case Runner => Outcome(Keep, Returned(RunAnswer(false)))
      case LateRunner => Outcome(Keep, Returned(RunAnswer(false)))
      case LateStopper => Outcome(Keep, Returned(StopAnswer(true)))
      case Stopper(keep) => OnStop(state, keep)
  }

  function OnRun(state: State): Outcome {
    match state
    case Initialized => Outcome(To(Starting), Returned(RunAnswer(true)))
    case Starting => Outcome(Keep, Asleep(Running, Runner))
    case Running => Outcome(Keep, Returned(RunAnswer(false)))
    case Paused => Outcome(Keep, Returned(RunAnswer(false)))
    case Stopping => Outcome(Keep, Asleep(Stopped, LateRunner))
    case Stopped => Outcome(Keep, Returned(RunAnswer(false)))
  }

  function OnStop(state: State, keepInitialized: bool): Outcome {
    match state
    case Initialized => if keepInitialized then Outcome(Keep, Returned(StopAnswer(false))) else Outcome(To(Stopped), Returned(StopAnswer(true)))
    case Starting => Outcome(Keep, Asleep(Running, Stopper(keepInitialized)))
    case Running => Outcome(To(Stopping), Returned(StopAnswer(false)))
    case Paused => Outcome(To(Stopping), Returned(StopAnswer(false)))
    case Stopping => Outcome(Keep, Asleep(Stopped, LateStopper))
    case Stopped => Outcome(Keep, Returned(StopAnswer(true)))
  }

  function OnCall(state: State, call: Call): Outcome {
    match call
    case Set(to) => Outcome(if Allowed(state, to) then To(to) else Keep, Returned(SetDone(to, Allowed(state, to))))
    case Wait(target) => OnWait(state, target, Waiter)
    case Run => OnRun(state)
    case Stop(keep) => OnStop(state, keep)
  }

  /** The state holder itself, as the sections of its methods change it. */
  class StateHolder {
    var state: State
    var broadcasts: nat

    constructor ()
      ensures state == Initialized && broadcasts == 0
    {
      state, broadcasts := Initialized, 0;
    }

    /** Fails without effect on a backward move; every successful set wakes all waiting threads. */
    method SetWithoutLock(s: State) returns (ok: bool)
      modifies this
      ensures ok == Allowed(old(state), s)
      ensures ok ==> state == s && broadcasts == old(broadcasts) + 1
      ensures !ok ==> state == old(state) && broadcasts == old(broadcasts)
    {
      if Rank(state) > Rank(s) && !(state == Paused && s == Running) {
        return false;
      }
      state := s;
      broadcasts := broadcasts + 1;
      ok := true;
    }

    /** One pass of the waiting loop. */
    method WaitOnce(s: State) returns (done: bool)
      ensures done == Reached(s, state)
    {
      if Rank(state) >= Rank(s) {
        if state == Paused && s == Running { return false; }
        return true;
      }
      done := false;
    }

    method CheckAndPrepareForRunning() returns (thread: Thread)
      modifies this
      ensures Outcome(if state == old(state) then Keep else To(state), thread) == OnRun(old(state))
      ensures broadcasts == old(broadcasts) + if state == old(state) then 0 else 1
    {
      match state {
        case Initialized =>
          var ok := SetWithoutLock(Starting);
          thread := Returned(RunAnswer(true));
        case Starting =>
          thread := Asleep(Running, Runner);
        case Running =>
          thread := Returned(RunAnswer(false));
        case Paused =>
          thread := Returned(RunAnswer(false));
        case Stopping =>
          thread := Asleep(Stopped, LateRunner);
        case Stopped =>
          thread := Returned(RunAnswer(false));
      }
    }

    /** One pass of the stopping loop; it either returns or goes to sleep. */
    method CheckAndPrepareForStopping(keepInitialized: bool) returns (thread: Thread)
      modifies this
      ensures Outcome(if state == old(state) then Keep else To(state), thread) == OnStop(old(state), keepInitialized)
      ensures broadcasts == old(broadcasts) + if state == old(state) then 0 else 1
    {
      match state {
        case Initialized =>
          if keepInitialized { return Returned(StopAnswer(false)); }
          var ok := SetWithoutLock(Stopped);
          thread := Returned(StopAnswer(true));
        case Starting =>
          thread := Asleep(Running, Stopper(keepInitialized));
        case Running =>
          var ok := SetWithoutLock(Stopping);
          thread := Returned(StopAnswer(false));
        case Paused =>
          var ok := SetWithoutLock(Stopping);
          thread := Returned(StopAnswer(false));
        case Stopping =>
          thread := Asleep(Stopped, LateStopper);
        case Stopped =>
          thread := Returned(StopAnswer(true));
      }
    }
  }

  // ---- any number of threads ---------------------------------------------------------------

  /** starts and stops list the threads that were told to start and to stop the component; kept those
      that were told so only because the component was to be left initialized. */
  datatype Holder = Holder(state: State, threads: map<nat, Thread>, starts: seq<nat>, stops: seq<nat>, kept: seq<nat>)

  function Woken(t: Thread): Thread {
    if t.Asleep? then Awake(t.target, t.reason) else t
  }

  function Broadcast(threads: map<nat, Thread>): map<nat, Thread> {
    map t | t in threads :: Woken(threads[t])
  }

  function Apply(h: Holder, t: nat, o: Outcome): Holder
    requires t in h.threads
  {
    var state := if o.change.To? then o.change.state else h.state;
    var threads := if o.change.To? then Broadcast(h.threads) else h.threads;
    var told := o.thread == Returned(StopAnswer(false));
    Holder(state, threads[t := o.thread],
           if o.thread == Returned(RunAnswer(true)) then h.starts + [t] else h.starts,
           if told && o.change.To? then h.stops + [t] else h.stops,
           if told && o.change.Keep? then h.kept + [t] else h.kept)
  }

  predicate CanCall(h: Holder, t: nat) {
    t in h.threads && (h.threads[t].Idle? || h.threads[t].Returned?)
  }

  predicate CanResume(h: Holder, t: nat) {
    t in h.threads && h.threads[t].Awake?
  }

  function AfterCall(h: Holder, t: nat, call: Call): Holder
    requires CanCall(h, t)
  {
    Apply(h, t, OnCall(h.state, call))
  }

  function AfterResume(h: Holder, t: nat): Holder
    requires CanResume(h, t)
  {
    Apply(h, t, OnWait(h.state, h.threads[t].target, h.threads[t].reason))
  }

  datatype Event = Calls(thread: nat, call: Call) | Resumes(thread: nat)

  predicate Enabled(h: Holder, e: Event) {
    if e.Calls? then CanCall(h, e.thread) else CanResume(h, e.thread)
  }

  function After(h: Holder, e: Event): Holder
    requires Enabled(h, e)
  {
    if e.Calls? then AfterCall(h, e.thread, e.call) else AfterResume(h, e.thread)
  }

  predicate Initial(h: Holder) {
    h.state == Initialized && h.starts == [] && h.stops == [] && h.kept == [] && forall t | t in h.threads :: h.threads[t].Idle?
  }

  /** All interleavings: events[i] leads from hs[i] to hs[i + 1]. */
  ghost predicate IsRun(hs: seq<Holder>, events: seq<Event>) {
    && |hs| == |events| + 1 && Initial(hs[0])
    && forall i | 0 <= i < |events| :: Enabled(hs[i], events[i]) && hs[i + 1] == After(hs[i], events[i])
  }

  // ---- what every step keeps ---------------------------------------------------------------

  /** A waiting thread waits for the right state, and never sleeps through the state it waits for. */
  predicate ThreadOk(state: State, t: Thread) {
    match t
    case Idle => true
    case Asleep(target, reason) => ReasonOk(target, reason) && !Reached(target, state)
    case Awake(target, reason) => ReasonOk(target, reason)
    case Returned(Waited(target, seen)) => Reached(target, seen) && Phase(seen) <= Phase(state)
    case Returned(StopAnswer(already)) => if already then state == Stopped else true
    case Returned(_) => true
  }

  predicate ReasonOk(target: State, reason: Reason) {
    match reason
    case Waiter => true
    case Runner => target == Running
    case LateRunner => target == Stopped
    case Stopper(_) => target == Running
    case LateStopper => target == Stopped
  }

  ghost predicate Inv(h: Holder) {
    && (forall t | t in h.threads :: ThreadOk(h.state, h.threads[t]))
    && |h.starts| <= 1 && (h.state == Initialized ==> h.starts == [])
    && |h.stops| <= 1 && (Phase(h.state) < 3 ==> h.stops == [])
    && forall i | 0 <= i < |h.starts| :: h.starts[i] in h.threads
  }

  /** States move forward only, and stopped is final. */
  lemma {:induction false} StepForward(h: Holder, e: Event)
    requires Enabled(h, e)
    ensures Allowed(h.state, After(h, e).state) && Phase(h.state) <= Phase(After(h, e).state)
    ensures h.state == Stopped ==> After(h, e).state == Stopped
  {}

  lemma {:induction false} ThreadOkForward(s: State, s': State, t: Thread)
    requires ThreadOk(s, t) && Allowed(s, s')
    ensures ThreadOk(s', Woken(t))
  {}

  lemma {:induction false} OutcomeOk(h: Holder, e: Event)
    requires Inv(h) && Enabled(h, e)
    ensures ThreadOk(After(h, e).state, After(h, e).threads[e.thread])
  {
    assert ThreadOk(h.state, h.threads[e.thread]);
  }

  lemma {:induction false} StepKeepsInv(h: Holder, e: Event)
    requires Inv(h) && Enabled(h, e)
    ensures Inv(After(h, e))
  {
    var h' := After(h, e);
    StepForward(h, e);
    OutcomeOk(h, e);
    forall t | t in h'.threads ensures ThreadOk(h'.state, h'.threads[t]) {
      if t != e.thread {
        ThreadOkForward(h.state, h'.state, h.threads[t]);
      }
    }
  }

  /** In every reachable state of every run: no thread sleeps although the state it waits for has been
      reached, at most one caller has won the start, and at most one has moved the component to
      stopping. */
  lemma {:induction false} RunInv(hs: seq<Holder>, events: seq<Event>, i: nat)
    requires IsRun(hs, events) && i < |hs|
    ensures Inv(hs[i])
    decreases i
  {
    if i != 0 {
      RunInv(hs, events, i - 1);
      assert hs[(i - 1) + 1] == After(hs[i - 1], events[i - 1]);
      StepKeepsInv(hs[i - 1], events[i - 1]);
    }
  }

  /** Over a whole run the phase never decreases, and nothing follows stopped. */
  lemma {:induction false} RunForward(hs: seq<Holder>, events: seq<Event>, i: nat, j: nat)
    requires IsRun(hs, events) && i <= j < |hs|
    ensures Phase(hs[i].state) <= Phase(hs[j].state) && (hs[i].state == Stopped ==> hs[j].state == Stopped)
    decreases j
  {
    hide Enabled, After, Initial;
    if i < j {
      RunForward(hs, events, i, j - 1);
      assert hs[(j - 1) + 1] == After(hs[j - 1], events[j - 1]);
      StepForward(hs[j - 1], events[j - 1]);
    }
  }

  /** A Wait that returns has seen its target or a successor of it, and a later look at the state finds
      the same phase or a later one. */
  lemma {:induction false} WaitReturnsSuccessor(hs: seq<Holder>, events: seq<Event>, i: nat, t: nat)
    requires IsRun(hs, events) && i < |hs| && t in hs[i].threads
    requires hs[i].threads[t].Returned? && hs[i].threads[t].answer.Waited?
    ensures var w := hs[i].threads[t].answer;
            && Rank(w.target) <= Rank(w.state) && !(w.target == Running && w.state == Paused)
            && forall j | i <= j < |hs| :: Phase(w.state) <= Phase(hs[j].state)
  {
    RunInv(hs, events, i);
    assert ThreadOk(hs[i].state, hs[i].threads[t]);
    forall j | i <= j < |hs| ensures Phase(hs[i].state) <= Phase(hs[j].state) {
      RunForward(hs, events, i, j);
    }
  }

  /** A caller that is told "already stopped" sees a stopped component from then on. */
  lemma {:induction false} AlreadyStoppedMeansStopped(hs: seq<Holder>, events: seq<Event>, i: nat, t: nat, j: nat)
    requires IsRun(hs, events) && i <= j < |hs| && t in hs[i].threads
    requires hs[i].threads[t] == Returned(StopAnswer(true))
    ensures hs[j].state == Stopped
  {
    RunInv(hs, events, i);
    assert ThreadOk(hs[i].state, hs[i].threads[t]);
    RunForward(hs, events, i, j);
  }

  // ---- what callers learn ------------------------------------------------------------------

  /** What the answer a thread has been given says about the component and about the other callers. */
  ghost predicate Answered(h: Holder, t: nat)
    requires t in h.threads
  {
    match h.threads[t]
    case Returned(RunAnswer(won)) => if won then h.starts == [t] else Phase(h.state) >= 2
    case Returned(StopAnswer(already)) => if already then h.state == Stopped else t in h.kept || (h.stops == [t] && Phase(h.state) >= 3)
    case _ => true
  }

  lemma {:induction false} StepAnswers(h: Holder, e: Event, t: nat)
    requires Inv(h) && Enabled(h, e) && t in h.threads && Answered(h, t)
    ensures t in After(h, e).threads && Answered(After(h, e), t)
  {
    StepForward(h, e);
    assert ThreadOk(h.state, h.threads[e.thread]);
  }

  /** In every run: a runner that wins is the only one ever told to start, and one that loses finds the
      component running or beyond; a stopper told to stop is the only one that moved the component to
      stopping, or it was told so because the component was to be kept initialized; one told that it is
      too late finds the component stopped. */
  lemma {:induction false} CallerLearns(hs: seq<Holder>, events: seq<Event>, i: nat, t: nat)
    requires IsRun(hs, events) && i < |hs| && t in hs[0].threads
    ensures t in hs[i].threads && Answered(hs[i], t)
    decreases i
  {
    hide Enabled, After, Inv, Answered;
    if i == 0 {
      NobodyAnswered(hs[0], t);
    } else {
      CallerLearns(hs, events, i - 1, t);
      RunInv(hs, events, i - 1);
      assert hs[(i - 1) + 1] == After(hs[i - 1], events[i - 1]);
      StepAnswers(hs[i - 1], events[i - 1], t);
    }
  }

  lemma {:induction false} NobodyAnswered(h: Holder, t: nat)
    requires Initial(h) && t in h.threads
    ensures Answered(h, t)
  {}

  // ---- who moves the component -------------------------------------------------------------

  /** The order of states in terms of phases: setting is allowed unless the phase would decrease, and waiting
      ends with the state itself or any later phase. */
  lemma {:induction false} OrderIsPhase(s: State, s': State)
    ensures Allowed(s, s') <==> Phase(s) <= Phase(s')
    ensures Reached(s, s') <==> s == s' || Phase(s) < Phase(s')
  {}

  /** A Run call that finds the component initialized. */
  predicate Starts(h: Holder, e: Event) {
    e.Calls? && e.call.Run? && h.state == Initialized
  }

  /** A Stop call that finds the component running or paused, or one that waited for it to start and is woken
      when it runs. */
  predicate StopsIt(h: Holder, e: Event) {
    Enabled(h, e) && if e.Calls? then e.call.Stop? && Phase(h.state) == 2 else h.threads[e.thread].reason.Stopper? && h.state == Running
  }

  lemma {:induction false} StepMoves(h: Holder, e: Event)
    requires Inv(h) && Enabled(h, e)
    ensures After(h, e).starts == if Starts(h, e) then h.starts + [e.thread] else h.starts
    ensures After(h, e).stops == if StopsIt(h, e) then h.stops + [e.thread] else h.stops
    ensures Starts(h, e) ==> After(h, e).state == Starting && After(h, e).threads[e.thread] == Returned(RunAnswer(true))
    ensures StopsIt(h, e) ==> After(h, e).state == Stopping && After(h, e).threads[e.thread] == Returned(StopAnswer(false))
  {
    assert ThreadOk(h.state, h.threads[e.thread]);
  }

  ghost predicate SomeStarts(hs: seq<Holder>, events: seq<Event>, i: nat, t: nat) {
    exists j | 0 <= j < i && j < |events| && j < |hs| :: Starts(hs[j], events[j]) && events[j].thread == t
  }

  ghost predicate SomeStops(hs: seq<Holder>, events: seq<Event>, i: nat, t: nat) {
    exists j | 0 <= j < i && j < |events| && j < |hs| :: StopsIt(hs[j], events[j]) && events[j].thread == t
  }

  /** In every run the threads that were told to start are exactly those whose Run found the component
      initialized, and those that moved it to stopping exactly those whose Stop found it running or paused:
      such a call never loses and never sleeps. */
  lemma {:induction false} MoversIff(hs: seq<Holder>, events: seq<Event>, i: nat, t: nat)
    requires IsRun(hs, events) && i < |hs|
    ensures t in hs[i].starts <==> SomeStarts(hs, events, i, t)
    ensures t in hs[i].stops <==> SomeStops(hs, events, i, t)
    decreases i
  {
    hide Enabled, After, Inv, Starts, StopsIt;
    if i != 0 {
      MoversIff(hs, events, i - 1, t);
      RunInv(hs, events, i - 1);
      assert hs[(i - 1) + 1] == After(hs[i - 1], events[i - 1]);
      StepMoves(hs[i - 1], events[i - 1]);
    }
  }

  /** A call sleeps exactly if the component is starting or stopping, or if the state waited for is not
      reached; setting a state never sleeps. */
  lemma {:induction false} SleepsIff(h: Holder, t: nat, call: Call)
    requires CanCall(h, t)
    ensures AfterCall(h, t, call).threads[t].Asleep? <==>
            match call
            case Set(_) => false
            case Wait(target) => target != h.state && Phase(h.state) <= Phase(target)
            case Run => h.state == Starting || h.state == Stopping
            case Stop(_) => h.state == Starting || h.state == Stopping
  {
    OrderIsPhase(if call.Wait? then call.target else h.state, h.state);
  }

  /** A Stop of an initialized component stops it at once, or leaves it initialized if it is to be kept. */
  lemma {:induction false} StopInitialized(h: Holder, t: nat, keep: bool)
    requires CanCall(h, t) && h.state == Initialized
    ensures var h' := AfterCall(h, t, Stop(keep));
            if keep then h'.state == Initialized && h'.threads[t] == Returned(StopAnswer(false)) && h'.kept == h.kept + [t]
            else h'.state == Stopped && h'.threads[t] == Returned(StopAnswer(true))
  {}

  // ---- who is told to stop -----------------------------------------------------------------

  /** The event tells its caller to stop the component. */
  predicate Tells(h: Holder, e: Event) {
    Enabled(h, e) && After(h, e).threads[e.thread] == Returned(StopAnswer(false))
  }

  /** It does so only because the component is to be left initialized. */
  predicate Keeps(h: Holder, e: Event) {
    h.state == Initialized && e.Calls? && e.call == Stop(true)
  }

  lemma {:induction false} TellsMeans(h: Holder, e: Event)
    requires Inv(h) && Tells(h, e)
    ensures Phase(h.state) < 3 && (!Keeps(h, e) ==> After(h, e).state == Stopping)
  {
    assert ThreadOk(h.state, h.threads[e.thread]);
  }

  /** In every run of any number of threads: no two callers are told to stop exactly if nobody is told to
      stop after a call that kept the component initialized. */
  lemma {:induction false} SingleStopWinnerIff(hs: seq<Holder>, events: seq<Event>)
    requires IsRun(hs, events)
    ensures (forall j, k | 0 <= j < k < |events| :: !(Tells(hs[j], events[j]) && Tells(hs[k], events[k]))) <==>
            (forall j, k | 0 <= j < k < |events| :: !(Tells(hs[j], events[j]) && Keeps(hs[j], events[j]) && Tells(hs[k], events[k])))
  {
    hide Enabled, After, Inv, Tells, Keeps;
    forall j, k | 0 <= j < k < |events| && Tells(hs[j], events[j]) && Tells(hs[k], events[k]) ensures Keeps(hs[j], events[j]) {
      MoverIsLast(hs, events, j, k);
    }
  }

  /** After a caller has moved the component to stopping, nobody else is told to stop. */
  lemma {:induction false} MoverIsLast(hs: seq<Holder>, events: seq<Event>, j: nat, k: nat)
    requires IsRun(hs, events) && j < k < |events| && Tells(hs[j], events[j]) && Tells(hs[k], events[k])
    ensures Keeps(hs[j], events[j])
  {
    hide Enabled, After, Inv, Tells, Keeps;
    assert hs[j + 1] == After(hs[j], events[j]);
    RunInv(hs, events, j);
    RunInv(hs, events, k);
    RunForward(hs, events, j + 1, k);
    TellsMeans(hs[j], events[j]);
    TellsMeans(hs[k], events[k]);
  }

  /** Without keepInitialized the condition holds: at most one caller is ever told to stop. */
  lemma {:induction false} SingleStopWinner(hs: seq<Holder>, events: seq<Event>, j: nat, k: nat)
    requires IsRun(hs, events) && j < k < |events|
    requires forall i | 0 <= i < |events| :: !(events[i].Calls? && events[i].call == Stop(true))
    ensures !(Tells(hs[j], events[j]) && Tells(hs[k], events[k]))
  {
    hide Enabled, After, Inv, Tells;
    if Tells(hs[j], events[j]) && Tells(hs[k], events[k]) { MoverIsLast(hs, events, j, k); }
  }

  /** Two threads that are both told to stop the same component. */
  lemma {:induction false} TwoKeepers() returns (hs: seq<Holder>, events: seq<Event>)
    ensures IsRun(hs, events) && |events| == 2 && events[0].thread != events[1].thread
    ensures Tells(hs[0], events[0]) && Tells(hs[1], events[1])
  {
    var h := Holder(Initialized, map[0 := Idle, 1 := Idle], [], [], []);
    var d, e := Calls(0, Stop(true)), Calls(1, Stop(true));
    var h' := After(h, d);
    hs, events := [h, h', After(h', e)], [d, e];
  }

  // ---- nodes -------------------------------------------------------------------------------

  /** What a thread of a node does around the state holder. A runner that has won sets the state to
      running (or paused), works, cleans up (for a box: Terminate) and sets the state to stopped. A
      stopper that has won halts the work (for a source: Source.Stop) and waits for stopped. */
  datatype Task =
    | Free
    | RunCalled | RunWon | Working | Cleaned | RunDone
    | StopCalled | StopWon | Halted | StopDone

  datatype Node = Node(holder: Holder, tasks: map<nat, Task>, works: nat, cleanups: nat, halts: nat)

  datatype Action =
    | BeginRun | StartWorking(paused: bool) | FailToStart | FinishWork | SetStopped
    | BeginStop | Halt | AwaitStopped | GiveUp
    | Pause | Resume
    | Continue | Conclude

  /** The call an action makes on the holder, if it is one of those that do. */
  function CallOf(a: Action): Call
    requires a.BeginRun? || a.StartWorking? || a.SetStopped? || a.BeginStop? || a.AwaitStopped? || a.Pause? || a.Resume?
  {
    match a
    case BeginRun => Run
    case StartWorking(paused) => Set(if paused then Paused else Running)
    case SetStopped => Set(Stopped)
    case BeginStop => Stop(false)
    case AwaitStopped => Wait(Stopped)
    case Pause => Set(Paused)
    case Resume => Set(Running)
  }

  predicate Ready(n: Node, t: nat, a: Action) {
    && t in n.tasks && t in n.holder.threads
    && var task := n.tasks[t];
       match a
       case BeginRun => task == Free && CanCall(n.holder, t)
       case StartWorking(_) => task == RunWon && CanCall(n.holder, t)
       case FailToStart => task == RunWon
       case FinishWork => task == Working
       case SetStopped => task == Cleaned && CanCall(n.holder, t)
       case BeginStop => task == Free && CanCall(n.holder, t)
       case Halt => task == StopWon
       case AwaitStopped => task == Halted && CanCall(n.holder, t)
       case GiveUp => task == Halted
       case Pause => task == Free && CanCall(n.holder, t) && n.holder.state == Running
       case Resume => task == Free && CanCall(n.holder, t) && n.holder.state == Paused
       case Continue => CanResume(n.holder, t)
       case Conclude => n.holder.threads[t].Returned? && (task == RunCalled || task == StopCalled)
  }

  function NextTask(task: Task, a: Action, answer: Thread): Task {
    match a
    case BeginRun => RunCalled
    case StartWorking(_) => Working
    case FailToStart => Cleaned
    case FinishWork => Cleaned
    case SetStopped => RunDone
    case BeginStop => StopCalled
    case Halt => Halted
    case AwaitStopped => StopDone
    case GiveUp => StopDone
    case Pause => task
    case Resume => task
    case Continue => task
    case Conclude =>
      if answer == Returned(RunAnswer(true)) then RunWon
      else if answer == Returned(StopAnswer(false)) then StopWon
      else if task == RunCalled then RunDone else StopDone
  }

  function NodeAfter(n: Node, t: nat, a: Action): Node
    requires Ready(n, t, a)
  {
    var holder :=
      if a.Continue? then AfterResume(n.holder, t)
      else if a.FailToStart? || a.FinishWork? || a.Halt? || a.GiveUp? || a.Conclude? then n.holder
      else AfterCall(n.holder, t, CallOf(a));
    Node(holder, n.tasks[t := NextTask(n.tasks[t], a, n.holder.threads[t])],
         n.works + (if a.StartWorking? then 1 else 0),
         n.cleanups + (if a.FinishWork? || a.FailToStart? then 1 else 0),
         n.halts + (if a.Halt? then 1 else 0))
  }

  predicate InitialNode(n: Node) {
    Initial(n.holder) && n.works == 0 && n.cleanups == 0 && n.halts == 0 && n.tasks.Keys == n.holder.threads.Keys && forall t | t in n.tasks :: n.tasks[t] == Free
  }

  ghost predicate IsNodeRun(ns: seq<Node>, steps: seq<(nat, Action)>) {
    && |ns| == |steps| + 1 && InitialNode(ns[0])
    && forall i | 0 <= i < |steps| :: Ready(ns[i], steps[i].0, steps[i].1) && ns[i + 1] == NodeAfter(ns[i], steps[i].0, steps[i].1)
  }

  /** What the task of a thread says about the node. */
  predicate TaskOk(n: Node, t: nat)
    requires t in n.tasks && t in n.holder.threads
  {
    var thread := n.holder.threads[t];
    match n.tasks[t]
    case Free => (thread.Idle? || (thread.Returned? && thread.answer.SetDone?)) && n.holder.starts != [t] && n.holder.stops != [t]
    case RunCalled =>
      && thread != Idle && !(thread.Returned? && !thread.answer.RunAnswer?)
      && ((thread.Asleep? || thread.Awake?) ==> thread.reason.Runner? || thread.reason.LateRunner?)
      && (if thread == Returned(RunAnswer(true)) then n.holder.starts == [t] && n.holder.state == Starting && n.works == 0 && n.cleanups == 0
          else n.holder.starts != [t])
    case RunWon => n.holder.starts == [t] && n.holder.state == Starting && n.works == 0 && n.cleanups == 0
    case Working => n.holder.starts == [t] && 2 <= Phase(n.holder.state) <= 3 && n.cleanups == 0
    case Cleaned => n.holder.starts == [t] && 1 <= Phase(n.holder.state) <= 3 && n.cleanups == 1
    case RunDone => n.holder.starts == [t] ==> n.holder.state == Stopped && n.cleanups == 1
    case StopCalled =>
      && thread != Idle && !(thread.Returned? && !thread.answer.StopAnswer?)
      && ((thread.Asleep? || thread.Awake?) ==> thread.reason.LateStopper? || thread.reason == Stopper(false))
      && (if thread == Returned(StopAnswer(false)) then n.holder.stops == [t] && n.halts == 0 else n.holder.stops != [t])
    case StopWon => thread.Returned? && n.holder.stops == [t] && n.halts == 0
    case Halted => thread.Returned? && n.holder.stops == [t] && n.halts == 1
    case StopDone => ((thread.Asleep? || thread.Awake?) ==> thread.reason.Waiter?) && (n.holder.stops == [t] ==> n.halts == 1)
  }

  ghost predicate NodeInv(n: Node) {
    && Inv(n.holder) && n.tasks.Keys == n.holder.threads.Keys && n.holder.kept == []
    && (forall t | t in n.tasks :: TaskOk(n, t))
    && n.works <= 1 && n.cleanups <= |n.holder.starts| && n.halts <= |n.holder.stops|
    && Marks(n)
  }

  lemma {:induction false} NodeHolderInv(n: Node, t: nat, a: Action)
    requires NodeInv(n) && Ready(n, t, a)
    ensures Inv(NodeAfter(n, t, a).holder) && Phase(n.holder.state) <= Phase(NodeAfter(n, t, a).holder.state)
    ensures NodeAfter(n, t, a).tasks.Keys == NodeAfter(n, t, a).holder.threads.Keys
  {
    hide Inv, TaskOk;
    if a.Continue? {
      StepKeepsInv(n.holder, Resumes(t));
      StepForward(n.holder, Resumes(t));
    } else if !(a.FailToStart? || a.FinishWork? || a.Halt? || a.GiveUp? || a.Conclude?) {
      StepKeepsInv(n.holder, Calls(t, CallOf(a)));
      StepForward(n.holder, Calls(t, CallOf(a)));
    }
  }

  lemma {:induction false} RunActorOk(n: Node, t: nat, a: Action)
    requires NodeInv(n) && Ready(n, t, a)
    requires a.BeginRun?
    ensures TaskOk(NodeAfter(n, t, a), t)
  {
    assert TaskOk(n, t);
    assert ThreadOk(n.holder.state, n.holder.threads[t]);
  }

  lemma {:induction false} SetActorOk(n: Node, t: nat, a: Action)
    requires NodeInv(n) && Ready(n, t, a)
    requires a.StartWorking? || a.SetStopped? || a.Pause? || a.Resume?
    ensures TaskOk(NodeAfter(n, t, a), t)
  {
    assert TaskOk(n, t);
    assert ThreadOk(n.holder.state, n.holder.threads[t]);
  }

  lemma {:induction false} StopOutcome(h: Holder, t: nat)
    requires t in h.threads
    ensures var h' := Apply(h, t, OnStop(h.state, false));
            && t in h'.threads && h'.threads[t] == OnStop(h.state, false).thread
            && h'.stops == if Phase(h.state) == 2 then h.stops + [t] else h.stops
  {
    hide Broadcast;
  }

  lemma {:induction false} NotYetStopping(n: Node, t: nat)
    requires NodeInv(n) && t in n.tasks && n.tasks[t] == Free
    ensures n.holder.stops != [t] && (Phase(n.holder.state) < 3 ==> n.holder.stops == [] && n.halts == 0)
  {
    assert TaskOk(n, t);
  }

  lemma {:induction false} StopActorOk(n: Node, t: nat, a: Action)
    requires NodeInv(n) && Ready(n, t, a) && a.BeginStop?
    ensures TaskOk(NodeAfter(n, t, a), t)
  {
    hide NodeInv, Apply;
    NotYetStopping(n, t);
    StopOutcome(n.holder, t);
  }

  lemma {:induction false} AwaitActorOk(n: Node, t: nat, a: Action)
    requires NodeInv(n) && Ready(n, t, a) && a.AwaitStopped?
    ensures TaskOk(NodeAfter(n, t, a), t)
  {
    assert TaskOk(n, t);
    assert ThreadOk(n.holder.state, n.holder.threads[t]);
  }

  lemma {:induction false} ResumeActorOk(n: Node, t: nat, a: Action)
    requires NodeInv(n) && Ready(n, t, a)
    requires a.Continue?
    ensures TaskOk(NodeAfter(n, t, a), t)
  {
    assert TaskOk(n, t);
    assert ThreadOk(n.holder.state, n.holder.threads[t]);
  }

  lemma {:induction false} LocalActorOk(n: Node, t: nat, a: Action)
    requires NodeInv(n) && Ready(n, t, a)
    requires a.FailToStart? || a.FinishWork? || a.Halt? || a.GiveUp? || a.Conclude?
    ensures TaskOk(NodeAfter(n, t, a), t)
  {
    assert TaskOk(n, t);
    assert ThreadOk(n.holder.state, n.holder.threads[t]);
  }

  lemma {:induction false} NodeActorOk(n: Node, t: nat, a: Action)
    requires NodeInv(n) && Ready(n, t, a)
    ensures TaskOk(NodeAfter(n, t, a), t)
  {
    hide *;
    if a.BeginRun? {
      RunActorOk(n, t, a);
    } else if a.StartWorking? || a.SetStopped? || a.Pause? || a.Resume? {
      SetActorOk(n, t, a);
    } else if a.BeginStop? {
      StopActorOk(n, t, a);
    } else if a.AwaitStopped? {
      AwaitActorOk(n, t, a);
    } else if a.Continue? {
      ResumeActorOk(n, t, a);
    } else {
      LocalActorOk(n, t, a);
    }
  }

  /** What a step of another thread t can do to the holder, as far as thread u is concerned. */
  predicate Spared(h: Holder, h': Holder, t: nat, u: nat)
    requires u in h.threads && u in h'.threads
  {
    && (h'.threads[u] == h.threads[u] || h'.threads[u] == Woken(h.threads[u]))
    && (h'.starts == h.starts || (h.starts == [] && h'.starts == [t]))
    && (h'.stops == h.stops || (h.stops == [] && h'.stops == [t]))
    && (h.starts == [u] ==>
          Phase(h.state) <= Phase(h'.state) && (h'.state == h.state || (2 <= Phase(h.state) && Phase(h'.state) <= 3)))
  }

  /** What every holder satisfies, as far as Spared needs it. */
  predicate Sane(h: Holder) {
    |h.starts| <= 1 && |h.stops| <= 1 && (Phase(h.state) < 3 ==> h.stops == []) && (h.state == Initialized ==> h.starts == [])
  }

  lemma {:induction false} OthersAfter(h: Holder, t: nat, o: Outcome, u: nat)
    requires t in h.threads && u in h.threads && u != t
    ensures u in Apply(h, t, o).threads
    ensures Apply(h, t, o).threads[u] == if o.change.To? then Woken(h.threads[u]) else h.threads[u]
  {}

  /** A change of the state by another thread spares u unless it ends the work of u. */
  lemma {:induction false} ApplySpares(h: Holder, t: nat, o: Outcome, u: nat)
    requires t in h.threads && u in h.threads && u != t
    requires o.thread == Returned(RunAnswer(true)) ==> h.starts == []
    requires o.thread == Returned(StopAnswer(false)) && o.change.To? ==> h.stops == []
    requires h.starts == [u] && o.change.To? ==>
               Phase(h.state) <= Phase(o.change.state) && (o.change.state == h.state || (2 <= Phase(h.state) && Phase(o.change.state) <= 3))
    ensures u in Apply(h, t, o).threads && Spared(h, Apply(h, t, o), t, u)
  {
    hide Woken, Broadcast, Phase;
    OthersAfter(h, t, o, u);
  }

  lemma {:induction false} RunSpares(h: Holder, t: nat, u: nat)
    requires Sane(h) && t in h.threads && u in h.threads && u != t
    ensures u in Apply(h, t, OnRun(h.state)).threads && Spared(h, Apply(h, t, OnRun(h.state)), t, u)
  {
    hide Apply, Spared;
    ApplySpares(h, t, OnRun(h.state), u);
  }

  lemma {:induction false} StopSpares(h: Holder, t: nat, keep: bool, u: nat)
    requires Sane(h) && t in h.threads && u in h.threads && u != t
    ensures u in Apply(h, t, OnStop(h.state, keep)).threads && Spared(h, Apply(h, t, OnStop(h.state, keep)), t, u)
  {
    hide Apply, Spared;
    ApplySpares(h, t, OnStop(h.state, keep), u);
  }

  lemma {:induction false} WaitSpares(h: Holder, t: nat, target: State, reason: Reason, u: nat)
    requires Sane(h) && t in h.threads && u in h.threads && u != t
    ensures var o := OnWait(h.state, target, reason); u in Apply(h, t, o).threads && Spared(h, Apply(h, t, o), t, u)
  {
    var o := OnWait(h.state, target, reason);
    hide Apply, Spared, OnStop;
    if reason.Stopper? && Reached(target, h.state) {
      StopSpares(h, t, reason.keepInitialized, u);
    } else {
      ApplySpares(h, t, o, u);
    }
  }

  lemma {:induction false} SetSpares(h: Holder, t: nat, to: State, u: nat)
    requires Sane(h) && t in h.threads && u in h.threads && u != t
    requires h.starts == [u] ==> 2 <= Phase(h.state) && (to == Running || to == Paused)
    ensures var o := OnCall(h.state, Set(to)); u in Apply(h, t, o).threads && Spared(h, Apply(h, t, o), t, u)
  {
    var o := OnCall(h.state, Set(to));
    hide Apply, Spared;
    ApplySpares(h, t, o, u);
  }

  /** What a step of another thread can do to a node, as far as thread u is concerned. */
  predicate Undisturbed(n: Node, n': Node, t: nat, u: nat)
    requires u in n.holder.threads && u in n'.holder.threads && u in n.tasks && u in n'.tasks
  {
    && Spared(n.holder, n'.holder, t, u) && n'.tasks[u] == n.tasks[u]
    && (n.holder.starts == [u] ==> n'.works == n.works && n'.cleanups == n.cleanups)
    && (n.holder.stops == [u] ==> n'.halts == n.halts)
  }

  /** The counters belong to the threads that have won. */
  lemma {:induction false} CountsUndisturbed(n: Node, t: nat, a: Action, u: nat)
    requires Ready(n, t, a) && TaskOk(n, t) && u in n.tasks && u != t
    ensures var n' := NodeAfter(n, t, a);
            && u in n'.tasks && n'.tasks[u] == n.tasks[u]
            && (n.holder.starts == [u] ==> n'.works == n.works && n'.cleanups == n.cleanups)
            && (n.holder.stops == [u] ==> n'.halts == n.halts)
  {
    hide AfterCall, AfterResume;
  }

  lemma {:induction false} HolderSpared(n: Node, t: nat, a: Action, u: nat)
    requires Sane(n.holder) && Ready(n, t, a) && TaskOk(n, t) && u in n.holder.threads && u != t
    ensures u in NodeAfter(n, t, a).holder.threads && Spared(n.holder, NodeAfter(n, t, a).holder, t, u)
  {
    var h := n.holder;
    hide Apply, OnRun, OnStop, OnWait, Sane;
    if a.StartWorking? || a.SetStopped? || a.Pause? || a.Resume? {
      assert h.starts == [u] ==> 2 <= Phase(h.state) && (CallOf(a).to == Running || CallOf(a).to == Paused);
      hide Spared, TaskOk;
      SetSpares(h, t, CallOf(a).to, u);
    } else if a.BeginRun? {
      hide Spared, TaskOk;
      RunSpares(h, t, u);
    } else if a.BeginStop? {
      hide Spared, TaskOk;
      StopSpares(h, t, false, u);
    } else if a.AwaitStopped? {
      hide Spared, TaskOk;
      WaitSpares(h, t, Stopped, Waiter, u);
    } else if a.Continue? {
      hide Spared, TaskOk;
      WaitSpares(h, t, h.threads[t].target, h.threads[t].reason, u);
    }
  }

  lemma {:induction false} UndisturbedOk(n: Node, n': Node, t: nat, u: nat)
    requires u in n.holder.threads && u in n'.holder.threads && u in n.tasks && u in n'.tasks && u != t
    requires TaskOk(n, u) && Undisturbed(n, n', t, u) && (n.holder.state == Stopped ==> n'.holder.state == Stopped)
    ensures TaskOk(n', u)
  {}

  lemma {:induction false} NodeOthersOk(n: Node, t: nat, a: Action, u: nat)
    requires NodeInv(n) && Ready(n, t, a) && u in n.tasks && u != t && u in NodeAfter(n, t, a).holder.threads
    ensures TaskOk(NodeAfter(n, t, a), u)
  {
    assert Sane(n.holder);
    hide Inv, TaskOk, Ready, NodeAfter, Spared, Sane;
    NodeHolderInv(n, t, a);
    CountsUndisturbed(n, t, a, u);
    HolderSpared(n, t, a, u);
    UndisturbedOk(n, NodeAfter(n, t, a), t, u);
  }

  lemma {:induction false} NodeCounts(n: Node, t: nat, a: Action)
    requires NodeInv(n) && Ready(n, t, a)
    ensures var n' := NodeAfter(n, t, a);
            && n'.holder.kept == []
            && n'.works <= 1 && n'.cleanups <= |n'.holder.starts| && n'.halts <= |n'.holder.stops|
  {
    assert TaskOk(n, t);
    assert ThreadOk(n.holder.state, n.holder.threads[t]);
  }

  /** A node that was never started has done nothing, and a stopped one has been cleaned up if it was. */
  ghost predicate Marks(n: Node) {
    && (n.holder.starts == [] ==> n.works == 0 && n.holder.stops == [] && (n.holder.state == Initialized || n.holder.state == Stopped))
    && (n.holder.state == Stopped ==> n.cleanups == |n.holder.starts|)
  }

  lemma {:induction false} RunMarks(n: Node, t: nat, a: Action)
    requires NodeInv(n) && Ready(n, t, a)
    requires a.BeginRun?
    ensures Marks(NodeAfter(n, t, a))
  {
    assert TaskOk(n, t);
    assert ThreadOk(n.holder.state, n.holder.threads[t]);
  }

  lemma {:induction false} SetMarks(n: Node, t: nat, a: Action)
    requires NodeInv(n) && Ready(n, t, a)
    requires a.StartWorking? || a.SetStopped? || a.Pause? || a.Resume?
    ensures Marks(NodeAfter(n, t, a))
  {
    assert TaskOk(n, t);
    assert ThreadOk(n.holder.state, n.holder.threads[t]);
  }

  lemma {:induction false} StopMarks(n: Node, t: nat, a: Action)
    requires NodeInv(n) && Ready(n, t, a)
    requires a.BeginStop? || a.AwaitStopped?
    ensures Marks(NodeAfter(n, t, a))
  {
    assert TaskOk(n, t);
    assert ThreadOk(n.holder.state, n.holder.threads[t]);
  }

  lemma {:induction false} ResumeMarks(n: Node, t: nat, a: Action)
    requires NodeInv(n) && Ready(n, t, a)
    requires a.Continue?
    ensures Marks(NodeAfter(n, t, a))
  {
    assert TaskOk(n, t);
    assert ThreadOk(n.holder.state, n.holder.threads[t]);
  }

  lemma {:induction false} LocalMarks(n: Node, t: nat, a: Action)
    requires NodeInv(n) && Ready(n, t, a)
    requires a.FailToStart? || a.FinishWork? || a.Halt? || a.GiveUp? || a.Conclude?
    ensures Marks(NodeAfter(n, t, a))
  {
    assert TaskOk(n, t);
    assert ThreadOk(n.holder.state, n.holder.threads[t]);
  }

  lemma {:induction false} NodeMarks(n: Node, t: nat, a: Action)
    requires NodeInv(n) && Ready(n, t, a)
    ensures Marks(NodeAfter(n, t, a))
  {
    hide *;
    if a.BeginRun? {
      RunMarks(n, t, a);
    } else if a.StartWorking? || a.SetStopped? || a.Pause? || a.Resume? {
      SetMarks(n, t, a);
    } else if a.BeginStop? || a.AwaitStopped? {
      StopMarks(n, t, a);
    } else if a.Continue? {
      ResumeMarks(n, t, a);
    } else {
      LocalMarks(n, t, a);
    }
  }

  lemma {:induction false} NodeStepKeepsInv(n: Node, t: nat, a: Action)
    requires NodeInv(n) && Ready(n, t, a)
    ensures NodeInv(NodeAfter(n, t, a))
  {
    hide Inv, TaskOk, Ready;
    NodeHolderInv(n, t, a);
    NodeCounts(n, t, a);
    NodeMarks(n, t, a);
    forall u | u in NodeAfter(n, t, a).tasks ensures TaskOk(NodeAfter(n, t, a), u) {
      if u == t { NodeActorOk(n, t, a); } else { NodeOthersOk(n, t, a, u); }
    }
  }

  lemma {:induction false} NodeRunInv(ns: seq<Node>, steps: seq<(nat, Action)>, i: nat)
    requires IsNodeRun(ns, steps) && i < |ns|
    ensures NodeInv(ns[i])
    decreases i
  {
    if i != 0 {
      NodeRunInv(ns, steps, i - 1);
      assert ns[(i - 1) + 1] == NodeAfter(ns[i - 1], steps[i - 1].0, steps[i - 1].1);
      NodeStepKeepsInv(ns[i - 1], steps[i - 1].0, steps[i - 1].1);
    }
  }

  /** In every interleaving of a node: the work is started at most once, Terminate (the cleanup) and
      Source.Stop (the halt) run at most once, and a stopped node has been cleaned up exactly if it
      was ever started. */
  lemma {:induction false} NodeAtMostOnce(ns: seq<Node>, steps: seq<(nat, Action)>, i: nat)
    requires IsNodeRun(ns, steps) && i < |ns|
    ensures ns[i].works <= 1 && ns[i].cleanups <= 1 && ns[i].halts <= 1
    ensures ns[i].halts == 1 ==> |ns[i].holder.starts| == 1
    ensures ns[i].holder.state == Stopped ==> ns[i].cleanups == |ns[i].holder.starts|
  {
    NodeRunInv(ns, steps, i);
  }

  /** The winners do their part: a thread told to start has cleaned up and stopped the node when it is done,
      and one told to stop has halted the work. */
  lemma {:induction false} WinnersFinish(ns: seq<Node>, steps: seq<(nat, Action)>, i: nat, t: nat)
    requires IsNodeRun(ns, steps) && i < |ns| && t in ns[i].tasks
    ensures ns[i].holder.starts == [t] && ns[i].tasks[t] == RunDone ==> ns[i].holder.state == Stopped && ns[i].cleanups == 1
    ensures ns[i].holder.stops == [t] && ns[i].tasks[t] == StopDone ==> ns[i].halts == 1
  {
    NodeRunInv(ns, steps, i);
    assert TaskOk(ns[i], t);
  }

  // ---- a node goes on ----------------------------------------------------------------------

  /** Tasks whose next step is taken outside the holder or starts a new call on it. */
  predicate Acting(t: Task) {
    t == Free || t == RunWon || t == Working || t == Cleaned || t == StopWon || t == Halted
  }

  ghost predicate ActorsAwake(n: Node) {
    n.tasks.Keys == n.holder.threads.Keys && forall t | t in n.tasks && Acting(n.tasks[t]) :: n.holder.threads[t].Idle? || n.holder.threads[t].Returned?
  }

  lemma {:induction false} ActorStaysAwake(n: Node, t: nat, a: Action)
    requires ActorsAwake(n) && Ready(n, t, a) && Acting(NodeAfter(n, t, a).tasks[t])
    ensures t in NodeAfter(n, t, a).holder.threads
    ensures var thread := NodeAfter(n, t, a).holder.threads[t]; (thread.Idle? || thread.Returned?) || a.Continue?
  {}

  lemma {:induction false} ContinueKeepsTask(n: Node, t: nat, a: Action)
    requires ActorsAwake(n) && Ready(n, t, a) && a.Continue?
    ensures !Acting(NodeAfter(n, t, a).tasks[t])
  {}

  lemma {:induction false} OtherStaysAwake(n: Node, t: nat, a: Action, u: nat)
    requires ActorsAwake(n) && Ready(n, t, a) && u in n.tasks && u != t
    ensures u in NodeAfter(n, t, a).tasks && NodeAfter(n, t, a).tasks[u] == n.tasks[u] && u in NodeAfter(n, t, a).holder.threads
    ensures NodeAfter(n, t, a).holder.threads[u] == n.holder.threads[u] || NodeAfter(n, t, a).holder.threads[u] == Woken(n.holder.threads[u])
  {
    hide OnCall, OnWait;
  }

  lemma {:induction false} StepKeepsAwake(n: Node, t: nat, a: Action)
    requires ActorsAwake(n) && Ready(n, t, a)
    ensures ActorsAwake(NodeAfter(n, t, a))
  {
    hide Ready, NodeAfter;
    var n' := NodeAfter(n, t, a);
    KeysKept(n, t, a);
    forall u | u in n'.tasks && Acting(n'.tasks[u]) ensures n'.holder.threads[u].Idle? || n'.holder.threads[u].Returned? {
      if u == t {
        ActorStaysAwake(n, t, a);
        if a.Continue? { ContinueKeepsTask(n, t, a); }
      } else {
        OtherStaysAwake(n, t, a, u);
      }
    }
  }

  lemma {:induction false} KeysKept(n: Node, t: nat, a: Action)
    requires n.tasks.Keys == n.holder.threads.Keys && Ready(n, t, a)
    ensures NodeAfter(n, t, a).tasks.Keys == n.tasks.Keys == NodeAfter(n, t, a).holder.threads.Keys
  {
    hide OnCall, OnWait;
  }

  lemma {:induction false} RunKeepsAwake(ns: seq<Node>, steps: seq<(nat, Action)>, i: nat)
    requires IsNodeRun(ns, steps) && i < |ns|
    ensures ActorsAwake(ns[i])
    decreases i
  {
    hide Ready, NodeAfter;
    if i != 0 {
      RunKeepsAwake(ns, steps, i - 1);
      assert ns[(i - 1) + 1] == NodeAfter(ns[i - 1], steps[i - 1].0, steps[i - 1].1);
      StepKeepsAwake(ns[i - 1], steps[i - 1].0, steps[i - 1].1);
    }
  }

  /** In every interleaving of a node, a thread that has not finished can take a step unless it sleeps; one
      that sleeps waits for running or stopped, which has not been reached. */
  lemma {:induction false} NodeGoesOn(ns: seq<Node>, steps: seq<(nat, Action)>, i: nat, t: nat) returns (a: Action)
    requires IsNodeRun(ns, steps) && i < |ns| && t in ns[i].tasks && ns[i].tasks[t] != RunDone && ns[i].tasks[t] != StopDone
    ensures t in ns[i].holder.threads
    ensures var thread := ns[i].holder.threads[t];
            if thread.Asleep? then (thread.target == Running || thread.target == Stopped) && !Reached(thread.target, ns[i].holder.state)
            else Ready(ns[i], t, a)
  {
    var n := ns[i];
    RunKeepsAwake(ns, steps, i);
    NodeRunInv(ns, steps, i);
    assert TaskOk(n, t) && ThreadOk(n.holder.state, n.holder.threads[t]);
    match n.tasks[t] {
      case Free => a := BeginRun;
      case RunCalled => a := if n.holder.threads[t].Awake? then Continue else Conclude;
      case RunWon => a := StartWorking(false);
      case Working => a := FinishWork;
      case Cleaned => a := SetStopped;
      case StopCalled => a := if n.holder.threads[t].Awake? then Continue else Conclude;
      case StopWon => a := Halt;
      case Halted => a := AwaitStopped;
    }
  }
}
