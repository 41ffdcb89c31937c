/** A source that can be paused, rewound and stopped: one goroutine that generates the stream again and
    again, the main goroutine that waits for it, and any number of threads that control it. Each event
    is one indivisible step: a section under the lock, a write, or the move of a goroutine between two
    of them. Waiting on the condition variable is a step that is not enabled yet. */
module Rewind {
  import opened Lifecycle

  /** The generator: inside the original source, in front of the check of the wrapped writer, between
      the check and the write, waiting for a rewind, about to report an error, and gone. */
  datatype Generator = Generating | Checking | Writing | Awaiting | Failing | Ended

  datatype Main = Selecting | Leaving(forced: bool) | Left(forced: bool)

  /** A rewinder remembers the generation and the epoch in which it set the flag. */
  datatype Controller =
    | Outside
    | Rewinding(generation: nat, since: nat)
    | Rewound(generation: nat, since: nat)
    | StopAllowed | Halting | Forcing
    | AwaitingStop(failed: bool)
    | StopReturned(failed: bool)

  /** epoch counts the changes of the state; writes lists the generations of the written tuples. */
  datatype Source = Source(
    enabled: bool,
    state: State,
    epoch: nat,
    rewind: bool,
    generation: nat,
    generator: Generator,
    main: Main,
    forceStop: bool,
    failures: nat,
    controllers: map<nat, Controller>,
    writes: seq<nat>)

  datatype GeneratorStep = CallWriter | Check | Write | ReturnFromStream | ReturnError | Await | Report

  datatype MainStep = TakeResult | TakeForce | SetStopped

  datatype ThreadStep = CallRewind | ReturnRewind | CallStop | SetStopping | Halt(ok: bool) | Force | ReturnStop

  datatype Event = ByGenerator(gen: GeneratorStep) | ByMain(main: MainStep) | ByThread(thread: nat, call: ThreadStep) | Pause | Resume

  predicate Is(s: Source, t: nat, c: Controller) {
    t in s.controllers && s.controllers[t] == c
  }

  predicate GeneratorCan(s: Source, g: GeneratorStep) {
    match g
    case CallWriter => s.generator == Generating
    case Check => s.generator == Checking && (s.rewind || s.state != Paused)
    case Write => s.generator == Writing
    case ReturnFromStream => s.generator == Generating
    case ReturnError => s.generator == Generating
    case Await => s.generator == Awaiting && (!s.enabled || Phase(s.state) >= 3 || s.rewind)
    case Report => s.generator == Failing
  }

  predicate MainCan(s: Source, m: MainStep) {
    match m
    case TakeResult => s.main == Selecting && s.generator == Ended
    case TakeForce => s.main == Selecting && s.forceStop
    case SetStopped => s.main.Leaving?
  }

  predicate ThreadCan(s: Source, t: nat, call: ThreadStep) {
    match call
    case CallRewind => Is(s, t, Outside) && s.enabled
    case ReturnRewind => t in s.controllers && s.controllers[t].Rewinding? && !s.rewind
    case CallStop => Is(s, t, Outside)
    case SetStopping => Is(s, t, StopAllowed)
    case Halt(_) => Is(s, t, Halting)
    case Force => Is(s, t, Forcing) && !s.forceStop
    case ReturnStop => t in s.controllers && s.controllers[t].AwaitingStop? && s.state == Stopped
  }

  predicate Enabled(s: Source, e: Event) {
    match e
    case ByGenerator(g) => GeneratorCan(s, g)
    case ByMain(m) => MainCan(s, m)
    case ByThread(t, call) => ThreadCan(s, t, call)
    case Pause => true
    case Resume => true
  }

  function SetTo(s: Source, to: State): Source {
    if Allowed(s.state, to) && to != s.state then s.(state := to, epoch := s.epoch + 1) else s
  }

  function Becomes(s: Source, t: nat, c: Controller): Source
    requires t in s.controllers
  {
    s.(controllers := s.controllers[t := c])
  }

  /** The check of the wrapped writer: refused once rewound or stopped, otherwise passed. A refused
      source may go on as it likes; it is only ever refused again. */
  function AfterCheck(s: Source): Source {
    if !s.rewind && (s.state == Stopping || s.state == Stopped) then s.(generator := Generating)
    else if s.rewind then s.(generator := Generating)
    else s.(generator := Writing)
  }

  function AfterAwait(s: Source): Source {
    if !s.enabled then s.(generator := Ended)
    else if Phase(s.state) >= 3 then s.(generator := Ended, rewind := false)
    else s.(generator := Generating, rewind := false, generation := s.generation + 1)
  }

  function AfterGenerator(s: Source, g: GeneratorStep): Source
    requires GeneratorCan(s, g)
  {
    match g
    case CallWriter => s.(generator := Checking)
    case Check => AfterCheck(s)
    case Write => s.(generator := Generating, writes := s.writes + [s.generation])
    case ReturnFromStream => s.(generator := Awaiting)
    case ReturnError => s.(generator := Failing)
    case Await => AfterAwait(s)
    case Report => s.(generator := Ended, rewind := false)
  }

  function AfterMain(s: Source, m: MainStep): Source
    requires MainCan(s, m)
  {
    match m
    case TakeResult => s.(main := Leaving(false))
    case TakeForce => s.(main := Leaving(true), forceStop := false)
    case SetStopped => SetTo(s, Stopped).(main := Left(s.main.forced))
  }

  function AfterThread(s: Source, t: nat, call: ThreadStep): Source
    requires ThreadCan(s, t, call)
  {
    match call
    case CallRewind => Becomes(s, t, Rewinding(s.generation, s.epoch)).(rewind := true)
    case ReturnRewind => Becomes(s, t, Rewound(s.controllers[t].generation, s.controllers[t].since))
    case CallStop => Becomes(s, t, if Phase(s.state) >= 3 then AwaitingStop(false) else StopAllowed)
    case SetStopping => Becomes(SetTo(s, Stopping), t, Halting)
    case Halt(ok) => if ok then Becomes(s, t, AwaitingStop(false)) else Becomes(s, t, Forcing).(failures := s.failures + 1)
    case Force => Becomes(s, t, AwaitingStop(true)).(forceStop := true)
    case ReturnStop => Becomes(s, t, StopReturned(s.controllers[t].failed))
  }

  function After(s: Source, e: Event): Source
    requires Enabled(s, e)
  {
    match e
    case ByGenerator(g) => AfterGenerator(s, g)
    case ByMain(m) => AfterMain(s, m)
    case ByThread(t, call) => AfterThread(s, t, call)
    case Pause => SetTo(s, Paused)
    case Resume => SetTo(s, Running)
  }

  predicate Initial(s: Source) {
    && s.state == Initialized && !s.rewind && s.generator == Generating && s.main == Selecting && !s.forceStop
    && s.failures == 0 && s.writes == [] && forall t | t in s.controllers :: s.controllers[t] == Outside
  }

  ghost predicate IsRun(ss: seq<Source>, events: seq<Event>) {
    && |ss| == |events| + 1 && Initial(ss[0])
    && forall i | 0 <= i < |events| :: Steps(ss[i], events[i], ss[i + 1])
  }

  predicate Steps(s: Source, e: Event, s': Source) {
    Enabled(s, e) && s' == After(s, e)
  }

  // ---- what every step keeps ---------------------------------------------------------------

  predicate ControllerOk(s: Source, c: Controller) {
    match c
    case Rewinding(g, e) => g <= s.generation && e <= s.epoch && (g < s.generation || s.generator == Ended || s.rewind) && Calm(s, g, e)
    case Rewound(g, e) => g <= s.generation && e <= s.epoch && (g < s.generation || s.generator == Ended) && Calm(s, g, e)
    case Forcing => s.failures > 0
    case StopReturned(_) => s.state == Stopped
    case _ => true
  }

  /** In a generation that began in the current paused epoch, no write is under way. */
  predicate Calm(s: Source, g: nat, e: nat) {
    e == s.epoch && s.state == Paused && g < s.generation ==> s.generator != Writing
  }

  ghost predicate ControllersOk(s: Source) {
    forall t | t in s.controllers :: ControllerOk(s, s.controllers[t])
  }

  ghost predicate Inv(s: Source) {
    MainOk(s) && ControllersOk(s)
  }

  lemma {:induction false} GeneratorKeeps(s: Source, g: GeneratorStep, t: nat)
    requires t in s.controllers && ControllerOk(s, s.controllers[t]) && GeneratorCan(s, g)
    ensures ControllerOk(AfterGenerator(s, g), s.controllers[t])
  {}

  lemma {:induction false} StateKeeps(s: Source, s': Source, c: Controller)
    requires ControllerOk(s, c) && s' == s.(state := s'.state, epoch := s'.epoch, main := s'.main, forceStop := s'.forceStop, failures := s'.failures, controllers := s'.controllers)
    requires s.epoch <= s'.epoch && (s'.epoch == s.epoch ==> s'.state == s.state) && (s.state == Stopped ==> s'.state == Stopped) && s.failures <= s'.failures
    ensures ControllerOk(s', c)
  {}

  lemma {:induction false} RewinderKeeps(s: Source, t: nat, call: ThreadStep, u: nat)
    requires u in s.controllers && ControllerOk(s, s.controllers[u]) && ThreadCan(s, t, call) && (call.CallRewind? || call.ReturnRewind?)
    ensures u in AfterThread(s, t, call).controllers && ControllerOk(AfterThread(s, t, call), AfterThread(s, t, call).controllers[u])
  {}

  lemma {:induction false} StopperKeeps(s: Source, t: nat, call: ThreadStep, u: nat)
    requires u in s.controllers && ControllerOk(s, s.controllers[u]) && ThreadCan(s, t, call) && !(call.CallRewind? || call.ReturnRewind?)
    ensures u in AfterThread(s, t, call).controllers && ControllerOk(AfterThread(s, t, call), AfterThread(s, t, call).controllers[u])
  {
    var s' := AfterThread(s, t, call);
    StateKeeps(s, s', s.controllers[u]);
  }

  lemma {:induction false} MainKeeps(s: Source, m: MainStep, t: nat)
    requires t in s.controllers && ControllerOk(s, s.controllers[t]) && MainCan(s, m)
    ensures AfterMain(s, m).controllers == s.controllers && ControllerOk(AfterMain(s, m), s.controllers[t])
  {
    hide ControllerOk;
    StateKeeps(s, AfterMain(s, m), s.controllers[t]);
  }

  lemma {:induction false} ControllerKept(s: Source, e: Event, t: nat)
    requires ControllersOk(s) && Enabled(s, e) && t in s.controllers
    ensures t in After(s, e).controllers && ControllerOk(After(s, e), After(s, e).controllers[t])
  {
    assert ControllerOk(s, s.controllers[t]);
    hide ControllerOk, ControllersOk, AfterGenerator, AfterThread, AfterMain, GeneratorCan, ThreadCan, MainCan;
    match e
    case ByGenerator(g) =>
      GeneratorKeeps(s, g, t);
      GeneratorControllers(s, g);
    case ByThread(u, call) =>
      if call.CallRewind? || call.ReturnRewind? { RewinderKeeps(s, u, call, t); } else { StopperKeeps(s, u, call, t); }
    case ByMain(m) => MainKeeps(s, m, t);
    case Pause => StateKeeps(s, SetTo(s, Paused), s.controllers[t]);
    case Resume => StateKeeps(s, SetTo(s, Running), s.controllers[t]);
  }

  lemma {:induction false} GeneratorControllers(s: Source, g: GeneratorStep)
    requires GeneratorCan(s, g)
    ensures AfterGenerator(s, g).controllers == s.controllers
  {}

  ghost predicate MainOk(s: Source) {
    && (s.state == Stopped <==> s.main.Left?)
    && (!s.main.Selecting? && !s.main.forced ==> s.generator == Ended)
    && (s.forceStop || (!s.main.Selecting? && s.main.forced) ==> s.failures > 0)
  }

  lemma {:induction false} GeneratorKeepsMain(s: Source, g: GeneratorStep)
    requires MainOk(s) && GeneratorCan(s, g)
    ensures MainOk(AfterGenerator(s, g))
  {}

  lemma {:induction false} MainKeepsMain(s: Source, m: MainStep)
    requires MainOk(s) && MainCan(s, m)
    ensures MainOk(AfterMain(s, m))
  {}

  lemma {:induction false} ThreadKeepsMain(s: Source, t: nat, call: ThreadStep)
    requires MainOk(s) && ThreadCan(s, t, call) && ControllerOk(s, s.controllers[t])
    ensures MainOk(AfterThread(s, t, call)) && AfterThread(s, t, call).controllers.Keys == s.controllers.Keys
  {}

  lemma {:induction false} StepKeepsMain(s: Source, e: Event)
    requires Inv(s) && Enabled(s, e)
    ensures MainOk(After(s, e)) && After(s, e).controllers.Keys == s.controllers.Keys
  {
    hide AfterGenerator, AfterThread, GeneratorCan, ControllerOk;
    match e
    case ByGenerator(g) =>
      GeneratorKeepsMain(s, g);
      GeneratorControllers(s, g);
    case ByMain(m) => MainKeepsMain(s, m);
    case ByThread(t, call) => ThreadKeepsMain(s, t, call);
    case _ =>
  }

  lemma {:induction false} StepKeepsInv(s: Source, e: Event)
    requires Inv(s) && Enabled(s, e)
    ensures Inv(After(s, e))
  {
    hide ControllerOk, After, MainOk;
    StepKeepsMain(s, e);
    forall t | t in After(s, e).controllers ensures ControllerOk(After(s, e), After(s, e).controllers[t]) {
      ControllerKept(s, e, t);
    }
  }

  lemma {:induction false} RunInv(ss: seq<Source>, events: seq<Event>, i: nat)
    requires IsRun(ss, events) && i < |ss|
    ensures Inv(ss[i])
    decreases i
  {
    hide Inv, Initial;
    if i == 0 {
      InitialInv(ss[0]);
    } else {
      RunInv(ss, events, i - 1);
      assert Steps(ss[i - 1], events[i - 1], ss[(i - 1) + 1]);
      StepKeepsInv(ss[i - 1], events[i - 1]);
    }
  }

  lemma {:induction false} InitialInv(s: Source)
    requires Initial(s)
    ensures Inv(s)
  {}

  /** The generator leaves the state alone; everything else leaves the generator and the writes alone. */
  lemma {:induction false} GeneratorEffects(s: Source, g: GeneratorStep)
    requires GeneratorCan(s, g)
    ensures var s' := AfterGenerator(s, g);
            && s'.epoch == s.epoch && s'.state == s.state
            && (s'.writes == s.writes || (s'.writes == s.writes + [s.generation] && s.generator == Writing && s'.generator != Writing))
            && s.generator != Ended && (s.state == Stopped && s'.generator == Writing ==> s.generator == Writing)
  {}

  predicate StateEffects(s: Source, s': Source) {
    && s'.writes == s.writes && s'.generator == s.generator
    && s.epoch <= s'.epoch && (s.epoch == s'.epoch ==> s.state == s'.state) && (s.state == Stopped ==> s'.state == Stopped)
  }

  lemma {:induction false} ThreadEffects(s: Source, t: nat, call: ThreadStep)
    requires ThreadCan(s, t, call)
    ensures StateEffects(s, AfterThread(s, t, call))
  {
    hide Phase;
  }

  lemma {:induction false} MainEffects(s: Source, m: MainStep)
    requires MainCan(s, m)
    ensures StateEffects(s, AfterMain(s, m))
  {}

  /** What a step can do to the writes, the epoch and the state. */
  lemma {:induction false} StepEffects(s: Source, e: Event, s': Source)
    requires Steps(s, e, s')
    ensures s'.writes == s.writes || (s'.writes == s.writes + [s.generation] && s.generator == Writing && s'.generator != Writing)
    ensures s.epoch <= s'.epoch && (s.epoch == s'.epoch ==> s.state == s'.state)
    ensures s.state == Stopped ==> s'.state == Stopped && (s'.generator == Writing ==> s.generator == Writing)
    ensures s.generator == Ended ==> s'.generator == Ended
    ensures s.state == Stopped ==> |s'.writes| + Late(s') <= |s.writes| + Late(s)
  {
    hide AfterGenerator, AfterThread, AfterMain, GeneratorCan, ThreadCan, MainCan;
    match e
    case ByGenerator(g) => GeneratorEffects(s, g);
    case ByThread(t, call) => ThreadEffects(s, t, call);
    case ByMain(m) => MainEffects(s, m);
    case _ =>
  }

  lemma {:induction false} ThreadKeepsRewound(s: Source, u: nat, call: ThreadStep, t: nat)
    requires ThreadCan(s, u, call) && t in s.controllers && s.controllers[t].Rewound?
    ensures Is(AfterThread(s, u, call), t, s.controllers[t])
  {
    hide Allowed, Phase;
  }

  lemma {:induction false} StepKeepsRewound(s: Source, e: Event, s': Source, t: nat)
    requires Steps(s, e, s') && t in s.controllers && s.controllers[t].Rewound?
    ensures Is(s', t, s.controllers[t])
  {
    hide Allowed, AfterGenerator, AfterThread, GeneratorCan, ThreadCan;
    match e
    case ByGenerator(g) => GeneratorControllers(s, g);
    case ByThread(u, call) => ThreadKeepsRewound(s, u, call, t);
    case _ =>
  }

  // ---- the fences --------------------------------------------------------------------------

  /** After Rewind has returned, every write is of a generation that began after it was called. */
  lemma {:induction false} RewindFence(ss: seq<Source>, events: seq<Event>, i: nat, j: nat, t: nat, g: nat, e: nat)
    requires IsRun(ss, events) && i <= j < |ss| && Is(ss[i], t, Rewound(g, e))
    ensures Is(ss[j], t, Rewound(g, e))
    ensures |ss[i].writes| <= |ss[j].writes| && ss[i].writes == ss[j].writes[..|ss[i].writes|]
    ensures forall k | |ss[i].writes| <= k < |ss[j].writes| :: ss[j].writes[k] > g
    decreases j
  {
    hide Inv, Steps, Initial;
    if i < j {
      RewindFence(ss, events, i, j - 1, t, g, e);
      assert Steps(ss[j - 1], events[j - 1], ss[(j - 1) + 1]);
      StepEffects(ss[j - 1], events[j - 1], ss[j]);
      RunInv(ss, events, j - 1);
      RewoundNewer(ss[j - 1], t, g, e);
      StepKeepsRewound(ss[j - 1], events[j - 1], ss[j], t);
    }
  }

  lemma {:induction false} RewoundNewer(s: Source, t: nat, g: nat, e: nat)
    requires Inv(s) && Is(s, t, Rewound(g, e))
    ensures g < s.generation || s.generator == Ended
    ensures Calm(s, g, e)
  {
    assert ControllerOk(s, s.controllers[t]);
  }

  /** A source that was paused before the rewind and has not been resumed since writes nothing after
      the rewind has returned. */
  lemma {:induction false} PausedRewindWritesNothing(ss: seq<Source>, events: seq<Event>, i: nat, j: nat, t: nat, g: nat)
    requires IsRun(ss, events) && i <= j < |ss| && Is(ss[i], t, Rewound(g, ss[i].epoch))
    requires ss[i].state == Paused && ss[j].epoch == ss[i].epoch
    ensures ss[j].state == Paused && ss[j].writes == ss[i].writes
    decreases j
  {
    hide Inv, Steps, Initial;
    if i < j {
      var s, e := ss[j - 1], events[j - 1];
      assert Steps(s, e, ss[(j - 1) + 1]);
      StepEffects(s, e, ss[j]);
      EpochGrows(ss, events, i, j - 1);
      PausedRewindWritesNothing(ss, events, i, j - 1, t, g);
      RewindFence(ss, events, i, j - 1, t, g, ss[i].epoch);
      RunInv(ss, events, j - 1);
      RewoundNewer(s, t, g, ss[i].epoch);
    }
  }

  lemma {:induction false} EpochGrows(ss: seq<Source>, events: seq<Event>, i: nat, j: nat)
    requires IsRun(ss, events) && i <= j < |ss|
    ensures ss[i].epoch <= ss[j].epoch
    decreases j
  {
    hide Inv, Steps, Initial;
    if i < j {
      EpochGrows(ss, events, i, j - 1);
      assert Steps(ss[j - 1], events[j - 1], ss[(j - 1) + 1]);
      StepEffects(ss[j - 1], events[j - 1], ss[j]);
    }
  }

  /** How many writes a stopped source can still perform: the one that has already passed the check. */
  function Late(s: Source): nat {
    if s.generator == Writing then 1 else 0
  }

  lemma {:induction false} StoppedWrites(ss: seq<Source>, events: seq<Event>, i: nat, j: nat)
    requires IsRun(ss, events) && i <= j < |ss| && ss[i].state == Stopped
    ensures ss[j].state == Stopped && |ss[j].writes| + Late(ss[j]) <= |ss[i].writes| + Late(ss[i])
    ensures |ss[i].writes| <= |ss[j].writes| && ss[j].writes[..|ss[i].writes|] == ss[i].writes
    ensures ss[i].generator == Ended ==> ss[j].generator == Ended
    decreases j
  {
    hide Inv, Steps, Initial;
    if i < j {
      StoppedWrites(ss, events, i, j - 1);
      assert Steps(ss[j - 1], events[j - 1], ss[(j - 1) + 1]);
      StepEffects(ss[j - 1], events[j - 1], ss[j]);
    }
  }

  /** After any Stop has returned, at most one write happens, and none unless some Stop was forced
      because the original source failed to stop. */
  lemma {:induction false} StopFence(ss: seq<Source>, events: seq<Event>, i: nat, j: nat, t: nat)
    requires IsRun(ss, events) && i <= j < |ss| && t in ss[i].controllers && ss[i].controllers[t].StopReturned?
    ensures |ss[j].writes| <= |ss[i].writes| + 1
    ensures ss[i].failures == 0 ==> ss[j].writes == ss[i].writes
  {
    RunInv(ss, events, i);
    assert ControllerOk(ss[i], ss[i].controllers[t]);
    StoppedWrites(ss, events, i, j);
  }

  /** Some continuation of the run from s. */
  ghost predicate IsContinuation(s: Source, ss: seq<Source>, events: seq<Event>) {
    && |ss| == |events| + 1 && ss[0] == s
    && forall i | 0 <= i < |events| :: Steps(ss[i], events[i], ss[i + 1])
  }

  /** Whatever happens from s on, nothing is written. */
  ghost predicate IsFence(s: Source) {
    forall ss: seq<Source>, events: seq<Event>, j: nat | IsContinuation(s, ss, events) && j < |ss| :: ss[j].writes == s.writes
  }

  lemma {:induction false} StoppedContinuation(s: Source, ss: seq<Source>, events: seq<Event>, j: nat)
    requires IsContinuation(s, ss, events) && j < |ss| && s.state == Stopped && s.generator != Writing
    ensures ss[j].state == Stopped && ss[j].generator != Writing && ss[j].writes == s.writes
    decreases j
  {
    hide Steps;
    if j != 0 {
      StoppedContinuation(s, ss, events, j - 1);
      assert Steps(ss[j - 1], events[j - 1], ss[(j - 1) + 1]);
      StepEffects(ss[j - 1], events[j - 1], ss[j]);
    }
  }

  /** In every run, a Stop that has returned, with or without error, is a fence against all further writes
      exactly if no write that passed its check before a forced leave is still under way. */
  lemma {:induction false} StopIsFenceIff(ss: seq<Source>, events: seq<Event>, i: nat, t: nat)
    requires IsRun(ss, events) && i < |ss| && t in ss[i].controllers && ss[i].controllers[t].StopReturned?
    ensures IsFence(ss[i]) <==> !(ss[i].main == Left(true) && ss[i].generator == Writing)
  {
    var s := ss[i];
    RunInv(ss, events, i);
    assert ControllerOk(s, s.controllers[t]);
    assert s.state == Stopped && s.main.Left? && (!s.main.forced ==> s.generator == Ended);
    hide Inv, IsRun;
    if s.generator == Writing {
      var w := After(s, ByGenerator(Write));
      assert Steps(s, ByGenerator(Write), w) && w.writes != s.writes;
      assert IsContinuation(s, [s, w], [ByGenerator(Write)]) && [s, w][1] == w;
    } else {
      forall ss': seq<Source>, events': seq<Event>, j: nat | IsContinuation(s, ss', events') && j < |ss'| ensures ss'[j].writes == s.writes {
        StoppedContinuation(s, ss', events', j);
      }
    }
  }

  /** A forced leave happens only if a call of Stop on the original source has failed before. */
  lemma {:induction false} ForcedOnlyAfterFailure(ss: seq<Source>, events: seq<Event>, i: nat)
    requires IsRun(ss, events) && i < |ss| && ss[i].main == Left(true)
    ensures exists j | 0 <= j < i :: FailedHalt(events[j])
    decreases i
  {
    RunInv(ss, events, i);
    assert ss[i].failures > 0;
    FailureHasEvent(ss, events, i);
  }

  predicate FailedHalt(e: Event) {
    e.ByThread? && e.call == ThreadStep.Halt(false)
  }

  lemma {:induction false} FailureHasEvent(ss: seq<Source>, events: seq<Event>, i: nat)
    requires IsRun(ss, events) && i < |ss| && ss[i].failures > 0
    ensures exists j | 0 <= j < i :: FailedHalt(events[j])
    decreases i
  {
    if i != 0 {
      var s, e := ss[i - 1], events[i - 1];
      assert Steps(s, e, ss[(i - 1) + 1]);
      if s.failures > 0 {
        FailureHasEvent(ss, events, i - 1);
        var j :| 0 <= j < i - 1 && FailedHalt(events[j]);
      } else {
        OnlyHaltFails(s, e);
        assert FailedHalt(events[i - 1]);
      }
    }
  }

  lemma {:induction false} OnlyHaltFails(s: Source, e: Event)
    requires Enabled(s, e) && s.failures == 0 && After(s, e).failures > 0
    ensures FailedHalt(e)
  {}

  lemma {:induction false} Extend(ss: seq<Source>, events: seq<Event>, e: Event) returns (ss': seq<Source>, events': seq<Event>)
    requires IsRun(ss, events) && |ss| == |events| + 1 && Enabled(ss[|events|], e)
    ensures IsRun(ss', events') && |events'| == |events| + 1 && |ss'| == |ss| + 1 == |events'| + 1 && ss'[..|ss|] == ss && ss'[|events'|] == After(ss[|events|], e)
  {
    hide Enabled, After, Initial;
    ss', events' := ss + [After(ss[|events|], e)], events + [e];
    forall i | 0 <= i < |events'| ensures Steps(ss'[i], events'[i], ss'[i + 1]) {
      if i < |events| { assert Steps(ss[i], events[i], ss[i + 1]); }
    }
  }

  /** A write passes its check. */
  lemma {:induction false} CheckedWrite() returns (ss: seq<Source>, events: seq<Event>)
    ensures IsRun(ss, events) && |ss| == |events| + 1
    ensures ss[|events|] == Source(true, Initialized, 0, false, 0, Writing, Selecting, false, 0, map[0 := Outside, 1 := Outside], [])
  {
    hide IsRun;
    var s := Source(true, Initialized, 0, false, 0, Generating, Selecting, false, 0, map[0 := Outside, 1 := Outside], []);
    FirstIsRun(s);
    ss, events := Extend([s], [], ByGenerator(CallWriter));
    ss, events := Extend(ss, events, ByGenerator(Check));
  }

  /** Then a Stop fails. */
  lemma {:induction false} FailedStop() returns (ss: seq<Source>, events: seq<Event>)
    ensures IsRun(ss, events) && |ss| == |events| + 1
    ensures ss[|events|] == Source(true, Stopping, 1, false, 0, Writing, Selecting, false, 1, map[0 := Forcing, 1 := Outside], [])
  {
    hide IsRun;
    ss, events := CheckedWrite();
    ss, events := Extend(ss, events, ByThread(0, CallStop));
    ss, events := Extend(ss, events, ByThread(0, SetStopping));
    ss, events := Extend(ss, events, ByThread(0, ThreadStep.Halt(false)));
  }

  /** The failed Stop is forced, and the main goroutine leaves. */
  lemma {:induction false} ForcedStop() returns (ss: seq<Source>, events: seq<Event>)
    ensures IsRun(ss, events) && |ss| == |events| + 1
    ensures ss[|events|] == Source(true, Stopped, 2, false, 0, Writing, Left(true), false, 1, map[0 := AwaitingStop(true), 1 := Outside], [])
  {
    hide IsRun;
    ss, events := FailedStop();
    ss, events := Extend(ss, events, ByThread(0, Force));
    ss, events := Extend(ss, events, ByMain(TakeForce));
    ss, events := Extend(ss, events, ByMain(MainStep.SetStopped));
  }

  lemma {:induction false} FirstIsRun(s: Source)
    requires Initial(s)
    ensures IsRun([s], [])
  {}

  /** Then a second Stop returns without error, and after that the write happens. */
  lemma {:induction false} LateWrite() returns (ss: seq<Source>, events: seq<Event>, i: nat)
    ensures IsRun(ss, events) && i + 1 < |ss| && Is(ss[i], 1, StopReturned(false)) && ss[i + 1].writes != ss[i].writes
  {
    hide IsRun;
    ss, events := ForcedStop();
    ss, events := Extend(ss, events, ByThread(1, CallStop));
    ss, events := Extend(ss, events, ByThread(1, ReturnStop));
    i := |events|;
    ss, events := Extend(ss, events, ByGenerator(Write));
  }

  // ---- what lets a write through -----------------------------------------------------------

  /** A check that is reached lets the write through exactly if no rewind is requested and the source is not
      stopping or stopped; it waits while the source is paused and not rewound. */
  lemma {:induction false} CheckDecides(s: Source)
    requires s.generator == Checking
    ensures Enabled(s, ByGenerator(Check)) <==> s.rewind || s.state != Paused
    ensures Enabled(s, ByGenerator(Check)) ==>
              After(s, ByGenerator(Check)).generator == if !s.rewind && Phase(s.state) < 3 then Writing else Generating
  {}

  /** A source that has come to its end starts over exactly if it can be rewound and is not stopping, with the
      next generation and the request taken back; otherwise its generator ends. */
  lemma {:induction false} AwaitDecides(s: Source)
    requires Enabled(s, ByGenerator(Await))
    ensures var s' := After(s, ByGenerator(Await));
            && (s'.generator == Generating <==> s.enabled && Phase(s.state) < 3)
            && (s'.generator != Generating ==> s'.generator == Ended && s'.generation == s.generation)
            && (s'.generator == Generating ==> s'.generation == s.generation + 1 && !s'.rewind)
  {}

  lemma {:induction false} WritingComes(s: Source, e: Event, s': Source)
    requires Steps(s, e, s') && s'.generator == Writing
    ensures s.generator == Writing || (e == ByGenerator(Check) && !s.rewind && Phase(s.state) < 3 && s.state != Paused)
    ensures s.generator == Writing ==> s'.generation == s.generation && s'.writes == s.writes
    ensures s.generator != Writing ==> s'.generation == s.generation && s'.writes == s.writes
  {
    hide AfterThread, AfterMain, ThreadCan, MainCan;
    match e
    case ByThread(t, call) => ThreadGeneration(s, t, call);
    case ByMain(m) => MainGeneration(s, m);
    case _ =>
  }

  lemma {:induction false} ThreadGeneration(s: Source, t: nat, call: ThreadStep)
    requires ThreadCan(s, t, call)
    ensures var s' := AfterThread(s, t, call); s'.generator == s.generator && s'.generation == s.generation && s'.writes == s.writes
  {
    hide Phase, Allowed;
  }

  lemma {:induction false} MainGeneration(s: Source, m: MainStep)
    requires MainCan(s, m)
    ensures var s' := AfterMain(s, m); s'.generator == s.generator && s'.generation == s.generation && s'.writes == s.writes
  {
    hide Phase, Allowed;
  }

  /** In every run, a write under way has passed a check that found the source neither paused nor stopping
      and no rewind requested, in the same generation. */
  lemma {:induction false} WriteWasChecked(ss: seq<Source>, events: seq<Event>, i: nat) returns (j: nat)
    requires IsRun(ss, events) && i < |ss| && ss[i].generator == Writing
    ensures j < i && events[j] == ByGenerator(Check) && !ss[j].rewind && Phase(ss[j].state) < 3 && ss[j].state != Paused
    ensures ss[j].generation == ss[i].generation && ss[j].writes == ss[i].writes
    decreases i
  {
    hide Steps;
    assert Steps(ss[i - 1], events[i - 1], ss[(i - 1) + 1]);
    WritingComes(ss[i - 1], events[i - 1], ss[i]);
    if ss[i - 1].generator == Writing {
      j := WriteWasChecked(ss, events, i - 1);
    } else {
      j := i - 1;
    }
  }

  /** The generator of a source is held up only at the check of a paused source and at the end of a stream,
      and a requested rewind ends both. */
  lemma {:induction false} RewindUnblocks(s: Source) returns (g: GeneratorStep)
    requires s.generator != Ended
    requires s.rewind || ((s.generator == Checking ==> s.state != Paused) && (s.generator == Awaiting ==> !s.enabled || Phase(s.state) >= 3))
    ensures Enabled(s, ByGenerator(g))
  {
    g := match s.generator
         case Generating => CallWriter
         case Checking => Check
         case Writing => Write
         case Awaiting => Await
         case _ => Report;
  }

  // ---- a forced stop returns ---------------------------------------------------------------

  /** Who waits after a failed halt has told the main goroutine to leave. */
  ghost predicate ForceInv(s: Source) {
    forall t | t in s.controllers && s.controllers[t] == AwaitingStop(true) :: s.forceStop || !s.main.Selecting?
  }

  lemma {:induction false} StepKeepsForce(s: Source, e: Event)
    requires ForceInv(s) && Enabled(s, e)
    ensures ForceInv(After(s, e))
  {
    hide Phase, Allowed, GeneratorCan, AfterGenerator;
    match e
    case ByGenerator(g) => GeneratorSpares(s, g);
    case _ =>
  }

  lemma {:induction false} GeneratorSpares(s: Source, g: GeneratorStep)
    requires GeneratorCan(s, g)
    ensures var s' := AfterGenerator(s, g); s'.controllers == s.controllers && s'.main == s.main && s'.forceStop == s.forceStop
  {}

  lemma {:induction false} RunForceInv(ss: seq<Source>, events: seq<Event>, i: nat)
    requires IsRun(ss, events) && i < |ss|
    ensures ForceInv(ss[i])
    decreases i
  {
    hide Enabled, After;
    if i != 0 {
      RunForceInv(ss, events, i - 1);
      assert Steps(ss[i - 1], events[i - 1], ss[(i - 1) + 1]);
      hide ForceInv;
      StepKeepsForce(ss[i - 1], events[i - 1]);
    }
  }

  /** Even if the source does not end, a stopper whose halt failed is never held up for good: it can return, or
      the main goroutine can take its next step towards stopped. */
  lemma {:induction false} ForcedStopGoesOn(ss: seq<Source>, events: seq<Event>, i: nat, t: nat) returns (e: Event)
    requires IsRun(ss, events) && i < |ss| && Is(ss[i], t, AwaitingStop(true))
    ensures Enabled(ss[i], e) && (e == ByThread(t, ReturnStop) || e == ByMain(TakeForce) || e == ByMain(MainStep.SetStopped))
    ensures e == ByMain(MainStep.SetStopped) ==> After(ss[i], e).state == Stopped
  {
    RunInv(ss, events, i);
    RunForceInv(ss, events, i);
    hide ControllersOk;
    e := if ss[i].state == Stopped then ByThread(t, ReturnStop) else if ss[i].main.Selecting? then ByMain(TakeForce) else ByMain(MainStep.SetStopped);
  }
}
