/** The loop that pours tuples from any number of input channels into a writer. It selects among a list
    of cases: a control channel, a default case that is inactive until a graceful stop, and the inputs.
    Senders run concurrently with it. */
module Pouring {
  type Channel = nat
  type Tuple = nat

  datatype Case = Control | Default(active: bool) | Input(channel: Channel)

  datatype Message = AddReceiver(channel: Channel) | Stop | EnableGracefulStop | StopOnDisconnect | Invalid

  datatype Written = Succeeded | Failed | Fatal

  /** What a select returns: an index among the cases and what was received there. */
  datatype Selected =
    | GotMessage(message: Message)
    | ControlClosed
    | NothingReady
    | GotTuple(i: nat, tuple: Tuple, written: Written)
    | InputClosed(i: nat)

  datatype Exit = Going | Disconnected | Stopped | Drained | FatalError

  datatype Loop = Loop(cases: seq<Case>, graceful: bool, stopOnDisconnect: bool, exit: Exit, written: seq<(Channel, Tuple)>)

  /** Removes a case by moving the last one into its place. */
  function SwapRemove(cases: seq<Case>, i: nat): (r: seq<Case>)
    requires i < |cases|
    ensures |r| == |cases| - 1
  {
    cases[i := cases[|cases| - 1]][..|cases| - 1]
  }

  function OnMessage(l: Loop, m: Message): Loop {
    match m
    case AddReceiver(c) => l.(cases := l.cases + [Input(c)])
    case Stop => if l.graceful && |l.cases| > 1 then l.(cases := l.cases[1 := Default(true)]) else l.(exit := Stopped)
    case EnableGracefulStop => l.(graceful := true)
    case StopOnDisconnect => l.(stopOnDisconnect := true)
    case Invalid => l
  }

  /** One pass of the loop, given what the select returns. */
  function Step(l: Loop, s: Selected): Loop {
    match s
    case GotMessage(m) => OnMessage(l, m)
    case ControlClosed => l.(exit := FatalError)
    case NothingReady => l.(exit := Drained)
    case GotTuple(i, x, w) =>
      if i < |l.cases| && l.cases[i].Input? then
        l.(written := l.written + [(l.cases[i].channel, x)], exit := if w.Fatal? then FatalError else l.exit)
      else l
    case InputClosed(i) => if i < |l.cases| then l.(cases := SwapRemove(l.cases, i)) else l
  }

  predicate NoInputLeft(l: Loop) {
    l.stopOnDisconnect && |l.cases| == 2
  }

  /** The state after the selects of a script; the loop leaves as soon as it can. */
  function Iterate(l: Loop, script: seq<Selected>): Loop
    decreases script
  {
    if !l.exit.Going? then l
    else if NoInputLeft(l) then l.(exit := Disconnected)
    else if script == [] then l
    else Iterate(Step(l, script[0]), script[1..])
  }

  function Start(inputs: seq<Channel>): Loop {
    Loop([Control, Default(false)] + seq(|inputs|, i requires 0 <= i < |inputs| => Input(inputs[i])), false, false, Going, [])
  }

  /** The loop as it is written, over a list of cases that is changed in place. */
  method PouringThread(inputs: seq<Channel>, script: seq<Selected>) returns (cases: seq<Case>, exit: Exit, written: seq<(Channel, Tuple)>)
    ensures var l := Iterate(Start(inputs), script); cases == l.cases && exit == l.exit && written == l.written
  {
    cases := [Control, Default(false)] + seq(|inputs|, i requires 0 <= i < |inputs| => Input(inputs[i]));
    exit, written := Going, [];
    var graceful, stopOnDisconnect := false, false;
    var k := 0;
    while exit.Going?
      invariant k <= |script|
      invariant Iterate(Loop(cases, graceful, stopOnDisconnect, exit, written), script[k..]) == Iterate(Start(inputs), script)
      decreases |script| - k, if exit.Going? then 1 else 0
    {
      if stopOnDisconnect && |cases| == 2 {
        exit := Disconnected;
        break;
      }
      if k == |script| {
        break;
      }
      match script[k] {
        case GotMessage(AddReceiver(c)) => cases := cases + [Input(c)];
        case GotMessage(Stop) =>
          if graceful && |cases| > 1 { cases := cases[1 := Default(true)]; } else { exit := Stopped; }
        case GotMessage(EnableGracefulStop) => graceful := true;
        case GotMessage(StopOnDisconnect) => stopOnDisconnect := true;
        case GotMessage(Invalid) =>
        case ControlClosed => exit := FatalError;
        case NothingReady => exit := Drained;
        case GotTuple(i, x, w) =>
          if i < |cases| && cases[i].Input? {
            written := written + [(cases[i].channel, x)];
            if w.Fatal? { exit := FatalError; }
          }
        case InputClosed(i) =>
          if i < |cases| {
            var last := |cases| - 1;
            cases := cases[i := cases[last]];
            cases := cases[..last];
          }
      }
      assert script[k..][0] == script[k] && script[k..][1..] == script[k + 1..];
      k := k + 1;
    }
  }

  // ---- the loop among its senders ----------------------------------------------------------

  datatype Queue = Queue(waiting: seq<Tuple>, closed: bool)

  /** added lists the receivers handed to the loop, finished those that a select found closed and drained,
      and sent what was put into each channel. */
  datatype System = System(loop: Loop, queues: map<Channel, Queue>, sent: map<Channel, seq<Tuple>>, added: set<Channel>, finished: set<Channel>)

  datatype Event = Send(channel: Channel, tuple: Tuple) | Close(channel: Channel) | Select(selected: Selected) | Leave

  predicate Ready(s: System, c: Case) {
    c.Input? && c.channel in s.queues && (s.queues[c.channel].waiting != [] || s.queues[c.channel].closed)
  }

  /** A select returns a ready case, and the default case only if it is active and no other is ready. */
  predicate Selectable(s: System, sel: Selected) {
    match sel
    case GotMessage(AddReceiver(c)) => c in s.queues && c !in s.added
    case GotMessage(_) => true
    case ControlClosed => true
    case NothingReady => Default(true) in s.loop.cases && forall i | 0 <= i < |s.loop.cases| :: !Ready(s, s.loop.cases[i])
    case GotTuple(i, x, _) =>
      && 2 <= i < |s.loop.cases| && Ready(s, s.loop.cases[i])
      && var waiting := s.queues[s.loop.cases[i].channel].waiting; waiting != [] && waiting[0] == x
    case InputClosed(i) => 2 <= i < |s.loop.cases| && Ready(s, s.loop.cases[i]) && s.queues[s.loop.cases[i].channel].waiting == []
  }

  predicate Enabled(s: System, e: Event) {
    match e
    case Send(c, _) => c in s.queues && c in s.sent && !s.queues[c].closed
    case Close(c) => c in s.queues
    case Select(sel) => s.loop.exit.Going? && !NoInputLeft(s.loop) && Selectable(s, sel)
    case Leave => s.loop.exit.Going? && NoInputLeft(s.loop)
  }

  function After(s: System, e: Event): System
    requires Enabled(s, e)
  {
    match e
    case Send(c, x) => s.(queues := s.queues[c := s.queues[c].(waiting := s.queues[c].waiting + [x])], sent := s.sent[c := s.sent[c] + [x]])
    case Close(c) => s.(queues := s.queues[c := s.queues[c].(closed := true)])
    case Leave => s.(loop := s.loop.(exit := Disconnected))
    case Select(sel) =>
      var loop := Step(s.loop, sel);
      match sel
      case GotTuple(i, _, _) =>
        var c := s.loop.cases[i].channel;
        s.(loop := loop, queues := s.queues[c := s.queues[c].(waiting := s.queues[c].waiting[1..])])
      case GotMessage(AddReceiver(c)) => s.(loop := loop, added := s.added + {c})
      case InputClosed(i) => s.(loop := loop, finished := s.finished + {s.loop.cases[i].channel})
      case _ => s.(loop := loop)
  }

  // ---- what every step keeps ---------------------------------------------------------------

  function Channels(cases: seq<Case>): set<Channel> {
    set i | 0 <= i < |cases| && cases[i].Input? :: cases[i].channel
  }

  /** The control case and the default case stay in front, and no channel is polled twice. */
  predicate CasesOk(cases: seq<Case>) {
    && |cases| >= 2 && cases[0] == Control && cases[1].Default?
    && (forall i | 2 <= i < |cases| :: cases[i].Input?)
    && forall i, j | 2 <= i < j < |cases| :: cases[i].channel != cases[j].channel
  }

  /** The tuples written from one channel, in order. */
  function From(written: seq<(Channel, Tuple)>, c: Channel): seq<Tuple> {
    if written == [] then []
    else
      var l := |written| - 1;
      From(written[..l], c) + if written[l].0 == c then [written[l].1] else []
  }

  /** What was sent on a channel is what was written from it followed by what still waits in it. */
  predicate Accounted(s: System, c: Channel) {
    c in s.queues && c in s.sent && s.sent[c] == From(s.loop.written, c) + s.queues[c].waiting
  }

  /** Polled are exactly the added channels that are not finished; finished ones are closed and empty. */
  ghost predicate Inv(s: System) {
    && CasesOk(s.loop.cases)
    && Channels(s.loop.cases) == s.added - s.finished && s.finished <= s.added && (s.loop.cases[1].active ==> s.loop.graceful)
    && s.queues.Keys == s.sent.Keys && s.added <= s.queues.Keys
    && (forall c | c in s.queues :: Accounted(s, c))
    && (forall c | c in s.queues && c !in s.added :: From(s.loop.written, c) == [])
    && (forall c | c in s.finished :: s.queues[c].closed && s.queues[c].waiting == [])
  }

  ghost predicate Initial(s: System, inputs: seq<Channel>) {
    && s.loop == Start(inputs) && (forall i, j | 0 <= i < j < |inputs| :: inputs[i] != inputs[j])
    && s.added == (set c | c in inputs) && s.finished == {} && s.added <= s.queues.Keys && s.queues.Keys == s.sent.Keys
    && forall c | c in s.queues :: s.queues[c].waiting == s.sent[c]
  }

  /** Removing by swapping takes away exactly one channel and leaves the two control cases alone. */
  lemma {:induction false} SwapRemoveOk(cases: seq<Case>, i: nat)
    requires CasesOk(cases) && 2 <= i < |cases|
    ensures CasesOk(SwapRemove(cases, i)) && SwapRemove(cases, i)[..2] == cases[..2]
    ensures Channels(SwapRemove(cases, i)) == Channels(cases) - {cases[i].channel}
  {
    var r, last := SwapRemove(cases, i), |cases| - 1;
    assert forall k | 0 <= k < last :: r[k] == if k == i then cases[last] else cases[k];
    forall c | c in Channels(cases) && c != cases[i].channel ensures c in Channels(r) {
      var k :| 0 <= k < |cases| && cases[k].Input? && cases[k].channel == c;
      assert k < last ==> r[k] == cases[k];
      assert k == last ==> r[i] == cases[k];
    }
  }

  lemma {:induction false} AddOk(cases: seq<Case>, c: Channel)
    requires CasesOk(cases) && c !in Channels(cases)
    ensures CasesOk(cases + [Input(c)]) && Channels(cases + [Input(c)]) == Channels(cases) + {c}
  {
    var r := cases + [Input(c)];
    assert forall k | 0 <= k < |cases| :: r[k] == cases[k];
    forall i | 2 <= i < |cases| ensures cases[i].channel != c {
      assert cases[i].channel in Channels(cases);
    }
    assert r[|cases|].channel in Channels(r);
    forall d | d in Channels(cases) ensures d in Channels(r) {
      var k :| 0 <= k < |cases| && cases[k].Input? && cases[k].channel == d;
      assert r[k].channel == d;
    }
  }

  lemma {:induction false} FromSnoc(written: seq<(Channel, Tuple)>, d: Channel, x: Tuple, c: Channel)
    ensures From(written + [(d, x)], c) == From(written, c) + if d == c then [x] else []
  {
    assert (written + [(d, x)])[..|written|] == written;
  }

  lemma {:induction false} SenderKeepsInv(s: System, e: Event)
    requires Inv(s) && Enabled(s, e) && !e.Select?
    ensures Inv(After(s, e))
  {
    hide From, Channels, CasesOk;
    forall c | c in After(s, e).queues ensures Accounted(After(s, e), c) {
      assert Accounted(s, c);
    }
  }

  lemma {:induction false} TupleAccounted(s: System, i: nat, x: Tuple, w: Written, c: Channel)
    requires Inv(s) && Enabled(s, Select(GotTuple(i, x, w))) && c in s.queues
    ensures var s' := After(s, Select(GotTuple(i, x, w)));
            && Accounted(s', c)
            && (c != s.loop.cases[i].channel ==> From(s'.loop.written, c) == From(s.loop.written, c) && s'.queues[c] == s.queues[c])
  {
    hide From, Channels;
    assert Accounted(s, c);
    FromSnoc(s.loop.written, s.loop.cases[i].channel, x, c);
  }

  lemma {:induction false} TupleKeepsInv(s: System, i: nat, x: Tuple, w: Written)
    requires Inv(s) && Enabled(s, Select(GotTuple(i, x, w)))
    ensures Inv(After(s, Select(GotTuple(i, x, w))))
  {
    assert s.loop.cases[i].channel in Channels(s.loop.cases);
    hide From, Accounted, CasesOk, Channels;
    var s' := After(s, Select(GotTuple(i, x, w)));
    forall c | c in s.queues
      ensures Accounted(s', c) && (c != s.loop.cases[i].channel ==> From(s'.loop.written, c) == From(s.loop.written, c) && s'.queues[c] == s.queues[c])
    {
      TupleAccounted(s, i, x, w, c);
    }
    assert s'.loop.cases == s.loop.cases && s'.queues.Keys == s.queues.Keys;
  }

  lemma {:induction false} ControlKeepsInv(s: System, sel: Selected)
    requires Inv(s) && Enabled(s, Select(sel)) && !sel.GotTuple?
    ensures Inv(After(s, Select(sel)))
  {
    hide From;
    var s' := After(s, Select(sel));
    forall c | c in s'.queues ensures Accounted(s', c) { assert Accounted(s, c); }
    if sel.InputClosed? {
      assert s.loop.cases[sel.i].channel in Channels(s.loop.cases);
      SwapRemoveOk(s.loop.cases, sel.i);
    } else if sel.GotMessage? && sel.message.AddReceiver? {
      AddOk(s.loop.cases, sel.message.channel);
    } else if sel.GotMessage? && sel.message.Stop? {
      ActivateKeepsChannels(s.loop.cases);
    }
  }

  lemma {:induction false} ActivateKeepsChannels(cases: seq<Case>)
    requires CasesOk(cases)
    ensures CasesOk(cases[1 := Default(true)]) && Channels(cases[1 := Default(true)]) == Channels(cases)
  {
    var r := cases[1 := Default(true)];
    forall c | c in Channels(cases) ensures c in Channels(r) {
      var k :| 0 <= k < |cases| && cases[k].Input? && cases[k].channel == c;
      assert r[k].channel == c;
    }
  }

  lemma {:induction false} StepKeepsInv(s: System, e: Event)
    requires Inv(s) && Enabled(s, e)
    ensures Inv(After(s, e))
  {
    hide *;
    if !e.Select? {
      SenderKeepsInv(s, e);
    } else if e.selected.GotTuple? {
      TupleKeepsInv(s, e.selected.i, e.selected.tuple, e.selected.written);
    } else {
      ControlKeepsInv(s, e.selected);
    }
  }

  lemma {:induction false} InitialInv(s: System, inputs: seq<Channel>)
    requires Initial(s, inputs)
    ensures Inv(s)
  {
    var cases := s.loop.cases;
    forall i | 0 <= i < |inputs| ensures inputs[i] in Channels(cases) {
      assert cases[i + 2] == Input(inputs[i]);
    }
    forall c | c in Channels(cases) ensures c in s.added {
      var i :| 0 <= i < |cases| && cases[i].Input? && cases[i].channel == c;
      assert inputs[i - 2] == c;
    }
  }

  ghost predicate IsRun(ss: seq<System>, inputs: seq<Channel>, events: seq<Event>) {
    && |ss| == |events| + 1 && Initial(ss[0], inputs)
    && forall i | 0 <= i < |events| :: Enabled(ss[i], events[i]) && ss[i + 1] == After(ss[i], events[i])
  }

  lemma {:induction false} RunInv(ss: seq<System>, inputs: seq<Channel>, events: seq<Event>, i: nat)
    requires IsRun(ss, inputs, events) && i < |ss|
    ensures Inv(ss[i])
    decreases i
  {
    hide Inv, Enabled, After, Initial;
    if i == 0 {
      InitialInv(ss[0], inputs);
    } else {
      RunInv(ss, inputs, events, i - 1);
      assert ss[(i - 1) + 1] == After(ss[i - 1], events[i - 1]);
      StepKeepsInv(ss[i - 1], events[i - 1]);
    }
  }

  /** In every reachable state the control cases are in place, every added input that is not finished is
      polled once and nothing else is; what was sent on an input is what was written from it, in order,
      followed by what waits in it, and a finished input is closed and completely written. */
  lemma {:induction false} PolledExactly(ss: seq<System>, inputs: seq<Channel>, events: seq<Event>, i: nat)
    requires IsRun(ss, inputs, events) && i < |ss|
    ensures var s := ss[i];
            && |s.loop.cases| >= 2 && s.loop.cases[0] == Control && s.loop.cases[1].Default?
            && Channels(s.loop.cases) == s.added - s.finished && s.finished <= s.added
            && (forall k | 2 <= k < |s.loop.cases| :: s.loop.cases[k].Input?)
            && (forall k, l | 2 <= k < l < |s.loop.cases| :: s.loop.cases[k] != s.loop.cases[l])
            && s.added <= s.queues.Keys && s.added <= s.sent.Keys
            && (forall c | c in s.added :: s.sent[c] == From(s.loop.written, c) + s.queues[c].waiting)
            && (forall c | c in s.finished :: s.queues[c].closed && s.sent[c] == From(s.loop.written, c))
  {
    RunInv(ss, inputs, events, i);
    hide From;
    forall c | c in ss[i].added ensures ss[i].sent[c] == From(ss[i].loop.written, c) + ss[i].queues[c].waiting {
      assert Accounted(ss[i], c);
    }
  }

  /** When the loop leaves: after a stop in graceful mode, or because the last input is gone, every
      tuple that was sent on any added input has been written; otherwise it was told to stop at once
      or it failed. */
  lemma {:induction false} ExitMeans(ss: seq<System>, inputs: seq<Channel>, events: seq<Event>, i: nat)
    requires IsRun(ss, inputs, events) && i < |events| && ss[i].loop.exit.Going? && !ss[i + 1].loop.exit.Going?
    ensures var s := ss[i + 1];
            match s.loop.exit
            case Drained => s.loop.graceful && AllWritten(s)
            case Disconnected => s.loop.stopOnDisconnect && Channels(s.loop.cases) == {} && AllWritten(s)
            case Stopped => !s.loop.graceful && events[i] == Select(GotMessage(Stop))
            case FatalError => events[i].Select? && (events[i].selected.ControlClosed? || (events[i].selected.GotTuple? && events[i].selected.written.Fatal?))
            case Going => false
  {
    var s, e := ss[i], events[i];
    RunInv(ss, inputs, events, i);
    RunInv(ss, inputs, events, i + 1);
    assert ss[i + 1] == After(s, e);
    if e == Select(NothingReady) || e == Leave { ExitWritten(s, e); }
  }

  ghost predicate AllWritten(s: System) {
    s.added <= s.sent.Keys && forall c | c in s.added :: s.sent[c] == From(s.loop.written, c)
  }

  lemma {:induction false} ExitWritten(s: System, e: Event)
    requires Inv(s) && Enabled(s, e) && (e == Select(NothingReady) || e == Leave)
    ensures AllWritten(After(s, e)) && (e == Leave ==> Channels(After(s, e).loop.cases) == {})
  {
    forall c | c in s.added ensures s.sent[c] == From(s.loop.written, c) {
      assert Accounted(s, c);
      if c in Channels(s.loop.cases) {
        var i :| 0 <= i < |s.loop.cases| && s.loop.cases[i].Input? && s.loop.cases[i].channel == c;
        assert !Ready(s, s.loop.cases[i]);
      }
    }
  }

  // ---- what makes the loop leave -----------------------------------------------------------

  /** The events that end the loop: the last input is gone, nothing is left after a graceful stop, a stop that
      is not graceful, a lost control channel, a fatal write. */
  predicate Ends(s: System, e: Event) {
    match e
    case Leave => true
    case Select(GotMessage(Stop)) => !s.loop.graceful
    case Select(NothingReady) => true
    case Select(ControlClosed) => true
    case Select(GotTuple(_, _, w)) => w.Fatal?
    case _ => false
  }

  /** In every reachable state the loop goes on exactly until such an event, and a stop in graceful mode makes
      it drain its inputs instead. */
  lemma {:induction false} LeavesIff(ss: seq<System>, inputs: seq<Channel>, events: seq<Event>, i: nat)
    requires IsRun(ss, inputs, events) && i < |events| && ss[i].loop.exit.Going?
    ensures !ss[i + 1].loop.exit.Going? <==> Ends(ss[i], events[i])
    ensures events[i] == Select(GotMessage(Stop)) && ss[i].loop.graceful ==>
              |ss[i + 1].loop.cases| >= 2 && ss[i + 1].loop.cases[1] == Default(true)
  {
    RunInv(ss, inputs, events, i);
    hide From, Channels, Accounted;
    assert ss[i + 1] == After(ss[i], events[i]);
  }

  ghost predicate Heard(events: seq<Event>, i: nat, m: Message) {
    exists j | 0 <= j < i && j < |events| :: events[j] == Select(GotMessage(m))
  }

  lemma {:induction false} StepFlags(s: System, e: Event)
    requires Inv(s) && Enabled(s, e)
    ensures After(s, e).loop.graceful <==> s.loop.graceful || e == Select(GotMessage(EnableGracefulStop))
    ensures After(s, e).loop.stopOnDisconnect <==> s.loop.stopOnDisconnect || e == Select(GotMessage(StopOnDisconnect))
  {
    hide From, Channels, Accounted, Inv;
  }

  /** The two modes are set exactly by their messages. */
  lemma {:induction false} FlagsIff(ss: seq<System>, inputs: seq<Channel>, events: seq<Event>, i: nat)
    requires IsRun(ss, inputs, events) && i < |ss|
    ensures ss[i].loop.graceful <==> Heard(events, i, EnableGracefulStop)
    ensures ss[i].loop.stopOnDisconnect <==> Heard(events, i, StopOnDisconnect)
    decreases i
  {
    hide Inv, Enabled, After;
    if i != 0 {
      FlagsIff(ss, inputs, events, i - 1);
      RunInv(ss, inputs, events, i - 1);
      assert ss[(i - 1) + 1] == After(ss[i - 1], events[i - 1]);
      StepFlags(ss[i - 1], events[i - 1]);
    }
  }

  /** A loop that has been stopped gracefully is never held up: it takes a tuple or notices a closed input, and
      with none of these it leaves. */
  lemma {:induction false} GracefulStopGoesOn(ss: seq<System>, inputs: seq<Channel>, events: seq<Event>, i: nat) returns (e: Event)
    requires IsRun(ss, inputs, events) && i < |ss| && ss[i].loop.exit.Going? && Default(true) in ss[i].loop.cases
    ensures Enabled(ss[i], e) && (e == Leave || (e.Select? && (e.selected.GotTuple? || e.selected.InputClosed? || e.selected.NothingReady?)))
  {
    var s := ss[i];
    RunInv(ss, inputs, events, i);
    hide From, Channels, Accounted;
    if NoInputLeft(s.loop) {
      e := Leave;
    } else if k :| 0 <= k < |s.loop.cases| && Ready(s, s.loop.cases[k]) {
      var queue := s.queues[s.loop.cases[k].channel];
      e := if queue.waiting != [] then Select(GotTuple(k, queue.waiting[0], Succeeded)) else Select(InputClosed(k));
    } else {
      e := Select(NothingReady);
    }
  }
}
