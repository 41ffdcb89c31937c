/** The sending half of a pipe: a bounded channel that any number of threads write to and close, under
    a readers-writer lock. Each event below is one indivisible step of one thread. Tuples are numbered
    by the order in which their writes begin. */
module Pipe {
  datatype Mode = DropNone | DropLatest | DropOldest

  /** Writers hold the lock for reading from Locked to Sent, closers for writing from Claimed to Closed. */
  datatype Thread =
    | Idle
    | Locked(n: nat)
    | Sending(n: nat)
    | Full(n: nat)
    | Sent
    | Claimed
    | Marked
    | Closed

  /** Where a tuple handed to write has ended up. */
  datatype Fate = Flying(thread: nat) | Refused | DroppedUnsent | Enqueued(position: nat)

  /** What took a tuple out of the queue. */
  datatype Exit = Received(n: nat) | DroppedQueued(n: nat)

  datatype Pipe = Pipe(
    mode: Mode,
    capacity: nat,
    closed: bool,
    readers: set<nat>,
    writer: set<nat>,
    threads: map<nat, Thread>,
    queue: seq<nat>,
    channelClosed: bool,
    closes: nat,
    panics: nat,
    fates: seq<Fate>,
    owners: seq<nat>,
    enqueued: seq<nat>,
    exits: seq<Exit>)

  datatype Event =
    | BeginWrite(thread: nat)
    | Check(thread: nat)
    | Send(thread: nat)
    | TakeOldest(thread: nat)
    | FinishWrite(thread: nat)
    | BeginClose(thread: nat)
    | Mark(thread: nat)
    | CloseChannel(thread: nat)
    | FinishClose(thread: nat)
    | Receive

  /** The lock admits readers while nobody writes, and a writer while nobody else holds it. A send in
      DropNone mode blocks while the queue is full. */
  predicate Enabled(p: Pipe, e: Event) {
    if e.Receive? then p.queue != [] else
      e.thread in p.threads &&
      var t := p.threads[e.thread];
      match e
      case BeginWrite(_) => t.Idle? && p.writer == {}
      case Check(_) => t.Locked?
      case Send(_) => t.Sending? && (p.mode == DropNone ==> |p.queue| < p.capacity || p.channelClosed)
      case TakeOldest(_) => t.Full?
      case FinishWrite(_) => t.Sent?
      case BeginClose(_) => t.Idle? && p.writer == {} && p.readers == {}
      case Mark(_) => t.Claimed?
      case CloseChannel(_) => t.Marked?
      case FinishClose(_) => t.Closed?
  }

  function Move(p: Pipe, t: nat, to: Thread): Pipe
    requires t in p.threads
  {
    p.(threads := p.threads[t := to])
  }

  function Dequeued(p: Pipe, exit: Exit): Pipe
    requires p.queue != []
  {
    p.(queue := p.queue[1..], exits := p.exits + [exit])
  }

  function Settle(fates: seq<Fate>, n: nat, fate: Fate): seq<Fate> {
    if n < |fates| then fates[n := fate] else fates
  }

  function AfterSend(p: Pipe, t: nat): Pipe
    requires t in p.threads && p.threads[t].Sending?
  {
    var n := p.threads[t].n;
    if p.channelClosed then
      Move(p, t, Sent).(panics := p.panics + 1, fates := Settle(p.fates, n, Refused))
    else if |p.queue| < p.capacity then
      Move(p, t, Sent).(queue := p.queue + [n], enqueued := p.enqueued + [n], fates := Settle(p.fates, n, Enqueued(|p.enqueued|)))
    else if p.mode == DropLatest then
      Move(p, t, Sent).(fates := Settle(p.fates, n, DroppedUnsent))
    else
      Move(p, t, Full(n))
  }

  function After(p: Pipe, e: Event): Pipe
    requires Enabled(p, e)
  {
    match e
    case BeginWrite(t) =>
      Move(p, t, Locked(|p.fates|)).(readers := p.readers + {t}, fates := p.fates + [Flying(t)], owners := p.owners + [t])
    case Check(t) =>
      var n := p.threads[t].n;
      if p.closed then Move(p, t, Sent).(fates := Settle(p.fates, n, Refused)) else Move(p, t, Sending(n))
    case Send(t) => AfterSend(p, t)
    case TakeOldest(t) =>
      var q := Move(p, t, Sending(p.threads[t].n));
      if p.queue == [] then q else Dequeued(q, DroppedQueued(p.queue[0]))
    case FinishWrite(t) => Move(p, t, Idle).(readers := p.readers - {t})
    case BeginClose(t) => Move(p, t, if p.closed then Closed else Claimed).(writer := {t})
    case Mark(t) => Move(p, t, Marked).(closed := true)
    case CloseChannel(t) =>
      Move(p, t, Closed).(channelClosed := true, closes := p.closes + 1, panics := p.panics + if p.channelClosed then 1 else 0)
    case FinishClose(t) => Move(p, t, Idle).(writer := {})
    case Receive => Dequeued(p, Received(p.queue[0]))
  }

  predicate Initial(p: Pipe) {
    && p.capacity >= 1 && !p.closed && p.readers == {} && p.writer == {} && (forall t | t in p.threads :: p.threads[t] == Idle)
    && p.queue == [] && !p.channelClosed && p.closes == 0 && p.panics == 0
    && p.fates == [] && p.owners == [] && p.enqueued == [] && p.exits == []
  }

  // ---- what every step keeps ---------------------------------------------------------------

  predicate Reading(t: Thread) { t.Locked? || t.Sending? || t.Full? || t.Sent? }

  predicate Writing(t: Thread) { t.Claimed? || t.Marked? || t.Closed? }

  predicate Busy(t: Thread) { t.Locked? || t.Sending? || t.Full? }

  predicate Carries(t: Thread, n: nat) { Busy(t) && t.n == n }

  /** What a thread holds and may rely on: a sender that the channel is open, a closer that it is the
      first to close. */
  predicate ThreadOk(p: Pipe, t: nat)
    requires t in p.threads
  {
    && (t in p.readers <==> Reading(p.threads[t])) && (t in p.writer <==> Writing(p.threads[t]))
    && (p.threads[t].Sending? || p.threads[t].Full? || p.threads[t].Claimed? ==> !p.closed)
    && (p.threads[t].Marked? ==> p.closed && !p.channelClosed)
  }

  ghost predicate LockInv(p: Pipe) {
    && (forall t | t in p.threads :: ThreadOk(p, t))
    && (p.readers == {} || p.writer == {}) && (forall t, u | t in p.writer && u in p.writer :: t == u)
    && p.readers <= p.threads.Keys && p.writer <= p.threads.Keys
    && (p.channelClosed ==> p.closed) && p.panics == 0 && p.closes == (if p.channelClosed then 1 else 0)
  }

  function Numbers(exits: seq<Exit>): (r: seq<nat>)
    ensures |r| == |exits|
  {
    seq(|exits|, i requires 0 <= i < |exits| => exits[i].n)
  }

  /** The queue: what has been enqueued is what has been taken out followed by what is still in. */
  ghost predicate QueueInv(p: Pipe) {
    && p.capacity >= 1 && |p.queue| <= p.capacity
    && p.enqueued == Numbers(p.exits) + p.queue
    && (forall i | 0 <= i < |p.exits| && p.exits[i].DroppedQueued? :: p.mode == DropOldest)
  }

  predicate FateOk(p: Pipe, n: nat)
    requires n < |p.fates|
  {
    match p.fates[n]
    case Flying(t) => t in p.threads && Carries(p.threads[t], n) && n < |p.owners| && p.owners[n] == t
    case Refused => p.closed
    case DroppedUnsent => p.mode == DropLatest
    case Enqueued(k) => k < |p.enqueued| && p.enqueued[k] == n
  }

  /** Every tuple has exactly one fate, and the histories agree with it. */
  ghost predicate FateInv(p: Pipe) {
    && |p.owners| == |p.fates|
    && (forall n | 0 <= n < |p.fates| :: FateOk(p, n))
    && (forall t | t in p.threads && Busy(p.threads[t]) :: p.threads[t].n < |p.fates| && p.fates[p.threads[t].n] == Flying(t))
    && (forall k | 0 <= k < |p.enqueued| :: p.enqueued[k] < |p.fates| && p.fates[p.enqueued[k]] == Enqueued(k))
    && (forall t | t in p.threads && p.threads[t].Full? :: p.mode == DropOldest)
  }

  /** Per writer: no new write begins before the last one is settled, so tuples enter in order. */
  ghost predicate OrderInv(p: Pipe)
    requires |p.owners| == |p.fates|
  {
    forall m: nat, n: nat | m < n < |p.fates| && p.owners[m] == p.owners[n] :: InOrder(p, m, n)
  }

  ghost predicate Inv(p: Pipe) {
    LockInv(p) && QueueInv(p) && FateInv(p) && OrderInv(p)
  }

  predicate CloserEvent(e: Event) { e.BeginClose? || e.Mark? || e.CloseChannel? || e.FinishClose? }

  lemma {:induction false} WriterKeepsThread(p: Pipe, e: Event, t: nat)
    requires LockInv(p) && Enabled(p, e) && t in p.threads && !CloserEvent(e)
    ensures ThreadOk(After(p, e), t)
  {
    assert ThreadOk(p, t);
    if !e.Receive? { assert ThreadOk(p, e.thread); }
  }

  lemma {:induction false} CloserKeepsThread(p: Pipe, e: Event, t: nat)
    requires LockInv(p) && Enabled(p, e) && t in p.threads && CloserEvent(e)
    ensures ThreadOk(After(p, e), t)
  {
    assert ThreadOk(p, t) && ThreadOk(p, e.thread);
  }

  lemma {:induction false} StepKeepsLock(p: Pipe, e: Event)
    requires LockInv(p) && Enabled(p, e)
    ensures LockInv(After(p, e))
  {
    hide ThreadOk;
    var p' := After(p, e);
    forall t | t in p'.threads ensures ThreadOk(p', t) {
      if CloserEvent(e) { CloserKeepsThread(p, e, t); } else { WriterKeepsThread(p, e, t); }
    }
    StepKeepsHeld(p, e);
  }

  lemma {:induction false} StepKeepsHeld(p: Pipe, e: Event)
    requires LockInv(p) && Enabled(p, e)
    ensures var p' := After(p, e);
      && (p'.readers == {} || p'.writer == {}) && (forall t, u | t in p'.writer && u in p'.writer :: t == u)
      && p'.readers <= p'.threads.Keys && p'.writer <= p'.threads.Keys
      && (p'.channelClosed ==> p'.closed) && p'.panics == 0 && p'.closes == (if p'.channelClosed then 1 else 0)
  {
    if !e.Receive? { assert ThreadOk(p, e.thread); }
  }

  lemma {:induction false} StepKeepsQueue(p: Pipe, e: Event)
    requires LockInv(p) && QueueInv(p) && FateInv(p) && Enabled(p, e)
    ensures QueueInv(After(p, e))
  {}

  lemma {:induction false} SendKeepsFate(p: Pipe, t: nat, n: nat)
    requires FateInv(p) && (p.channelClosed ==> p.closed) && t in p.threads && p.threads[t].Sending? && n < |AfterSend(p, t).fates|
    ensures FateOk(AfterSend(p, t), n)
  {
    assert FateOk(p, n);
  }

  lemma {:induction false} StepKeepsFate(p: Pipe, e: Event, n: nat)
    requires FateInv(p) && (p.channelClosed ==> p.closed) && Enabled(p, e) && n < |After(p, e).fates|
    ensures FateOk(After(p, e), n)
  {
    hide AfterSend;
    if e.Send? {
      SendKeepsFate(p, e.thread, n);
    } else if n < |p.fates| {
      assert FateOk(p, n);
    }
  }

  lemma {:induction false} StepKeepsCarried(p: Pipe, e: Event, t: nat)
    requires FateInv(p) && Enabled(p, e) && t in After(p, e).threads && Busy(After(p, e).threads[t])
    ensures var p' := After(p, e); p'.threads[t].n < |p'.fates| && p'.fates[p'.threads[t].n] == Flying(t)
  {
    if e.Receive? || t != e.thread { assert Busy(p.threads[t]); }
  }

  lemma {:induction false} StepKeepsEnqueued(p: Pipe, e: Event, k: nat)
    requires FateInv(p) && Enabled(p, e) && k < |After(p, e).enqueued|
    ensures var p' := After(p, e); p'.enqueued[k] < |p'.fates| && p'.fates[p'.enqueued[k]] == Enqueued(k)
  {
    if !e.Receive? && !e.BeginWrite? { assert Busy(p.threads[e.thread]) ==> p.fates[p.threads[e.thread].n] == Flying(e.thread); }
    if k < |p.enqueued| { assert p.fates[p.enqueued[k]] == Enqueued(k); }
  }

  lemma {:induction false} StepKeepsFates(p: Pipe, e: Event)
    requires FateInv(p) && (p.channelClosed ==> p.closed) && Enabled(p, e)
    ensures FateInv(After(p, e))
  {
    var p' := After(p, e);
    assert |p'.owners| == |p'.fates| && forall t | t in p'.threads && p'.threads[t].Full? :: p'.mode == DropOldest;
    hide After, FateOk;
    forall n | 0 <= n < |p'.fates| ensures FateOk(p', n) { StepKeepsFate(p, e, n); }
    forall t | t in p'.threads && Busy(p'.threads[t]) ensures p'.threads[t].n < |p'.fates| && p'.fates[p'.threads[t].n] == Flying(t) {
      StepKeepsCarried(p, e, t);
    }
    forall k | 0 <= k < |p'.enqueued| ensures p'.enqueued[k] < |p'.fates| && p'.fates[p'.enqueued[k]] == Enqueued(k) {
      StepKeepsEnqueued(p, e, k);
    }
  }

  ghost predicate InOrder(p: Pipe, m: nat, n: nat)
    requires m < n < |p.fates|
  {
    !p.fates[m].Flying? && (p.fates[m].Enqueued? && p.fates[n].Enqueued? ==> p.fates[m].position < p.fates[n].position)
  }

  lemma {:induction false} StepKeepsPair(p: Pipe, e: Event, m: nat, n: nat)
    requires FateInv(p) && OrderInv(p) && Enabled(p, e)
    requires m < n < |After(p, e).fates| && |After(p, e).owners| == |After(p, e).fates| && After(p, e).owners[m] == After(p, e).owners[n]
    ensures InOrder(After(p, e), m, n)
  {
    assert FateOk(p, m);
    assert n < |p.fates| ==> InOrder(p, m, n);
  }

  lemma {:induction false} StepKeepsOrder(p: Pipe, e: Event)
    requires FateInv(p) && OrderInv(p) && Enabled(p, e)
    ensures |After(p, e).owners| == |After(p, e).fates| && OrderInv(After(p, e))
  {
    var p' := After(p, e);
    assert |p'.owners| == |p'.fates|;
    hide After, FateInv;
    forall m: nat, n: nat | m < n < |p'.fates| && p'.owners[m] == p'.owners[n] ensures InOrder(p', m, n) {
      StepKeepsPair(p, e, m, n);
    }
  }

  // ---- whole runs --------------------------------------------------------------------------

  ghost predicate IsRun(ps: seq<Pipe>, events: seq<Event>) {
    && |ps| == |events| + 1 && Initial(ps[0])
    && forall i | 0 <= i < |events| :: Enabled(ps[i], events[i]) && ps[i + 1] == After(ps[i], events[i])
  }

  lemma {:induction false} RunInv(ps: seq<Pipe>, events: seq<Event>, i: nat)
    requires IsRun(ps, events) && i < |ps|
    ensures Inv(ps[i])
    decreases i
  {
    hide Enabled, After;
    if i != 0 {
      var p, e := ps[i - 1], events[i - 1];
      RunInv(ps, events, i - 1);
      assert ps[(i - 1) + 1] == After(p, e);
      StepKeepsAll(p, e);
    }
  }

  lemma {:induction false} StepKeepsAll(p: Pipe, e: Event)
    requires Inv(p) && Enabled(p, e)
    ensures Inv(After(p, e))
  {
    assert p.channelClosed ==> p.closed;
    hide Enabled, After, LockInv, QueueInv, FateInv, OrderInv;
    StepKeepsLock(p, e);
    StepKeepsQueue(p, e);
    StepKeepsFates(p, e);
    StepKeepsOrder(p, e);
  }

  /** No interleaving of writers and closers sends on a closed channel or closes it twice. */
  lemma {:induction false} NeverPanics(ps: seq<Pipe>, events: seq<Event>, i: nat)
    requires IsRun(ps, events) && i < |ps|
    ensures ps[i].panics == 0 && ps[i].closes <= 1
  {
    RunInv(ps, events, i);
  }

  /** First in, first out, within the capacity: the enqueue history is the dequeue history followed by
      the queue. Tuples are dropped only as the mode says: none, only unsent ones, only queued ones. */
  lemma {:induction false} Conserves(ps: seq<Pipe>, events: seq<Event>, i: nat)
    requires IsRun(ps, events) && i < |ps|
    ensures var p := ps[i];
            && p.enqueued == Numbers(p.exits) + p.queue && |p.queue| <= p.capacity
            && (p.mode != DropOldest ==> forall k | 0 <= k < |p.exits| :: p.exits[k].Received?)
            && (p.mode != DropLatest ==> forall n | 0 <= n < |p.fates| :: !p.fates[n].DroppedUnsent?)
            && (!p.closed ==> forall n | 0 <= n < |p.fates| :: !p.fates[n].Refused?)
  {
    RunInv(ps, events, i);
    forall n | 0 <= n < |ps[i].fates|
      ensures (ps[i].mode != DropLatest ==> !ps[i].fates[n].DroppedUnsent?) && (!ps[i].closed ==> !ps[i].fates[n].Refused?)
    {
      assert FateOk(ps[i], n);
    }
  }

  /** Every tuple enters the queue at most once, exactly where its fate says. */
  lemma {:induction false} EnqueuedOnce(ps: seq<Pipe>, events: seq<Event>, i: nat, n: nat, k: nat)
    requires IsRun(ps, events) && i < |ps| && n < |ps[i].fates|
    ensures k < |ps[i].enqueued| && ps[i].enqueued[k] == n <==> ps[i].fates[n] == Enqueued(k)
  {
    RunInv(ps, events, i);
    assert FateOk(ps[i], n);
  }

  /** The tuples of one writer enter the queue in the order in which it wrote them. */
  lemma {:induction false} WriterOrder(ps: seq<Pipe>, events: seq<Event>, i: nat, k: nat, l: nat)
    requires IsRun(ps, events) && i < |ps| && k < |ps[i].enqueued| && l < |ps[i].enqueued|
    ensures var p := ps[i];
            && p.enqueued[k] < |p.owners| && p.enqueued[l] < |p.owners|
            && (p.owners[p.enqueued[k]] == p.owners[p.enqueued[l]] ==> (p.enqueued[k] < p.enqueued[l] <==> k < l))
  {
    RunInv(ps, events, i);
    var p := ps[i];
    var m, n := p.enqueued[k], p.enqueued[l];
    assert p.fates[m] == Enqueued(k) && p.fates[n] == Enqueued(l);
    if m < n && p.owners[m] == p.owners[n] { assert InOrder(p, m, n); }
    if n < m && p.owners[m] == p.owners[n] { assert InOrder(p, n, m); }
  }

  /** Once the channel is closed nothing enters the queue, and what is in it can still be received. */
  lemma {:induction false} ClosedAcceptsNothing(p: Pipe, e: Event)
    requires Inv(p) && Enabled(p, e) && p.channelClosed
    ensures After(p, e).channelClosed && After(p, e).enqueued == p.enqueued
    ensures After(p, e).queue == if e.Receive? then p.queue[1..] else p.queue
  {}

  // ---- why a tuple met its fate ------------------------------------------------------------

  /** The step that settled tuple n, and what it found: a tuple is refused only by a closed pipe, dropped
      unsent only when the queue of an open pipe is full, and sent to the end of a queue that has room. */
  ghost predicate Settles(p: Pipe, e: Event, p': Pipe, n: nat) {
    && n < |p.fates| && n < |p'.fates| && p.fates[n].Flying? &&
    var t := p.fates[n].thread;
    match p'.fates[n]
    case Flying(_) => false
    case Refused => e == Check(t) && p.closed && p'.queue == p.queue
    case DroppedUnsent => e == Send(t) && !p.closed && |p.queue| == p.capacity && p'.queue == p.queue
    case Enqueued(k) => e == Send(t) && !p.closed && |p.queue| < p.capacity && p'.queue == p.queue + [n] && k == |p.enqueued|
  }

  lemma {:induction false} StepSettles(p: Pipe, e: Event, n: nat)
    requires Inv(p) && Enabled(p, e) && n < |p.fates|
    ensures n < |After(p, e).fates|
    ensures !p.fates[n].Flying? ==> After(p, e).fates[n] == p.fates[n]
    ensures p.fates[n].Flying? && !After(p, e).fates[n].Flying? ==> Settles(p, e, After(p, e), n)
  {
    assert FateOk(p, n);
    if !e.Receive? { assert ThreadOk(p, e.thread); }
  }

  /** Every settled tuple of a run was settled by such a step, and its fate never changes afterwards. */
  lemma {:induction false} FateIsExplained(ps: seq<Pipe>, events: seq<Event>, i: nat, n: nat) returns (j: nat)
    requires IsRun(ps, events) && i < |ps| && n < |ps[i].fates| && !ps[i].fates[n].Flying?
    ensures j < i && Settles(ps[j], events[j], ps[j + 1], n) && ps[j + 1].fates[n] == ps[i].fates[n]
    decreases i
  {
    hide Enabled, After, Inv, Settles;
    var p, e := ps[i - 1], events[i - 1];
    assert ps[(i - 1) + 1] == After(p, e);
    RunInv(ps, events, i - 1);
    if n < |p.fates| {
      StepSettles(p, e, n);
      if p.fates[n].Flying? {
        j := i - 1;
      } else {
        j := FateIsExplained(ps, events, i - 1, n);
      }
    } else {
      NewTupleFlies(p, e, n);
    }
  }

  lemma {:induction false} NewTupleFlies(p: Pipe, e: Event, n: nat)
    requires Enabled(p, e) && |p.fates| <= n < |After(p, e).fates|
    ensures After(p, e).fates[n].Flying?
  {}

  /** A write on an open pipe goes on to send; on a closed one it returns an error. */
  lemma {:induction false} CheckDecides(p: Pipe, t: nat)
    requires Inv(p) && Enabled(p, Check(t))
    ensures var n, p' := p.threads[t].n, After(p, Check(t));
            && (!p.closed ==> p' == p.(threads := p.threads[t := Sending(n)]))
            && (p.closed ==> p'.threads[t] == Sent && n < |p.fates| && p'.fates[n] == Refused)
  {
    assert FateInv(p);
  }

  /** What a send does: with room it enqueues, and never blocks; a full queue blocks it, drops its tuple or
      lets it take out the oldest one, as the mode says. */
  lemma {:induction false} SendDecides(p: Pipe, t: nat)
    requires Inv(p) && t in p.threads && p.threads[t].Sending?
    ensures Enabled(p, Send(t)) <==> |p.queue| < p.capacity || p.mode != DropNone
    ensures Enabled(p, Send(t)) ==>
              var n, p' := p.threads[t].n, After(p, Send(t));
              && n < |p.fates| == |p'.fates|
              && (|p.queue| < p.capacity ==> p'.queue == p.queue + [n] && p'.threads[t] == Sent && p'.fates[n].Enqueued?)
              && (|p.queue| == p.capacity ==> p'.queue == p.queue)
              && (|p.queue| == p.capacity && p.mode == DropLatest ==> p'.threads[t] == Sent && p'.fates[n] == DroppedUnsent)
              && (|p.queue| == p.capacity && p.mode == DropOldest ==> p'.threads[t] == Full(n) && p'.fates == p.fates)
  {
    assert ThreadOk(p, t);
  }

  /** A writer that found the queue full takes out the oldest tuple, if one is still there, and tries again. */
  lemma {:induction false} TakeDropsOldest(p: Pipe, t: nat)
    requires Inv(p) && Enabled(p, TakeOldest(t))
    ensures var p' := After(p, TakeOldest(t));
            && p.mode == DropOldest && p'.threads[t] == Sending(p.threads[t].n) && p'.fates == p.fates
            && (p.queue == [] ==> p'.queue == [] && p'.exits == p.exits)
            && (p.queue != [] ==> p.queue == [p'.exits[|p'.exits| - 1].n] + p'.queue && p'.exits == p.exits + [DroppedQueued(p.queue[0])])
  {
    assert p.queue != [] ==> p.queue == [p.queue[0]] + p.queue[1..];
  }

  /** A queued tuple is dropped only by a writer whose send had found the queue full. */
  lemma {:induction false} TakerFoundFull(ps: seq<Pipe>, events: seq<Event>, i: nat, t: nat) returns (j: nat)
    requires IsRun(ps, events) && i < |ps| && t in ps[i].threads && ps[i].threads[t].Full?
    ensures j < i && events[j] == Send(t) && t in ps[j].threads && ps[j].threads[t] == Sending(ps[i].threads[t].n)
    ensures |ps[j].queue| == ps[j].capacity
    decreases i
  {
    hide Inv, Initial, Enabled, After;
    if i == 0 { InitialIdle(ps[0], t); }
    var p, e := ps[i - 1], events[i - 1];
    assert ps[(i - 1) + 1] == After(p, e);
    RunInv(ps, events, i - 1);
    BecomesFull(p, e, t);
    if p.threads[t] == ps[i].threads[t] {
      j := TakerFoundFull(ps, events, i - 1, t);
    } else {
      j := i - 1;
    }
  }

  lemma {:induction false} BecomesFull(p: Pipe, e: Event, t: nat)
    requires Inv(p) && Enabled(p, e) && t in After(p, e).threads && After(p, e).threads[t].Full?
    ensures t in p.threads
    ensures p.threads[t] == After(p, e).threads[t] ||
            (e == Send(t) && p.threads[t] == Sending(After(p, e).threads[t].n) && |p.queue| == p.capacity)
  {
    assert |p.queue| <= p.capacity;
    hide LockInv, FateInv, OrderInv;
  }

  lemma {:induction false} InitialIdle(p: Pipe, t: nat)
    requires Initial(p) && t in p.threads
    ensures p.threads[t] == Idle
  {}

  /** A pipe that is marked closed has a closed channel, unless its closer is just about to close it. */
  ghost predicate CloserInv(p: Pipe) {
    && (p.closed && !p.channelClosed ==> exists t | t in p.threads :: p.threads[t].Marked?)
    && forall t | t in p.threads && p.threads[t].Closed? :: p.channelClosed
  }

  lemma {:induction false} StepKeepsCloser(p: Pipe, e: Event)
    requires LockInv(p) && Enabled(p, e) && CloserInv(p)
    ensures CloserInv(After(p, e))
  {
    var p' := After(p, e);
    if e.Mark? { assert p'.threads[e.thread].Marked?; }
    if p.closed && !p.channelClosed {
      var t :| t in p.threads && p.threads[t].Marked?;
      assert ThreadOk(p, t);
      if !e.Receive? { assert ThreadOk(p, e.thread); }
      if !e.CloseChannel? { assert t in p'.threads && p'.threads[t].Marked?; }
    }
  }

  /** When a Close call is about to return, the channel is closed, whoever closed it. */
  lemma {:induction false} CloseCloses(ps: seq<Pipe>, events: seq<Event>, i: nat)
    requires IsRun(ps, events) && i < |ps|
    ensures CloserInv(ps[i])
    decreases i
  {
    hide Enabled, After, LockInv, QueueInv, FateInv, OrderInv;
    if i != 0 {
      var p, e := ps[i - 1], events[i - 1];
      assert ps[(i - 1) + 1] == After(p, e);
      RunInv(ps, events, i - 1);
      CloseCloses(ps, events, i - 1);
      hide CloserInv;
      StepKeepsCloser(p, e);
    }
  }

  /** No reachable state is stuck: while a thread is busy, it can go on or there is something to receive. */
  lemma {:induction false} NeverStuck(ps: seq<Pipe>, events: seq<Event>, i: nat, t: nat) returns (e: Event)
    requires IsRun(ps, events) && i < |ps| && t in ps[i].threads && ps[i].threads[t] != Idle
    ensures Enabled(ps[i], e) && (e == Receive || (e != Receive && e.thread == t))
    ensures e == Receive ==> ps[i].mode == DropNone && |ps[i].queue| == ps[i].capacity
  {
    var p := ps[i];
    RunInv(ps, events, i);
    assert ThreadOk(p, t);
    match p.threads[t] {
      case Locked(_) => e := Check(t);
      case Sending(_) => e := if |p.queue| < p.capacity || p.mode != DropNone then Send(t) else Receive;
      case Full(_) => e := TakeOldest(t);
      case Sent => e := FinishWrite(t);
      case Claimed => e := Mark(t);
      case Marked => e := CloseChannel(t);
      case Closed => e := FinishClose(t);
    }
  }
}
