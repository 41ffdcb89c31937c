/** LIMIT and sampling of the rows that a statement emits. */
module Limit {
  import opened Values

  type Row = nat

  datatype Sampling = Every | EveryKth(k: nat) | Randomized

  // ---- what is to be emitted ---------------------------------------------------------------

  /** The rows that are picked, in order. */
  function Picked(rows: seq<Row>, picks: seq<bool>): (r: seq<Row>)
    requires |picks| == |rows|
    ensures |r| <= |rows|
  {
    if rows == [] then [] else
      var l := |rows| - 1;
      Picked(rows[..l], picks[..l]) + if picks[l] then [rows[l]] else []
  }

  /** A negative limit is none. */
  predicate Hit(limit: int, emitted: nat) {
    0 <= limit <= emitted
  }

  function First(limit: int, rows: seq<Row>): (r: seq<Row>)
    ensures r <= rows
  {
    if 0 <= limit < |rows| then rows[..limit] else rows
  }

  lemma {:induction false} PickedSnoc(rows: seq<Row>, picks: seq<bool>, row: Row, pick: bool)
    requires |picks| == |rows|
    ensures Picked(rows + [row], picks + [pick]) == Picked(rows, picks) + if pick then [row] else []
  {
    assert (rows + [row])[..|rows|] == rows && (picks + [pick])[..|rows|] == picks;
  }

  lemma {:induction false} PickedGrows(rows: seq<Row>, picks: seq<bool>, more: seq<Row>, morePicks: seq<bool>)
    requires |picks| == |rows| && |morePicks| == |more|
    ensures Picked(rows, picks) <= Picked(rows + more, picks + morePicks)
    decreases more
  {
    if more == [] {
      assert rows + more == rows && picks + morePicks == picks;
    } else {
      var l := |more| - 1;
      PickedGrows(rows, picks, more[..l], morePicks[..l]);
      PickedSnoc(rows + more[..l], picks + morePicks[..l], more[l], morePicks[l]);
      assert rows + more == rows + more[..l] + [more[l]];
      assert picks + morePicks == picks + morePicks[..l] + [morePicks[l]];
    }
  }

  /** Once the limit is hit, further rows change nothing. */
  lemma {:induction false} HitIsFinal(limit: int, rows: seq<Row>, picks: seq<bool>, more: seq<Row>, morePicks: seq<bool>)
    requires |picks| == |rows| && |morePicks| == |more| && Hit(limit, |Picked(rows, picks)|)
    ensures First(limit, Picked(rows + more, picks + morePicks)) == First(limit, Picked(rows, picks))
  {
    hide Picked;
    PickedGrows(rows, picks, more, morePicks);
  }

  /** Every k-th row starting with the first. */
  ghost predicate KthPicks(picks: seq<bool>, k: nat) {
    k >= 1 && forall i | 0 <= i < |picks| :: picks[i] <==> i % k == 0
  }

  lemma {:induction false} KthPicked(rows: seq<Row>, picks: seq<bool>, k: nat)
    requires |picks| == |rows| && KthPicks(picks, k)
    ensures var p := Picked(rows, picks);
            && (|p| - 1) * k < |rows| <= |p| * k
            && forall j | 0 <= j < |p| :: 0 <= j * k < |rows| && p[j] == rows[j * k]
  {
    if rows != [] {
      var l := |rows| - 1;
      KthPicked(rows[..l], picks[..l], k);
      var p := Picked(rows[..l], picks[..l]);
      KthNext(l, k, |p|);
    }
  }

  /** The number of multiples of k below l is n; then l itself is a multiple exactly if it is n * k. */
  lemma {:induction false} KthNext(l: nat, k: nat, n: nat)
    requires k >= 1 && (n - 1) * k < l <= n * k
    ensures l % k == 0 <==> l == n * k
    ensures l == n * k ==> (n + 1 - 1) * k < l + 1 <= (n + 1) * k
    ensures l != n * k ==> l + 1 <= n * k
  {
    if l == n * k {
      MultipleMod(n, k);
    } else {
      var r := l - (n - 1) * k;
      assert 0 < r < k;
      if n == 0 { assert false; }
      RemainderMod(n - 1, k, r);
    }
  }

  lemma {:induction false} MultipleMod(n: nat, k: nat)
    requires k >= 1
    ensures (n * k) % k == 0
  {
    RemainderMod(n, k, 0);
  }

  lemma {:induction false} RemainderMod(n: nat, k: nat, r: nat)
    requires r < k
    ensures (n * k + r) % k == r
  {
    var x := n * k + r;
    var q, m := x / k, x % k;
    assert (n - q) * k == m - r;
    if n > q { Grows(n - q, k); }
    if n < q { Grows(q - n, k); }
  }

  lemma {:induction false} Grows(d: nat, k: nat)
    requires d >= 1
    ensures d * k >= k
  {}

  // ---- the box without a timer -------------------------------------------------------------

  /** Whether a row is to be emitted: by its number, or by a random choice. */
  predicate Pick(sampling: Sampling, n: nat, choice: bool) {
    match sampling
    case Every => true
    case EveryKth(k) => k >= 1 && n % k == 0
    case Randomized => choice
  }

  function Picks(sampling: Sampling, n: nat, choices: seq<bool>): (r: seq<bool>)
    ensures |r| == |choices|
  {
    seq(|choices|, i requires 0 <= i < |choices| => Pick(sampling, n + i, choices[i]))
  }

  ghost predicate Follows(sampling: Sampling, picks: seq<bool>) {
    match sampling
    case Every => forall i | 0 <= i < |picks| :: picks[i]
    case EveryKth(k) => KthPicks(picks, k)
    case Randomized => true
  }

  /** What was emitted is the first rows among the picked ones, as many as the limit allows. */
  ghost predicate Lawful(limit: int, sampling: Sampling, generated: seq<Row>, picks: seq<bool>, emitted: seq<Row>) {
    |picks| == |generated| && emitted == First(limit, Picked(generated, picks)) && Follows(sampling, picks)
  }

  lemma {:induction false} FollowsPicks(sampling: Sampling, picks: seq<bool>, choices: seq<bool>)
    requires Follows(sampling, picks)
    ensures Follows(sampling, picks + Picks(sampling, |picks|, choices))
  {}

  lemma {:induction false} LawfulSkip(limit: int, sampling: Sampling, generated: seq<Row>, picks: seq<bool>, emitted: seq<Row>, rows: seq<Row>, choices: seq<bool>)
    requires Lawful(limit, sampling, generated, picks, emitted) && Hit(limit, |emitted|) && |choices| == |rows|
    ensures Lawful(limit, sampling, generated + rows, picks + Picks(sampling, |picks|, choices), emitted)
  {
    hide Follows, Picked, Picks, Pick;
    FollowsPicks(sampling, picks, choices);
    HitIsFinal(limit, generated, picks, rows, Picks(sampling, |picks|, choices));
  }

  lemma {:induction false} PickedConcat(rows: seq<Row>, picks: seq<bool>, more: seq<Row>, morePicks: seq<bool>)
    requires |picks| == |rows| && |morePicks| == |more|
    ensures Picked(rows + more, picks + morePicks) == Picked(rows, picks) + Picked(more, morePicks)
    decreases more
  {
    if more == [] {
      assert rows + more == rows && picks + morePicks == picks;
    } else {
      var l := |more| - 1;
      PickedConcat(rows, picks, more[..l], morePicks[..l]);
      PickedSnoc(rows + more[..l], picks + morePicks[..l], more[l], morePicks[l]);
      assert rows + more == rows + more[..l] + [more[l]];
      assert picks + morePicks == picks + morePicks[..l] + [morePicks[l]];
    }
  }

  /** What a call adds to the output: the picked ones among the first n rows, whose writes all succeed; it
      ends at a failing write, at the limit, or after the last row. */
  ghost predicate EmittedBy(limit: int, before: seq<Row>, rows: seq<Row>, picks: seq<bool>, writes: seq<bool>, n: nat, ok: bool, after: seq<Row>) {
    && n <= |rows| == |picks| == |writes| && after == before + Picked(rows[..n], picks[..n])
    && (forall j | 0 <= j < n && picks[j] :: writes[j])
    && (if ok then n == |rows| || Hit(limit, |after|) else n < |rows| && picks[n] && !writes[n])
  }

  lemma {:induction false} EmittedStep(before: seq<Row>, rows: seq<Row>, picks: seq<bool>, i: nat, emitted: seq<Row>)
    requires i < |rows| == |picks| && emitted == before + Picked(rows[..i], picks[..i])
    ensures emitted + (if picks[i] then [rows[i]] else []) == before + Picked(rows[..i + 1], picks[..i + 1])
  {
    hide Picked;
    PickedSnoc(rows[..i], picks[..i], rows[i], picks[i]);
    assert rows[..i + 1] == rows[..i] + [rows[i]] && picks[..i + 1] == picks[..i] + [picks[i]];
  }

  /** A call without a failing write extends what is emitted by the law. */
  lemma {:induction false} LawfulExtends(limit: int, sampling: Sampling, generated: seq<Row>, picks: seq<bool>, before: seq<Row>,
                                         rows: seq<Row>, choices: seq<bool>, writes: seq<bool>, n: nat, after: seq<Row>)
    requires Lawful(limit, sampling, generated, picks, before) && !Hit(limit, |before|)
    requires EmittedBy(limit, before, rows, Picks(sampling, |picks|, choices), writes, n, true, after) && (0 <= limit ==> |after| <= limit)
    ensures Lawful(limit, sampling, generated + rows, picks + Picks(sampling, |picks|, choices), after)
  {
    var more := Picks(sampling, |picks|, choices);
    hide Picked, Follows, Picks;
    FollowsPicks(sampling, picks, choices);
    PickedConcat(generated, picks, rows[..n], more[..n]);
    assert generated + rows == generated + rows[..n] + rows[n..];
    assert picks + more == picks + more[..n] + more[n..];
    if Hit(limit, |after|) {
      HitIsFinal(limit, generated + rows[..n], picks + more[..n], rows[n..], more[n..]);
    } else {
      assert rows[..n] == rows && more[..n] == more;
    }
  }

  class Box {
    const limit: int
    const sampling: Sampling
    var genCount: nat
    var emitCount: nat
    var removable: bool
    var removals: nat
    var emitted: seq<Row>
    ghost var generated: seq<Row>
    ghost var picks: seq<bool>
    ghost var failed: bool

    ghost predicate Valid()
      reads this
    {
      && (sampling.EveryKth? ==> sampling.k >= 1)
      && emitCount == |emitted| && (0 <= limit ==> emitCount <= limit)
      && removals + (if removable then 1 else 0) == 1 && (removals == 1 ==> Hit(limit, emitCount))
      && (!failed ==>
            && Lawful(limit, sampling, generated, picks, emitted)
            && (sampling.EveryKth? && !Hit(limit, emitCount) ==> genCount == |picks|))
    }

    constructor (limit: int, sampling: Sampling)
      requires sampling.EveryKth? ==> sampling.k >= 1
      ensures Valid() && this.limit == limit && this.sampling == sampling && generated == [] && emitted == [] && !failed && removals == 0
    {
      this.limit, this.sampling := limit, sampling;
      genCount, emitCount, removable, removals := 0, 0, true, 0;
      generated, picks, emitted, failed := [], [], [], false;
    }

    /** Writes the picked rows of one result until a write fails or the limit is hit. */
    method EmitRows(rows: seq<Row>, choices: seq<bool>, writes: seq<bool>) returns (ok: bool, ghost n: nat)
      requires !Hit(limit, emitCount) && emitCount == |emitted| && |choices| == |rows| == |writes| && (sampling.EveryKth? ==> sampling.k >= 1)
      modifies this`genCount, this`emitCount, this`emitted
      ensures EmittedBy(limit, old(emitted), rows, Picks(sampling, old(genCount), choices), writes, n, ok, emitted)
      ensures emitCount == |emitted| && (0 <= limit ==> emitCount <= limit)
      ensures sampling.EveryKth? ==> genCount == old(genCount) + n + if ok then 0 else 1
    {
      ghost var due := Picks(sampling, genCount, choices);
      EmittedNone(emitted, rows, due);
      hide Picked, Picks;
      var i := 0;
      while i < |rows|
        invariant i <= |rows| && !Hit(limit, emitCount) && emitCount == |emitted|
        invariant emitted == old(emitted) + Picked(rows[..i], due[..i]) && forall j | 0 <= j < i && due[j] :: writes[j]
        invariant sampling.EveryKth? ==> genCount == old(genCount) + i
      {
        var shouldWrite := true;
        PickAt(sampling, old(genCount), choices, i);
        if sampling.EveryKth? {
          shouldWrite := genCount % sampling.k == 0;
          genCount := genCount + 1;
        } else if sampling.Randomized? {
          shouldWrite := choices[i];
        }
        EmittedStep(old(emitted), rows, due, i, emitted);
        if shouldWrite {
          if !writes[i] {
            return false, i;
          }
          emitted := emitted + [rows[i]];
          emitCount := emitCount + 1;
        } else {
          assert emitted + [] == emitted;
        }
        i := i + 1;
        if Hit(limit, emitCount) {
          break;
        }
      }
      ok, n := true, i;
    }

    /** Feeds one tuple: result is what the plan returns for it, choices are the random draws, and
        writes says which writes succeed. */
    method Process(result: Result<seq<Row>>, choices: seq<bool>, writes: seq<bool>) returns (ok: bool)
      requires Valid()
      requires result.Ok? ==> |choices| == |result.value| == |writes|
      modifies this
      ensures Valid() && old(emitted) <= emitted
      ensures Hit(limit, old(emitCount)) ==> ok && emitted == old(emitted) && removals == old(removals)
      ensures !Hit(limit, old(emitCount)) && result.Err? ==> !ok && emitted == old(emitted)
      ensures generated == old(generated) + if result.Ok? then result.value else []
      ensures !Hit(limit, old(emitCount)) && result.Ok? ==>
                exists n: nat :: EmittedBy(limit, old(emitted), result.value, Picks(sampling, old(genCount), choices), writes, n, ok, emitted)
      ensures ok ==> failed == old(failed)
      ensures ok && !Hit(limit, old(emitCount)) && Hit(limit, emitCount) ==> removals == 1
    {
      hide Lawful, Follows, Picks;
      if Hit(limit, emitCount) {
        if result.Ok? {
          if !failed { LawfulSkip(limit, sampling, generated, picks, emitted, result.value, choices); }
          generated, picks := generated + result.value, picks + Picks(sampling, |picks|, choices);
        }
        return true;
      }
      if result.Err? { return false; }
      ghost var n;
      ok, n := EmitRows(result.value, choices, writes);
      if !ok {
        failed := true;
        generated := generated + result.value;
        return;
      }
      if !failed {
        assert Picks(sampling, old(genCount), choices) == Picks(sampling, |picks|, choices) by { SamePicks(sampling, old(genCount), |picks|, choices); }
        LawfulExtends(limit, sampling, generated, picks, old(emitted), result.value, choices, writes, n, emitted);
      }
      generated, picks := generated + result.value, picks + Picks(sampling, |picks|, choices);
      if Hit(limit, emitCount) {
        if removable {
          removals := removals + 1;
          removable := false;
        }
      }
    }
  }

  lemma {:induction false} SamePicks(sampling: Sampling, m: nat, n: nat, choices: seq<bool>)
    requires sampling.EveryKth? ==> m == n
    ensures Picks(sampling, m, choices) == Picks(sampling, n, choices)
  {}

  lemma {:induction false} EmittedNone(before: seq<Row>, rows: seq<Row>, due: seq<bool>)
    requires |due| == |rows|
    ensures before == before + Picked(rows[..0], due[..0])
  {}

  lemma {:induction false} PickAt(sampling: Sampling, n: nat, choices: seq<bool>, i: nat)
    requires i < |choices|
    ensures Picks(sampling, n, choices)[i] == Pick(sampling, n + i, choices[i])
  {}

  /** Across all calls without a failing write: the j-th emitted row is the generated row number j * k,
      and as many are emitted as there are, up to the limit. */
  lemma {:induction false} EmitsEveryKth(b: Box)
    requires b.Valid() && !b.failed && b.sampling.EveryKth?
    ensures var k := b.sampling.k;
            && (0 <= b.limit ==> |b.emitted| <= b.limit)
            && (forall j | 0 <= j < |b.emitted| :: 0 <= j * k < |b.generated| && b.emitted[j] == b.generated[j * k])
            && (!Hit(b.limit, |b.emitted|) ==> |b.generated| <= |b.emitted| * k)
  {
    KthPicked(b.generated, b.picks, b.sampling.k);
  }

  lemma {:induction false} AllPicked(rows: seq<Row>, picks: seq<bool>)
    requires |picks| == |rows| && forall i | 0 <= i < |picks| :: picks[i]
    ensures Picked(rows, picks) == rows
  {
    if rows != [] { AllPicked(rows[..|rows| - 1], picks[..|rows| - 1]); }
  }

  /** Without sampling the emitted rows are the first generated ones. */
  lemma {:induction false} EmitsFirst(b: Box)
    requires b.Valid() && !b.failed && b.sampling.Every?
    ensures b.emitted == if 0 <= b.limit < |b.generated| then b.generated[..b.limit] else b.generated
  {
    AllPicked(b.generated, b.picks);
  }

  // ---- the timer ---------------------------------------------------------------------------

  /** With time-based sampling a timer thread emits the last generated row at every tick, while calls of
      Process, one at a time, keep replacing it. Rows are numbered in the order they are generated;
      pending counts the rows that the running call of Process still has to store. */
  datatype Timed = Timed(
    limit: int,
    generated: nat,
    pending: nat,
    processing: bool,
    last: Last,
    emitCount: nat,
    stopped: bool,
    ticking: bool,
    removable: bool,
    removals: nat,
    written: seq<nat>)

  datatype Last = None | Some(row: nat)

  datatype Event = BeginProcess(rows: nat) | Store | EndProcess | Tick | Terminate

  predicate Enabled(s: Timed, e: Event) {
    match e
    case BeginProcess(_) => !s.processing
    case Store => s.processing && s.pending > 0
    case EndProcess => s.processing && s.pending == 0
    case Tick => s.ticking
    case Terminate => true
  }

  function Removed(s: Timed): Timed {
    if s.removable then s.(removable := false, removals := s.removals + 1) else s
  }

  /** A tick ends the timer once stopped; otherwise it writes and forgets the last row, if there is one. */
  function AfterTick(s: Timed): Timed {
    if s.stopped then s.(ticking := false)
    else if s.last.None? then s
    else
      var s' := s.(last := None, emitCount := s.emitCount + 1, written := s.written + [s.last.row]);
      if Hit(s.limit, s'.emitCount) then Removed(s'.(stopped := true, ticking := false)) else s'
  }

  function After(s: Timed, e: Event): Timed
    requires Enabled(s, e)
  {
    match e
    case BeginProcess(rows) => if Hit(s.limit, s.emitCount) then s else s.(processing := true, pending := rows)
    case Store => s.(pending := s.pending - 1, last := Some(s.generated), generated := s.generated + 1)
    case EndProcess => (if Hit(s.limit, s.emitCount) then Removed(s) else s).(processing := false)
    case Tick => AfterTick(s)
    case Terminate => s.(stopped := true)
  }

  predicate Initial(s: Timed) {
    && s.generated == 0 && s.pending == 0 && !s.processing && s.last == None && s.emitCount == 0 && !s.stopped
    && s.ticking && s.removable && s.removals == 0 && s.written == []
  }

  ghost predicate IsRun(ss: seq<Timed>, events: seq<Event>) {
    && |ss| == |events| + 1 && Initial(ss[0])
    && forall i | 0 <= i < |events| :: Enabled(ss[i], events[i]) && ss[i + 1] == After(ss[i], events[i])
  }

  /** No row is written twice, and rows are written in the order in which they were generated. */
  ghost predicate Increasing(written: seq<nat>, bound: nat) {
    && (forall i | 0 <= i < |written| :: written[i] < bound)
    && forall i, j | 0 <= i < j < |written| :: written[i] < written[j]
  }

  ghost predicate Inv(s: Timed) {
    && |s.written| == s.emitCount && (0 <= s.limit ==> s.emitCount <= s.limit)
    && (!s.stopped && 0 < s.limit ==> s.emitCount < s.limit)
    && (s.limit == 0 ==> s.last.None? && !s.processing)
    && s.removals + (if s.removable then 1 else 0) == 1 && (s.removals == 1 ==> Hit(s.limit, s.emitCount))
    && (s.last.Some? ==> s.generated > 0 && s.last.row == s.generated - 1)
    && Increasing(s.written, if s.last.Some? then s.last.row else s.generated)
  }

  lemma {:induction false} TickKeepsInv(s: Timed)
    requires Inv(s)
    ensures Inv(AfterTick(s)) && (s.stopped ==> AfterTick(s).stopped && AfterTick(s).written == s.written)
    ensures AfterTick(s).written == s.written || (s.generated > 0 && AfterTick(s).written == s.written + [s.generated - 1])
  {}

  lemma {:induction false} StepKeepsInv(s: Timed, e: Event)
    requires Inv(s) && Enabled(s, e)
    ensures Inv(After(s, e))
    ensures s.stopped ==> After(s, e).stopped && After(s, e).written == s.written
    ensures After(s, e).written == s.written || (e == Tick && s.generated > 0 && After(s, e).written == s.written + [s.generated - 1])
  {
    hide AfterTick;
    TickKeepsInv(s);
  }

  lemma {:induction false} RunInv(ss: seq<Timed>, events: seq<Event>, i: nat)
    requires IsRun(ss, events) && i < |ss|
    ensures Inv(ss[i])
    decreases i
  {
    hide Enabled, After;
    if i != 0 {
      RunInv(ss, events, i - 1);
      assert ss[(i - 1) + 1] == After(ss[i - 1], events[i - 1]);
      StepKeepsInv(ss[i - 1], events[i - 1]);
    }
  }

  /** In every interleaving of the timer, Process and Terminate: at most the limit is written, no row
      twice, and the box is removed at most once and only when the limit has been reached. */
  lemma {:induction false} TimedWithinLimit(ss: seq<Timed>, events: seq<Event>, i: nat)
    requires IsRun(ss, events) && i < |ss|
    ensures 0 <= ss[i].limit ==> |ss[i].written| <= ss[i].limit
    ensures ss[i].removals <= 1 && (ss[i].removals == 1 ==> 0 <= ss[i].limit == |ss[i].written|)
    ensures forall m, n | 0 <= m < n < |ss[i].written| :: ss[i].written[m] < ss[i].written[n] < ss[i].generated
  {
    RunInv(ss, events, i);
  }

  /** Nothing is written after the stopped flag has been set. */
  lemma {:induction false} StoppedWritesNothing(ss: seq<Timed>, events: seq<Event>, i: nat, j: nat)
    requires IsRun(ss, events) && i <= j < |ss| && ss[i].stopped
    ensures ss[j].stopped && ss[j].written == ss[i].written
    decreases j
  {
    hide Initial, Inv, Enabled, After;
    if i < j {
      StoppedWritesNothing(ss, events, i, j - 1);
      RunInv(ss, events, j - 1);
      assert ss[(j - 1) + 1] == After(ss[j - 1], events[j - 1]);
      StepKeepsInv(ss[j - 1], events[j - 1]);
    }
  }

  // ---- what a tick writes ------------------------------------------------------------------

  /** The last generated row has not been written. */
  predicate Fresh(s: Timed) {
    s.generated > 0 && (s.written == [] || s.written[|s.written| - 1] != s.generated - 1)
  }

  ghost predicate TickInv(s: Timed) {
    (s.last.Some? <==> Fresh(s)) && (!s.ticking ==> s.stopped) && (!s.processing ==> s.pending == 0)
  }

  lemma {:induction false} StepKeepsTick(s: Timed, e: Event)
    requires Inv(s) && TickInv(s) && Enabled(s, e)
    ensures TickInv(After(s, e))
  {}

  lemma {:induction false} RunTickInv(ss: seq<Timed>, events: seq<Event>, i: nat)
    requires IsRun(ss, events) && i < |ss|
    ensures TickInv(ss[i])
    decreases i
  {
    hide Enabled, After, Inv;
    if i != 0 {
      RunTickInv(ss, events, i - 1);
      RunInv(ss, events, i - 1);
      assert ss[(i - 1) + 1] == After(ss[i - 1], events[i - 1]);
      hide TickInv;
      StepKeepsTick(ss[i - 1], events[i - 1]);
    }
  }

  /** In every run a tick writes exactly if the box is not stopped and a row has been generated that was not
      written yet; it writes the newest one. The write that reaches the limit stops the box and the timer. */
  lemma {:induction false} TickWritesIff(ss: seq<Timed>, events: seq<Event>, i: nat)
    requires IsRun(ss, events) && i < |events| && events[i] == Tick
    ensures var s, s' := ss[i], ss[i + 1];
            && s'.written == (if !s.stopped && Fresh(s) then s.written + [s.generated - 1] else s.written)
            && (|s'.written| > |s.written| && 0 <= s.limit <= |s'.written| ==> s'.stopped && !s'.ticking && s'.removals == 1)
            && (s'.stopped <==> s.stopped || (|s'.written| > |s.written| && 0 <= s.limit <= |s'.written|))
  {
    RunInv(ss, events, i);
    RunTickInv(ss, events, i);
    assert ss[i + 1] == After(ss[i], events[i]);
  }

  /** How many rows the calls of Process that did not find the limit reached have been given. */
  ghost function Fed(ss: seq<Timed>, events: seq<Event>, i: nat): nat
    requires i <= |events| < |ss|
  {
    if i == 0 then 0 else
      Fed(ss, events, i - 1) +
      match events[i - 1]
      case BeginProcess(rows) => if 0 <= ss[i - 1].limit <= |ss[i - 1].written| then 0 else rows
      case _ => 0
  }

  /** All of them are stored, one after the other. */
  lemma {:induction false} FedIsStored(ss: seq<Timed>, events: seq<Event>, i: nat)
    requires IsRun(ss, events) && i < |ss|
    ensures ss[i].generated + ss[i].pending == Fed(ss, events, i)
    decreases i
  {
    if i != 0 {
      FedIsStored(ss, events, i - 1);
      RunInv(ss, events, i - 1);
      RunTickInv(ss, events, i - 1);
      assert ss[(i - 1) + 1] == After(ss[i - 1], events[i - 1]);
    }
  }

  /** Randomized sampling writes the rows that were drawn. */
  lemma {:induction false} RandomPicks(n: nat, choices: seq<bool>)
    ensures Picks(Randomized, n, choices) == choices
  {}
}
