/** The contents of the per-relation buffers: what is appended, what eviction keeps, and why the
    result is always the window of the relation. */
module Buffers {
  import opened Streams

  /** A buffered tuple. The position of its arrival stands for the address of its container. */
  datatype Entry = Entry(pos: nat, tuple: Tuple)

  function Positions(buf: seq<Entry>): seq<nat> {
    seq(|buf|, i requires 0 <= i < |buf| => buf[i].pos)
  }

  ghost predicate BufferOk(rel: Relation, h: seq<Arrival>, buf: seq<Entry>) {
    && Positions(buf) == WindowOf(rel, h)
    && Faithful(h, buf)
  }

  ghost predicate BuffersOk(q: Query, h: seq<Arrival>, buffers: seq<seq<Entry>>)
    ensures BuffersOk(q, h, buffers) ==> |buffers| == |q.relations|
  {
    && |buffers| == |q.relations|
    && forall r | 0 <= r < |buffers| :: BufferOk(q.relations[r], h, buffers[r])
  }

  // ---- eviction ----------------------------------------------------------------------------

  function Younger(buf: seq<Entry>, now: int, d: int): seq<Entry> {
    if buf == [] then [] else
      var l := |buf| - 1;
      Younger(buf[..l], now, d) + if now - buf[l].tuple.ts <= d then [buf[l]] else []
  }

  /** What eviction keeps of a buffer. */
  function Kept(window: Window, now: int, buf: seq<Entry>): seq<Entry> {
    match window
    case Tuples(count) => Last(buf, count)
    case Time(range) => Younger(buf, now, range)
  }

  /** A buffer with the new tuple appended if it belongs to the relation. */
  function Grown(rel: Relation, t: Tuple, pos: nat, buf: seq<Entry>): seq<Entry> {
    buf + if rel.input == t.input then [Entry(pos, t)] else []
  }

  ghost predicate Faithful(h: seq<Arrival>, buf: seq<Entry>) {
    forall i | 0 <= i < |buf| :: buf[i].pos < |h| && buf[i].tuple == h[buf[i].pos].tuple
  }

  lemma {:induction false} YoungerIsRecent(h: seq<Arrival>, buf: seq<Entry>, now: int, d: int)
    requires Faithful(h, buf)
    ensures Within(Positions(buf), |h|)
    ensures Positions(Younger(buf, now, d)) == Recent(h, now, d, Positions(buf))
    ensures Faithful(h, Younger(buf, now, d))
  {
    if buf != [] {
      var l := |buf| - 1;
      YoungerIsRecent(h, buf[..l], now, d);
      assert Positions(buf)[..l] == Positions(buf[..l]);
      assert Positions(Younger(buf, now, d)) ==
             Positions(Younger(buf[..l], now, d)) + if now - buf[l].tuple.ts <= d then [buf[l].pos] else [];
    }
  }

  lemma {:induction false} LastPositions(h: seq<Arrival>, buf: seq<Entry>, k: nat)
    requires Faithful(h, buf)
    ensures Positions(Last(buf, k)) == Last(Positions(buf), k) && Faithful(h, Last(buf, k))
  {
  }

  lemma {:induction false} GrownFaithful(h: seq<Arrival>, a: Arrival, rel: Relation, buf: seq<Entry>)
    requires Faithful(h, buf)
    ensures Faithful(h + [a], Grown(rel, a.tuple, |h|, buf))
    ensures Positions(Grown(rel, a.tuple, |h|, buf)) == Positions(buf) + if a.tuple.input == rel.input then [|h|] else []
  {
  }

  /** Appending the new tuple and evicting leaves exactly the new window in the buffer. */
  lemma {:induction false} KeptIsWindow(rel: Relation, h: seq<Arrival>, a: Arrival, buf: seq<Entry>)
    requires rel.window.Tuples? ==> rel.window.count > 0
    requires BufferOk(rel, h, buf)
    ensures BufferOk(rel, h + [a], Kept(rel.window, a.tuple.ts, Grown(rel, a.tuple, |h|, buf)))
  {
    hide Positions, Grown, Recent, Faithful, WindowOf, Last, Younger;
    var h', grown := h + [a], Grown(rel, a.tuple, |h|, buf);
    WindowStep(rel, h, a);
    GrownFaithful(h, a, rel, buf);
    match rel.window
    case Time(range) => YoungerIsRecent(h', grown, a.tuple.ts, range);
    case Tuples(count) => LastPositions(h', grown, count);
  }

  lemma {:induction false} YoungerFacts(buf: seq<Entry>, now: int, d: int)
    ensures forall e :: e in Younger(buf, now, d) <==> e in buf && now - e.tuple.ts <= d
  {
    if buf != [] { YoungerFacts(buf[..|buf| - 1], now, d); }
  }

  lemma {:induction false} KeptFacts(window: Window, now: int, buf: seq<Entry>)
    ensures forall e | e in Kept(window, now, buf) :: e in buf
  {
    if window.Time? { YoungerFacts(buf, now, window.range); }
  }

  lemma {:induction false} BuffersIncreasing(q: Query, h: seq<Arrival>, buffers: seq<seq<Entry>>)
    requires BuffersOk(q, h, buffers)
    ensures forall r | 0 <= r < |buffers| :: Increasing(Positions(buffers[r]))
  {
    forall r | 0 <= r < |buffers| ensures Increasing(Positions(buffers[r])) { WindowFacts(q.relations[r], h); }
  }

  ghost predicate Buffered(buffers: seq<seq<Entry>>, c: Combo) {
    |c| == |buffers| && forall r | 0 <= r < |c| :: c[r] in Positions(buffers[r])
  }
}
