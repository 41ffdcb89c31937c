/** The incremental engine shared by all plans: per-relation buffers, the list of filtered input
    rows, and the back-pointers from buffered tuples to the rows derived from them. */
module Engine {
  import opened Streams
  import opened Buffers
  import opened Rows
  import opened Product

  /** The relations fed by a tuple: more than one in a self-join. */
  function Joined(q: Query, t: Tuple): set<nat> {
    set r: nat | r < |q.relations| && q.relations[r].input == t.input
  }

  /** A tuple is accepted exactly if some buffer receives it. */
  lemma {:induction false} AcceptedIffJoined(q: Query, t: Tuple)
    ensures Accepts(q, t) <==> Joined(q, t) != {}
  {
    if Accepts(q, t) {
      var r :| 0 <= r < |q.relations| && q.relations[r].input == t.input;
      assert r in Joined(q, t);
    }
    if Joined(q, t) != {} {
      var r :| r in Joined(q, t);
    }
  }

  // ---- the runs of the delta product -------------------------------------------------------

  /** Run i takes the buffers before i without the new tuple, buffer i with just the new tuple, and
      all others completely. */
  function RunRanges(buffers: seq<seq<Entry>>, withNew: seq<nat>, i: nat): (ranges: map<nat, Range>)
    requires i < |withNew|
    ensures forall r: nat :: r in ranges <==> r < |buffers|
    ensures forall r | r in ranges :: ranges[r].lo <= ranges[r].hi <= |buffers[r]|
  {
    map r: nat | r < |buffers| ::
      var len := |buffers[r]|;
      if r in withNew[..i] then (if len > 1 then Range(0, len - 1) else Range(0, 0))
      else if r == withNew[i] then Range(if len > 0 then len - 1 else 0, len)
      else Range(0, len)
  }

  /** The combinations of run i: i is the first of the new tuple's relations that uses it. */
  ghost function RunDomain(q: Query, h: seq<Arrival>, withNew: seq<nat>, i: nat): iset<Combo>
    requires i < |withNew| && Within(withNew, |q.relations|)
  {
    iset c: Combo | InProduct(q, h, c) && c[withNew[i]] == |h| - 1 && forall j | 0 <= j < i :: c[withNew[j]] != |h| - 1
  }

  /** The combinations of the first i runs. */
  ghost function DeltaUpTo(q: Query, h: seq<Arrival>, withNew: seq<nat>, i: nat): iset<Combo>
    requires i <= |withNew| && Within(withNew, |q.relations|)
  {
    iset c: Combo | InProduct(q, h, c) && exists j | 0 <= j < i :: c[withNew[j]] == |h| - 1
  }

  /** All combinations that use the newest tuple: new product minus old product. */
  ghost function Delta(q: Query, h: seq<Arrival>): iset<Combo> {
    iset c: Combo | InProduct(q, h, c) && |h| - 1 in c
  }

  ghost predicate ListsJoined(q: Query, t: Tuple, withNew: seq<nat>) {
    && Within(withNew, |q.relations|)
    && forall r: nat :: r in withNew <==> r in Joined(q, t)
  }

  lemma {:induction false} DeltaStep(q: Query, h: seq<Arrival>, withNew: seq<nat>, i: nat)
    requires i < |withNew| && Within(withNew, |q.relations|)
    ensures DeltaUpTo(q, h, withNew, i + 1) == DeltaUpTo(q, h, withNew, i) + RunDomain(q, h, withNew, i)
    ensures DeltaUpTo(q, h, withNew, i) !! RunDomain(q, h, withNew, i)
  {
  }

  lemma {:induction false} DeltaComplete(q: Query, h: seq<Arrival>, withNew: seq<nat>)
    requires h != [] && ListsJoined(q, h[|h| - 1].tuple, withNew)
    ensures DeltaUpTo(q, h, withNew, |withNew|) == Delta(q, h)
  {
    var m := |h| - 1;
    forall c: Combo | InProduct(q, h, c) && m in c ensures exists j | 0 <= j < |withNew| :: c[withNew[j]] == m {
      var r :| 0 <= r < |c| && c[r] == m;
      WindowFacts(q.relations[r], h);
      assert r in Joined(q, h[m].tuple);
      var j :| 0 <= j < |withNew| && withNew[j] == r;
    }
  }

  lemma {:induction false} InRangeOfWindow(buf: seq<Entry>, w: seq<nat>, m: nat, p: nat)
    requires Positions(buf) == w && Increasing(w)
    ensures InRange(buf, Range(0, |buf|), p) <==> p in w
    ensures w != [] && w[|w| - 1] == m ==>
              && (InRange(buf, Range(0, |buf| - 1), p) <==> p in w && p != m)
              && (InRange(buf, Range(|buf| - 1, |buf|), p) <==> p == m)
  {
    assert forall e | 0 <= e < |buf| :: buf[e].pos == w[e];
  }

  lemma {:induction false} RunRangeMeans(q: Query, h: seq<Arrival>, a: Arrival, buffers: seq<seq<Entry>>, withNew: seq<nat>, i: nat, r: nat, p: nat)
    requires WellFormed(q) && BuffersOk(q, h + [a], buffers) && ListsJoined(q, a.tuple, withNew)
    requires i < |withNew| && r < |buffers|
    ensures InRange(buffers[r], RunRanges(buffers, withNew, i)[r], p) <==>
            && p in WindowOf(q.relations[r], h + [a])
            && (r in withNew[..i] ==> p != |h|)
            && (r !in withNew[..i] && r == withNew[i] ==> p == |h|)
  {
    hide WindowOf, Increasing, Faithful, Retain;
    var rel := q.relations[r];
    WindowFacts(rel, h + [a]);
    NewestIsLast(rel, h, a);
    InRangeOfWindow(buffers[r], WindowOf(rel, h + [a]), |h|, p);
    assert |Positions(buffers[r])| == |buffers[r]|;
    if r in withNew[..i] || r == withNew[i] { assert r in withNew; }
  }

  /** The recursive product over the ranges of run i enumerates exactly the combinations of run i. */
  lemma {:induction false} RunDomainIsBox(q: Query, h: seq<Arrival>, a: Arrival, buffers: seq<seq<Entry>>, withNew: seq<nat>, i: nat, origin: map<nat, nat>)
    requires WellFormed(q) && BuffersOk(q, h + [a], buffers) && ListsJoined(q, a.tuple, withNew)
    requires i < |withNew| && forall j, k | 0 <= j < k < |withNew| :: withNew[j] != withNew[k]
    ensures Members(buffers, BoxOf(|buffers|, RunRanges(buffers, withNew, i), origin)) == RunDomain(q, h + [a], withNew, i)
  {
    hide WindowOf, InRange, RunRanges;
    var h', ranges := h + [a], RunRanges(buffers, withNew, i);
    var box := BoxOf(|buffers|, ranges, origin);
    forall c: Combo ensures InBox(buffers, box, c) <==> c in RunDomain(q, h', withNew, i) {
      if |c| == |buffers| {
        forall r: nat | r < |c|
          ensures InRange(buffers[r], box[r], c[r]) <==>
                  && c[r] in WindowOf(q.relations[r], h')
                  && (r in withNew[..i] ==> c[r] != |h|)
                  && (r !in withNew[..i] && r == withNew[i] ==> c[r] == |h|)
        {
          RunRangeMeans(q, h, a, buffers, withNew, i, r, c[r]);
        }
      }
    }
  }

  // ---- publishing the rows of a step -------------------------------------------------------

  /** After eviction the rows are the part of the new view that does not use the new tuple. */
  ghost predicate RowsEvicted(q: Query, h: seq<Arrival>, rows: seq<Row>)
    requires WellFormed(q) && h != []
  {
    && Distinct(rows)
    && (forall i | 0 <= i < |rows| ::
          && InView(q, h, rows[i].combo) && rows[i].input == RowOf(q, h, rows[i].combo)
          && |h| - 1 !in rows[i].combo)
    && forall c: Combo | InView(q, h, c) && |h| - 1 !in c :: Has(rows, c)
  }

  lemma {:induction false} BufferedIsProduct(q: Query, h: seq<Arrival>, buffers: seq<seq<Entry>>, c: Combo)
    requires BuffersOk(q, h, buffers)
    ensures Buffered(buffers, c) <==> InProduct(q, h, c)
  {
  }

  lemma {:induction false} EvictionKeepsView(q: Query, h: seq<Arrival>, a: Arrival, before: seq<Row>, buffers: seq<seq<Entry>>, rows: seq<Row>)
    requires WellFormed(q) && RowsOk(q, h, before)
    requires BuffersOk(q, h + [a], buffers)
    requires Distinct(rows)
    requires forall row :: row in rows <==> row in before && Buffered(buffers, row.combo)
    ensures RowsEvicted(q, h + [a], rows)
  {
    hide BuffersOk, Buffered, InProduct, InView, StepFails;
    var h' := h + [a];
    forall i | 0 <= i < |rows|
      ensures InView(q, h', rows[i].combo) && rows[i].input == RowOf(q, h', rows[i].combo) && |h| !in rows[i].combo
    {
      var c := rows[i].combo;
      assert rows[i] in before;
      var j :| 0 <= j < |before| && before[j] == rows[i];
      ViewInHistory(q, h, c);
      BufferedIsProduct(q, h', buffers, c);
      ViewStep(q, h, a, c);
      ViewInHistory(q, h', c);
      RowOfStable(q, h, a, c);
    }
    forall c: Combo | InView(q, h', c) && |h| !in c ensures Has(rows, c) {
      ViewStep(q, h, a, c);
      var j :| 0 <= j < |before| && before[j].combo == c;
      BufferedIsProduct(q, h', buffers, c);
      assert before[j] in rows;
    }
  }

  lemma {:induction false} ViewInHistory(q: Query, h: seq<Arrival>, c: Combo)
    requires WellFormed(q) && InView(q, h, c)
    ensures InHistory(q, h, c) && |h| !in c && InProduct(q, h, c)
  {
  }

  lemma {:induction false} RowOfStable(q: Query, h: seq<Arrival>, a: Arrival, c: Combo)
    requires WellFormed(q) && InHistory(q, h, c)
    ensures InHistory(q, h + [a], c) && RowOf(q, h + [a], c) == RowOf(q, h, c)
  {
  }

  /** The delta and the combinations born in the newest step are the same. */
  lemma {:induction false} DeltaIsBorn(q: Query, h: seq<Arrival>, c: Combo)
    requires WellFormed(q) && h != []
    ensures c in Delta(q, h) <==> BornAt(q, h, |h| - 1, c)
    ensures c in Delta(q, h) ==> InHistory(q, h, c) && RowOf(q, h, c) == RowAt(h, c, h[|h| - 1].now)
  {
    assert h[..|h|] == h;
    if InProduct(q, h, c) { ProductInHistory(q, h, c); }
  }

  lemma {:induction false} DeltaFails(q: Query, h: seq<Arrival>)
    requires WellFormed(q) && h != []
    ensures FailsIn(q, h, h[|h| - 1].now, Delta(q, h)) <==> StepFails(q, h, |h| - 1)
  {
    hide Delta, BornAt, InProduct, RowOf, RowAt, InHistory;
    var m := |h| - 1;
    forall c: Combo ensures c in Delta(q, h) && Fails(q, h, h[m].now, c) <==> FailsOn(q, h, m, c) {
      DeltaIsBorn(q, h, c);
      DeltaFailsOn(q, h, c);
    }
  }

  lemma {:induction false} DeltaFailsOn(q: Query, h: seq<Arrival>, c: Combo)
    requires WellFormed(q) && h != []
    ensures c in Delta(q, h) && Fails(q, h, h[|h| - 1].now, c) <==> FailsOn(q, h, |h| - 1, c)
  {
    DeltaIsBorn(q, h, c);
  }

  /** A failed step publishes nothing, and indeed none of its combinations belong to the view. */
  lemma {:induction false} FailedStepView(q: Query, h: seq<Arrival>, a: Arrival, rows: seq<Row>)
    requires WellFormed(q) && RowsEvicted(q, h + [a], rows)
    requires StepFails(q, h + [a], |h|)
    ensures RowsOk(q, h + [a], rows)
  {
    hide InView, StepFails;
    forall c: Combo | InView(q, h + [a], c) ensures |h| !in c { ViewStep(q, h, a, c); }
  }

  lemma {:induction false} PassedStepRow(q: Query, h: seq<Arrival>, a: Arrival, c: Combo)
    requires WellFormed(q) && !StepFails(q, h + [a], |h|)
    ensures c in Delta(q, h + [a]) && Passes(q, h + [a], a.now, c) <==> InView(q, h + [a], c) && |h| in c
    ensures InView(q, h + [a], c) && |h| in c ==> RowOf(q, h + [a], c) == RowAt(h + [a], c, a.now)
  {
    hide StepFails, RowOf, RowAt;
    var h' := h + [a];
    ViewStep(q, h, a, c);
    DeltaIsBorn(q, h', c);
    assert h'[|h|] == a;
    if InProduct(q, h', c) { ProductInHistory(q, h', c); }
  }

  lemma {:induction false} PassedStepView(q: Query, h: seq<Arrival>, a: Arrival, rows: seq<Row>, news: seq<Row>, id0: nat, id1: nat)
    requires WellFormed(q) && RowsEvicted(q, h + [a], rows)
    requires !StepFails(q, h + [a], |h|)
    requires forall i | 0 <= i < |rows| :: rows[i].id < id0
    requires Collected(q, h + [a], a.now, Delta(q, h + [a]), news)
    requires NewRows(h + [a], a.now, news, id0, id1)
    ensures RowsOk(q, h + [a], rows + news)
  {
    hide InView, StepFails, RowOf, RowAt, Delta, Passes;
    var h' := h + [a];
    forall c: Combo
      ensures Has(news, c) <==> InView(q, h', c) && |h| in c
      ensures InView(q, h', c) && |h| in c ==> RowOf(q, h', c) == RowAt(h', c, a.now)
    {
      PassedStepRow(q, h, a, c);
    }
    forall i | 0 <= i < |news|
      ensures InView(q, h', news[i].combo) && |h| in news[i].combo && news[i].input == RowOf(q, h', news[i].combo)
    {
      assert Has(news, news[i].combo);
    }
    forall c: Combo ensures Has(rows + news, c) <==> Has(rows, c) || Has(news, c) { HasAppend(rows, news, c); }
  }

  lemma {:induction false} JoinedListed(q: Query, t: Tuple, joined: set<nat>, withNew: seq<nat>)
    requires joined == Joined(q, t) && forall r: nat :: r in withNew <==> r in joined
    ensures ListsJoined(q, t, withNew)
  {
    forall k | 0 <= k < |withNew| ensures withNew[k] < |q.relations| { assert withNew[k] in withNew; }
  }

  lemma {:induction false} RunInDelta(q: Query, h: seq<Arrival>, withNew: seq<nat>, i: nat)
    requires i < |withNew| && Within(withNew, |q.relations|)
    ensures RunDomain(q, h, withNew, i) <= Delta(q, h)
  {
  }

  lemma {:induction false} DeltaUpToNone(q: Query, h: seq<Arrival>, withNew: seq<nat>)
    requires Within(withNew, |q.relations|)
    ensures DeltaUpTo(q, h, withNew, 0) == iset{}
  {
  }

  lemma {:induction false} RunRangesVisited(buffers: seq<seq<Entry>>, withNew: seq<nat>, i: nat, s: Scratch)
    requires i < |withNew|
    ensures Visited(buffers, RunRanges(buffers, withNew, i), s)
  {
    hide RunRanges;
  }

  /** One run of the product per buffer that holds the new tuple. */
  method DeltaProduct(q: Query, ghost h: seq<Arrival>, ghost a: Arrival, buffers: seq<seq<Entry>>, withNew: seq<nat>, now: int, s0: Scratch)
    returns (ok: bool, s: Scratch)
    requires WellFormed(q) && BuffersOk(q, h + [a], buffers) && ListsJoined(q, a.tuple, withNew)
    requires forall j, k | 0 <= j < k < |withNew| :: withNew[j] != withNew[k]
    ensures ok ==> RunDone(q, h + [a], now, Delta(q, h + [a]), s0, s)
    ensures !ok ==> RunFailed(q, h + [a], now, Delta(q, h + [a]), s0, s)
  {
    hide *;
    ghost var h' := h + [a];
    assert Within(withNew, |q.relations|) by { ListedWithin(q, a.tuple, withNew); }
    DeltaUpToNone(q, h', withNew);
    RunEmpty(q, h', now, s0);
    s := s0;
    for i := 0 to |withNew|
      invariant RunDone(q, h', now, DeltaUpTo(q, h', withNew, i), s0, s)
    {
      ghost var s1 := s;
      var start := s.(origin := map[]);
      var ranges := RunRanges(buffers, withNew, i);
      RunRangesVisited(buffers, withNew, i, start);
      ok, s := PreprocCartProdInt(q, h', buffers, ranges, now, start);
      ghost var slice := RunDomain(q, h', withNew, i);
      RunDomainIsBox(q, h, a, buffers, withNew, i, start.origin);
      RunIgnoresHolders(q, h', now, slice, s1, start, s);
      if !ok {
        RunInDelta(q, h', withNew, i);
        RunFailsLater(q, h', now, DeltaUpTo(q, h', withNew, i), slice, Delta(q, h'), s0, s1, s);
        return;
      }
      DeltaStep(q, h', withNew, i);
      RunJoin(q, h', now, DeltaUpTo(q, h', withNew, i), slice, s0, s1, s);
    }
    DeltaComplete(q, h', withNew);
    ok := true;
  }

  lemma {:induction false} ListedWithin(q: Query, t: Tuple, withNew: seq<nat>)
    requires ListsJoined(q, t, withNew)
    ensures Within(withNew, |q.relations|)
  {
  }

  lemma {:induction false} PublishDone(q: Query, h: seq<Arrival>, a: Arrival, rows: seq<Row>, s0: Scratch, s: Scratch)
    requires WellFormed(q) && RowsEvicted(q, h + [a], rows) && !StepFails(q, h + [a], |h|)
    requires IdsBelow(rows, s0.links, s0.nextId) && Linked(|q.relations|, rows, s0.links)
    requires s0.pending == [] && RunDone(q, h + [a], a.now, Delta(q, h + [a]), s0, s)
    ensures RowsOk(q, h + [a], rows + s.pending)
    ensures IdsBelow(rows + s.pending, s.links, s.nextId) && Linked(|q.relations|, rows + s.pending, s.links)
    ensures s0.nextId <= s.nextId && forall i | 0 <= i < |s.pending| :: s.pending[i].id >= s0.nextId
  {
    hide StepFails, FailsIn, RowsEvicted, RowsOk, InView, Passes, Delta, RowAt;
    assert s.pending[0..] == s.pending;
    PassedStepView(q, h, a, rows, s.pending, s0.nextId, s.nextId);
    assert forall i | 0 <= i < |s.pending| :: |s.pending[i].combo| == |q.relations| by {
      forall i | 0 <= i < |s.pending| ensures |s.pending[i].combo| == |q.relations| {
        assert Has(s.pending, s.pending[i].combo);
        DeltaSize(q, h + [a], s.pending[i].combo);
      }
    }
    LinkedGrows(|q.relations|, rows, s.pending, s0.links, s.links, s0.nextId, s.nextId);
  }

  lemma {:induction false} DeltaSize(q: Query, h: seq<Arrival>, c: Combo)
    requires c in Delta(q, h)
    ensures |c| == |q.relations|
  {
  }

  lemma {:induction false} LinkedGrows(n: nat, rows: seq<Row>, news: seq<Row>, links0: Links, links1: Links, id0: nat, id1: nat)
    requires IdsBelow(rows, links0, id0) && Linked(n, rows, links0) && id0 <= id1
    requires Distinct(news) && forall i | 0 <= i < |news| :: id0 <= news[i].id < id1 && |news[i].combo| == n
    requires LinksGrew(links0, links1, news)
    ensures IdsBelow(rows + news, links1, id1) && Linked(n, rows + news, links1)
  {
    forall i, r: nat, p: nat | 0 <= i < |news| && r < n
      ensures news[i].id in Derived(links1, r, p) <==> news[i].combo[r] == p
    {
      assert news[i].id !in Derived(links0, r, p);
      assert LinksOf(news, r, p, news[i].id) <==> news[i].combo[r] == p;
    }
    forall i, r: nat, p: nat | 0 <= i < |rows| && r < n
      ensures rows[i].id in Derived(links1, r, p) <==> rows[i].combo[r] == p
    {
      assert !LinksOf(news, r, p, rows[i].id);
    }
  }

  lemma {:induction false} PublishFailed(q: Query, h: seq<Arrival>, a: Arrival, rows: seq<Row>, s0: Scratch, s: Scratch)
    requires WellFormed(q) && RowsEvicted(q, h + [a], rows) && StepFails(q, h + [a], |h|)
    requires IdsBelow(rows, s0.links, s0.nextId) && Linked(|q.relations|, rows, s0.links)
    requires RunFailed(q, h + [a], a.now, Delta(q, h + [a]), s0, s)
    ensures RowsOk(q, h + [a], rows)
    ensures IdsBelow(rows, s.links, s.nextId) && Linked(|q.relations|, rows, s.links) && s0.nextId <= s.nextId
  {
    FailedStepView(q, h, a, rows);
  }

  datatype Outcome = Rejected | FilterFailed | Ingested

  lemma {:induction false} EmptyHistory(q: Query, buffers: seq<seq<Entry>>)
    requires WellFormed(q) && |buffers| == |q.relations| && forall r | 0 <= r < |buffers| :: buffers[r] == []
    ensures BuffersOk(q, [], buffers) && RowsOk(q, [], [])
  {
    forall r | 0 <= r < |buffers| ensures WindowOf(q.relations[r], []) == [] { }
    forall c: Combo ensures !InProduct(q, [], c) {
      if |c| == |q.relations| { assert c[0] !in WindowOf(q.relations[0], []); }
    }
  }

  lemma {:induction false} GrownBuffers(q: Query, h: seq<Arrival>, a: Arrival, before: seq<seq<Entry>>, grown: seq<seq<Entry>>, rows: seq<Row>)
    requires WellFormed(q) && BuffersOk(q, h, before) && RowsOk(q, h, rows)
    requires |grown| == |before|
    requires forall r | 0 <= r < |grown| :: grown[r] == Grown(q.relations[r], a.tuple, |h|, before[r])
    ensures forall r | 0 <= r < |grown| :: Increasing(Positions(grown[r]))
    ensures forall i | 0 <= i < |rows| :: Buffered(grown, rows[i].combo)
  {
    hide WindowOf, StepFails, RowOf;
    forall r | 0 <= r < |grown|
      ensures Increasing(Positions(grown[r]))
      ensures forall p | p in Positions(before[r]) :: p in Positions(grown[r])
    {
      WindowFacts(q.relations[r], h);
      GrownFaithful(h, a, q.relations[r], before[r]);
    }
    forall i | 0 <= i < |rows| ensures Buffered(grown, rows[i].combo) {
      BufferedIsProduct(q, h, before, rows[i].combo);
    }
  }

  lemma {:induction false} EvictedBuffers(q: Query, h: seq<Arrival>, a: Arrival, before: seq<seq<Entry>>, grown: seq<seq<Entry>>, after: seq<seq<Entry>>)
    requires WellFormed(q) && BuffersOk(q, h, before)
    requires |grown| == |before| == |after|
    requires forall r | 0 <= r < |grown| :: grown[r] == Grown(q.relations[r], a.tuple, |h|, before[r])
    requires forall r | 0 <= r < |grown| :: after[r] == Kept(q.relations[r].window, a.tuple.ts, grown[r])
    ensures BuffersOk(q, h + [a], after)
  {
    hide BufferOk, Kept, Grown;
    forall r | 0 <= r < |after| ensures BufferOk(q.relations[r], h + [a], after[r]) {
      KeptIsWindow(q.relations[r], h, a, before[r]);
    }
  }

  lemma {:induction false} EvictedLinks(n: nat, before: seq<Row>, rows: seq<Row>, links: Links, next: nat)
    requires IdsBelow(before, links, next) && Linked(n, before, links)
    requires forall row :: row in rows ==> row in before
    ensures IdsBelow(rows, links, next) && Linked(n, rows, links)
  {
    forall i | 0 <= i < |rows| ensures exists j | 0 <= j < |before| :: rows[i] == before[j] {
      assert rows[i] in before;
    }
  }

  lemma {:induction false} RowsDistinct(q: Query, h: seq<Arrival>, rows: seq<Row>)
    requires WellFormed(q) && RowsOk(q, h, rows)
    ensures Distinct(rows)
  {
  }

  class Engine {
    const q: Query
    /** The accepted arrivals; only the number of them is kept by the engine itself. */
    ghost var history: seq<Arrival>
    var arrivals: nat
    var buffers: seq<seq<Entry>>
    var lastTupleBuffers: set<nat>
    var rows: seq<Row>
    var links: Links
    var nextId: nat

    ghost predicate Valid()
      reads this
    {
      && WellFormed(q)
      && arrivals == |history|
      && BuffersOk(q, history, buffers)
      && RowsOk(q, history, rows)
      && IdsBelow(rows, links, nextId)
      && Linked(|q.relations|, rows, links)
    }

    constructor (q: Query)
      requires WellFormed(q)
      ensures Valid() && this.q == q && history == [] && rows == []
    {
      this.q := q;
      history, arrivals := [], 0;
      buffers := seq(|q.relations|, _ => []);
      lastTupleBuffers := {};
      rows, links, nextId := [], map[], 0;
      new;
      EmptyHistory(q, buffers);
    }

    /** Drops tuples from the front while there are too many. */
    method EvictByCount(r: nat, count: nat) returns (kept: seq<Entry>, expired: set<nat>)
      requires r < |buffers| && Increasing(Positions(buffers[r]))
      ensures kept == Last(buffers[r], count)
      ensures |kept| == (if |buffers[r]| < count then |buffers[r]| else count) && kept == buffers[r][|buffers[r]| - |kept|..]
      ensures forall id: nat :: id in expired <==> ExpiredBy(links, r, buffers[r], kept, id)
    {
      hide Derived;
      var buf := buffers[r];
      kept, expired := buf, {};
      var i := 0;
      while i < |buf| - count
        invariant 0 <= i <= |buf| && (i <= |buf| - count || i == 0)
        invariant kept == buf[i..]
        invariant forall id: nat :: id in expired <==> exists j | 0 <= j < i :: id in Derived(links, r, buf[j].pos)
      {
        expired := expired + IdSet(Derived(links, r, kept[0].pos));
        kept := kept[1..];
        i := i + 1;
      }
      assert forall j | 0 <= j < |buf| :: buf[j].pos == Positions(buf)[j];
      assert forall j | 0 <= j < |buf| :: buf[j] in kept <==> j >= i;
    }

    /** Drops the tuples that are too old, wherever they are. */
    method EvictByAge(r: nat, range: nat, ts: int) returns (kept: seq<Entry>, expired: set<nat>)
      requires r < |buffers|
      ensures kept == Younger(buffers[r], ts, range)
      ensures forall id: nat :: id in expired <==> ExpiredBy(links, r, buffers[r], kept, id)
    {
      hide Derived;
      var buf := buffers[r];
      kept, expired := [], {};
      for i := 0 to |buf|
        invariant kept == Younger(buf[..i], ts, range)
        invariant forall id: nat :: id in expired <==>
          exists j | 0 <= j < i :: ts - buf[j].tuple.ts > range && id in Derived(links, r, buf[j].pos)
      {
        assert buf[..i + 1][..i] == buf[..i];
        if ts - buf[i].tuple.ts > range {
          expired := expired + IdSet(Derived(links, r, buf[i].pos));
        } else {
          kept := kept + [buf[i]];
        }
      }
      assert buf[..|buf|] == buf;
      YoungerFacts(buf, ts, range);
    }

    method EvictBuffer(r: nat, ts: int) returns (kept: seq<Entry>, expired: set<nat>)
      requires r < |buffers| == |q.relations|
      requires Increasing(Positions(buffers[r]))
      ensures kept == Kept(q.relations[r].window, ts, buffers[r])
      ensures forall id: nat :: id in expired <==> ExpiredBy(links, r, buffers[r], kept, id)
    {
      match q.relations[r].window {
        case Tuples(count) => kept, expired := EvictByCount(r, count);
        case Time(range) => kept, expired := EvictByAge(r, range, ts);
      }
    }

    method AddTupleToBuffer(t: Tuple, now: int) returns (ok: bool)
      requires |buffers| == |q.relations|
      modifies this`buffers, this`lastTupleBuffers, this`arrivals, this`history
      ensures ok == Accepts(q, t)
      ensures !ok ==> unchanged(this)
      ensures ok ==> history == old(history) + [Arrival(t, now)] && arrivals == old(arrivals) + 1
      ensures ok ==> |buffers| == |q.relations|
      ensures ok ==> forall r | 0 <= r < |buffers| ::
                       buffers[r] == Grown(q.relations[r], t, old(arrivals), old(buffers)[r])
      ensures ok ==> lastTupleBuffers == Joined(q, t)
    {
      var numAppends := 0;
      for r := 0 to |q.relations|
        invariant 0 <= numAppends
        invariant numAppends > 0 <==> exists k | 0 <= k < r :: q.relations[k].input == t.input
      {
        if q.relations[r].input == t.input { numAppends := numAppends + 1; }
      }
      if numAppends == 0 {
        return false;
      }
      lastTupleBuffers := {};
      for r := 0 to |q.relations|
        invariant |buffers| == |q.relations| && arrivals == old(arrivals) && history == old(history)
        invariant forall k | 0 <= k < |buffers| ::
          buffers[k] == if k < r then Grown(q.relations[k], t, arrivals, old(buffers)[k]) else old(buffers)[k]
        invariant lastTupleBuffers == set k: nat | k < r && q.relations[k].input == t.input
      {
        if q.relations[r].input == t.input {
          buffers := buffers[r := buffers[r] + [Entry(arrivals, t)]];
          lastTupleBuffers := lastTupleBuffers + {r};
        }
      }
      history := history + [Arrival(t, now)];
      arrivals := arrivals + 1;
      return true;
    }

    method EvictAll(ts: int) returns (expired: set<nat>)
      requires |buffers| == |q.relations|
      requires forall r | 0 <= r < |buffers| :: Increasing(Positions(buffers[r]))
      modifies this`buffers
      ensures |buffers| == |q.relations|
      ensures forall r | 0 <= r < |buffers| ::
                buffers[r] == Kept(q.relations[r].window, ts, old(buffers)[r])
      ensures Condemned(links, old(buffers), buffers, expired)
    {
      expired := {};
      for r := 0 to |q.relations|
        invariant |buffers| == |q.relations|
        invariant forall k | 0 <= k < |buffers| ::
          buffers[k] == if k < r then Kept(q.relations[k].window, ts, old(buffers)[k]) else old(buffers)[k]
        invariant forall id: nat :: id in expired <==>
          exists k | 0 <= k < r :: ExpiredBy(links, k, old(buffers)[k], buffers[k], id)
      {
        var kept, gone := EvictBuffer(r, ts);
        buffers := buffers[r := kept];
        expired := expired + gone;
      }
    }

    method RemoveOutdatedTuplesFromBuffer(ts: int)
      requires |buffers| == |q.relations|
      requires forall r | 0 <= r < |buffers| :: Increasing(Positions(buffers[r]))
      requires Distinct(rows) && Linked(|q.relations|, rows, links)
      requires forall i | 0 <= i < |rows| :: Buffered(buffers, rows[i].combo)
      modifies this`buffers, this`rows
      ensures |buffers| == |q.relations|
      ensures forall r | 0 <= r < |buffers| ::
                buffers[r] == Kept(q.relations[r].window, ts, old(buffers)[r])
      ensures Distinct(rows)
      ensures forall row :: row in rows <==> row in old(rows) && Buffered(buffers, row.combo)
    {
      hide *;
      var expired := EvictAll(ts);
      forall r | 0 <= r < |buffers| ensures forall e | e in buffers[r] :: e in old(buffers)[r] {
        KeptFacts(q.relations[r].window, ts, old(buffers)[r]);
      }
      forall i | 0 <= i < |rows| ensures rows[i].id in expired <==> !Buffered(buffers, rows[i].combo) {
        CondemnedIffGone(rows, links, old(buffers), buffers, expired, i);
      }
      SurvivingMembers(rows, expired);
      SurvivingDistinct(rows, expired);
      rows := DropExpired(rows, expired);
    }

    /** Lists the buffers holding the new tuple, in any order. */
    method BuffersWithNewTuple() returns (withNew: seq<nat>)
      ensures forall r: nat :: r in withNew <==> r in lastTupleBuffers
      ensures forall i, j | 0 <= i < j < |withNew| :: withNew[i] != withNew[j]
    {
      withNew := [];
      var todo := lastTupleBuffers;
      while todo != {}
        invariant todo <= lastTupleBuffers
        invariant forall r: nat :: r in withNew <==> r in lastTupleBuffers && r !in todo
        invariant forall i, j | 0 <= i < j < |withNew| :: withNew[i] != withNew[j]
      {
        var r :| r in todo;
        assert forall i | 0 <= i < |withNew| :: withNew[i] in withNew;
        withNew := withNew + [r];
        todo := todo - {r};
      }
    }

    /** Evaluates the filter on the combinations that use the new tuple and publishes those that pass.
        Fails, without publishing anything, exactly when the filter fails on one of them. */
    method FilterInputTuples(now: int) returns (ok: bool)
      requires WellFormed(q) && history != [] && BuffersOk(q, history, buffers)
      requires now == history[|history| - 1].now
      requires lastTupleBuffers == Joined(q, history[|history| - 1].tuple)
      requires RowsEvicted(q, history, rows) && IdsBelow(rows, links, nextId) && Linked(|q.relations|, rows, links)
      modifies this`rows, this`links, this`nextId
      ensures ok <==> !StepFails(q, history, |history| - 1)
      ensures RowsOk(q, history, rows) && IdsBelow(rows, links, nextId) && Linked(|q.relations|, rows, links)
      ensures old(nextId) <= nextId && old(rows) <= rows
      ensures !ok ==> rows == old(rows)
      ensures forall i | |old(rows)| <= i < |rows| :: rows[i].id >= old(nextId)
    {
      hide *;
      ghost var h, a := history[..|history| - 1], history[|history| - 1];
      assert history == h + [a];
      var withNew := BuffersWithNewTuple();
      JoinedListed(q, a.tuple, lastTupleBuffers, withNew);
      var s0 := Scratch([], links, nextId, map[], map[]);
      var s;
      ok, s := DeltaProduct(q, h, a, buffers, withNew, now, s0);
      DeltaFails(q, history);
      if ok {
        PublishDone(q, h, a, rows, s0, s);
        rows := rows + s.pending;
      } else {
        PublishFailed(q, h, a, rows, s0, s);
      }
      links, nextId := s.links, s.nextId;
    }

    /** Stream-to-relation and filtering: everything a Process call does before the query runs. */
    method Ingest(t: Tuple, now: int) returns (o: Outcome)
      requires Valid()
      modifies this
      ensures Valid()
      ensures o == Rejected <==> !Accepts(q, t)
      ensures o == Rejected ==> unchanged(this)
      ensures o != Rejected ==> history == old(history) + [Arrival(t, now)]
      ensures o != Rejected ==> (o == FilterFailed <==> StepFails(q, history, |history| - 1))
      ensures forall row | row in rows :: row in old(rows) || row.id >= old(nextId)
      ensures old(nextId) <= nextId
    {
      hide Accepts, BuffersOk, RowsOk, IdsBelow, Linked, StepFails, Joined, Kept, Grown, Buffered, RowsEvicted, Distinct, Increasing;
      ghost var h, a := history, Arrival(t, now);
      var ok := AddTupleToBuffer(t, now);
      if !ok {
        return Rejected;
      }
      ghost var grown := buffers;
      GrownBuffers(q, h, a, old(buffers), grown, rows);
      RowsDistinct(q, h, rows);
      RemoveOutdatedTuplesFromBuffer(t.ts);
      EvictedBuffers(q, h, a, old(buffers), grown, buffers);
      EvictionKeepsView(q, h, a, old(rows), buffers, rows);
      EvictedLinks(|q.relations|, old(rows), rows, links, nextId);
      ghost var evicted := rows;
      ok := FilterInputTuples(now);
      forall row | row in rows ensures row in old(rows) || row.id >= old(nextId) {
        var i :| 0 <= i < |rows| && rows[i] == row;
        if i < |evicted| { assert evicted[i] in evicted; }
      }
      o := if ok then Ingested else FilterFailed;
    }
  }
}
