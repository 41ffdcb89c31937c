/** Whole runs of plans: the emitted streams determine the results, and how far the maintained view
    agrees with a filter applied to the product of the windows. */
module Runs {
  import opened Values
  import opened Streams
  import opened Emission
  import opened SelectPlan
  import opened Rows
  import E = Engine
  import H = Hash

  // ---- results are unique up to order ------------------------------------------------------

  lemma {:induction false} DistinctSameMembers(a: seq<Combo>, b: seq<Combo>)
    requires forall i, j | 0 <= i < j < |a| :: a[i] != a[j]
    requires forall i, j | 0 <= i < j < |b| :: b[i] != b[j]
    requires forall c: Combo :: c in a <==> c in b
    ensures multiset(a) == multiset(b)
  {
    forall c: Combo ensures multiset(a)[c] == multiset(b)[c] {
      OnceInMultiset(a, c);
      OnceInMultiset(b, c);
    }
  }

  lemma {:induction false} OnceInMultiset(a: seq<Combo>, c: Combo)
    requires forall i, j | 0 <= i < j < |a| :: a[i] != a[j]
    ensures multiset(a)[c] == if c in a then 1 else 0
  {
    if a != [] {
      var l := |a| - 1;
      OnceInMultiset(a[..l], c);
      assert a == a[..l] + [a[l]];
      assert a[l] !in a[..l];
    }
  }

  function Without<T>(s: seq<T>, k: nat): seq<T>
    requires k < |s|
  {
    s[..k] + s[k + 1..]
  }

  lemma {:induction false} WithoutMultiset<T>(s: seq<T>, k: nat)
    requires k < |s|
    ensures multiset(s) == multiset(Without(s, k)) + multiset{s[k]}
  {
    assert s == s[..k] + [s[k]] + s[k + 1..];
  }

  ghost predicate MapsTo<A, B>(f: A -> B, xs: seq<A>, ys: seq<B>) {
    |xs| == |ys| && forall i | 0 <= i < |xs| :: ys[i] == f(xs[i])
  }

  lemma {:induction false} MapsToWithout<A, B>(f: A -> B, xs: seq<A>, ys: seq<B>, k: nat)
    requires MapsTo(f, xs, ys) && k < |xs|
    ensures ys[k] == f(xs[k]) && MapsTo(f, Without(xs, k), Without(ys, k))
  {
  }

  lemma {:induction false} ImagesPermute<A, B>(f: A -> B, xs: seq<A>, ys: seq<A>, xs': seq<B>, ys': seq<B>)
    requires multiset(xs) == multiset(ys) && MapsTo(f, xs, xs') && MapsTo(f, ys, ys')
    ensures multiset(xs') == multiset(ys')
    decreases |xs|
  {
    if xs == [] {
      assert |ys| == |multiset(ys)| == 0;
    } else {
      assert |xs'| == |xs| && |ys'| == |ys|;
      assert xs[0] in multiset(ys);
      var k :| 0 <= k < |ys| && ys[k] == xs[0];
      hide *;
      WithoutMultiset(xs, 0);
      WithoutMultiset(xs', 0);
      WithoutMultiset(ys, k);
      WithoutMultiset(ys', k);
      MapsToWithout(f, xs, xs', 0);
      MapsToWithout(f, ys, ys', k);
      Cancel(multiset(Without(xs, 0)), multiset(Without(ys, k)), xs[0]);
      assert |Without(xs, 0)| < |xs| by { WithoutShorter(xs, 0); }
      ImagesPermute(f, Without(xs, 0), Without(ys, k), Without(xs', 0), Without(ys', k));
    }
  }

  lemma {:induction false} Cancel<T>(a: multiset<T>, b: multiset<T>, x: T)
    requires a + multiset{x} == b + multiset{x}
    ensures a == b
  {
    assert a == a + multiset{x} - multiset{x};
    assert b == b + multiset{x} - multiset{x};
  }

  lemma {:induction false} WithoutShorter<T>(s: seq<T>, k: nat)
    requires k < |s|
    ensures |Without(s, k)| < |s|
  {
  }

  lemma {:induction false} ProjectsAsMap(q: Query, h: seq<Arrival>, f: Combo -> Value, cs: seq<Combo>, out: seq<Value>)
    requires WellFormed(q) && ProjectsTo(q, h, cs, out)
    requires forall c: Combo | InHistory(q, h, c) && q.project(RowOf(q, h, c)).Ok? :: f(c) == q.project(RowOf(q, h, c)).value
    ensures MapsTo(f, cs, out)
  {
  }

  /** The result after a history is determined up to the order of its rows. */
  lemma {:induction false} ResultUnique(q: Query, h: seq<Arrival>, a: seq<Value>, b: seq<Value>)
    requires WellFormed(q) && IsResult(q, h, a) && IsResult(q, h, b)
    ensures multiset(a) == multiset(b)
  {
    hide InView, RowOf;
    var cs: seq<Combo> :| Enumerates(q, h, cs) && ProjectsTo(q, h, cs, a);
    var ds: seq<Combo> :| Enumerates(q, h, ds) && ProjectsTo(q, h, ds, b);
    DistinctSameMembers(cs, ds);
    var f := (c: Combo) => if InHistory(q, h, c) && q.project(RowOf(q, h, c)).Ok? then q.project(RowOf(q, h, c)).value else Null;
    ProjectsAsMap(q, h, f, cs, a);
    ProjectsAsMap(q, h, f, ds, b);
    ImagesPermute(f, cs, ds, a, b);
  }

  // ---- conservation over whole runs --------------------------------------------------------

  /** A run of a plan from its initial state: one input, one result and one new state per call. */
  ghost predicate IsRun(q: Query, emitter: Emitter, eq: Equality, hash: Value -> nat,
                        inputs: seq<(Tuple, int)>, states: seq<PlanState>, results: seq<Result<seq<Value>>>)
    requires WellFormed(q)
  {
    && |states| == |inputs| + 1 && |results| == |inputs|
    && states[0] == PlanState([], [], [])
    && forall k | 0 <= k < |inputs| ::
         Step(q, emitter, eq, hash, states[k], inputs[k].0, inputs[k].1, states[k + 1], results[k])
  }

  /** How many rows equal to v were emitted by the first k calls. */
  ghost function Emitted(eq: Equality, results: seq<Result<seq<Value>>>, k: nat, v: Value): nat
    requires k <= |results|
  {
    if k == 0 then 0 else
      Emitted(eq, results, k - 1, v) + match results[k - 1] case Ok(rows) => Count(eq, rows, v) case Err => 0
  }

  /** Every computed result consists of rows of the domain with nonzero hashes. */
  ghost predicate SoundRun(hash: Value -> nat, dom: iset<Value>, states: seq<PlanState>) {
    forall k | 0 <= k < |states| :: AllIn(states[k].last, dom) && !ZeroHash(hash, states[k].last)
  }

  lemma {:induction false} CountPermutes(eq: Equality, a: seq<Value>, b: seq<Value>, v: Value)
    requires multiset(a) == multiset(b)
    ensures Count(eq, a, v) == Count(eq, b, v)
    decreases |a|
  {
    if a == [] {
      assert |b| == |multiset(b)| == 0;
    } else {
      var l := |a| - 1;
      WithoutMultiset(a, l);
      assert Without(a, l) == a[..l];
      assert a[l] in multiset(b);
      var k :| 0 <= k < |b| && b[k] == a[l];
      WithoutMultiset(b, k);
      Cancel(multiset(Without(a, l)), multiset(Without(b, k)), a[l]);
      CountPermutes(eq, a[..l], Without(b, k), v);
      CountWithout(eq, b, k, v);
    }
  }

  lemma {:induction false} CountWithout(eq: Equality, s: seq<Value>, k: nat, v: Value)
    requires k < |s|
    ensures Count(eq, s, v) == Count(eq, Without(s, k), v) + if eq(v, s[k]) then 1 else 0
  {
    var l := |s| - 1;
    if k == l {
      assert Without(s, k) == s[..l];
    } else {
      CountWithout(eq, s[..l], k, v);
      assert Without(s, k) == Without(s[..l], k) + [s[l]];
      CountAppend(eq, Without(s[..l], k), s[l], v);
    }
  }

  /** The two plans agree on the history and, up to order, on the last result. */
  ghost predicate Agree(s: PlanState, s': PlanState) {
    s.history == s'.history && multiset(s.last) == multiset(s'.last)
  }

  /** A step of an ISTREAM plan and a step of a DSTREAM plan on the same input keep the two plans in
      agreement, and the rows inserted and deleted account for the change of the result. */
  lemma {:induction false} InsertDeleteStep(q: Query, eq: Equality, hash: Value -> nat, dom: iset<Value>, t: Tuple, now: int,
                         i: PlanState, i': PlanState, ri: Result<seq<Value>>,
                         d: PlanState, d': PlanState, rd: Result<seq<Value>>, v: Value)
    requires WellFormed(q) && Lawful(eq, hash, dom) && v in dom
    requires Step(q, Istream, eq, hash, i, t, now, i', ri) && Step(q, Dstream, eq, hash, d, t, now, d', rd)
    requires Agree(i, d) && i.hashed == i.last
    requires AllIn(i.last, dom) && AllIn(i'.last, dom) && AllIn(d.last, dom) && AllIn(d'.last, dom)
    requires !ZeroHash(hash, i'.last) && !ZeroHash(hash, d.last) && !ZeroHash(hash, d'.last)
    ensures Agree(i', d') && i'.hashed == i'.last
    ensures Count(eq, i'.last, v) + (match rd case Ok(rows) => Count(eq, rows, v) case Err => 0) ==
            Count(eq, i.last, v) + match ri case Ok(rows) => Count(eq, rows, v) case Err => 0
  {
    hide Lawful, AllIn, ZeroHash, StepFails, ProjectionFails, IsResult, Surplus, Count, Accepts;
    if ri.Ok? {
      ResultUnique(q, i'.history, i'.last, d'.last);
      CountPermutes(eq, i.last, d.last, v);
      CountPermutes(eq, i'.last, d'.last, v);
      SurplusIsDifference(eq, hash, dom, i'.last, i.last, v);
      SurplusIsDifference(eq, hash, dom, d.last, d'.last, v);
    }
  }

  /** Over every run, including failing calls, the current result is what has been inserted minus
      what has been deleted: an ISTREAM and a DSTREAM of the same query determine the relation. */
  lemma {:induction false} InsertionsMinusDeletions(
      q: Query, eq: Equality, hash: Value -> nat, dom: iset<Value>, inputs: seq<(Tuple, int)>,
      ins: seq<PlanState>, insOut: seq<Result<seq<Value>>>, dels: seq<PlanState>, delsOut: seq<Result<seq<Value>>>, k: nat, v: Value)
    requires WellFormed(q) && Lawful(eq, hash, dom) && v in dom && k <= |inputs|
    requires IsRun(q, Istream, eq, hash, inputs, ins, insOut) && IsRun(q, Dstream, eq, hash, inputs, dels, delsOut)
    requires SoundRun(hash, dom, ins) && SoundRun(hash, dom, dels)
    ensures Agree(ins[k], dels[k]) && ins[k].hashed == ins[k].last
    ensures Count(eq, ins[k].last, v) + Emitted(eq, delsOut, k, v) == Emitted(eq, insOut, k, v)
  {
    hide Lawful, Step, AllIn, ZeroHash;
    if k > 0 {
      InsertionsMinusDeletions(q, eq, hash, dom, inputs, ins, insOut, dels, delsOut, k - 1, v);
      InsertDeleteStep(q, eq, hash, dom, inputs[k - 1].0, inputs[k - 1].1, ins[k - 1], ins[k], insOut[k - 1],
                       dels[k - 1], dels[k], delsOut[k - 1], v);
    }
  }

  // ---- from the inputs to the emitted rows -------------------------------------------------

  /** The arrivals that the first k inputs make: those that some relation reads. */
  function HistoryOf(q: Query, inputs: seq<(Tuple, int)>, k: nat): (h: seq<Arrival>)
    requires k <= |inputs|
  {
    if k == 0 then [] else
      HistoryOf(q, inputs, k - 1) + if Accepts(q, inputs[k - 1].0) then [Arrival(inputs[k - 1].0, inputs[k - 1].1)] else []
  }

  /** In every run, failing calls included, a plan remembers exactly the accepted inputs. */
  lemma {:induction false} RunHistory(q: Query, emitter: Emitter, eq: Equality, hash: Value -> nat,
                                      inputs: seq<(Tuple, int)>, states: seq<PlanState>, results: seq<Result<seq<Value>>>, k: nat)
    requires WellFormed(q) && IsRun(q, emitter, eq, hash, inputs, states, results) && k <= |inputs|
    ensures states[k].history == HistoryOf(q, inputs, k)
    decreases k
  {
    hide Accepts, StepFails, ProjectionFails, IsResult, EmissionFails, Surplus;
    if k != 0 { RunHistory(q, emitter, eq, hash, inputs, states, results, k - 1); }
  }

  /** No combination of the current windows makes the filter fail, and those that pass have a projection
      in the domain with a nonzero hash. */
  ghost predicate ErrorFree(q: Query, hash: Value -> nat, dom: iset<Value>, h: seq<Arrival>)
    requires WellFormed(q)
  {
    forall c: Combo | InProduct(q, h, c) && InHistory(q, h, c) ::
      && VerdictOf(q.filter, RowOf(q, h, c)) != Fail
      && (VerdictOf(q.filter, RowOf(q, h, c)) == Pass ==>
            q.project(RowOf(q, h, c)).Ok? && q.project(RowOf(q, h, c)).value in dom && hash(q.project(RowOf(q, h, c)).value) != 0)
  }

  lemma {:induction false} EmptyHistoryResult(q: Query)
    requires WellFormed(q)
    ensures IsResult(q, [], [])
  {
    forall c: Combo ensures !InView(q, [], c) {
      assert c != [] ==> c[0] >= 0;
    }
    var cs: seq<Combo> := [];
    assert Enumerates(q, [], cs) && ProjectsTo(q, [], cs, []);
  }

  lemma {:induction false} ErrorFreeResult(q: Query, hash: Value -> nat, dom: iset<Value>, h: seq<Arrival>, out: seq<Value>)
    requires WellFormed(q) && ErrorFree(q, hash, dom, h) && IsResult(q, h, out)
    ensures AllIn(out, dom) && !ZeroHash(hash, out)
  {
    hide RowOf, InProduct, StepFails;
    var cs: seq<Combo> :| Enumerates(q, h, cs) && ProjectsTo(q, h, cs, out);
    forall i | 0 <= i < |out| ensures out[i] in dom && hash(out[i]) != 0 {
      assert cs[i] in cs && InView(q, h, cs[i]);
      assert q.project(RowOf(q, h, cs[i])) == Ok(out[i]);
    }
  }

  lemma {:induction false} ErrorFreeNoFailure(q: Query, hash: Value -> nat, dom: iset<Value>, h: seq<Arrival>, a: Arrival)
    requires WellFormed(q) && ErrorFree(q, hash, dom, h + [a])
    ensures !StepFails(q, h + [a], |h|) && !ProjectionFails(q, h + [a])
  {
    hide RowOf, InProduct;
    assert (h + [a])[..|h| + 1] == h + [a];
  }

  lemma {:induction false} ErrorFreeStep(q: Query, emitter: Emitter, eq: Equality, hash: Value -> nat, dom: iset<Value>,
                      s: PlanState, t: Tuple, now: int, s': PlanState, r: Result<seq<Value>>)
    requires WellFormed(q) && Accepts(q, t) && Step(q, emitter, eq, hash, s, t, now, s', r)
    requires ErrorFree(q, hash, dom, s.history) && ErrorFree(q, hash, dom, s.history + [Arrival(t, now)])
    requires IsResult(q, s.history, s.last) && (emitter.Istream? ==> s.hashed == s.last)
    ensures s'.history == s.history + [Arrival(t, now)] && IsResult(q, s'.history, s'.last) && r.Ok?
    ensures emitter.Istream? ==> s'.hashed == s'.last
  {
    hide StepFails, ProjectionFails, IsResult, ErrorFree;
    ErrorFreeNoFailure(q, hash, dom, s.history, Arrival(t, now));
    ErrorFreeResult(q, hash, dom, s.history, s.last);
    ErrorFreeResult(q, hash, dom, s'.history, s'.last);
  }

  lemma {:induction false} ErrorFreeRun(q: Query, emitter: Emitter, eq: Equality, hash: Value -> nat, dom: iset<Value>,
                                        inputs: seq<(Tuple, int)>, states: seq<PlanState>, results: seq<Result<seq<Value>>>, k: nat)
    requires WellFormed(q) && IsRun(q, emitter, eq, hash, inputs, states, results) && k <= |inputs|
    requires forall i | 0 <= i <= k :: ErrorFree(q, hash, dom, HistoryOf(q, inputs, i))
    ensures states[k].history == HistoryOf(q, inputs, k) && IsResult(q, states[k].history, states[k].last)
    ensures emitter.Istream? ==> states[k].hashed == states[k].last
    decreases k
  {
    RunHistory(q, emitter, eq, hash, inputs, states, results, k);
    if k == 0 {
      EmptyHistoryResult(q);
    } else {
      assert Step(q, emitter, eq, hash, states[k - 1], inputs[k - 1].0, inputs[k - 1].1, states[k], results[k - 1]);
      ErrorFreeRun(q, emitter, eq, hash, dom, inputs, states, results, k - 1);
      if Accepts(q, inputs[k - 1].0) {
        hide Step, ErrorFree, IsResult, Accepts;
        ErrorFreeStep(q, emitter, eq, hash, dom, states[k - 1], inputs[k - 1].0, inputs[k - 1].1, states[k], results[k - 1]);
      }
    }
  }

  /** How often a row equal to v is to be emitted, given the results before and after a step. */
  function Due(emitter: Emitter, eq: Equality, cur: seq<Value>, prev: seq<Value>, v: Value): nat {
    match emitter
    case Rstream => Count(eq, cur, v)
    case Istream => Monus(Count(eq, cur, v), Count(eq, prev, v))
    case Dstream => Monus(Count(eq, prev, v), Count(eq, cur, v))
  }

  /** End to end: on every run in which no combination of the windows causes an error, each accepted input
      emits exactly the current result, its insertions or its deletions as a multiset, where the results
      before and after are any listings of the SELECT over the windows of the input history alone. An
      input that no relation reads is refused and forgotten. */
  lemma {:induction false} EveryCallIsExact(q: Query, emitter: Emitter, eq: Equality, hash: Value -> nat, dom: iset<Value>,
                         inputs: seq<(Tuple, int)>, states: seq<PlanState>, results: seq<Result<seq<Value>>>,
                         k: nat, cur: seq<Value>, prev: seq<Value>, v: Value)
    requires WellFormed(q) && Lawful(eq, hash, dom) && v in dom
    requires IsRun(q, emitter, eq, hash, inputs, states, results) && k < |inputs|
    requires forall i | 0 <= i <= k + 1 :: ErrorFree(q, hash, dom, HistoryOf(q, inputs, i))
    requires IsResult(q, HistoryOf(q, inputs, k + 1), cur) && IsResult(q, HistoryOf(q, inputs, k), prev)
    ensures results[k].Ok? <==> Accepts(q, inputs[k].0)
    ensures results[k].Ok? ==> Count(eq, results[k].value, v) == Due(emitter, eq, cur, prev, v)
    ensures results[k].Err? ==> HistoryOf(q, inputs, k + 1) == HistoryOf(q, inputs, k)
  {
    ErrorFreeRun(q, emitter, eq, hash, dom, inputs, states, results, k);
    ErrorFreeRun(q, emitter, eq, hash, dom, inputs, states, results, k + 1);
    var s, s' := states[k], states[k + 1];
    assert Step(q, emitter, eq, hash, s, inputs[k].0, inputs[k].1, s', results[k]);
    if Accepts(q, inputs[k].0) {
      hide IsRun, ErrorFree, IsResult, StepFails, ProjectionFails, Surplus, Count, Lawful, AllIn, ZeroHash, Accepts;
      ErrorFreeStep(q, emitter, eq, hash, dom, s, inputs[k].0, inputs[k].1, s', results[k]);
      ErrorFreeResult(q, hash, dom, s.history, s.last);
      ErrorFreeResult(q, hash, dom, s'.history, s'.last);
      ResultUnique(q, s'.history, s'.last, cur);
      ResultUnique(q, s.history, s.last, prev);
      CountPermutes(eq, s'.last, cur, v);
      CountPermutes(eq, s.last, prev, v);
      SurplusIsDifference(eq, hash, dom, s'.last, s.last, v);
      SurplusIsDifference(eq, hash, dom, s.last, s'.last, v);
    }
  }

  /** The plan itself produces such runs, call by call, as long as the rows it projects lie in the domain. */
  method RunPlan(q: Query, emitter: Emitter, eq: Equality, hash: Value -> nat, ghost dom: iset<Value>, inputs: seq<(Tuple, int)>)
    returns (results: seq<Result<seq<Value>>>, ghost states: seq<PlanState>)
    requires WellFormed(q) && Lawful(eq, hash, dom)
    requires forall k | 0 <= k <= |inputs| :: ViewIn(q, HistoryOf(q, inputs, k), dom)
    ensures IsRun(q, emitter, eq, hash, inputs, states, results)
  {
    hide Step, Lawful, WellFormed, ViewIn, Accepts, Plan.Valid, IsRun;
    var plan := new Plan(q, emitter, eq, hash, dom);
    results, states := [], [plan.State()];
    RunStarts(q, emitter, eq, hash, inputs);
    for i := 0 to |inputs|
      invariant plan.Valid() && fresh(plan.Repr())
      invariant plan.engine.q == q && plan.emitter.emitter == emitter && plan.emitter.eq == eq && plan.hash == hash && plan.emitter.dom == dom
      invariant |states| == i + 1 && states[i] == plan.State() && IsRun(q, emitter, eq, hash, inputs[..i], states, results)
      invariant plan.engine.history == HistoryOf(q, inputs, i)
    {
      assert ViewIn(q, HistoryOf(q, inputs, i + 1), dom);
      var r := plan.Process(inputs[i].0, inputs[i].1);
      StepHistory(q, emitter, eq, hash, states[i], inputs[i].0, inputs[i].1, plan.State(), r);
      RunExtends(q, emitter, eq, hash, inputs, i, states, results, plan.State(), r);
      results, states := results + [r], states + [plan.State()];
    }
    assert inputs[..|inputs|] == inputs;
  }

  lemma {:induction false} RunStarts(q: Query, emitter: Emitter, eq: Equality, hash: Value -> nat, inputs: seq<(Tuple, int)>)
    requires WellFormed(q)
    ensures IsRun(q, emitter, eq, hash, inputs[..0], [PlanState([], [], [])], [])
  {}

  lemma {:induction false} RunExtends(q: Query, emitter: Emitter, eq: Equality, hash: Value -> nat, inputs: seq<(Tuple, int)>, i: nat,
                                      states: seq<PlanState>, results: seq<Result<seq<Value>>>, s: PlanState, r: Result<seq<Value>>)
    requires WellFormed(q) && i < |inputs| && |states| == i + 1 && IsRun(q, emitter, eq, hash, inputs[..i], states, results)
    requires Step(q, emitter, eq, hash, states[i], inputs[i].0, inputs[i].1, s, r)
    ensures IsRun(q, emitter, eq, hash, inputs[..i + 1], states + [s], results + [r])
  {
    hide Step;
  }

  lemma {:induction false} StepHistory(q: Query, emitter: Emitter, eq: Equality, hash: Value -> nat,
                                       s: PlanState, t: Tuple, now: int, s': PlanState, r: Result<seq<Value>>)
    requires WellFormed(q) && Step(q, emitter, eq, hash, s, t, now, s', r)
    ensures s'.history == s.history + if Accepts(q, t) then [Arrival(t, now)] else []
  {
    hide Accepts, StepFails, ProjectionFails, IsResult, EmissionFails, Surplus;
  }

  // ---- the repository's own equality -------------------------------------------------------

  /** The values on which Equal is an equivalence that Hash respects: no NaN and only integers that a
      double holds exactly, at any depth. */
  ghost function Comparable(): iset<Value> {
    iset v: Value | H.NaNFree(v) && H.Exact(v)
  }

  /** Any function that agrees with Hash on these values may serve as the hash of a plan. */
  lemma {:induction false} EqualIsLawful(p: H.Hasher, hash: Value -> nat)
    requires forall v: Value | v in Comparable() :: hash(v) == H.HashOf(p, v)
    ensures Lawful(H.Equal, hash, Comparable())
  {
    hide H.Equal, H.HashOf, H.NaNFree, H.Exact;
    H.EqualAndHashAreLawful(p);
  }

  /** The end-to-end result for Equal and Hash: whenever the rows projected in the run hold neither NaN nor
      inexact integers, every call is exact. */
  lemma {:induction false} EveryCallIsExactForEqual(p: H.Hasher, hash: Value -> nat, q: Query, emitter: Emitter,
                         inputs: seq<(Tuple, int)>, states: seq<PlanState>, results: seq<Result<seq<Value>>>,
                         k: nat, cur: seq<Value>, prev: seq<Value>, v: Value)
    requires forall w: Value | w in Comparable() :: hash(w) == H.HashOf(p, w)
    requires WellFormed(q) && v in Comparable() && IsRun(q, emitter, H.Equal, hash, inputs, states, results) && k < |inputs|
    requires forall i | 0 <= i <= k + 1 :: ErrorFree(q, hash, Comparable(), HistoryOf(q, inputs, i))
    requires IsResult(q, HistoryOf(q, inputs, k + 1), cur) && IsResult(q, HistoryOf(q, inputs, k), prev)
    ensures results[k].Ok? <==> Accepts(q, inputs[k].0)
    ensures results[k].Ok? ==> Count(H.Equal, results[k].value, v) == Due(emitter, H.Equal, cur, prev, v)
  {
    hide *;
    EqualIsLawful(p, hash);
    EveryCallIsExact(q, emitter, H.Equal, hash, Comparable(), inputs, states, results, k, cur, prev, v);
  }

  lemma {:induction false} HistoryFromInputs(q: Query, inputs: seq<(Tuple, int)>, k: nat, j: nat)
    requires k <= |inputs| && j < |HistoryOf(q, inputs, k)|
    ensures exists i | 0 <= i < k :: HistoryOf(q, inputs, k)[j].tuple == inputs[i].0
    decreases k
  {
    hide Accepts;
    if j < |HistoryOf(q, inputs, k - 1)| {
      HistoryFromInputs(q, inputs, k - 1, j);
      var i :| 0 <= i < k - 1 && HistoryOf(q, inputs, k - 1)[j].tuple == inputs[i].0;
    } else {
      assert HistoryOf(q, inputs, k)[j].tuple == inputs[k - 1].0;
    }
  }

  /** The hypotheses speak of the data of the run only: passing on the data of the first relation is covered
      for any windows as soon as the inputs received so far are comparable and have nonzero hashes, whatever
      the projection does on other rows. */
  lemma {:induction false} PassThroughIsCovered(q: Query, hash: Value -> nat, inputs: seq<(Tuple, int)>, k: nat)
    requires WellFormed(q) && q.filter.NoFilter? && k <= |inputs|
    requires forall row: InputRow | row.items != [] :: q.project(row) == Ok(row.items[0].data)
    requires forall i | 0 <= i < k :: inputs[i].0.data in Comparable() && hash(inputs[i].0.data) != 0
    ensures ErrorFree(q, hash, Comparable(), HistoryOf(q, inputs, k))
  {
    hide InProduct, HistoryOf, Comparable;
    var h := HistoryOf(q, inputs, k);
    forall c: Combo | InProduct(q, h, c) && InHistory(q, h, c)
      ensures q.project(RowOf(q, h, c)).Ok? && q.project(RowOf(q, h, c)).value in Comparable() && hash(q.project(RowOf(q, h, c)).value) != 0
    {
      assert RowOf(q, h, c).items[0] == h[c[0]].tuple;
      HistoryFromInputs(q, inputs, k, c[0]);
    }
  }

  // ---- the rows kept by the engine and the filtered product --------------------------------

  ghost predicate InFilteredProduct(q: Query, h: seq<Arrival>, c: Combo)
    requires WellFormed(q)
  {
    InProduct(q, h, c) && InHistory(q, h, c) && VerdictOf(q.filter, RowOf(q, h, c)) == Pass
  }

  /** Step s failed, and a passing combination of the current windows has its newest tuple from it. */
  ghost predicate LeftBehind(q: Query, h: seq<Arrival>, s: nat)
    requires WellFormed(q) && s < |h|
  {
    StepFails(q, h, s) && exists c: Combo :: InFilteredProduct(q, h, c) && Born(c) == s
  }

  lemma {:induction false} KeptIff(q: Query, h: seq<Arrival>, rows: seq<Row>, c: Combo)
    requires WellFormed(q) && RowsOk(q, h, rows)
    ensures Has(rows, c) <==> InView(q, h, c)
  {
    hide InProduct, RowOf, StepFails, InView;
    if Has(rows, c) {
      var i :| 0 <= i < |rows| && rows[i].combo == c;
      assert InView(q, h, rows[i].combo);
    }
  }

  /** WHERE is absent or yields true on the combination. */
  ghost predicate True(q: Query, h: seq<Arrival>, c: Combo)
    requires WellFormed(q) && InHistory(q, h, c)
  {
    q.filter == NoFilter || q.filter.eval(RowOf(q, h, c)) == Ok(Bool(true))
  }

  /** The combination was first seen in step s, where WHERE yielded an error or neither NULL nor a boolean. */
  ghost predicate Breaks(q: Query, h: seq<Arrival>, s: nat, c: Combo)
    requires WellFormed(q) && s < |h|
  {
    && BornAt(q, h, s, c) && InHistory(q, h, c) && q.filter.Where?
    && match q.filter.eval(RowOf(q, h, c))
       case Ok(v) => !v.Null? && !v.Bool?
       case Err => true
  }

  /** A step fails exactly if WHERE cannot be decided on a combination that was first seen in it. */
  lemma {:induction false} StepFailsIff(q: Query, h: seq<Arrival>, s: nat)
    requires WellFormed(q) && s < |h|
    ensures StepFails(q, h, s) <==> exists c: Combo :: Breaks(q, h, s, c)
  {
    hide BornAt, InHistory, RowOf;
    forall c: Combo ensures FailsOn(q, h, s, c) <==> Breaks(q, h, s, c) {}
    if StepFails(q, h, s) {
      var c: Combo :| FailsOn(q, h, s, c);
      assert Breaks(q, h, s, c);
    }
    if c: Combo :| Breaks(q, h, s, c) {
      assert FailsOn(q, h, s, c);
    }
  }

  /** Kept are the combinations of the windows on which WHERE is true, except those first seen in a step in
      which it could not be decided. */
  ghost predicate Keeps(q: Query, h: seq<Arrival>, c: Combo)
    requires WellFormed(q)
  {
    InProduct(q, h, c) && InHistory(q, h, c) && True(q, h, c) && !exists d: Combo :: Breaks(q, h, Born(c), d)
  }

  lemma {:induction false} ViewKeeps(q: Query, h: seq<Arrival>, c: Combo)
    requires WellFormed(q)
    ensures InView(q, h, c) <==> Keeps(q, h, c)
  {
    hide BornAt, InProduct, RowOf, StepFails, Breaks;
    if InProduct(q, h, c) && InHistory(q, h, c) {
      StepFailsIff(q, h, Born(c));
    }
  }

  /** This holds in every reachable state of the engine. */
  lemma {:induction false} RowsAreTrue(e: E.Engine, c: Combo)
    requires e.Valid()
    ensures WellFormed(e.q) && (Has(e.rows, c) <==> Keeps(e.q, e.history, c))
  {
    assert WellFormed(e.q) && RowsOk(e.q, e.history, e.rows);
    hide *;
    KeptIff(e.q, e.history, e.rows, c);
    ViewKeeps(e.q, e.history, c);
  }

  lemma {:induction false} PassingIsLeftBehind(q: Query, h: seq<Arrival>, c: Combo)
    requires WellFormed(q) && InFilteredProduct(q, h, c)
    ensures Born(c) < |h| && (!InView(q, h, c) <==> StepFails(q, h, Born(c)))
    ensures !InView(q, h, c) ==> LeftBehind(q, h, Born(c))
  {
    hide InProduct, RowOf, StepFails;
  }

  /** In every reachable state of the engine the kept rows are passing combinations of the windows, and
      they are all of them exactly if no failed step has left one behind. */
  lemma {:induction false} RowsCompleteIff(e: E.Engine)
    requires e.Valid()
    ensures WellFormed(e.q) && forall c: Combo | Has(e.rows, c) :: InFilteredProduct(e.q, e.history, c)
    ensures (forall c: Combo | InFilteredProduct(e.q, e.history, c) :: Has(e.rows, c)) <==>
            (forall s | 0 <= s < |e.history| :: !LeftBehind(e.q, e.history, s))
  {
    assert WellFormed(e.q) && RowsOk(e.q, e.history, e.rows);
    hide E.Engine.Valid;
    RowsComplete(e.q, e.history, e.rows);
  }

  lemma {:induction false} RowsComplete(q: Query, h: seq<Arrival>, rows: seq<Row>)
    requires WellFormed(q) && RowsOk(q, h, rows)
    ensures forall c: Combo | Has(rows, c) :: InFilteredProduct(q, h, c)
    ensures (forall c: Combo | InFilteredProduct(q, h, c) :: Has(rows, c)) <==>
            (forall s | 0 <= s < |h| :: !LeftBehind(q, h, s))
  {
    forall c: Combo | Has(rows, c) ensures InFilteredProduct(q, h, c) {
      KeptIff(q, h, rows, c);
    }
    hide InFilteredProduct, InView, RowsOk, Has, StepFails, Born;
    forall c: Combo | InFilteredProduct(q, h, c)
      ensures Born(c) < |h| && (!Has(rows, c) <==> StepFails(q, h, Born(c))) && (!Has(rows, c) ==> LeftBehind(q, h, Born(c)))
    {
      KeptIff(q, h, rows, c);
      PassingIsLeftBehind(q, h, c);
    }
  }

  /** What a failed step has left behind is forgotten once its tuple has left all windows: then the rows
      are the whole filtered product again. */
  lemma {:induction false} RowsHeal(e: E.Engine)
    requires e.Valid() && WellFormed(e.q)
    requires forall s, r | 0 <= s < |e.history| && StepFails(e.q, e.history, s) && 0 <= r < |e.q.relations| :: s !in WindowOf(e.q.relations[r], e.history)
    ensures forall c: Combo :: Has(e.rows, c) <==> InFilteredProduct(e.q, e.history, c)
  {
    hide StepFails, RowOf, E.Engine.Valid;
    RowsCompleteIff(e);
    forall s: nat | s < |e.history| ensures !LeftBehind(e.q, e.history, s) {
      assert forall c: Combo | c != [] :: Born(c) in c;
    }
  }

  /** A filter that failed on no combination of the history so far has left nothing out. */
  lemma {:induction false} TotalFilterView(q: Query, h: seq<Arrival>, c: Combo)
    requires WellFormed(q)
    requires forall s: nat, d: Combo | s < |h| && BornAt(q, h, s, d) && InHistory(q, h, d) :: VerdictOf(q.filter, RowOf(q, h, d)) != Fail
    ensures InView(q, h, c) <==> InFilteredProduct(q, h, c)
  {
    hide InProduct, RowOf;
  }

  lemma {:induction false} ThreeArrivals(x: Arrival, y: Arrival, z: Arrival)
    requires x.tuple.input == y.tuple.input == "a" && z.tuple.input == "b"
    ensures Matches([x, y, z], "a") == [0, 1] && Matches([x, y, z], "b") == [2]
  {
    TwoArrivals(x, y);
    hide Matches;
    MatchesStep([x, y], z, "a");
    MatchesStep([x, y], z, "b");
    assert [x, y] + [z] == [x, y, z];
  }

  lemma {:induction false} TwoArrivals(x: Arrival, y: Arrival)
    requires x.tuple.input == y.tuple.input == "a"
    ensures Matches([x, y], "a") == [0, 1] && Matches([x, y], "b") == []
  {
    assert Matches([], "a") == [] && Matches([], "b") == [];
    hide Matches;
    MatchesStep([], x, "a");
    MatchesStep([], x, "b");
    MatchesStep([x], y, "a");
    MatchesStep([x], y, "b");
    assert [] + [x] == [x] && [x] + [y] == [x, y];
  }

  /** A failing step does lose passing combinations: here (y, z) passes and is in both windows, but
      the filter failed on (x, z) in the same step. */
  lemma {:induction false} FailedStepLosesRow(q: Query, x: Arrival, y: Arrival, z: Arrival)
    requires q.relations == [Relation("a", Tuples(2)), Relation("b", Tuples(1))]
    requires x.tuple.input == y.tuple.input == "a" && z.tuple.input == "b"
    requires VerdictOf(q.filter, InputRow([x.tuple, z.tuple], z.now)) == Fail
    requires VerdictOf(q.filter, InputRow([y.tuple, z.tuple], z.now)) == Pass
    ensures WellFormed(q) && InProduct(q, [x, y, z], [1, 2]) && !InView(q, [x, y, z], [1, 2])
    ensures InHistory(q, [x, y, z], [1, 2]) && VerdictOf(q.filter, RowOf(q, [x, y, z], [1, 2])) == Pass
  {
    hide Matches;
    var h := [x, y, z];
    ThreeArrivals(x, y, z);
    assert WindowOf(q.relations[0], h) == [0, 1] && WindowOf(q.relations[1], h) == [2];
    assert Born([1, 2]) == 2 && Born([0, 2]) == 2 by { assert [1, 2][1..] == [2] && [0, 2][1..] == [2]; }
    assert RowOf(q, h, [0, 2]).items == [x.tuple, z.tuple] && RowOf(q, h, [1, 2]).items == [y.tuple, z.tuple];
    assert h[..3] == h;
    assert FailsOn(q, h, 2, [0, 2]);
  }
}
