/** Declarative meaning of a windowed join: which tuples are in a window, which combinations of
    tuples form the relation a SELECT reads, and which of them a step had to evaluate. Everything
    here is a function of the arrival history alone. */
module Streams {
  import opened Values

  datatype Window = Tuples(count: nat) | Time(range: nat)

  datatype Relation = Relation(input: string, window: Window)

  datatype Tuple = Tuple(input: string, data: Value, ts: int)

  /** A tuple accepted by the plan and the clock reading of the Process call that accepted it. */
  datatype Arrival = Arrival(tuple: Tuple, now: int)

  /** One item of the cartesian product: a tuple per relation and the value of now(). */
  datatype InputRow = InputRow(items: seq<Tuple>, now: int)

  datatype Filter = NoFilter | Where(eval: InputRow -> Result<Value>)

  datatype Verdict = Pass | Drop | Fail

  datatype Query = Query(relations: seq<Relation>, filter: Filter, project: InputRow -> Result<Value>)

  /** What the analyzer guarantees of the FROM clause: at least one relation, positive ranges. */
  predicate WellFormed(q: Query) {
    && |q.relations| > 0
    && forall r | 0 <= r < |q.relations| :: q.relations[r].window.Tuples? ==> q.relations[r].window.count > 0
  }

  predicate Accepts(q: Query, t: Tuple) {
    exists r | 0 <= r < |q.relations| :: q.relations[r].input == t.input
  }

  /** A missing WHERE passes, NULL and false drop the row, anything but a boolean is an error. */
  function VerdictOf(f: Filter, row: InputRow): Verdict {
    match f
    case NoFilter => Pass
    case Where(eval) =>
      match eval(row)
      case Ok(Null) => Drop
      case Ok(Bool(b)) => if b then Pass else Drop
      case _ => Fail
  }

  predicate Within(s: seq<nat>, n: nat) {
    forall k | 0 <= k < |s| :: s[k] < n
  }

  // ---- windows -----------------------------------------------------------------------------

  /** Positions in the history of all tuples received for an input, oldest first. */
  function Matches(h: seq<Arrival>, input: string): seq<nat> {
    if h == [] then [] else
      var m := |h| - 1;
      Matches(h[..m], input) + if h[m].tuple.input == input then [m] else []
  }

  function Last<T>(s: seq<T>, k: nat): seq<T> {
    if |s| <= k then s else s[|s| - k..]
  }

  /** No arrival since position i was more than d later than the tuple at i. */
  predicate Young(h: seq<Arrival>, d: int, i: int) {
    0 <= i < |h| && forall m | i <= m < |h| :: h[m].tuple.ts - h[i].tuple.ts <= d
  }

  function YoungOnes(h: seq<Arrival>, d: int, s: seq<nat>): seq<nat> {
    if s == [] then [] else
      var l := |s| - 1;
      YoungOnes(h, d, s[..l]) + if Young(h, d, s[l]) then [s[l]] else []
  }

  /** The window of a relation after the history h, as positions in h. */
  function WindowOf(rel: Relation, h: seq<Arrival>): seq<nat> {
    match rel.window
    case Tuples(count) => Last(Matches(h, rel.input), count)
    case Time(range) => YoungOnes(h, range, Matches(h, rel.input))
  }

  // ---- combinations ------------------------------------------------------------------------

  /** A combination picks one position of the history per relation. */
  type Combo = seq<nat>

  ghost predicate InProduct(q: Query, h: seq<Arrival>, c: Combo) {
    && |c| == |q.relations|
    && forall r | 0 <= r < |c| :: c[r] in WindowOf(q.relations[r], h)
  }

  /** The position of the newest tuple of a combination: the step that first saw it. */
  function Born(c: Combo): (b: nat)
    requires c != []
    ensures b in c
    ensures forall r | 0 <= r < |c| :: c[r] <= b
  {
    if |c| == 1 then c[0] else
      var b := Born(c[1..]);
      if c[0] >= b then c[0] else b
  }

  ghost predicate InHistory(q: Query, h: seq<Arrival>, c: Combo) {
    |c| == |q.relations| && Within(c, |h|)
  }

  /** The data of a combination together with a clock reading. */
  function RowAt(h: seq<Arrival>, c: Combo, now: int): InputRow
    requires Within(c, |h|)
  {
    InputRow(seq(|c|, r requires 0 <= r < |c| => h[c[r]].tuple), now)
  }

  /** The input row of a combination carries the clock of the step in which it was born. */
  function RowOf(q: Query, h: seq<Arrival>, c: Combo): InputRow
    requires WellFormed(q) && InHistory(q, h, c)
  {
    RowAt(h, c, h[Born(c)].now)
  }

  ghost predicate BornAt(q: Query, h: seq<Arrival>, s: nat, c: Combo)
    requires WellFormed(q) && s < |h|
  {
    InProduct(q, h[..s + 1], c) && Born(c) == s
  }

  ghost predicate FailsOn(q: Query, h: seq<Arrival>, s: nat, c: Combo)
    requires WellFormed(q) && s < |h|
  {
    BornAt(q, h, s, c) && InHistory(q, h, c) && VerdictOf(q.filter, RowOf(q, h, c)) == Fail
  }

  /** Step s fails when the filter cannot be evaluated on some combination born in it. */
  ghost predicate StepFails(q: Query, h: seq<Arrival>, s: nat)
    requires WellFormed(q) && s < |h|
  {
    exists c: Combo :: FailsOn(q, h, s, c)
  }

  /** The relation that the SELECT reads after the history h: the combinations of the current
      windows that pass the filter and whose newest tuple did not make its own step fail. */
  ghost predicate InView(q: Query, h: seq<Arrival>, c: Combo)
    requires WellFormed(q)
    ensures InView(q, h, c) ==> InProduct(q, h, c) && InHistory(q, h, c)
  {
    && InProduct(q, h, c)
    && InHistory(q, h, c)
    && VerdictOf(q.filter, RowOf(q, h, c)) == Pass
    && !StepFails(q, h, Born(c))
  }

  // ---- laws of windows ---------------------------------------------------------------------

  ghost predicate Increasing(s: seq<nat>) {
    forall i, j | 0 <= i < j < |s| :: s[i] < s[j]
  }

  lemma {:induction false} InMatches(h: seq<Arrival>, input: string, i: nat)
    ensures i in Matches(h, input) <==> i < |h| && h[i].tuple.input == input
  {
    if h != [] { InMatches(h[..|h| - 1], input, i); }
  }

  lemma {:induction false} MatchesFacts(h: seq<Arrival>, input: string)
    ensures Increasing(Matches(h, input))
    ensures forall i: nat :: i in Matches(h, input) <==> i < |h| && h[i].tuple.input == input
  {
    forall i: nat ensures i in Matches(h, input) <==> i < |h| && h[i].tuple.input == input {
      InMatches(h, input, i);
    }
    if h != [] {
      var older := Matches(h[..|h| - 1], input);
      MatchesFacts(h[..|h| - 1], input);
      forall k | 0 <= k < |older| ensures older[k] < |h| - 1 { assert older[k] in older; }
    }
  }

  lemma {:induction false} InYoungOnes(h: seq<Arrival>, d: int, s: seq<nat>, i: nat)
    ensures i in YoungOnes(h, d, s) <==> i in s && Young(h, d, i)
    decreases s
  {
    hide Young;
    if s != [] {
      InYoungOnes(h, d, s[..|s| - 1], i);
      assert s == s[..|s| - 1] + [s[|s| - 1]];
    }
  }

  lemma {:induction false} YoungOnesFacts(h: seq<Arrival>, d: int, s: seq<nat>)
    requires Increasing(s)
    ensures Increasing(YoungOnes(h, d, s))
    ensures forall i: nat :: i in YoungOnes(h, d, s) <==> i in s && Young(h, d, i)
    decreases s
  {
    hide Young;
    forall i: nat ensures i in YoungOnes(h, d, s) <==> i in s && Young(h, d, i) { InYoungOnes(h, d, s, i); }
    if s != [] {
      var older := YoungOnes(h, d, s[..|s| - 1]);
      YoungOnesFacts(h, d, s[..|s| - 1]);
      forall k | 0 <= k < |older| ensures older[k] < s[|s| - 1] { assert older[k] in older; }
    }
  }

  // ---- windows by counting and by age ------------------------------------------------------

  /** The arrivals for an input after position i, or all of them for -1. */
  ghost function Later(h: seq<Arrival>, input: string, i: int): set<int> {
    set j: int | 0 <= j < |h| && i < j && h[j].tuple.input == input
  }

  lemma {:induction false} IncreasingSize(s: seq<nat>)
    requires Increasing(s)
    ensures |(set x: int | x in s)| == |s|
    decreases s
  {
    if s != [] {
      var l := |s| - 1;
      IncreasingSize(s[..l]);
      assert s[l] !in s[..l];
      assert (set x: int | x in s) == (set x: int | x in s[..l]) + {s[l]};
    }
  }

  lemma {:induction false} LaterSize(h: seq<Arrival>, input: string, k: nat)
    requires k < |Matches(h, input)|
    ensures |Later(h, input, Matches(h, input)[k])| == |Matches(h, input)| - 1 - k
  {
    var m := Matches(h, input);
    var tail := m[k + 1..];
    MatchesFacts(h, input);
    IncreasingSize(tail);
    forall j: int ensures j in Later(h, input, m[k]) <==> j in tail {
      if j in Later(h, input, m[k]) {
        var n: nat := j;
        assert n in m;
        var l :| 0 <= l < |m| && m[l] == j;
        assert l > k;
        assert tail[l - k - 1] == j;
      }
      if j in tail { assert j in m; }
    }
    assert Later(h, input, m[k]) == set x: int | x in tail;
  }

  /** A tuple window holds a tuple of its input exactly while fewer than count later tuples of the input
      have arrived. */
  lemma {:induction false} TupleWindowIff(rel: Relation, h: seq<Arrival>, i: nat)
    requires rel.window.Tuples?
    ensures i in WindowOf(rel, h) <==> i < |h| && h[i].tuple.input == rel.input && |Later(h, rel.input, i)| < rel.window.count
  {
    var m, w := Matches(h, rel.input), WindowOf(rel, h);
    MatchesFacts(h, rel.input);
    if i in m {
      var k :| 0 <= k < |m| && m[k] == i;
      LaterSize(h, rel.input, k);
      if |m| <= rel.window.count || |m| - rel.window.count <= k {
        var first := if |m| <= rel.window.count then 0 else |m| - rel.window.count;
        assert w[k - first] == i;
      } else {
        assert forall l | 0 <= l < |w| :: w[l] == m[|m| - rel.window.count + l];
      }
    }
  }

  /** It holds as many tuples as its count, or all that were received if they are fewer. */
  lemma {:induction false} TupleWindowSize(rel: Relation, h: seq<Arrival>)
    requires rel.window.Tuples?
    ensures |WindowOf(rel, h)| == if |Later(h, rel.input, -1)| < rel.window.count then |Later(h, rel.input, -1)| else rel.window.count
  {
    var m := Matches(h, rel.input);
    MatchesFacts(h, rel.input);
    IncreasingSize(m);
    forall j: int ensures j in Later(h, rel.input, -1) <==> j in m {
      if j in Later(h, rel.input, -1) { var n: nat := j; assert n in m; }
    }
    assert Later(h, rel.input, -1) == set x: int | x in m;
  }

  /** A time window holds a tuple of its input exactly while no arrival of any input, from its own on, is
      more than the range later than it. */
  lemma {:induction false} TimeWindowIff(rel: Relation, h: seq<Arrival>, i: nat)
    requires rel.window.Time?
    ensures i in WindowOf(rel, h) <==>
              i < |h| && h[i].tuple.input == rel.input && forall n | i <= n < |h| :: h[n].tuple.ts - h[i].tuple.ts <= rel.window.range
  {
    MatchesFacts(h, rel.input);
    YoungOnesFacts(h, rel.window.range, Matches(h, rel.input));
  }

  lemma {:induction false} WindowFacts(rel: Relation, h: seq<Arrival>)
    ensures Increasing(WindowOf(rel, h))
    ensures Within(WindowOf(rel, h), |h|)
    ensures forall i: nat | i in WindowOf(rel, h) :: i < |h| && h[i].tuple.input == rel.input
  {
    MatchesFacts(h, rel.input);
    match rel.window {
      case Tuples(_) =>
      case Time(range) => YoungOnesFacts(h, range, Matches(h, rel.input));
    }
    var w := WindowOf(rel, h);
    forall k | 0 <= k < |w| ensures w[k] < |h| {
      if rel.window.Tuples? {
        assert w[k] in Matches(h, rel.input);
      } else {
        assert w[k] in YoungOnes(h, rel.window.range, Matches(h, rel.input));
      }
    }
  }

  // ---- one step ----------------------------------------------------------------------------

  /** Keeps the positions whose tuple is at most d older than the given time. */
  function Recent(h: seq<Arrival>, now: int, d: int, s: seq<nat>): seq<nat>
    requires Within(s, |h|)
  {
    if s == [] then [] else
      var l := |s| - 1;
      Recent(h, now, d, s[..l]) + if now - h[s[l]].tuple.ts <= d then [s[l]] else []
  }

  function Retain(window: Window, h: seq<Arrival>, now: int, s: seq<nat>): seq<nat>
    requires Within(s, |h|)
  {
    match window
    case Tuples(count) => Last(s, count)
    case Time(range) => Recent(h, now, range, s)
  }

  lemma {:induction false} YoungStep(h: seq<Arrival>, a: Arrival, d: int, i: nat)
    requires i < |h|
    ensures Young(h + [a], d, i) <==> Young(h, d, i) && a.tuple.ts - h[i].tuple.ts <= d
  {
    var h' := h + [a];
    assert h'[|h|] == a;
    assert forall m | 0 <= m < |h| :: h'[m] == h[m];
  }

  lemma {:induction false} RecentAppend(h: seq<Arrival>, now: int, d: int, s: seq<nat>, i: nat)
    requires Within(s, |h|) && i < |h|
    ensures Within(s + [i], |h|)
    ensures Recent(h, now, d, s + [i]) == Recent(h, now, d, s) + if now - h[i].tuple.ts <= d then [i] else []
  {
    assert (s + [i])[..|s|] == s;
  }

  lemma {:induction false} RecentOfYoung(h: seq<Arrival>, a: Arrival, d: int, s: seq<nat>)
    requires Within(s, |h|)
    ensures Within(YoungOnes(h, d, s), |h| + 1)
    ensures Recent(h + [a], a.tuple.ts, d, YoungOnes(h, d, s)) == YoungOnes(h + [a], d, s)
  {
    if s != [] {
      var l := |s| - 1;
      RecentOfYoung(h, a, d, s[..l]);
      YoungStep(h, a, d, s[l]);
      if Young(h, d, s[l]) {
        RecentAppend(h + [a], a.tuple.ts, d, YoungOnes(h, d, s[..l]), s[l]);
      } else {
        assert YoungOnes(h, d, s) == YoungOnes(h, d, s[..l]);
        assert YoungOnes(h + [a], d, s) == YoungOnes(h + [a], d, s[..l]);
      }
    }
  }

  lemma {:induction false} MatchesStep(h: seq<Arrival>, a: Arrival, input: string)
    ensures Matches(h + [a], input) == Matches(h, input) + if a.tuple.input == input then [|h|] else []
    ensures Within(Matches(h, input), |h|)
  {
    assert (h + [a])[..|h|] == h;
    var s := Matches(h, input);
    MatchesFacts(h, input);
    forall k | 0 <= k < |s| ensures s[k] < |h| { assert s[k] in s; }
  }

  /** Eviction maintains the window: the window after one more arrival is what is retained of the
      window before, extended by the new tuple. No assumption is made on timestamps. */
  lemma {:induction false} WindowStep(rel: Relation, h: seq<Arrival>, a: Arrival)
    requires rel.window.Tuples? ==> rel.window.count > 0
    ensures var grown := WindowOf(rel, h) + if a.tuple.input == rel.input then [|h|] else [];
            && Within(grown, |h| + 1)
            && WindowOf(rel, h + [a]) == Retain(rel.window, h + [a], a.tuple.ts, grown)
  {
    WindowFacts(rel, h);
    MatchesStep(h, a, rel.input);
    if rel.window.Time? { TimeWindowStep(rel, h, a); }
  }

  lemma {:induction false} TimeWindowStep(rel: Relation, h: seq<Arrival>, a: Arrival)
    requires rel.window.Time?
    ensures var grown := WindowOf(rel, h) + if a.tuple.input == rel.input then [|h|] else [];
            && Within(grown, |h| + 1)
            && WindowOf(rel, h + [a]) == Recent(h + [a], a.tuple.ts, rel.window.range, grown)
  {
    var d, all := rel.window.range, Matches(h, rel.input);
    WindowFacts(rel, h);
    MatchesStep(h, a, rel.input);
    RecentOfYoung(h, a, d, all);
    if a.tuple.input == rel.input {
      RecentAppend(h + [a], a.tuple.ts, d, WindowOf(rel, h), |h|);
      assert (all + [|h|])[..|all|] == all;
      assert Young(h + [a], d, |h|);
    } else {
      assert all + [] == all && WindowOf(rel, h) + [] == WindowOf(rel, h);
    }
  }

  /** The tuple just received is the newest element of every window of its input. */
  lemma {:induction false} NewestIsLast(rel: Relation, h: seq<Arrival>, a: Arrival)
    requires rel.window.Tuples? ==> rel.window.count > 0
    ensures var w := WindowOf(rel, h + [a]);
            if a.tuple.input == rel.input then w != [] && w[|w| - 1] == |h| else |h| !in w
  {
    WindowStep(rel, h, a);
    WindowFacts(rel, h + [a]);
    var grown := WindowOf(rel, h) + [|h|];
    assert grown[..|grown| - 1] == WindowOf(rel, h);
  }

  /** Windows only ever lose old tuples. */
  lemma {:induction false} WindowShrinks(rel: Relation, h: seq<Arrival>, a: Arrival, i: nat)
    requires rel.window.Tuples? ==> rel.window.count > 0
    requires i in WindowOf(rel, h + [a]) && i < |h|
    ensures i in WindowOf(rel, h)
  {
    WindowStep(rel, h, a);
    var grown := WindowOf(rel, h) + if a.tuple.input == rel.input then [|h|] else [];
    match rel.window
    case Tuples(_) =>
    case Time(range) => RecentSubset(h + [a], a.tuple.ts, range, grown, i);
  }

  lemma {:induction false} RecentSubset(h: seq<Arrival>, now: int, d: int, s: seq<nat>, i: nat)
    requires Within(s, |h|)
    ensures i in Recent(h, now, d, s) <==> i in s && now - h[i].tuple.ts <= d
  {
    if s != [] { RecentSubset(h, now, d, s[..|s| - 1], i); }
  }

  /** With nondecreasing timestamps a time window holds exactly the tuples of age at most its range. */
  lemma {:induction false} TimeWindowIsAge(rel: Relation, h: seq<Arrival>, i: nat)
    requires rel.window.Time? && h != []
    requires forall a, b | 0 <= a <= b < |h| :: h[a].tuple.ts <= h[b].tuple.ts
    ensures i in WindowOf(rel, h) <==>
            i < |h| && h[i].tuple.input == rel.input && h[|h| - 1].tuple.ts - h[i].tuple.ts <= rel.window.range
  {
    MatchesFacts(h, rel.input);
    YoungOnesFacts(h, rel.window.range, Matches(h, rel.input));
  }

  // ---- one step of the view ----------------------------------------------------------------

  lemma {:induction false} ProductInHistory(q: Query, h: seq<Arrival>, c: Combo)
    requires InProduct(q, h, c)
    ensures InHistory(q, h, c)
  {
    forall r | 0 <= r < |c| ensures c[r] < |h| { WindowFacts(q.relations[r], h); }
  }

  lemma {:induction false} ProductShrinks(q: Query, h: seq<Arrival>, a: Arrival, c: Combo)
    requires WellFormed(q)
    requires InProduct(q, h + [a], c) && |h| !in c
    ensures InProduct(q, h, c)
  {
    hide WindowOf;
    ProductInHistory(q, h + [a], c);
    forall r | 0 <= r < |c| ensures c[r] in WindowOf(q.relations[r], h) {
      WindowShrinks(q.relations[r], h, a, c[r]);
    }
  }

  lemma {:induction false} FailsOnStable(q: Query, h: seq<Arrival>, a: Arrival, s: nat, c: Combo)
    requires WellFormed(q) && s < |h|
    ensures FailsOn(q, h + [a], s, c) <==> FailsOn(q, h, s, c)
  {
    var h' := h + [a];
    assert h'[..s + 1] == h[..s + 1];
    if BornAt(q, h, s, c) {
      ProductInHistory(q, h[..s + 1], c);
      assert RowOf(q, h', c) == RowOf(q, h, c);
    }
  }

  lemma {:induction false} StepFailsStable(q: Query, h: seq<Arrival>, a: Arrival, s: nat)
    requires WellFormed(q) && s < |h|
    ensures StepFails(q, h + [a], s) <==> StepFails(q, h, s)
  {
    forall c: Combo ensures FailsOn(q, h + [a], s, c) <==> FailsOn(q, h, s, c) {
      FailsOnStable(q, h, a, s, c);
    }
  }

  /** How one arrival changes the view: combinations without the new tuple stay exactly as long as
      they stay in the windows; combinations with it enter when they pass, unless the step fails. */
  lemma {:induction false} ViewStep(q: Query, h: seq<Arrival>, a: Arrival, c: Combo)
    requires WellFormed(q)
    ensures |h| !in c ==> (InView(q, h + [a], c) <==> InView(q, h, c) && InProduct(q, h + [a], c))
    ensures |h| in c ==>
              (InView(q, h + [a], c) <==>
               && InProduct(q, h + [a], c) && InHistory(q, h + [a], c)
               && VerdictOf(q.filter, RowOf(q, h + [a], c)) == Pass
               && !StepFails(q, h + [a], |h|))
  {
    var h' := h + [a];
    if InProduct(q, h', c) {
      ProductInHistory(q, h', c);
      if |h| !in c {
        ProductShrinks(q, h, a, c);
        ProductInHistory(q, h, c);
        StepFailsStable(q, h, a, Born(c));
        assert RowOf(q, h', c) == RowOf(q, h, c);
      } else {
        assert Born(c) == |h|;
      }
    }
  }
}
