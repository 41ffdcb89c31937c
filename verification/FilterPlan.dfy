/** The fast plan for RSTREAM statements over a one-tuple window: it keeps no state and looks at the
    arriving tuple only. */
module FilterPlan {
  import opened Values
  import opened Streams
  import opened Emission
  import opened SelectPlan

  predicate CanBuildFilterPlan(q: Query, emitter: Emitter) {
    && |q.relations| == 1
    && emitter == Rstream
    && q.relations[0].window == Tuples(1)
  }

  /** The fast path: filter and project the row made of the tuple itself. */
  function FilterProcess(q: Query, t: Tuple, now: int): Result<seq<Value>> {
    var row := InputRow([t], now);
    var keep :- match q.filter
                case NoFilter => Ok(true)
                case Where(eval) => (match eval(row) case Ok(Null) => Ok(false) case Ok(Bool(b)) => Ok(b) case _ => Err);
    if !keep then Ok([]) else
      var v :- q.project(row);
      Ok([v])
  }

  lemma {:induction false} OneTupleWindow(q: Query, h: seq<Arrival>, a: Arrival, c: Combo)
    requires |q.relations| == 1 && q.relations[0].window == Tuples(1) && a.tuple.input == q.relations[0].input
    ensures InProduct(q, h + [a], c) <==> c == [|h|]
  {
    MatchesStep(h, a, q.relations[0].input);
    assert WindowOf(q.relations[0], h + [a]) == [|h|];
  }

  lemma {:induction false} OneTupleRow(q: Query, h: seq<Arrival>, a: Arrival)
    requires WellFormed(q) && |q.relations| == 1
    ensures InHistory(q, h + [a], [|h|]) && RowOf(q, h + [a], [|h|]) == InputRow([a.tuple], a.now)
  {
    assert (h + [a])[|h|] == a;
  }

  lemma {:induction false} OneTupleStep(q: Query, h: seq<Arrival>, a: Arrival)
    requires WellFormed(q) && |q.relations| == 1 && q.relations[0].window == Tuples(1) && a.tuple.input == q.relations[0].input
    ensures StepFails(q, h + [a], |h|) <==> VerdictOf(q.filter, InputRow([a.tuple], a.now)) == Fail
    ensures forall c: Combo ::
              InView(q, h + [a], c) <==> c == [|h|] && VerdictOf(q.filter, InputRow([a.tuple], a.now)) == Pass
  {
    hide InProduct, RowOf, WindowOf;
    var h' := h + [a];
    assert h'[..|h| + 1] == h';
    OneTupleRow(q, h, a);
    forall c: Combo ensures InProduct(q, h', c) <==> c == [|h|] { OneTupleWindow(q, h, a, c); }
    assert Born([|h|]) == |h|;
    assert FailsOn(q, h', |h|, [|h|]) <==> VerdictOf(q.filter, InputRow([a.tuple], a.now)) == Fail;
    assert forall c: Combo | FailsOn(q, h', |h|, c) :: c == [|h|];
  }

  lemma {:induction false} OneElement(q: Query, h: seq<Arrival>, cs: seq<Combo>, m: Combo)
    requires WellFormed(q) && Enumerates(q, h, cs)
    requires forall c: Combo :: InView(q, h, c) ==> c == m
    ensures cs == if InView(q, h, m) then [m] else []
  {
    hide InView;
    assert !(|cs| >= 2 && cs[0] == cs[1]);
    forall i | 0 <= i < |cs| ensures cs[i] == m { assert cs[i] in cs; }
    assert m in cs <==> InView(q, h, m);
    assert |cs| > 0 ==> cs[0] in cs;
    assert |cs| == 1 ==> cs == [cs[0]];
  }

  lemma {:induction false} OneTupleResult(q: Query, h: seq<Arrival>, a: Arrival, out: seq<Value>)
    requires WellFormed(q) && |q.relations| == 1 && q.relations[0].window == Tuples(1) && a.tuple.input == q.relations[0].input
    requires IsResult(q, h + [a], out)
    ensures var row := InputRow([a.tuple], a.now);
            if VerdictOf(q.filter, row) == Pass then q.project(row).Ok? && out == [q.project(row).value] else out == []
  {
    hide InView, StepFails, RowOf, InProduct;
    var h' := h + [a];
    OneTupleStep(q, h, a);
    OneTupleRow(q, h, a);
    var cs: seq<Combo> :| Enumerates(q, h', cs) && ProjectsTo(q, h', cs, out);
    OneElement(q, h', cs, [|h|]);
  }

  lemma {:induction false} OneTupleProjection(q: Query, h: seq<Arrival>, a: Arrival)
    requires WellFormed(q) && |q.relations| == 1 && q.relations[0].window == Tuples(1) && a.tuple.input == q.relations[0].input
    ensures var row := InputRow([a.tuple], a.now);
            ProjectionFails(q, h + [a]) <==> VerdictOf(q.filter, row) == Pass && q.project(row).Err?
  {
    hide InView, StepFails, RowOf, InProduct;
    OneTupleStep(q, h, a);
    OneTupleRow(q, h, a);
    if VerdictOf(q.filter, InputRow([a.tuple], a.now)) == Pass { assert InView(q, h + [a], [|h|]); }
  }

  /** Whenever the fast plan may be used, every step of the default plan on a tuple of its input gives
      the same rows or fails as well, whatever happened in the steps before. */
  lemma {:induction false} FilterPlanRefinesDefault(q: Query, emitter: Emitter, eq: Equality, hash: Value -> nat,
                                 s: PlanState, t: Tuple, now: int, s': PlanState, r: Result<seq<Value>>)
    requires WellFormed(q) && CanBuildFilterPlan(q, emitter) && t.input == q.relations[0].input
    requires Step(q, emitter, eq, hash, s, t, now, s', r)
    ensures r == FilterProcess(q, t, now)
  {
    hide StepFails, ProjectionFails, IsResult;
    var a := Arrival(t, now);
    OneTupleStep(q, s.history, a);
    OneTupleProjection(q, s.history, a);
    if r.Ok? { OneTupleResult(q, s.history, a, s'.last); }
  }
}
