/** Grouping statements end to end: the grouping plan over the incremental engine, and what its groups
    yield in terms of the original expressions. */
module GroupPlan {
  import opened Values
  import opened Streams
  import opened Rows
  import opened Emission
  import S = SelectPlan
  import R = Runs
  import G = GroupBy
  import F = Flatten
  import B = Buffers
  import E = Engine

  // ---- groups and the original expressions -------------------------------------------------

  /** The collected arrays of a group as entries of an input row. */
  function Arrays(agg: G.AggData): F.Row {
    map id | id in agg :: F.Agg(id) := Array(agg[id])
  }

  /** An evaluator over a group is the flat part of the expression, applied to the representative of the
      group extended by the collected arrays. */
  ghost predicate Renders(m: F.Interp, toRow: InputRow -> F.Row, f: (InputRow, G.AggData) -> Result<Value>, flat: F.Flat) {
    forall rep: InputRow, agg: G.AggData :: f(rep, agg) == F.EvalFlat(m, flat, toRow(rep) + Arrays(agg))
  }

  /** On the given rows every input asked for is collected under its id. */
  ghost predicate Answers(m: F.Interp, toRow: InputRow -> F.Row, g: G.GroupQuery, asked: set<F.Request>, rows: seq<Row>) {
    forall p | p in asked ::
      && F.IdOf(m, p) in g.aggs
      && forall i | 0 <= i < |rows| :: g.aggs[F.IdOf(m, p)](rows[i].input) == F.EvalFlat(m, p.0, toRow(rows[i].input))
  }

  /** What an expression must satisfy for its flat part to stand for it. */
  ghost predicate Convertible(m: F.Interp, e: F.Expr, idx: nat) {
    F.ToSplit(m, e, idx).Ok? && F.PlainSelectors(m, e) && F.WildFree(F.ToSplit(m, e, idx).value.flat)
  }

  function MemberRows(toRow: InputRow -> F.Row, rows: seq<Row>, idx: seq<nat>): (r: seq<F.Row>)
    requires Within(idx, |rows|)
    ensures |r| == |idx|
  {
    seq(|idx|, j requires 0 <= j < |idx| => toRow(rows[idx[j]].input))
  }

  lemma {:induction false} ArraysKeepBase(row: F.Row, agg: G.AggData)
    ensures F.SameBase(row, row + Arrays(agg))
    ensures forall id | id in agg :: F.Agg(id) in row + Arrays(agg) && (row + Arrays(agg))[F.Agg(id)] == Array(agg[id])
  {
    var all := row + Arrays(agg);
    forall id | id in agg ensures F.Agg(id) in all && all[F.Agg(id)] == Array(agg[id]) {}
  }

  lemma {:induction false} CollectedIsFlatValues(m: F.Interp, toRow: InputRow -> F.Row, f: InputRow -> Result<Value>, flat: F.Flat, rows: seq<Row>, idx: seq<nat>)
    requires Within(idx, |rows|)
    requires forall i | 0 <= i < |rows| :: f(rows[i].input).Ok? && f(rows[i].input) == F.EvalFlat(m, flat, toRow(rows[i].input))
    ensures G.Collect(f, rows, idx) == F.FlatValues(m, flat, MemberRows(toRow, rows, idx))
    ensures F.EvaluatesOn(m, flat, MemberRows(toRow, rows, idx))
  {
    hide F.EvalFlat;
  }

  /** Every group yields the value of the original, unflattened expression over its rows. */
  lemma {:induction false} GroupYieldsOriginal(m: F.Interp, toRow: InputRow -> F.Row, g: G.GroupQuery, f: (InputRow, G.AggData) -> Result<Value>,
                                               e: F.Expr, n: nat, eq: Equality, rows: seq<Row>, keys: seq<Value>, x: G.Group)
    requires |keys| == |rows| && G.GroupOk(g, eq, rows, keys, |rows|, x) && forall i | 0 <= i < |rows| :: !G.ItemFails(g, rows[i])
    requires Convertible(m, e, n) && Renders(m, toRow, f, F.ToSplit(m, e, n).value.flat)
    requires Answers(m, toRow, g, F.ToSplit(m, e, n).value.aggs.asked, rows)
    ensures var idx := G.Members(eq, keys, |rows|, x.key);
            && idx != [] && Within(idx, |rows|)
            && f(x.rep, x.agg) == F.EvalGroup(m, e, MemberRows(toRow, rows, idx))
  {
    hide F.ToSplit, F.EvalFlat, F.EvalGroup, F.PlainSelectors, F.WildFree, G.Members, G.Collect, F.FlatValues, F.EvaluatesOn;
    var idx := G.Members(eq, keys, |rows|, x.key);
    var members, s := MemberRows(toRow, rows, idx), F.ToSplit(m, e, n).value;
    var row := toRow(x.rep) + Arrays(x.agg);
    ArraysKeepBase(toRow(x.rep), x.agg);
    forall p | p in s.aggs.asked ensures F.Supplied(m, p, members, row) {
      var id := F.IdOf(m, p);
      CollectedIsFlatValues(m, toRow, g.aggs[id], p.0, rows, idx);
    }
    hide Arrays, Answers, F.SameBase;
    F.SplitPreserves(m, e, n, s.aggs.asked, members, row);
  }

  /** The output of a partition by its keys, in terms of the original expressions: one row for every group
      on which HAVING is true. */
  ghost function OriginalOutput(m: F.Interp, toRow: InputRow -> F.Row, e: F.Expr, having: F.Expr,
                                eq: Equality, rows: seq<Row>, keys: seq<Value>, groups: seq<Value>): seq<Value>
    requires |keys| == |rows|
  {
    if groups == [] then [] else
      var l := |groups| - 1;
      OriginalOutput(m, toRow, e, having, eq, rows, keys, groups[..l]) + OriginalRow(m, toRow, e, having, eq, rows, keys, groups[l])
  }

  ghost function OriginalRow(m: F.Interp, toRow: InputRow -> F.Row, e: F.Expr, having: F.Expr,
                             eq: Equality, rows: seq<Row>, keys: seq<Value>, key: Value): seq<Value>
    requires |keys| == |rows|
  {
    G.MembersFacts(eq, keys, |rows|, key);
    var members := MemberRows(toRow, rows, G.Members(eq, keys, |rows|, key));
    if members != [] && F.EvalGroup(m, having, members) == Ok(Bool(true)) then
      match F.EvalGroup(m, e, members) case Ok(v) => [v] case Err => []
    else []
  }

  function GroupKeys(all: seq<G.Group>): (keys: seq<Value>)
    ensures |keys| == |all|
  {
    seq(|all|, i requires 0 <= i < |all| => all[i].key)
  }

  /** The statement: what is grouped, and the expressions of the projection and of HAVING. */
  ghost predicate Expresses(m: F.Interp, toRow: InputRow -> F.Row, g: G.GroupQuery, e: F.Expr, having: F.Expr, n: nat) {
    && Convertible(m, e, 0) && Convertible(m, having, n)
    && Renders(m, toRow, g.output, F.ToSplit(m, e, 0).value.flat) && Renders(m, toRow, g.having, F.ToSplit(m, having, n).value.flat)
  }

  /** The inputs of both expressions are collected under their ids. */
  ghost predicate AnswersBoth(m: F.Interp, toRow: InputRow -> F.Row, g: G.GroupQuery, e: F.Expr, having: F.Expr, n: nat, rows: seq<Row>) {
    F.ToSplit(m, e, 0).Ok? && F.ToSplit(m, having, n).Ok? &&
    Answers(m, toRow, g, F.ToSplit(m, e, 0).value.aggs.asked, rows) && Answers(m, toRow, g, F.ToSplit(m, having, n).value.aggs.asked, rows)
  }

  /** The output of the groups is the output of the original statement. */
  lemma {:induction false} OutputIsOriginal(m: F.Interp, toRow: InputRow -> F.Row, g: G.GroupQuery, e: F.Expr, having: F.Expr, n: nat,
                                            eq: Equality, rows: seq<Row>, keys: seq<Value>, all: seq<G.Group>)
    requires Expresses(m, toRow, g, e, having, n) && AnswersBoth(m, toRow, g, e, having, n, rows)
    requires |keys| == |rows| && (forall i | 0 <= i < |rows| :: !G.ItemFails(g, rows[i]))
    requires forall i | 0 <= i < |all| :: G.GroupOk(g, eq, rows, keys, |rows|, all[i]) && !G.GroupFails(g, all[i])
    ensures G.OutputOf(g, all) == OriginalOutput(m, toRow, e, having, eq, rows, keys, GroupKeys(all))
    decreases all
  {
    hide Expresses, AnswersBoth, G.ItemFails, G.GroupOk, G.GroupFails, OriginalRow, G.HavingVerdict;
    if all != [] {
      var l := |all| - 1;
      OutputIsOriginal(m, toRow, g, e, having, n, eq, rows, keys, all[..l]);
      assert GroupKeys(all)[..l] == GroupKeys(all[..l]);
      RowIsOriginal(m, toRow, g, e, having, n, eq, rows, keys, all[l]);
    }
  }

  lemma {:induction false} RowIsOriginal(m: F.Interp, toRow: InputRow -> F.Row, g: G.GroupQuery, e: F.Expr, having: F.Expr, n: nat,
                                         eq: Equality, rows: seq<Row>, keys: seq<Value>, x: G.Group)
    requires Expresses(m, toRow, g, e, having, n) && AnswersBoth(m, toRow, g, e, having, n, rows)
    requires |keys| == |rows| && (forall i | 0 <= i < |rows| :: !G.ItemFails(g, rows[i]))
    requires G.GroupOk(g, eq, rows, keys, |rows|, x) && !G.GroupFails(g, x)
    ensures (if G.HavingVerdict(g, x) == Pass then [G.OkOr(g.output(x.rep, x.agg))] else []) == OriginalRow(m, toRow, e, having, eq, rows, keys, x.key)
  {
    hide F.EvalGroup, F.EvalFlat, F.ToSplit, F.PlainSelectors, F.WildFree, Renders, Answers, G.ItemFails, G.GroupOk, G.Members;
    GroupYieldsOriginal(m, toRow, g, g.output, e, 0, eq, rows, keys, x);
    GroupYieldsOriginal(m, toRow, g, g.having, having, n, eq, rows, keys, x);
  }

  // ---- the plan ----------------------------------------------------------------------------

  /** What the query yields for a listing of the view. */
  ghost predicate Outcome(g: G.GroupQuery, eq: Equality, rows: seq<Row>, res: Result<seq<Value>>) {
    if exists i | 0 <= i < |rows| :: G.ItemFails(g, rows[i]) then res.Err?
    else exists keys: seq<Value>, all: seq<G.Group> :: Yields(g, eq, rows, keys, all, res)
  }

  ghost predicate Yields(g: G.GroupQuery, eq: Equality, rows: seq<Row>, keys: seq<Value>, all: seq<G.Group>, res: Result<seq<Value>>) {
    && G.KeysOf(g, rows, keys) && |keys| == |rows| && G.Partition(g, eq, rows, keys, all)
    && if rows == [] && !g.grouped then
         match g.emptyOutput case Ok(v) => res == Ok([v]) case Err => res.Err?
       else if exists i | 0 <= i < |all| :: G.GroupFails(g, all[i]) then
         res.Err?
       else
         res == Ok(G.OutputOf(g, all))
  }

  /** The outcome of the grouping query after a history, for some order of the rows of the view. */
  ghost predicate IsOutcome(q: Query, g: G.GroupQuery, eq: Equality, h: seq<Arrival>, res: Result<seq<Value>>)
    requires WellFormed(q)
  {
    exists rows: seq<Row> :: RowsOk(q, h, rows) && Outcome(g, eq, rows, res)
  }

  /** One call of the grouping plan: window, query, then difference with the previous run. */
  ghost predicate GroupStep(q: Query, g: G.GroupQuery, emitter: Emitter, eq: Equality, hash: Value -> nat,
                            s: S.PlanState, t: Tuple, now: int, s': S.PlanState, r: Result<seq<Value>>)
    requires WellFormed(q)
  {
    if !Accepts(q, t) then
      r.Err? && s' == s
    else
      && s'.history == s.history + [Arrival(t, now)]
      && if StepFails(q, s'.history, |s.history|) then r.Err? && s'.last == s.last && s'.hashed == s.hashed
         else exists res: Result<seq<Value>> :: IsOutcome(q, g, eq, s'.history, res) && Reports(emitter, eq, hash, s, res, s', r)
  }

  /** A failing query leaves the remembered results as they were; otherwise the difference is emitted. */
  ghost predicate Reports(emitter: Emitter, eq: Equality, hash: Value -> nat, s: S.PlanState, res: Result<seq<Value>>, s': S.PlanState, r: Result<seq<Value>>) {
    if res.Err? then r.Err? && s'.last == s.last && s'.hashed == s.hashed
    else
      && s'.last == res.value
      && (r.Err? <==> S.EmissionFails(emitter, hash, s'.last, s.last))
      && s'.hashed == (if emitter.Istream? && r.Ok? then s'.last else s.hashed)
      && (r.Ok? ==> r.value == match emitter
                               case Rstream => s'.last
                               case Istream => Surplus(eq, s'.last, s.hashed)
                               case Dstream => Surplus(eq, s.last, s'.last))
  }

  /** The GROUP BY values of the rows of the view, and everything the query can yield, lie in the domain. */
  ghost predicate GroupsIn(q: Query, g: G.GroupQuery, eq: Equality, h: seq<Arrival>, dom: iset<Value>)
    requires WellFormed(q)
  {
    && (forall c: Combo | InView(q, h, c) && g.keyOf(RowOf(q, h, c)).Ok? :: g.keyOf(RowOf(q, h, c)).value in dom)
    && forall res: Result<seq<Value>> | IsOutcome(q, g, eq, h, res) && res.Ok? :: AllIn(res.value, dom)
  }

  lemma {:induction false} ViewKeysIn(q: Query, g: G.GroupQuery, eq: Equality, h: seq<Arrival>, dom: iset<Value>, rows: seq<Row>)
    requires WellFormed(q) && RowsOk(q, h, rows) && GroupsIn(q, g, eq, h, dom)
    ensures G.KeysIn(g, dom, rows)
  {
    hide InView, RowOf, IsOutcome;
    forall i | 0 <= i < |rows| && g.keyOf(rows[i].input).Ok? ensures g.keyOf(rows[i].input).value in dom {
      assert InView(q, h, rows[i].combo) && g.keyOf(RowOf(q, h, rows[i].combo)).Ok?;
    }
  }

  function Hashes(hash: Value -> nat, vs: seq<Value>): (rs: seq<ResultRow>)
    ensures |rs| == |vs|
  {
    seq(|vs|, i requires 0 <= i < |vs| => ResultRow(vs[i], hash(vs[i])))
  }

  lemma {:induction false} HashesFacts(hash: Value -> nat, dom: iset<Value>, vs: seq<Value>)
    ensures RowValues(Hashes(hash, vs)) == vs
    ensures AllIn(vs, dom) ==> Hashed(hash, dom, Hashes(hash, vs))
    ensures SomeZero(Hashes(hash, vs)) <==> S.ZeroHash(hash, vs)
  {
    var rs := Hashes(hash, vs);
    assert forall i | 0 <= i < |vs| :: rs[i].hash == hash(vs[i]);
  }

  lemma {:induction false} KeyCacheSurvives(g: G.GroupQuery, hash: Value -> nat, before: seq<Row>, rows: seq<Row>, cache: map<nat, ResultRow>, next: nat)
    requires G.KeyCacheOk(g, hash, before, cache) && forall id | id in cache :: id < next
    requires forall row | row in rows :: row in before || row.id >= next
    ensures G.KeyCacheOk(g, hash, rows, cache)
  {
    forall i | 0 <= i < |rows| && rows[i].id in cache
      ensures exists j | 0 <= j < |before| :: before[j] == rows[i]
    {
      assert rows[i] in rows;
    }
  }

  lemma {:induction false} CachedBelow(rows: seq<Row>, cache: map<nat, ResultRow>, cache': map<nat, ResultRow>, next: nat)
    requires G.OnlyRowsAdded(rows, cache, cache') && (forall id | id in cache :: id < next) && forall i | 0 <= i < |rows| :: rows[i].id < next
    ensures forall id | id in cache' :: id < next
  {}

  lemma {:induction false} OutcomeOf(q: Query, g: G.GroupQuery, eq: Equality, dom: iset<Value>, h: seq<Arrival>, rows: seq<Row>, all: seq<G.Group>, res: Result<seq<Value>>)
    requires WellFormed(q) && RowsOk(q, h, rows)
    requires (exists i | 0 <= i < |rows| :: G.ItemFails(g, rows[i])) ==> res.Err?
    requires (forall i | 0 <= i < |rows| :: !G.ItemFails(g, rows[i])) ==> Yields(g, eq, rows, G.KeyList(g, dom, rows), all, res)
    ensures IsOutcome(q, g, eq, h, res)
  {
    hide RowsOk, G.ItemFails, Yields, G.KeyList;
    assert Outcome(g, eq, rows, res);
  }

  lemma {:induction false} OutcomeIn(q: Query, g: G.GroupQuery, eq: Equality, h: seq<Arrival>, dom: iset<Value>, res: Result<seq<Value>>)
    requires WellFormed(q) && GroupsIn(q, g, eq, h, dom) && IsOutcome(q, g, eq, h, res) && res.Ok?
    ensures AllIn(res.value, dom)
  {
    hide IsOutcome;
  }

  lemma {:induction false} FailedReports(emitter: Emitter, eq: Equality, hash: Value -> nat, s: S.PlanState, s': S.PlanState)
    requires s'.last == s.last && s'.hashed == s.hashed
    ensures Reports(emitter, eq, hash, s, Err, s', Err)
  {}

  lemma {:induction false} SucceededReports(emitter: Emitter, eq: Equality, hash: Value -> nat, s: S.PlanState, res: Result<seq<Value>>, s': S.PlanState, r: Result<seq<Value>>)
    requires res.Ok? && s'.last == res.value
    requires r.Err? <==> (emitter.Istream? && S.ZeroHash(hash, s'.last)) || (emitter.Dstream? && (S.ZeroHash(hash, s'.last) || S.ZeroHash(hash, s.last)))
    requires s'.hashed == if emitter.Istream? && r.Ok? then s'.last else s.hashed
    requires r.Ok? ==> r.value == match emitter
                                  case Rstream => s'.last
                                  case Istream => Surplus(eq, s'.last, s.hashed)
                                  case Dstream => Surplus(eq, s.last, s'.last)
    ensures Reports(emitter, eq, hash, s, res, s', r)
  {
    hide S.ZeroHash, Surplus;
  }

  class Plan {
    const engine: E.Engine
    const emitter: RowEmitter
    const g: G.GroupQuery
    const hash: Value -> nat
    var keyCache: map<nat, ResultRow>
    var cur: seq<ResultRow>

    ghost predicate Valid()
      reads this, engine, emitter
    {
      && engine.Valid() && emitter.Valid() && emitter.hash == hash
      && G.KeyCacheOk(g, hash, engine.rows, keyCache) && (forall id | id in keyCache :: id < engine.nextId)
      && Hashed(hash, emitter.dom, cur)
    }

    ghost function State(): S.PlanState
      reads this, engine, emitter
    {
      S.PlanState(engine.history, RowValues(cur), emitter.hashed)
    }

    constructor (q: Query, g: G.GroupQuery, e: Emitter, eq: Equality, hash: Value -> nat, ghost dom: iset<Value>)
      requires WellFormed(q) && Lawful(eq, hash, dom)
      ensures Valid() && fresh(engine) && fresh(emitter) && State() == S.PlanState([], [], [])
      ensures engine.q == q && this.g == g && emitter.emitter == e && emitter.eq == eq && emitter.dom == dom && this.hash == hash
    {
      hide Tally, Lawful, WellFormed, B.BuffersOk, RowsOk, IdsBelow, Linked;
      engine := new E.Engine(q);
      emitter := new RowEmitter(e, eq, hash, dom);
      this.g, this.hash := g, hash;
      keyCache, cur := map[], [];
    }

    /** Each call is one step of the declarative semantics of grouping. */
    method Process(t: Tuple, now: int) returns (r: Result<seq<Value>>)
      requires Valid() && (Accepts(engine.q, t) ==> GroupsIn(engine.q, g, emitter.eq, engine.history + [Arrival(t, now)], emitter.dom))
      modifies this, engine, emitter
      ensures Valid()
      ensures GroupStep(engine.q, g, emitter.emitter, emitter.eq, hash, old(State()), t, now, State(), r)
    {
      hide Tally, Lawful, WellFormed, B.BuffersOk, RowsOk, IdsBelow, Linked, StepFails, IsOutcome, Surplus, Accepts, Hashed, GroupsIn, Reports, G.KeysIn, G.KeyCacheOk,
        G.Partition, G.KeysOf, G.GroupFails, G.OutputOf, G.ItemFails, G.KeyList, S.ZeroHash;
      ghost var s0 := State();
      var o := engine.Ingest(t, now);
      S.RowsHaveIds(engine.q, engine.history, engine.rows, engine.links, engine.nextId);
      KeyCacheSurvives(g, hash, old(engine.rows), engine.rows, keyCache, old(engine.nextId));
      if o != E.Ingested {
        return Err;
      }
      ViewKeysIn(engine.q, g, emitter.eq, engine.history, emitter.dom, engine.rows);
      var res, cache;
      ghost var all;
      res, cache, all := G.PerformQueryOnBuffer(g, emitter.eq, hash, emitter.dom, engine.rows, keyCache);
      CachedBelow(engine.rows, keyCache, cache, engine.nextId);
      keyCache := cache;
      OutcomeOf(engine.q, g, emitter.eq, emitter.dom, engine.history, engine.rows, all, res);
      if res.Err? {
        FailedReports(emitter.emitter, emitter.eq, hash, s0, State());
        return Err;
      }
      OutcomeIn(engine.q, g, emitter.eq, engine.history, emitter.dom, res);
      HashesFacts(hash, emitter.dom, res.value);
      S.ZeroIsZero(hash, emitter.dom, cur);
      var prev := cur;
      cur := Hashes(hash, res.value);
      r := emitter.ComputeResultTuples(cur, prev);
      assert Reports(emitter.emitter, emitter.eq, hash, s0, res, State(), r) by {
        SucceededReports(emitter.emitter, emitter.eq, hash, s0, res, State(), r);
      }
    }
  }

  // ---- whole runs --------------------------------------------------------------------------

  ghost predicate IsGroupRun(q: Query, g: G.GroupQuery, emitter: Emitter, eq: Equality, hash: Value -> nat,
                             inputs: seq<(Tuple, int)>, states: seq<S.PlanState>, results: seq<Result<seq<Value>>>)
    requires WellFormed(q)
  {
    && |states| == |inputs| + 1 && |results| == |inputs|
    && states[0] == S.PlanState([], [], [])
    && forall k | 0 <= k < |inputs| ::
         GroupStep(q, g, emitter, eq, hash, states[k], inputs[k].0, inputs[k].1, states[k + 1], results[k])
  }

  lemma {:induction false} GroupStepHistory(q: Query, g: G.GroupQuery, emitter: Emitter, eq: Equality, hash: Value -> nat,
                                            s: S.PlanState, t: Tuple, now: int, s': S.PlanState, r: Result<seq<Value>>)
    requires WellFormed(q) && GroupStep(q, g, emitter, eq, hash, s, t, now, s', r)
    ensures s'.history == s.history + if Accepts(q, t) then [Arrival(t, now)] else []
  {
    hide Accepts, StepFails, IsOutcome, Reports;
  }

  lemma {:induction false} GroupRunStarts(q: Query, g: G.GroupQuery, emitter: Emitter, eq: Equality, hash: Value -> nat, inputs: seq<(Tuple, int)>)
    requires WellFormed(q)
    ensures IsGroupRun(q, g, emitter, eq, hash, inputs[..0], [S.PlanState([], [], [])], [])
  {}

  lemma {:induction false} GroupRunExtends(q: Query, g: G.GroupQuery, emitter: Emitter, eq: Equality, hash: Value -> nat, inputs: seq<(Tuple, int)>, i: nat,
                                           states: seq<S.PlanState>, results: seq<Result<seq<Value>>>, s: S.PlanState, r: Result<seq<Value>>)
    requires WellFormed(q) && i < |inputs| && |states| == i + 1 && IsGroupRun(q, g, emitter, eq, hash, inputs[..i], states, results)
    requires GroupStep(q, g, emitter, eq, hash, states[i], inputs[i].0, inputs[i].1, s, r)
    ensures IsGroupRun(q, g, emitter, eq, hash, inputs[..i + 1], states + [s], results + [r])
  {
    hide GroupStep;
  }

  /** The grouping plan produces such runs, call by call. */
  method RunGroupPlan(q: Query, g: G.GroupQuery, emitter: Emitter, eq: Equality, hash: Value -> nat, ghost dom: iset<Value>, inputs: seq<(Tuple, int)>)
    returns (results: seq<Result<seq<Value>>>, ghost states: seq<S.PlanState>)
    requires WellFormed(q) && Lawful(eq, hash, dom)
    requires forall k | 0 <= k <= |inputs| :: GroupsIn(q, g, eq, R.HistoryOf(q, inputs, k), dom)
    ensures IsGroupRun(q, g, emitter, eq, hash, inputs, states, results)
  {
    hide GroupStep, Lawful, WellFormed, GroupsIn, Accepts, Plan.Valid, IsGroupRun;
    var plan := new Plan(q, g, emitter, eq, hash, dom);
    results, states := [], [plan.State()];
    GroupRunStarts(q, g, emitter, eq, hash, inputs);
    for i := 0 to |inputs|
      invariant plan.Valid() && fresh(plan) && fresh(plan.engine) && fresh(plan.emitter)
      invariant plan.engine.q == q && plan.g == g && plan.emitter.emitter == emitter && plan.emitter.eq == eq && plan.hash == hash && plan.emitter.dom == dom
      invariant |states| == i + 1 && states[i] == plan.State() && IsGroupRun(q, g, emitter, eq, hash, inputs[..i], states, results)
      invariant plan.engine.history == R.HistoryOf(q, inputs, i)
    {
      assert GroupsIn(q, g, eq, R.HistoryOf(q, inputs, i + 1), dom);
      var r := plan.Process(inputs[i].0, inputs[i].1);
      GroupStepHistory(q, g, emitter, eq, hash, states[i], inputs[i].0, inputs[i].1, plan.State(), r);
      GroupRunExtends(q, g, emitter, eq, hash, inputs, i, states, results, plan.State(), r);
      results, states := results + [r], states + [plan.State()];
    }
    assert inputs[..|inputs|] == inputs;
  }

  lemma {:induction false} StepInSync(q: Query, g: G.GroupQuery, emitter: Emitter, eq: Equality, hash: Value -> nat,
                                      s: S.PlanState, t: Tuple, now: int, s': S.PlanState, r: Result<seq<Value>>)
    requires WellFormed(q) && GroupStep(q, g, emitter, eq, hash, s, t, now, s', r)
    requires !S.ZeroHash(hash, s.last) && !S.ZeroHash(hash, s'.last) && (emitter.Istream? ==> s.hashed == s.last)
    ensures emitter.Istream? ==> s'.hashed == s'.last
  {
    hide Accepts, StepFails, IsOutcome, S.ZeroHash, Surplus;
  }

  lemma {:induction false} RunInSync(q: Query, g: G.GroupQuery, emitter: Emitter, eq: Equality, hash: Value -> nat, dom: iset<Value>,
                                     inputs: seq<(Tuple, int)>, states: seq<S.PlanState>, results: seq<Result<seq<Value>>>, k: nat)
    requires WellFormed(q) && IsGroupRun(q, g, emitter, eq, hash, inputs, states, results) && R.SoundRun(hash, dom, states) && k <= |inputs|
    ensures emitter.Istream? ==> states[k].hashed == states[k].last
    decreases k
  {
    hide GroupStep, S.ZeroHash, AllIn;
    if k != 0 {
      RunInSync(q, g, emitter, eq, hash, dom, inputs, states, results, k - 1);
      StepInSync(q, g, emitter, eq, hash, states[k - 1], inputs[k - 1].0, inputs[k - 1].1, states[k], results[k - 1]);
    }
  }

  /** The result of the original statement after a history: the rows of the view in some order, grouped by
      equal keys, and one row for each group on which HAVING is true. */
  ghost predicate IsOriginalResult(q: Query, g: G.GroupQuery, m: F.Interp, toRow: InputRow -> F.Row, e: F.Expr, having: F.Expr,
                                   eq: Equality, h: seq<Arrival>, rows: seq<Row>, keys: seq<Value>, all: seq<G.Group>, out: seq<Value>)
    requires WellFormed(q)
  {
    && RowsOk(q, h, rows) && |keys| == |rows| && G.KeysOf(g, rows, keys) && G.Partition(g, eq, rows, keys, all)
    && if rows == [] && !g.grouped then g.emptyOutput.Ok? && out == [g.emptyOutput.value]
       else out == OriginalOutput(m, toRow, e, having, eq, rows, keys, GroupKeys(all))
  }

  ghost predicate HasOriginalResult(q: Query, g: G.GroupQuery, m: F.Interp, toRow: InputRow -> F.Row, e: F.Expr, having: F.Expr,
                                    eq: Equality, h: seq<Arrival>, out: seq<Value>)
    requires WellFormed(q)
  {
    exists rows: seq<Row>, keys: seq<Value>, all: seq<G.Group> :: IsOriginalResult(q, g, m, toRow, e, having, eq, h, rows, keys, all, out)
  }

  /** GROUP BY end to end: in every run with sound rows, a call that succeeds has computed the result of the
      original, unflattened statement over the groups of the current view, and emits exactly this result,
      its insertions or its deletions with respect to the call before. */
  lemma {:induction false} GroupCallIsExact(q: Query, g: G.GroupQuery, m: F.Interp, toRow: InputRow -> F.Row, e: F.Expr, having: F.Expr, n: nat,
                                            emitter: Emitter, eq: Equality, hash: Value -> nat, dom: iset<Value>,
                                            inputs: seq<(Tuple, int)>, states: seq<S.PlanState>, results: seq<Result<seq<Value>>>, k: nat, v: Value)
    requires WellFormed(q) && Lawful(eq, hash, dom) && v in dom && Expresses(m, toRow, g, e, having, n)
    requires IsGroupRun(q, g, emitter, eq, hash, inputs, states, results) && R.SoundRun(hash, dom, states) && k < |inputs| && results[k].Ok?
    requires forall rows: seq<Row> | RowsOk(q, states[k + 1].history, rows) :: AnswersBoth(m, toRow, g, e, having, n, rows)
    ensures Count(eq, results[k].value, v) == R.Due(emitter, eq, states[k + 1].last, states[k].last, v)
    ensures HasOriginalResult(q, g, m, toRow, e, having, eq, states[k + 1].history, states[k + 1].last)
  {
    var s, s' := states[k], states[k + 1];
    assert GroupStep(q, g, emitter, eq, hash, s, inputs[k].0, inputs[k].1, s', results[k]);
    assert AllIn(s.last, dom) && AllIn(s'.last, dom);
    RunInSync(q, g, emitter, eq, hash, dom, inputs, states, results, k);
    hide R.SoundRun, IsGroupRun, Expresses, AnswersBoth;
    CallIsExact(q, g, emitter, eq, hash, dom, s, inputs[k].0, inputs[k].1, s', results[k], v);
    SuccessIsOriginal(q, g, m, toRow, e, having, n, eq, s'.history, s'.last);
  }

  lemma {:induction false} CallIsExact(q: Query, g: G.GroupQuery, emitter: Emitter, eq: Equality, hash: Value -> nat, dom: iset<Value>,
                                       s: S.PlanState, t: Tuple, now: int, s': S.PlanState, r: Result<seq<Value>>, v: Value)
    requires WellFormed(q) && Lawful(eq, hash, dom) && v in dom && AllIn(s.last, dom) && AllIn(s'.last, dom)
    requires GroupStep(q, g, emitter, eq, hash, s, t, now, s', r) && r.Ok? && (emitter.Istream? ==> s.hashed == s.last)
    ensures Count(eq, r.value, v) == R.Due(emitter, eq, s'.last, s.last, v)
    ensures IsOutcome(q, g, eq, s'.history, Ok(s'.last))
  {
    hide Lawful, AllIn, Accepts, StepFails, IsOutcome, Surplus, Count, S.EmissionFails;
    SurplusIsDifference(eq, hash, dom, s'.last, s.last, v);
    SurplusIsDifference(eq, hash, dom, s.last, s'.last, v);
  }

  lemma {:induction false} SuccessIsOriginal(q: Query, g: G.GroupQuery, m: F.Interp, toRow: InputRow -> F.Row, e: F.Expr, having: F.Expr, n: nat,
                                             eq: Equality, h: seq<Arrival>, out: seq<Value>)
    requires WellFormed(q) && Expresses(m, toRow, g, e, having, n) && IsOutcome(q, g, eq, h, Ok(out))
    requires forall rows: seq<Row> | RowsOk(q, h, rows) :: AnswersBoth(m, toRow, g, e, having, n, rows)
    ensures HasOriginalResult(q, g, m, toRow, e, having, eq, h, out)
  {
    hide RowsOk, Expresses, AnswersBoth, Yields, G.ItemFails, IsOriginalResult;
    var rows: seq<Row> :| RowsOk(q, h, rows) && Outcome(g, eq, rows, Ok(out));
    var keys: seq<Value>, all: seq<G.Group> :| Yields(g, eq, rows, keys, all, Ok(out));
    YieldsOriginal(q, g, m, toRow, e, having, n, eq, h, rows, keys, all, out);
  }

  lemma {:induction false} YieldsOriginal(q: Query, g: G.GroupQuery, m: F.Interp, toRow: InputRow -> F.Row, e: F.Expr, having: F.Expr, n: nat,
                                          eq: Equality, h: seq<Arrival>, rows: seq<Row>, keys: seq<Value>, all: seq<G.Group>, out: seq<Value>)
    requires WellFormed(q) && RowsOk(q, h, rows) && Expresses(m, toRow, g, e, having, n) && AnswersBoth(m, toRow, g, e, having, n, rows)
    requires (forall i | 0 <= i < |rows| :: !G.ItemFails(g, rows[i])) && Yields(g, eq, rows, keys, all, Ok(out))
    ensures IsOriginalResult(q, g, m, toRow, e, having, eq, h, rows, keys, all, out)
  {
    hide RowsOk, Expresses, AnswersBoth, G.ItemFails, G.GroupFails, G.GroupOk, G.KeysOf, G.OutputOf, OriginalOutput, G.Covered, G.DistinctKeys;
    if !(rows == [] && !g.grouped) {
      OutputIsOriginal(m, toRow, g, e, having, n, eq, rows, keys, all);
    }
  }

  // ---- when a call succeeds ----------------------------------------------------------------

  /** On the rows of a group the original HAVING is NULL or a boolean, and where it is true the original
      projection has a value. */
  ghost predicate Sound(m: F.Interp, toRow: InputRow -> F.Row, e: F.Expr, having: F.Expr, eq: Equality, rows: seq<Row>, keys: seq<Value>, key: Value)
    requires |keys| == |rows|
  {
    G.MembersFacts(eq, keys, |rows|, key);
    var members := MemberRows(toRow, rows, G.Members(eq, keys, |rows|, key));
    members != [] && match F.EvalGroup(m, having, members)
                     case Err => false
                     case Ok(v) => v.Null? || (v.Bool? && (v.b ==> F.EvalGroup(m, e, members).Ok?))
  }

  lemma {:induction false} GroupFailsIff(m: F.Interp, toRow: InputRow -> F.Row, g: G.GroupQuery, e: F.Expr, having: F.Expr, n: nat,
                                         eq: Equality, rows: seq<Row>, keys: seq<Value>, x: G.Group)
    requires Expresses(m, toRow, g, e, having, n) && AnswersBoth(m, toRow, g, e, having, n, rows)
    requires |keys| == |rows| && (forall i | 0 <= i < |rows| :: !G.ItemFails(g, rows[i])) && G.GroupOk(g, eq, rows, keys, |rows|, x)
    ensures G.GroupFails(g, x) <==> !Sound(m, toRow, e, having, eq, rows, keys, x.key)
  {
    hide F.EvalGroup, F.EvalFlat, F.ToSplit, F.PlainSelectors, F.WildFree, Renders, Answers, G.ItemFails, G.GroupOk, G.Members;
    GroupYieldsOriginal(m, toRow, g, g.output, e, 0, eq, rows, keys, x);
    GroupYieldsOriginal(m, toRow, g, g.having, having, n, eq, rows, keys, x);
  }

  /** What the original statement needs to have a result: no row fails, and every group is sound; over no
      rows at all and without GROUP BY, the projection over no input has a value. */
  ghost predicate Computable(g: G.GroupQuery, m: F.Interp, toRow: InputRow -> F.Row, e: F.Expr, having: F.Expr,
                             eq: Equality, rows: seq<Row>, keys: seq<Value>, all: seq<G.Group>)
  {
    && (forall i | 0 <= i < |rows| :: !G.ItemFails(g, rows[i]))
    && |keys| == |rows|
    && if rows == [] && !g.grouped then g.emptyOutput.Ok?
       else forall i | 0 <= i < |all| :: Sound(m, toRow, e, having, eq, rows, keys, all[i].key)
  }

  lemma {:induction false} YieldsOkIff(g: G.GroupQuery, m: F.Interp, toRow: InputRow -> F.Row, e: F.Expr, having: F.Expr, n: nat,
                                       eq: Equality, rows: seq<Row>, keys: seq<Value>, all: seq<G.Group>, res: Result<seq<Value>>)
    requires Expresses(m, toRow, g, e, having, n) && AnswersBoth(m, toRow, g, e, having, n, rows)
    requires (forall i | 0 <= i < |rows| :: !G.ItemFails(g, rows[i])) && Yields(g, eq, rows, keys, all, res)
    ensures res.Ok? <==> Computable(g, m, toRow, e, having, eq, rows, keys, all)
  {
    hide Expresses, AnswersBoth, G.ItemFails, G.GroupFails, G.GroupOk, G.KeysOf, G.OutputOf, G.Covered, G.DistinctKeys, Sound;
    forall i | 0 <= i < |all| ensures G.GroupFails(g, all[i]) <==> !Sound(m, toRow, e, having, eq, rows, keys, all[i].key) {
      GroupFailsIff(m, toRow, g, e, having, n, eq, rows, keys, all[i]);
    }
  }

  /** The rows of the view in the order in which a call listed them, with their keys and groups. */
  ghost predicate Listing(q: Query, g: G.GroupQuery, eq: Equality, h: seq<Arrival>, rows: seq<Row>, keys: seq<Value>, all: seq<G.Group>)
    requires WellFormed(q)
  {
    && RowsOk(q, h, rows)
    && ((forall i | 0 <= i < |rows| :: !G.ItemFails(g, rows[i])) ==>
          G.KeysOf(g, rows, keys) && |keys| == |rows| && G.Partition(g, eq, rows, keys, all))
  }

  lemma {:induction false} OutcomeListing(q: Query, g: G.GroupQuery, m: F.Interp, toRow: InputRow -> F.Row, e: F.Expr, having: F.Expr, n: nat,
                                          eq: Equality, h: seq<Arrival>, res: Result<seq<Value>>)
    returns (rows: seq<Row>, keys: seq<Value>, all: seq<G.Group>)
    requires WellFormed(q) && Expresses(m, toRow, g, e, having, n) && IsOutcome(q, g, eq, h, res)
    requires forall rows: seq<Row> | RowsOk(q, h, rows) :: AnswersBoth(m, toRow, g, e, having, n, rows)
    ensures Listing(q, g, eq, h, rows, keys, all)
    ensures res.Ok? <==> Computable(g, m, toRow, e, having, eq, rows, keys, all)
  {
    hide RowsOk, Expresses, AnswersBoth, G.ItemFails, Sound, G.KeysOf, G.Partition, G.GroupFails, G.OutputOf;
    rows :| RowsOk(q, h, rows) && Outcome(g, eq, rows, res);
    keys, all := [], [];
    if forall i | 0 <= i < |rows| :: !G.ItemFails(g, rows[i]) {
      keys, all :| Yields(g, eq, rows, keys, all, res);
      YieldsOkIff(g, m, toRow, e, having, n, eq, rows, keys, all, res);
    }
  }

  /** A call succeeds exactly if its tuple is accepted, its step does not fail in WHERE, the original statement
      has a result over the groups of the view, and the emission does not fail. */
  lemma {:induction false} GroupCallSucceedsIff(q: Query, g: G.GroupQuery, m: F.Interp, toRow: InputRow -> F.Row, e: F.Expr, having: F.Expr, n: nat,
                                                emitter: Emitter, eq: Equality, hash: Value -> nat,
                                                s: S.PlanState, t: Tuple, now: int, s': S.PlanState, r: Result<seq<Value>>)
    returns (rows: seq<Row>, keys: seq<Value>, all: seq<G.Group>)
    requires WellFormed(q) && Expresses(m, toRow, g, e, having, n) && GroupStep(q, g, emitter, eq, hash, s, t, now, s', r)
    requires forall rows: seq<Row> | RowsOk(q, s'.history, rows) :: AnswersBoth(m, toRow, g, e, having, n, rows)
    ensures r.Ok? ==> Accepts(q, t)
    ensures Accepts(q, t) ==> s'.history == s.history + [Arrival(t, now)] && (r.Ok? ==> !StepFails(q, s'.history, |s.history|))
    ensures Accepts(q, t) && !StepFails(q, s'.history, |s.history|) ==>
              && Listing(q, g, eq, s'.history, rows, keys, all)
              && (r.Ok? <==> Computable(g, m, toRow, e, having, eq, rows, keys, all) && !S.EmissionFails(emitter, hash, s'.last, s.last))
  {
    hide RowsOk, Expresses, AnswersBoth, Accepts, StepFails, IsOutcome, Listing, Computable, S.EmissionFails, Surplus;
    rows, keys, all := [], [], [];
    if Accepts(q, t) && !StepFails(q, s'.history, |s.history|) {
      var res: Result<seq<Value>> :| IsOutcome(q, g, eq, s'.history, res) && Reports(emitter, eq, hash, s, res, s', r);
      rows, keys, all := OutcomeListing(q, g, m, toRow, e, having, n, eq, s'.history, res);
    }
  }
}
