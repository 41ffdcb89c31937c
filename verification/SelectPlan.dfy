/** The default SELECT plan: the engine, a projection cached per row, two result slices whose storage
    is swapped and reused, and the emitter. */
module SelectPlan {
  import opened Values
  import opened Streams
  import opened Rows
  import opened Emission
  import B = Buffers
  import E = Engine

  // ---- specification -----------------------------------------------------------------------

  /** A listing of the view: every combination in it exactly once. */
  ghost predicate Enumerates(q: Query, h: seq<Arrival>, cs: seq<Combo>)
    requires WellFormed(q)
  {
    && (forall i, j | 0 <= i < j < |cs| :: cs[i] != cs[j])
    && forall c: Combo :: c in cs <==> InView(q, h, c)
  }

  ghost predicate ProjectsTo(q: Query, h: seq<Arrival>, cs: seq<Combo>, out: seq<Value>)
    requires WellFormed(q)
  {
    && |out| == |cs|
    && forall i | 0 <= i < |cs| :: InHistory(q, h, cs[i]) && q.project(RowOf(q, h, cs[i])) == Ok(out[i])
  }

  /** The result of the SELECT over the windows after the history h: one row per combination. */
  ghost predicate IsResult(q: Query, h: seq<Arrival>, out: seq<Value>)
    requires WellFormed(q)
  {
    exists cs: seq<Combo> :: Enumerates(q, h, cs) && ProjectsTo(q, h, cs, out)
  }

  ghost predicate ProjectionFails(q: Query, h: seq<Arrival>)
    requires WellFormed(q)
  {
    exists c: Combo :: InView(q, h, c) && q.project(RowOf(q, h, c)).Err?
  }

  /** The projections of the combinations in the view lie in the domain of the row equality. */
  ghost predicate ViewIn(q: Query, h: seq<Arrival>, dom: iset<Value>)
    requires WellFormed(q)
  {
    forall c: Combo | InView(q, h, c) && q.project(RowOf(q, h, c)).Ok? :: q.project(RowOf(q, h, c)).value in dom
  }

  /** What a plan remembers between calls: the arrivals, the last result computed and, for ISTREAM,
      the last result it emitted against. */
  datatype PlanState = PlanState(history: seq<Arrival>, last: seq<Value>, hashed: seq<Value>)

  ghost predicate ZeroHash(hash: Value -> nat, rows: seq<Value>) {
    exists i | 0 <= i < |rows| :: hash(rows[i]) == 0
  }

  ghost predicate EmissionFails(emitter: Emitter, hash: Value -> nat, cur: seq<Value>, prev: seq<Value>) {
    || (emitter.Istream? && ZeroHash(hash, cur))
    || (emitter.Dstream? && (ZeroHash(hash, cur) || ZeroHash(hash, prev)))
  }

  /** One Process call: window, SELECT, then difference with the previous run. A call that fails in
      the filter or in a projection leaves the remembered results as they were. */
  ghost predicate Step(q: Query, emitter: Emitter, eq: Equality, hash: Value -> nat,
                       s: PlanState, t: Tuple, now: int, s': PlanState, r: Result<seq<Value>>)
    requires WellFormed(q)
  {
    if !Accepts(q, t) then
      r.Err? && s' == s
    else
      && s'.history == s.history + [Arrival(t, now)]
      && if StepFails(q, s'.history, |s.history|) || ProjectionFails(q, s'.history) then
           r.Err? && s'.last == s.last && s'.hashed == s.hashed
         else
           && IsResult(q, s'.history, s'.last)
           && (r.Err? <==> EmissionFails(emitter, hash, s'.last, s.last))
           && s'.hashed == (if emitter.Istream? && r.Ok? then s'.last else s.hashed)
           && (r.Ok? ==> r.value == match emitter
                                    case Rstream => s'.last
                                    case Istream => Surplus(eq, s'.last, s.hashed)
                                    case Dstream => Surplus(eq, s.last, s'.last))
  }

  // ---- projections of rows -----------------------------------------------------------------

  ghost predicate RowFails(q: Query, rows: seq<Row>) {
    exists i | 0 <= i < |rows| :: q.project(rows[i].input).Err?
  }

  /** The result rows, with their hashes, of rows on which every projection succeeds. */
  ghost predicate Projected(q: Query, hash: Value -> nat, rows: seq<Row>, out: seq<ResultRow>) {
    && |out| == |rows|
    && forall i | 0 <= i < |rows| :: q.project(rows[i].input) == Ok(out[i].row) && out[i].hash == hash(out[i].row)
  }

  /** A cached result is the projection of its row. */
  ghost predicate CacheOk(q: Query, hash: Value -> nat, rows: seq<Row>, cache: map<nat, ResultRow>) {
    forall i | 0 <= i < |rows| && rows[i].id in cache ::
      q.project(rows[i].input) == Ok(cache[rows[i].id].row) && cache[rows[i].id].hash == hash(cache[rows[i].id].row)
  }

  function Combos(rows: seq<Row>): (cs: seq<Combo>) {
    seq(|rows|, i requires 0 <= i < |rows| => rows[i].combo)
  }

  lemma {:induction false} RowsAreView(q: Query, h: seq<Arrival>, rows: seq<Row>)
    requires WellFormed(q) && RowsOk(q, h, rows)
    ensures Enumerates(q, h, Combos(rows))
  {
    hide InView, RowOf;
    var cs := Combos(rows);
    forall c: Combo ensures c in cs <==> InView(q, h, c) {
      if InView(q, h, c) {
        assert Has(rows, c);
        var i :| 0 <= i < |rows| && rows[i].combo == c;
        assert cs[i] == c;
      }
    }
  }

  lemma {:induction false} RowFailsInView(q: Query, h: seq<Arrival>, rows: seq<Row>)
    requires WellFormed(q) && RowsOk(q, h, rows)
    ensures RowFails(q, rows) <==> ProjectionFails(q, h)
  {
    hide InView, RowOf;
    if ProjectionFails(q, h) {
      var c: Combo :| InView(q, h, c) && q.project(RowOf(q, h, c)).Err?;
      assert Has(rows, c);
      var i :| 0 <= i < |rows| && rows[i].combo == c;
      assert q.project(rows[i].input).Err?;
    }
    if RowFails(q, rows) {
      var i :| 0 <= i < |rows| && q.project(rows[i].input).Err?;
      assert InView(q, h, rows[i].combo);
    }
  }

  lemma {:induction false} ProjectedIsResult(q: Query, hash: Value -> nat, h: seq<Arrival>, rows: seq<Row>, out: seq<ResultRow>)
    requires WellFormed(q) && RowsOk(q, h, rows) && Projected(q, hash, rows, out)
    ensures IsResult(q, h, RowValues(out))
  {
    hide InView, RowOf, Enumerates;
    RowsAreView(q, h, rows);
    assert ProjectsTo(q, h, Combos(rows), RowValues(out));
  }

  lemma {:induction false} RowsHaveIds(q: Query, h: seq<Arrival>, rows: seq<Row>, links: Links, next: nat)
    requires WellFormed(q) && RowsOk(q, h, rows) && IdsBelow(rows, links, next)
    ensures forall i, j | 0 <= i < j < |rows| :: rows[i].id != rows[j].id
    ensures forall i | 0 <= i < |rows| :: rows[i].id < next
  {
    assert Distinct(rows);
  }

  /** Rows that stay keep their cached result; new rows have ids that were never cached. */
  lemma {:induction false} CacheSurvives(q: Query, hash: Value -> nat, before: seq<Row>, rows: seq<Row>, cache: map<nat, ResultRow>, next: nat)
    requires CacheOk(q, hash, before, cache) && forall id | id in cache :: id < next
    requires forall row | row in rows :: row in before || row.id >= next
    ensures CacheOk(q, hash, rows, cache)
  {
    forall i | 0 <= i < |rows| && rows[i].id in cache
      ensures exists j | 0 <= j < |before| :: before[j] == rows[i]
    {
      assert rows[i] in rows;
    }
  }

  lemma {:induction false} ProjectedHashed(q: Query, hash: Value -> nat, dom: iset<Value>, h: seq<Arrival>, rows: seq<Row>, out: seq<ResultRow>)
    requires WellFormed(q) && RowsOk(q, h, rows) && ViewIn(q, h, dom) && Projected(q, hash, rows, out)
    ensures Hashed(hash, dom, out)
  {
    hide InView, RowOf;
    forall i | 0 <= i < |out| ensures out[i].row in dom && out[i].hash == hash(out[i].row) {
      assert InView(q, h, rows[i].combo) && q.project(RowOf(q, h, rows[i].combo)).Ok?;
    }
  }

  lemma {:induction false} ZeroIsZero(hash: Value -> nat, dom: iset<Value>, rows: seq<ResultRow>)
    requires Hashed(hash, dom, rows)
    ensures SomeZero(rows) <==> ZeroHash(hash, RowValues(rows))
  {
    var vs := RowValues(rows);
    assert forall i | 0 <= i < |rows| :: rows[i].hash == hash(vs[i]);
  }

  // ---- result slices -----------------------------------------------------------------------

  /** Appends to the slice of the first len elements, reusing the storage while it has room. */
  method Append(store: array<ResultRow>, len: nat, x: ResultRow) returns (store': array<ResultRow>)
    requires len <= store.Length
    modifies store
    ensures len < store'.Length && store'[..len + 1] == old(store[..len]) + [x]
    ensures store' == store || fresh(store')
  {
    if len < store.Length {
      store' := store;
    } else {
      store' := new ResultRow[2 * len + 1];
      for i := 0 to len
        invariant store'[..i] == store[..i] && store[..len] == old(store[..len])
        invariant fresh(store')
      {
        store'[i] := store[i];
        assert store'[..i + 1] == store'[..i] + [store[i]];
      }
    }
    assert store'[..len] == old(store[..len]);
    store'[len] := x;
    assert store'[..len + 1] == store'[..len] + [x];
  }

  class Plan {
    const engine: E.Engine
    const emitter: RowEmitter
    const hash: Value -> nat
    /** Results cached per row, by row id. */
    var cache: map<nat, ResultRow>
    /** curResults and prevResults: backing storage and length. */
    var curStore: array<ResultRow>
    var curLen: nat
    var prevStore: array<ResultRow>
    var prevLen: nat

    ghost function Cur(): seq<ResultRow>
      reads this, curStore
      requires curLen <= curStore.Length
    {
      curStore[..curLen]
    }

    ghost function Prev(): seq<ResultRow>
      reads this, prevStore
      requires prevLen <= prevStore.Length
    {
      prevStore[..prevLen]
    }

    /** The two result slices never share storage. */
    ghost predicate SlicesOk()
      reads this
    {
      curLen <= curStore.Length && prevLen <= prevStore.Length && curStore != prevStore
    }

    ghost function Repr(): set<object>
      reads this
    {
      {this, engine, emitter, curStore, prevStore}
    }

    ghost predicate Valid()
      reads this, Repr()
      ensures Valid() ==> SlicesOk()
    {
      && SlicesOk()
      && engine.Valid() && emitter.Valid() && emitter.hash == hash
      && CacheOk(engine.q, hash, engine.rows, cache)
      && (forall id | id in cache :: id < engine.nextId)
      && Hashed(hash, emitter.dom, Cur())
    }

    ghost function State(): PlanState
      reads this, Repr()
      requires SlicesOk()
    {
      PlanState(engine.history, RowValues(Cur()), emitter.hashed)
    }

    constructor (q: Query, e: Emitter, eq: Equality, hash: Value -> nat, ghost dom: iset<Value>)
      requires WellFormed(q) && Lawful(eq, hash, dom)
      ensures Valid() && fresh(Repr())
      ensures engine.q == q && emitter.emitter == e && emitter.eq == eq && this.hash == hash && emitter.dom == dom
      ensures State() == PlanState([], [], [])
    {
      hide Tally, Lawful, WellFormed, B.BuffersOk, RowsOk, IdsBelow, Linked;
      engine := new E.Engine(q);
      emitter := new RowEmitter(e, eq, hash, dom);
      this.hash := hash;
      cache := map[];
      curStore, curLen := new ResultRow[0], 0;
      prevStore, prevLen := new ResultRow[0], 0;
    }

    /** Projects all rows into the storage of the older results. On failure the current results are
        untouched and the partially overwritten storage becomes the one to reuse next. */
    method PerformQueryOnBuffer() returns (ok: bool)
      requires SlicesOk() && CacheOk(engine.q, hash, engine.rows, cache)
      requires forall i, j | 0 <= i < j < |engine.rows| :: engine.rows[i].id != engine.rows[j].id
      requires forall i | 0 <= i < |engine.rows| :: engine.rows[i].id < engine.nextId
      requires forall id | id in cache :: id < engine.nextId
      modifies this, prevStore
      ensures SlicesOk() && CacheOk(engine.q, hash, engine.rows, cache)
      ensures forall id | id in cache :: id < engine.nextId
      ensures curStore == old(curStore) || curStore == old(prevStore) || fresh(curStore)
      ensures prevStore == old(curStore) || prevStore == old(prevStore) || fresh(prevStore)
      ensures ok <==> !RowFails(engine.q, engine.rows)
      ensures ok ==> Projected(engine.q, hash, engine.rows, Cur()) && Prev() == old(Cur())
      ensures !ok ==> Cur() == old(Cur())
    {
      var q, rows := engine.q, engine.rows;
      var output, len := prevStore, 0;
      prevStore, prevLen := curStore, curLen;
      for i := 0 to |rows|
        invariant len == i <= output.Length && output != curStore
        invariant curStore == prevStore == old(curStore) && curLen == prevLen == old(curLen)
        invariant output == old(prevStore) || fresh(output)
        invariant Cur() == old(Cur())
        invariant CacheOk(q, hash, rows, cache)
        invariant forall id | id in cache :: id < engine.nextId
        invariant Projected(q, hash, rows[..i], output[..len])
      {
        var row := rows[i];
        ghost var before := output[..len];
        if row.id in cache {
          output := Append(output, len, cache[row.id]);
        } else {
          var v := q.project(row.input);
          if v.Err? {
            prevStore, prevLen := output, len;
            return false;
          }
          cache := cache[row.id := ResultRow(v.value, hash(v.value))];
          output := Append(output, len, cache[row.id]);
        }
        assert rows[..i + 1] == rows[..i] + [row];
        len := len + 1;
      }
      assert rows[..|rows|] == rows;
      curStore, curLen := output, len;
      return true;
    }

    /** Each call is one step of the declarative semantics. Only the rows that this call projects have
        to lie in the domain. */
    method Process(t: Tuple, now: int) returns (r: Result<seq<Value>>)
      requires Valid() && (Accepts(engine.q, t) ==> ViewIn(engine.q, engine.history + [Arrival(t, now)], emitter.dom))
      modifies Repr()
      ensures Valid() && fresh(Repr() - old(Repr()))
      ensures Step(engine.q, emitter.emitter, emitter.eq, hash, old(State()), t, now, State(), r)
    {
      hide Tally, Lawful, WellFormed, B.BuffersOk, RowsOk, IdsBelow, Linked, StepFails, ProjectionFails, IsResult, ViewIn, Surplus, Accepts;
      ghost var s0 := State();
      var o := engine.Ingest(t, now);
      RowsHaveIds(engine.q, engine.history, engine.rows, engine.links, engine.nextId);
      CacheSurvives(engine.q, hash, old(engine.rows), engine.rows, cache, old(engine.nextId));
      if o != E.Ingested {
        return Err;
      }
      RowFailsInView(engine.q, engine.history, engine.rows);
      var ok := PerformQueryOnBuffer();
      if !ok {
        return Err;
      }
      ProjectedIsResult(engine.q, hash, engine.history, engine.rows, Cur());
      ProjectedHashed(engine.q, hash, emitter.dom, engine.history, engine.rows, Cur());
      ZeroIsZero(hash, emitter.dom, Cur());
      ZeroIsZero(hash, emitter.dom, Prev());
      r := emitter.ComputeResultTuples(curStore[..curLen], prevStore[..prevLen]);
    }
  }
}
