/** What the evaluators compute: laws of flat evaluation, and of the evaluation over a group that
    flattening is measured against, stated without the functions that both are defined with. */
module Evaluation {
  import opened Values
  import opened Flatten

  lemma {:induction false} AllOkIff(rs: seq<Res>, vs: seq<Value>)
    ensures AllOk(rs) == Ok(vs) <==> |rs| == |vs| && forall i | 0 <= i < |rs| :: rs[i] == Ok(vs[i])
    decreases rs
  {
    if |vs| == |rs| && forall i | 0 <= i < |rs| :: rs[i] == Ok(vs[i]) {
      AllOkValues(rs, vs);
    }
    if rs != [] && AllOk(rs) == Ok(vs) {
      var init := AllOk(rs[..|rs| - 1]).value;
      AllOkIff(rs[..|rs| - 1], init);
      assert vs == init + [rs[|rs| - 1].value];
      assert forall i | 0 <= i < |rs| - 1 :: rs[i] == rs[..|rs| - 1][i] == Ok(vs[i]);
    }
  }

  lemma {:induction false} AllOkFails(rs: seq<Res>)
    ensures AllOk(rs).Err? <==> exists i | 0 <= i < |rs| :: rs[i].Err?
  {
    if forall i | 0 <= i < |rs| :: rs[i].Ok? {
      AllOkValues(rs, seq(|rs|, i requires 0 <= i < |rs| => rs[i].value));
    } else if AllOk(rs).Ok? {
      AllOkIff(rs, AllOk(rs).value);
    }
  }

  // ---- leaves ------------------------------------------------------------------------------

  /** Columns, timestamps, the clock, collected arrays and literals. */
  lemma {:induction false} LeafLaw(m: Interp, row: Row, alias: string, column: string, id: string, v: Value, negate: bool)
    ensures Column(alias) in row ==> EvalFlat(m, FRowValue(alias, column), row) == m.path(row[Column(alias)], column)
    ensures Column(alias) !in row ==> EvalFlat(m, FRowValue(alias, column), row).Err?
    ensures EvalFlat(m, FRowMeta(alias), row) == Ok(v) <==> Stamp(alias) in row && row[Stamp(alias)] == v && v.Timestamp?
    ensures EvalFlat(m, FNow, row) == Ok(v) <==> Now in row && row[Now] == v && v.Timestamp?
    ensures EvalFlat(m, FRef(id), row) == Ok(v) <==> Agg(id) in row && row[Agg(id)] == v
    ensures EvalFlat(m, FLiteral(v), row) == Ok(v)
    ensures EvalFlat(m, FMissing(alias, column, negate), row) == Ok(Bool(EvalFlat(m, FRowValue(alias, column), row).Err? != negate))
  {}

  // ---- operators ---------------------------------------------------------------------------

  predicate Logical(r: Res) {
    r.Ok? && (r.value.Null? || r.value.Bool?)
  }

  /** False, unknown, true. */
  function Truth(v: Value): int {
    if v == Bool(true) then 2 else if v == Bool(false) then 0 else 1
  }

  /** OR is the maximum of the truth values; a true left side decides alone. */
  lemma {:induction false} OrLaw(m: Interp, l: Flat, r: Flat, row: Row)
    ensures var a, b, o := EvalFlat(m, l, row), EvalFlat(m, r, row), EvalFlat(m, FBinary("OR", l, r), row);
            && (a == Ok(Bool(true)) ==> o == a)
            && (a != Ok(Bool(true)) ==> (o.Ok? <==> Logical(a) && Logical(b)))
            && (Logical(a) && Logical(b) ==> Logical(o) && Truth(o.value) == if Truth(a.value) < Truth(b.value) then Truth(b.value) else Truth(a.value))
  {}

  /** AND is the minimum of the truth values; a false left side decides alone. */
  lemma {:induction false} AndLaw(m: Interp, l: Flat, r: Flat, row: Row)
    ensures var a, b, o := EvalFlat(m, l, row), EvalFlat(m, r, row), EvalFlat(m, FBinary("AND", l, r), row);
            && (a == Ok(Bool(false)) ==> o == a)
            && (a != Ok(Bool(false)) ==> (o.Ok? <==> Logical(a) && Logical(b)))
            && (Logical(a) && Logical(b) ==> Logical(o) && Truth(o.value) == if Truth(a.value) < Truth(b.value) then Truth(a.value) else Truth(b.value))
  {}

  /** Other operators see the values of both sides in order; casts pass NULL on; errors pass through. */
  lemma {:induction false} OperatorLaw(m: Interp, op: string, l: Flat, r: Flat, target: string, row: Row, v: Value, w: Value)
    ensures op != "OR" && op != "AND" && EvalFlat(m, l, row) == Ok(v) && EvalFlat(m, r, row) == Ok(w) ==>
              EvalFlat(m, FBinary(op, l, r), row) == m.binary(op, v, w)
    ensures op != "OR" && op != "AND" && (EvalFlat(m, l, row).Err? || EvalFlat(m, r, row).Err?) ==> EvalFlat(m, FBinary(op, l, r), row).Err?
    ensures EvalFlat(m, l, row) == Ok(v) ==> EvalFlat(m, FUnary(op, l), row) == m.unary(op, v)
    ensures EvalFlat(m, l, row) == Ok(Null) ==> EvalFlat(m, FCast(l, target), row) == Ok(Null)
    ensures EvalFlat(m, l, row) == Ok(v) && v != Null ==> EvalFlat(m, FCast(l, target), row) == m.cast(target, v)
    ensures EvalFlat(m, l, row).Err? ==> EvalFlat(m, FUnary(op, l), row).Err? && EvalFlat(m, FCast(l, target), row).Err?
  {}

  // ---- CASE --------------------------------------------------------------------------------

  ghost predicate Unequal(m: Interp, reference: Value, ws: seq<Res>, i: nat) {
    i <= |ws| && forall j | 0 <= j < i :: ws[j].Ok? && !m.equal(reference, ws[j].value)
  }

  lemma {:induction false} CaseSkips(m: Interp, reference: Value, ws: seq<Res>, ts: seq<Res>, d: Res, i: nat)
    requires |ts| == |ws| && Unequal(m, reference, ws, i)
    ensures CaseRes(m, Ok(reference), ws, ts, d) == CaseRes(m, Ok(reference), ws[i..], ts[i..], d)
    decreases i
  {
    if i == 0 {
      assert ws[0..] == ws && ts[0..] == ts;
    } else {
      assert !m.equal(reference, ws[0].value);
      assert forall j | 0 <= j < i - 1 :: ws[1..][j] == ws[j + 1];
      CaseSkips(m, reference, ws[1..], ts[1..], d, i - 1);
      assert ws[1..][i - 1..] == ws[i..] && ts[1..][i - 1..] == ts[i..];
    }
  }

  /** The first WHEN that is equal to the reference decides, if none before it fails; without one the
      default does; a WHEN that is reached and fails is an error. */
  lemma {:induction false} CaseLaw(m: Interp, reference: Flat, whens: seq<Flat>, thens: seq<Flat>, otherwise: Flat, row: Row, i: nat)
    requires |thens| == |whens| && i <= |whens|
    requires EvalFlat(m, reference, row).Ok?
    requires forall j | 0 <= j < i :: EvalFlat(m, whens[j], row).Ok? && !m.equal(EvalFlat(m, reference, row).value, EvalFlat(m, whens[j], row).value)
    ensures var o := EvalFlat(m, FCase(reference, whens, thens, otherwise), row);
            && (i == |whens| ==> o == EvalFlat(m, otherwise, row))
            && (i < |whens| && EvalFlat(m, whens[i], row).Err? ==> o.Err?)
            && (i < |whens| && EvalFlat(m, whens[i], row).Ok? && m.equal(EvalFlat(m, reference, row).value, EvalFlat(m, whens[i], row).value) ==>
                  o == EvalFlat(m, thens[i], row))
  {
    var r, ws, ts := EvalFlat(m, reference, row).value, EvalFlats(m, whens, row), EvalFlats(m, thens, row);
    CaseSkips(m, r, ws, ts, EvalFlat(m, otherwise, row), i);
  }

  lemma {:induction false} CaseReferenceFails(m: Interp, reference: Flat, whens: seq<Flat>, thens: seq<Flat>, otherwise: Flat, row: Row)
    requires EvalFlat(m, reference, row).Err?
    ensures EvalFlat(m, FCase(reference, whens, thens, otherwise), row).Err?
  {}

  /** The same for the original over a group. CASE without a reference compares with true, and without a
      default yields NULL. */
  lemma {:induction false} GroupCaseLaw(m: Interp, e: Expr, rows: seq<Row>, r: Value, i: nat)
    requires rows != [] && e.Case? && |e.thens| == |e.whens| && i <= |e.whens|
    requires if e.reference.Some? then EvalGroup(m, e.reference.value, rows) == Ok(r) else r == Bool(true)
    requires forall j | 0 <= j < i :: EvalGroup(m, e.whens[j], rows).Ok? && !m.equal(r, EvalGroup(m, e.whens[j], rows).value)
    ensures i == |e.whens| ==> EvalGroup(m, e, rows) == if e.otherwise.Some? then EvalGroup(m, e.otherwise.value, rows) else Ok(Null)
    ensures i < |e.whens| && EvalGroup(m, e.whens[i], rows).Err? ==> EvalGroup(m, e, rows).Err?
    ensures i < |e.whens| && EvalGroup(m, e.whens[i], rows).Ok? && m.equal(r, EvalGroup(m, e.whens[i], rows).value) ==>
              EvalGroup(m, e, rows) == EvalGroup(m, e.thens[i], rows)
  {
    var ws, ts := EvalGroups(m, e.whens, rows), EvalGroups(m, e.thens, rows);
    CaseSkips(m, r, ws, ts, if e.otherwise.Some? then EvalGroup(m, e.otherwise.value, rows) else Ok(Null), i);
  }

  // ---- calls, arrays and maps --------------------------------------------------------------

  /** Functions get the values of their arguments in order, arrays those of their elements. */
  lemma {:induction false} CallLaw(m: Interp, f: string, args: seq<Flat>, selector: string, row: Row, vs: seq<Value>)
    requires |vs| == |args| && forall i | 0 <= i < |args| :: EvalFlat(m, args[i], row) == Ok(vs[i])
    ensures EvalFlat(m, FCall(f, args), row) == m.call(f, vs)
    ensures EvalFlat(m, FArray(args), row) == Ok(Array(vs))
    ensures m.call(f, vs).Ok? ==> EvalFlat(m, FSelected(FCall(f, args), selector), row) == m.select(selector, m.call(f, vs).value)
  {
    AllOkIff(EvalFlats(m, args, row), vs);
  }

  lemma {:induction false} ArgumentFails(m: Interp, f: string, args: seq<Flat>, names: seq<string>, row: Row, i: nat)
    requires i < |args| && EvalFlat(m, args[i], row).Err?
    ensures EvalFlat(m, FCall(f, args), row).Err? && EvalFlat(m, FArray(args), row).Err? && EvalFlat(m, FMap(names, args), row).Err?
  {
    var rs := EvalFlats(m, args, row);
    assert rs[i].Err?;
    AllOkFails(rs);
  }

  ghost predicate LastAt(names: seq<string>, i: nat) {
    i < |names| && forall j | i < j < |names| :: names[j] != names[i]
  }

  lemma {:induction false} EntriesKeys(names: seq<string>, vs: seq<Value>, name: string)
    requires |names| == |vs|
    ensures name in Entries(names, vs) <==> name in names
    decreases names
  {
    if names != [] {
      var l := |names| - 1;
      EntriesKeys(names[..l], vs[..l], name);
      assert names == names[..l] + [names[l]];
    }
  }

  lemma {:induction false} EntriesLast(names: seq<string>, vs: seq<Value>, i: nat)
    requires |names| == |vs| && LastAt(names, i)
    ensures names[i] in Entries(names, vs) && Entries(names, vs)[names[i]] == vs[i]
    decreases names
  {
    var l := |names| - 1;
    if i < l {
      EntriesLast(names[..l], vs[..l], i);
      assert names[l] != names[i];
    }
  }

  lemma {:induction false} EntriesLaw(names: seq<string>, vs: seq<Value>)
    requires |names| == |vs|
    ensures forall name :: name in Entries(names, vs) <==> name in names
    ensures forall i: nat | LastAt(names, i) :: Entries(names, vs)[names[i]] == vs[i]
  {
    hide Entries, LastAt;
    forall name ensures name in Entries(names, vs) <==> name in names { EntriesKeys(names, vs, name); }
    forall i: nat | LastAt(names, i) ensures i < |names| && names[i] in Entries(names, vs) && Entries(names, vs)[names[i]] == vs[i] {
      LastIsName(names, i);
      EntriesLast(names, vs, i);
    }
  }

  lemma {:induction false} LastIsName(names: seq<string>, i: nat)
    requires LastAt(names, i)
    ensures i < |names|
  {}

  /** A map has exactly the given names; the last entry given for a name counts. */
  lemma {:induction false} MapLaw(m: Interp, names: seq<string>, elems: seq<Flat>, row: Row, vs: seq<Value>)
    requires |names| == |elems| == |vs| && forall i | 0 <= i < |elems| :: EvalFlat(m, elems[i], row) == Ok(vs[i])
    ensures var o := EvalFlat(m, FMap(names, elems), row);
            && o.Ok? && o.value.Map? && (forall name :: name in o.value.entries <==> name in names)
            && forall i: nat | LastAt(names, i) :: o.value.entries[names[i]] == vs[i]
  {
    hide LastAt, Entries;
    AllOkIff(EvalFlats(m, elems, row), vs);
    EntriesLaw(names, vs);
  }

  // ---- the same for the original over a group ----------------------------------------------

  /** What is not an aggregate takes its columns, timestamps and wildcards from the first row. */
  lemma {:induction false} GroupLeafLaw(m: Interp, rows: seq<Row>, alias: string, column: string, v: Value)
    requires rows != []
    ensures Column(alias) in rows[0] ==> EvalGroup(m, RowValue(alias, column), rows) == m.path(rows[0][Column(alias)], column)
    ensures Column(alias) !in rows[0] ==> EvalGroup(m, RowValue(alias, column), rows).Err?
    ensures EvalGroup(m, RowMeta(alias), rows) == Ok(v) <==> Stamp(alias) in rows[0] && rows[0][Stamp(alias)] == v && v.Timestamp?
    ensures EvalGroup(m, FuncApp("now", [], []), rows) == Ok(v) <==> Now in rows[0] && rows[0][Now] == v && v.Timestamp?
    ensures EvalGroup(m, Literal(v), rows) == Ok(v)
    ensures EvalGroup(m, Wildcard(alias), rows) == m.wildcard(rows[0], alias)
    ensures EvalGroup(m, Binary("IS", RowValue(alias, column), Missing), rows) == Ok(Bool(EvalGroup(m, RowValue(alias, column), rows).Err?))
    ensures EvalGroup(m, Binary("IS NOT", RowValue(alias, column), Missing), rows) == Ok(Bool(EvalGroup(m, RowValue(alias, column), rows).Ok?))
  {}

  lemma {:induction false} GroupLogicLaw(m: Interp, l: Expr, r: Expr, rows: seq<Row>, v: Value, w: Value)
    requires rows != [] && !r.Missing? && EvalGroup(m, l, rows) == Ok(v) && EvalGroup(m, r, rows) == Ok(w)
    requires Logical(Ok(v)) && Logical(Ok(w))
    ensures var o, a := EvalGroup(m, Binary("OR", l, r), rows), EvalGroup(m, Binary("AND", l, r), rows);
            && Logical(o) && Truth(o.value) == (if Truth(v) < Truth(w) then Truth(w) else Truth(v))
            && Logical(a) && Truth(a.value) == (if Truth(v) < Truth(w) then Truth(v) else Truth(w))
  {
    var o, a := EvalGroup(m, Binary("OR", l, r), rows), EvalGroup(m, Binary("AND", l, r), rows);
    assert o == OrRes(Ok(v), Ok(w)) && a == AndRes(Ok(v), Ok(w));
    hide EvalGroup;
  }

  lemma {:induction false} GroupOperatorLaw(m: Interp, op: string, l: Expr, r: Expr, target: string, rows: seq<Row>, v: Value, w: Value)
    requires rows != [] && !r.Missing? && EvalGroup(m, l, rows) == Ok(v) && EvalGroup(m, r, rows) == Ok(w)
    ensures op != "OR" && op != "AND" ==> EvalGroup(m, Binary(op, l, r), rows) == m.binary(op, v, w)
    ensures EvalGroup(m, Unary(op, l), rows) == m.unary(op, v)
    ensures EvalGroup(m, Cast(l, target), rows) == if v.Null? then Ok(Null) else m.cast(target, v)
    ensures EvalGroup(m, Alias(l), rows) == Ok(v)
    ensures EvalGroup(m, Selected(l, target), rows) == m.select(target, v)
  {
    hide OrRes, AndRes;
  }

  lemma {:induction false} GroupListLaw(m: Interp, names: seq<string>, elems: seq<Expr>, rows: seq<Row>, vs: seq<Value>)
    requires rows != [] && |names| == |elems| == |vs| && forall i | 0 <= i < |elems| :: EvalGroup(m, elems[i], rows) == Ok(vs[i])
    ensures EvalGroup(m, MakeArray(elems), rows) == Ok(Array(vs))
    ensures var o := EvalGroup(m, MakeMap(names, elems), rows);
            && o.Ok? && o.value.Map? && (forall name :: name in o.value.entries <==> name in names)
            && forall i: nat | LastAt(names, i) :: o.value.entries[names[i]] == vs[i]
  {
    hide LastAt, Entries;
    AllOkIff(EvalGroups(m, elems, rows), vs);
    EntriesLaw(names, vs);
  }

  /** No aggregate occurs in the expression. */
  predicate Scalar(m: Interp, e: Expr) {
    match e
    case Alias(x) => Scalar(m, x)
    case Binary(_, l, r) => Scalar(m, l) && Scalar(m, r)
    case Unary(_, x) => Scalar(m, x)
    case Cast(x, _) => Scalar(m, x)
    case FuncApp(f, args, _) => !IsAggregate(m, f, |args|) && Scalars(m, args)
    case Selected(app, _) => Scalar(m, app)
    case MakeArray(elems) => Scalars(m, elems)
    case MakeMap(_, elems) => Scalars(m, elems)
    case Case(reference, whens, thens, otherwise) =>
      Scalars(m, whens) && Scalars(m, thens) && (reference.Some? ==> Scalar(m, reference.value)) && (otherwise.Some? ==> Scalar(m, otherwise.value))
    case _ => true
  }

  predicate Scalars(m: Interp, es: seq<Expr>) {
    forall i | 0 <= i < |es| :: Scalar(m, es[i])
  }

  lemma {:induction false} ScalarsSeeFirst(m: Interp, es: seq<Expr>, rows: seq<Row>)
    requires rows != [] && Scalars(m, es)
    ensures EvalGroups(m, es, rows) == EvalRows(m, es, rows[0])
    decreases es, 0
  {
    hide EvalGroup, EvalRow, Scalar;
    forall i | 0 <= i < |es| ensures EvalGroup(m, es[i], rows) == EvalRow(m, es[i], rows[0]) {
      ScalarSeesFirst(m, es[i], rows);
    }
  }

  /** Without aggregates the value over a group is the value on its first row. */
  lemma {:induction false} ScalarSeesFirst(m: Interp, e: Expr, rows: seq<Row>)
    requires rows != [] && Scalar(m, e)
    ensures EvalGroup(m, e, rows) == EvalRow(m, e, rows[0])
    decreases e, 1
  {
    hide EvalGroups, EvalRows, Scalars, IsAggregate;
    match e
    case Alias(x) => ScalarSeesFirst(m, x, rows);
    case Binary(_, l, r) =>
      ScalarSeesFirst(m, l, rows);
      ScalarSeesFirst(m, r, rows);
    case Unary(_, x) => ScalarSeesFirst(m, x, rows);
    case Cast(x, _) => ScalarSeesFirst(m, x, rows);
    case FuncApp(_, args, _) => ScalarsSeeFirst(m, args, rows);
    case Selected(app, _) => ScalarSeesFirst(m, app, rows);
    case MakeArray(elems) => ScalarsSeeFirst(m, elems, rows);
    case MakeMap(_, elems) => ScalarsSeeFirst(m, elems, rows);
    case Case(reference, whens, thens, otherwise) =>
      ScalarsSeeFirst(m, whens, rows);
      ScalarsSeeFirst(m, thens, rows);
      if reference.Some? { ScalarSeesFirst(m, reference.value, rows); }
      if otherwise.Some? { ScalarSeesFirst(m, otherwise.value, rows); }
    case _ =>
  }

  // ---- aggregates --------------------------------------------------------------------------

  ghost predicate ColumnValues(m: Interp, e: Expr, rows: seq<Row>, ws: seq<Value>) {
    |ws| == |rows| && forall j | 0 <= j < |rows| :: EvalRow(m, e, rows[j]) == Ok(ws[j])
  }

  lemma {:induction false} ColumnValuesOver(m: Interp, e: Expr, rows: seq<Row>, ws: seq<Value>)
    requires ColumnValues(m, e, rows, ws)
    ensures ValuesOver(m, e, rows) == Ok(ws)
  {
    hide EvalRow;
    AllOkIff(seq(|rows|, j requires 0 <= j < |rows| => EvalRow(m, e, rows[j])), ws);
  }

  /** What an aggregate is called with: the values of all rows, in row order, for an aggregation parameter,
      and the value on the first row for any other. */
  ghost predicate Argument(m: Interp, f: string, i: nat, e: Expr, rows: seq<Row>, v: Value)
    requires rows != []
  {
    if m.aggregates(f, i) then v.Array? && ColumnValues(m, e, rows, v.elems) else EvalRow(m, e, rows[0]) == Ok(v)
  }

  lemma {:induction false} AggregateIs(m: Interp, f: string, args: seq<Expr>, ordering: seq<SortKey>, rows: seq<Row>, k: nat)
    requires rows != [] && k < |args| && m.aggregates(f, k)
    ensures EvalGroup(m, FuncApp(f, args, ordering), rows) == Aggregate(m, f, Star(f, args), ordering, rows)
  {
    hide Star, Aggregate;
    assert IsAggregate(m, f, |args|);
  }

  lemma {:induction false} AggregateFeeds(m: Interp, f: string, args: seq<Expr>, rows: seq<Row>, vs: seq<Value>)
    requires rows != [] && |args| == |vs| && forall i | 0 <= i < |args| :: Argument(m, f, i, args[i], rows, vs[i])
    ensures Aggregate(m, f, args, [], rows) == m.call(f, vs)
  {
    hide EvalRow, ColumnValues, ValuesOver, AllOk;
    var rs := AggregateArgs(m, f, args, rows, None);
    forall i | 0 <= i < |args| ensures rs[i] == Ok(vs[i]) {
      assert Argument(m, f, i, args[i], rows, vs[i]);
      if m.aggregates(f, i) { ColumnValuesOver(m, args[i], rows, vs[i].elems); }
    }
    AllOkIff(rs, vs);
  }

  lemma {:induction false} AggregateLaw(m: Interp, f: string, args: seq<Expr>, rows: seq<Row>, k: nat, vs: seq<Value>)
    requires rows != [] && k < |args| == |vs| && m.aggregates(f, k) && forall i | 0 <= i < |args| :: !args[i].Wildcard?
    requires forall i | 0 <= i < |args| :: Argument(m, f, i, args[i], rows, vs[i])
    ensures EvalGroup(m, FuncApp(f, args, []), rows) == m.call(f, vs)
  {
    assert Star(f, args) == args;
    hide *;
    AggregateIs(m, f, args, [], rows, k);
    AggregateFeeds(m, f, args, rows, vs);
  }

  lemma {:induction false} OnePerRow(m: Interp, rows: seq<Row>)
    requires rows != [] && m.aggregates("count", 0)
    ensures Argument(m, "count", 0, Literal(Int(1)), rows, Array(seq(|rows|, _ => Int(1))))
  {}

  /** count(*) is called with one non-NULL value per row. */
  lemma {:induction false} CountStarLaw(m: Interp, alias: string, rows: seq<Row>)
    requires rows != [] && m.aggregates("count", 0)
    ensures EvalGroup(m, FuncApp("count", [Wildcard(alias)], []), rows) == m.call("count", [Array(seq(|rows|, _ => Int(1)))])
  {
    assert Star("count", [Wildcard(alias)]) == [Literal(Int(1))];
    hide *;
    AggregateIs(m, "count", [Wildcard(alias)], [], rows, 0);
    OnePerRow(m, rows);
    AggregateFeeds(m, "count", [Literal(Int(1))], rows, [Array(seq(|rows|, _ => Int(1)))]);
  }

  /** A function without aggregation parameters gets the values of its arguments over the group. */
  lemma {:induction false} OrdinaryCallLaw(m: Interp, f: string, args: seq<Expr>, ordering: seq<SortKey>, rows: seq<Row>, vs: seq<Value>)
    requires rows != [] && !(f == "now" && args == []) && |vs| == |args|
    requires forall i | 0 <= i < |args| :: !m.aggregates(f, i) && EvalGroup(m, args[i], rows) == Ok(vs[i])
    ensures EvalGroup(m, FuncApp(f, args, ordering), rows) == m.call(f, vs)
  {
    assert !IsAggregate(m, f, |args|);
    AllOkIff(EvalGroups(m, args, rows), vs);
  }

  ghost predicate SortKeys(m: Interp, ordering: seq<SortKey>, rows: seq<Row>, keys: seq<(seq<Value>, bool)>) {
    |keys| == |ordering| && forall i | 0 <= i < |ordering| :: ColumnValues(m, ordering[i].expr, rows, keys[i].0) && keys[i].1 == ordering[i].ascending
  }

  lemma {:induction false} OrderDataLaw(m: Interp, ordering: seq<SortKey>, rows: seq<Row>, keys: seq<(seq<Value>, bool)>)
    requires SortKeys(m, ordering, rows, keys)
    ensures OrderData(m, ordering, rows) == Ok(keys)
    decreases ordering
  {
    hide ColumnValues, ValuesOver;
    if ordering != [] {
      var l := |ordering| - 1;
      OrderDataLaw(m, ordering[..l], rows, keys[..l]);
      ColumnValuesOver(m, ordering[l].expr, rows, keys[l].0);
      assert keys == keys[..l] + [keys[l]];
    }
  }

  /** The arrangement puts each row in one place and follows the sort. */
  ghost predicate Arranges(perm: seq<nat>, ws: seq<Value>, sorted: seq<Value>) {
    |perm| == |ws| == |sorted| && forall j | 0 <= j < |perm| :: perm[j] < |ws| && sorted[j] == ws[perm[j]]
  }

  lemma {:induction false} Permuted(ws: seq<Value>, perm: seq<nat>, sorted: seq<Value>)
    requires Arranges(perm, ws, sorted)
    ensures Permute(ws, perm) == Ok(sorted)
  {
    assert Permute(ws, perm).value == sorted;
  }

  /** With ORDER BY, position j of an aggregation parameter holds the value of the row that the sort by the
      keys, in the order in which they are given, puts at j. */
  lemma {:induction false} OrderedAggregateLaw(m: Interp, f: string, a: Expr, ordering: seq<SortKey>, rows: seq<Row>,
                                               keys: seq<(seq<Value>, bool)>, ws: seq<Value>, sorted: seq<Value>)
    requires rows != [] && ordering != [] && m.aggregates(f, 0) && !a.Wildcard? && SortKeys(m, ordering, rows, keys)
    requires ColumnValues(m, a, rows, ws) && Arranges(m.sort(keys), ws, sorted)
    ensures EvalGroup(m, FuncApp(f, [a], ordering), rows) == m.call(f, [Array(sorted)])
  {
    hide EvalRow, ColumnValues, ValuesOver, SortKeys, OrderData, Arranges, Permute;
    assert Star(f, [a]) == [a];
    AggregateIs(m, f, [a], ordering, rows, 0);
    hide EvalGroup;
    OrderDataLaw(m, ordering, rows, keys);
    ColumnValuesOver(m, a, rows, ws);
    Permuted(ws, m.sort(keys), sorted);
    var rs := AggregateArgs(m, f, [a], rows, Some(m.sort(keys)));
    assert rs == [Ok(Array(sorted))];
    AllOkIff(rs, [Array(sorted)]);
  }

  // ---- the order of sorted arguments -------------------------------------------------------

  /** Whether row i sorts before row j: by the first key on which they are not equal. */
  ghost predicate Precedes(m: Interp, less: (Value, Value) -> bool, keys: seq<(seq<Value>, bool)>, i: nat, j: nat)
    requires forall k | 0 <= k < |keys| :: i < |keys[k].0| && j < |keys[k].0|
  {
    keys != [] &&
    var x, y := keys[0].0[i], keys[0].0[j];
    if m.equal(x, y) then Precedes(m, less, keys[1..], i, j)
    else if keys[0].1 then less(x, y) else less(y, x)
  }

  ghost predicate Decides(m: Interp, less: (Value, Value) -> bool, keys: seq<(seq<Value>, bool)>, i: nat, j: nat, k: nat)
    requires forall k | 0 <= k < |keys| :: i < |keys[k].0| && j < |keys[k].0|
  {
    && k < |keys| && (forall l | 0 <= l < k :: m.equal(keys[l].0[i], keys[l].0[j])) && !m.equal(keys[k].0[i], keys[k].0[j])
    && if keys[k].1 then less(keys[k].0[i], keys[k].0[j]) else less(keys[k].0[j], keys[k].0[i])
  }

  lemma {:induction false} PrecedesIff(m: Interp, less: (Value, Value) -> bool, keys: seq<(seq<Value>, bool)>, i: nat, j: nat)
    requires forall k | 0 <= k < |keys| :: i < |keys[k].0| && j < |keys[k].0|
    ensures Precedes(m, less, keys, i, j) <==> exists k: nat :: Decides(m, less, keys, i, j, k)
    decreases keys
  {
    if keys != [] && m.equal(keys[0].0[i], keys[0].0[j]) {
      PrecedesIff(m, less, keys[1..], i, j);
      if k: nat :| Decides(m, less, keys[1..], i, j, k) { assert Decides(m, less, keys, i, j, k + 1); }
      if k: nat :| Decides(m, less, keys, i, j, k) { assert Decides(m, less, keys[1..], i, j, k - 1); }
    } else if Precedes(m, less, keys, i, j) {
      assert Decides(m, less, keys, i, j, 0);
    }
  }

  ghost predicate SameLength(keys: seq<(seq<Value>, bool)>, n: nat) {
    keys != [] && forall k | 0 <= k < |keys| :: |keys[k].0| == n
  }

  /** The arrangement has every row once, none before a row that sorts before it. */
  ghost predicate InOrder(m: Interp, less: (Value, Value) -> bool, keys: seq<(seq<Value>, bool)>, n: nat, perm: seq<nat>)
    requires SameLength(keys, n)
  {
    && |perm| == n && (forall a | 0 <= a < n :: perm[a] < n) && (forall a, b | 0 <= a < b < n :: perm[a] != perm[b])
    && forall a, b | 0 <= a < b < n :: !Precedes(m, less, keys, perm[b], perm[a])
  }

  /** What the sorting routine of the runtime promises. */
  ghost predicate Sorts(m: Interp, less: (Value, Value) -> bool) {
    forall keys, n: nat | SameLength(keys, n) :: InOrder(m, less, keys, n, m.sort(keys))
  }

  /** An aggregate with ORDER BY gets the values of all rows, each once, in the order of the keys. */
  lemma {:induction false} AggregateSeesOrder(m: Interp, less: (Value, Value) -> bool, f: string, a: Expr, ordering: seq<SortKey>,
                                              rows: seq<Row>, keys: seq<(seq<Value>, bool)>, ws: seq<Value>)
    returns (perm: seq<nat>, sorted: seq<Value>)
    requires Sorts(m, less) && rows != [] && ordering != [] && m.aggregates(f, 0) && !a.Wildcard?
    requires SortKeys(m, ordering, rows, keys) && ColumnValues(m, a, rows, ws)
    ensures SameLength(keys, |rows|) && InOrder(m, less, keys, |rows|, perm) && Arranges(perm, ws, sorted)
    ensures EvalGroup(m, FuncApp(f, [a], ordering), rows) == m.call(f, [Array(sorted)])
  {
    hide EvalRow, EvalGroup;
    assert SameLength(keys, |rows|);
    perm := m.sort(keys);
    assert InOrder(m, less, keys, |rows|, perm);
    sorted := seq(|rows|, j requires 0 <= j < |rows| => ws[perm[j]]);
    OrderedAggregateLaw(m, f, a, ordering, rows, keys, ws, sorted);
  }

  ghost predicate SortArrays(row: Row, ordering: seq<(string, bool)>, keys: seq<(seq<Value>, bool)>) {
    && |keys| == |ordering|
    && forall i | 0 <= i < |ordering| :: Agg(ordering[i].0) in row && row[Agg(ordering[i].0)] == Array(keys[i].0) && keys[i].1 == ordering[i].1
  }

  lemma {:induction false} SortDataLaw(row: Row, ordering: seq<(string, bool)>, keys: seq<(seq<Value>, bool)>)
    requires SortArrays(row, ordering, keys)
    ensures SortData(row, ordering) == Ok(keys)
    decreases ordering
  {
    if ordering != [] {
      var l := |ordering| - 1;
      SortDataLaw(row, ordering[..l], keys[..l]);
      assert keys == keys[..l] + [keys[l]];
    }
  }

  /** The flat form of the same: the collected array is rearranged by the sort of the collected keys, and one
      of a different length is an error. */
  lemma {:induction false} SortedCallLaw(m: Interp, f: string, id: string, ordering: seq<(string, bool)>, row: Row,
                                         keys: seq<(seq<Value>, bool)>, ws: seq<Value>, sorted: seq<Value>)
    requires ordering != [] && SortArrays(row, ordering, keys) && Agg(id) in row && row[Agg(id)] == Array(ws)
    ensures Arranges(m.sort(keys), ws, sorted) ==> EvalFlat(m, FSortedCall(f, [FRef(id)], ordering), row) == m.call(f, [Array(sorted)])
    ensures |m.sort(keys)| != |ws| ==> EvalFlat(m, FSortedCall(f, [FRef(id)], ordering), row).Err?
  {
    hide SortArrays, Arranges;
    SortDataLaw(row, ordering, keys);
    var rs := EvalSorted(m, [FRef(id)], row, m.sort(keys));
    assert rs[0] == SortedArg(row, id, m.sort(keys));
    if Arranges(m.sort(keys), ws, sorted) {
      Permuted(ws, m.sort(keys), sorted);
      AllOkIff(rs, [Array(sorted)]);
    }
    if |m.sort(keys)| != |ws| {
      assert rs[0].Err?;
      AllOkFails(rs);
    }
  }
}
