/** Splitting an expression with aggregates into a flat expression and the aggregate inputs it refers
    to, and why evaluating the two parts separately means the same as evaluating the original. */
module Flatten {
  import opened Values

  datatype Option<+T> = None | Some(value: T)

  /** The keys of an input row: aliases, per-alias timestamps, the clock, and collected arrays. The
      strings that stand for these in the engine are taken to be different. */
  datatype Key = Column(alias: string) | Stamp(alias: string) | Now | Agg(id: string)

  type Row = map<Key, Value>

  datatype SortKey = SortKey(expr: Expr, ascending: bool)

  /** Expressions as parsed. */
  datatype Expr =
    | RowMeta(alias: string)
    | RowValue(alias: string, column: string)
    | Alias(expr: Expr)
    | Literal(value: Value)
    | Missing
    | Binary(op: string, left: Expr, right: Expr)
    | Unary(op: string, expr: Expr)
    | Cast(expr: Expr, target: string)
    | FuncApp(name: string, args: seq<Expr>, ordering: seq<SortKey>)
    | Selected(app: Expr, selector: string)
    | MakeArray(elems: seq<Expr>)
    | MakeMap(names: seq<string>, elems: seq<Expr>)
    | Case(reference: Option<Expr>, whens: seq<Expr>, thens: seq<Expr>, otherwise: Option<Expr>)
    | Wildcard(alias: string)

  /** Expressions that are evaluated on a single row. */
  datatype Flat =
    | FRowMeta(alias: string)
    | FNow
    | FRowValue(alias: string, column: string)
    | FRef(id: string)
    | FLiteral(value: Value)
    | FMissing(alias: string, column: string, negate: bool)
    | FBinary(op: string, left: Flat, right: Flat)
    | FUnary(op: string, expr: Flat)
    | FCast(expr: Flat, target: string)
    | FCall(name: string, args: seq<Flat>)
    | FSortedCall(name: string, args: seq<Flat>, ordering: seq<(string, bool)>)
    | FSelected(app: Flat, selector: string)
    | FArray(elems: seq<Flat>)
    | FMap(names: seq<string>, elems: seq<Flat>)
    | FCase(reference: Flat, whens: seq<Flat>, thens: seq<Flat>, otherwise: Flat)
    | FWildcard(alias: string)

  /** Everything the surrounding system supplies: operators, functions, paths, and the naming of
      aggregate inputs by their expression and index. */
  datatype Interp = Interp(
    path: (Value, string) -> Result<Value>,
    binary: (string, Value, Value) -> Result<Value>,
    unary: (string, Value) -> Result<Value>,
    cast: (string, Value) -> Result<Value>,
    call: (string, seq<Value>) -> Result<Value>,
    select: (string, Value) -> Result<Value>,
    equal: (Value, Value) -> bool,
    wildcard: (Row, string) -> Result<Value>,
    sort: seq<(seq<Value>, bool)> -> seq<nat>,
    known: (string, nat) -> bool,
    aggregates: (string, nat) -> bool,
    id: (Flat, nat) -> string)

  predicate IsAggregate(m: Interp, f: string, arity: nat) {
    exists k | 0 <= k < arity :: m.aggregates(f, k)
  }

  // ---- results of operators ----------------------------------------------------------------

  type Res = Result<Value>

  function AllOk(rs: seq<Res>): Result<seq<Value>> {
    if rs == [] then Ok([]) else
      var init :- AllOk(rs[..|rs| - 1]);
      var last :- rs[|rs| - 1];
      Ok(init + [last])
  }

  function StampOf(row: Row, key: Key): Res {
    if key in row && row[key].Timestamp? then Ok(row[key]) else Err
  }

  function ColumnOf(m: Interp, row: Row, alias: string, column: string): Res {
    if Column(alias) in row then m.path(row[Column(alias)], column) else Err
  }

  /** Three-valued OR; the right side is not consulted when the left side decides. */
  function OrRes(l: Res, r: Res): Res {
    match l
    case Ok(Bool(true)) => Ok(Bool(true))
    case Ok(Bool(false)) => (match r case Ok(Null) => Ok(Null) case Ok(Bool(b)) => Ok(Bool(b)) case _ => Err)
    case Ok(Null) => (match r case Ok(Bool(true)) => Ok(Bool(true)) case Ok(Bool(false)) => Ok(Null) case Ok(Null) => Ok(Null) case _ => Err)
    case _ => Err
  }

  /** Three-valued AND. */
  function AndRes(l: Res, r: Res): Res {
    match l
    case Ok(Bool(false)) => Ok(Bool(false))
    case Ok(Bool(true)) => (match r case Ok(Null) => Ok(Null) case Ok(Bool(b)) => Ok(Bool(b)) case _ => Err)
    case Ok(Null) => (match r case Ok(Bool(false)) => Ok(Bool(false)) case Ok(Bool(true)) => Ok(Null) case Ok(Null) => Ok(Null) case _ => Err)
    case _ => Err
  }

  function BinaryRes(m: Interp, op: string, l: Res, r: Res): Res {
    if op == "OR" then OrRes(l, r)
    else if op == "AND" then AndRes(l, r)
    else if l.Ok? && r.Ok? then m.binary(op, l.value, r.value) else Err
  }

  function UnaryRes(m: Interp, op: string, e: Res): Res {
    var v :- e;
    m.unary(op, v)
  }

  function CastRes(m: Interp, target: string, e: Res): Res {
    var v :- e;
    if v.Null? then Ok(Null) else m.cast(target, v)
  }

  function CallRes(m: Interp, f: string, args: seq<Res>): Res {
    var vs :- AllOk(args);
    m.call(f, vs)
  }

  function SelectRes(m: Interp, selector: string, e: Res): Res {
    var v :- e;
    m.select(selector, v)
  }

  function ArrayRes(rs: seq<Res>): Res {
    var vs :- AllOk(rs);
    Ok(Array(vs))
  }

  function Entries(names: seq<string>, vs: seq<Value>): map<string, Value> {
    if names == [] || |vs| != |names| then map[]
    else Entries(names[..|names| - 1], vs[..|vs| - 1])[names[|names| - 1] := vs[|vs| - 1]]
  }

  function MapRes(names: seq<string>, rs: seq<Res>): Res {
    var vs :- AllOk(rs);
    Ok(Map(Entries(names, vs)))
  }

  /** CASE: the first WHEN equal to the reference decides; later ones are not consulted. */
  function CaseRes(m: Interp, reference: Res, whens: seq<Res>, thens: seq<Res>, otherwise: Res): Res {
    if reference.Err? then Err
    else if whens == [] || |thens| != |whens| then otherwise
    else if whens[0].Err? then Err
    else if m.equal(reference.value, whens[0].value) then thens[0]
    else CaseRes(m, reference, whens[1..], thens[1..], otherwise)
  }

  /** Rearranges an array by a list of indices; arrays of another length are an error. */
  function Permute(vs: seq<Value>, perm: seq<nat>): Result<seq<Value>> {
    if |perm| == |vs| && forall i | 0 <= i < |perm| :: perm[i] < |vs| then
      Ok(seq(|perm|, i requires 0 <= i < |perm| => vs[perm[i]]))
    else Err
  }

  // ---- flat evaluation ---------------------------------------------------------------------

  /** The array stored under an aggregate id. */
  function ArrayAt(row: Row, id: string): Result<seq<Value>> {
    if Agg(id) in row && row[Agg(id)].Array? then Ok(row[Agg(id)].elems) else Err
  }

  function SortData(row: Row, ordering: seq<(string, bool)>): Result<seq<(seq<Value>, bool)>> {
    if ordering == [] then Ok([]) else
      var l := |ordering| - 1;
      var init :- SortData(row, ordering[..l]);
      var vs :- ArrayAt(row, ordering[l].0);
      Ok(init + [(vs, ordering[l].1)])
  }

  function SortedArg(row: Row, id: string, perm: seq<nat>): Res {
    var vs :- ArrayAt(row, id);
    var sorted :- Permute(vs, perm);
    Ok(Array(sorted))
  }

  function EvalFlat(m: Interp, e: Flat, row: Row): Res
    decreases e, 1
  {
    match e
    case FRowMeta(alias) => StampOf(row, Stamp(alias))
    case FNow => StampOf(row, Now)
    case FRowValue(alias, column) => ColumnOf(m, row, alias, column)
    case FRef(id) => if Agg(id) in row then Ok(row[Agg(id)]) else Err
    case FLiteral(value) => Ok(value)
    case FMissing(alias, column, negate) => Ok(Bool(ColumnOf(m, row, alias, column).Err? != negate))
    case FBinary(op, l, r) => BinaryRes(m, op, EvalFlat(m, l, row), EvalFlat(m, r, row))
    case FUnary(op, x) => UnaryRes(m, op, EvalFlat(m, x, row))
    case FCast(x, target) => CastRes(m, target, EvalFlat(m, x, row))
    case FCall(f, args) => CallRes(m, f, EvalFlats(m, args, row))
    case FSortedCall(f, args, ordering) =>
      if ordering == [] then Err else
        var keys :- SortData(row, ordering);
        CallRes(m, f, EvalSorted(m, args, row, m.sort(keys)))
    case FSelected(app, selector) => if app.FCall? then SelectRes(m, selector, EvalFlat(m, app, row)) else Err
    case FArray(elems) => ArrayRes(EvalFlats(m, elems, row))
    case FMap(names, elems) => MapRes(names, EvalFlats(m, elems, row))
    case FCase(reference, whens, thens, otherwise) =>
      CaseRes(m, EvalFlat(m, reference, row), EvalFlats(m, whens, row), EvalFlats(m, thens, row), EvalFlat(m, otherwise, row))
    case FWildcard(alias) => m.wildcard(row, alias)
  }

  function EvalFlats(m: Interp, es: seq<Flat>, row: Row): (rs: seq<Res>)
    ensures |rs| == |es|
    decreases es, 0
  {
    seq(|es|, i requires 0 <= i < |es| => EvalFlat(m, es[i], row))
  }

  /** The arguments of an aggregate with ORDER BY: collected arrays are rearranged. */
  function EvalSorted(m: Interp, es: seq<Flat>, row: Row, perm: seq<nat>): (rs: seq<Res>)
    ensures |rs| == |es|
    decreases es, 0
  {
    seq(|es|, i requires 0 <= i < |es| => if es[i].FRef? then SortedArg(row, es[i].id, perm) else EvalFlat(m, es[i], row))
  }

  // ---- evaluation of parsed expressions ----------------------------------------------------

  /** IS [NOT] MISSING applies to plain columns only, possibly renamed. */
  function ColumnUnder(e: Expr): Option<(string, string)> {
    match e
    case RowValue(alias, column) => Some((alias, column))
    case Alias(x) => ColumnUnder(x)
    case _ => None
  }

  function MissingRes(m: Interp, op: string, left: Expr, row: Row): Res {
    match ColumnUnder(left)
    case None => Err
    case Some(c) =>
      if op == "IS" then Ok(Bool(ColumnOf(m, row, c.0, c.1).Err?))
      else if op == "IS NOT" then Ok(Bool(ColumnOf(m, row, c.0, c.1).Ok?))
      else Err
  }

  /** Evaluation on one row, without any aggregates. */
  function EvalRow(m: Interp, e: Expr, row: Row): Res
    decreases e, 1
  {
    match e
    case RowMeta(alias) => StampOf(row, Stamp(alias))
    case RowValue(alias, column) => ColumnOf(m, row, alias, column)
    case Alias(x) => EvalRow(m, x, row)
    case Literal(value) => Ok(value)
    case Missing => Err
    case Binary(op, l, r) =>
      if r.Missing? then MissingRes(m, op, l, row) else BinaryRes(m, op, EvalRow(m, l, row), EvalRow(m, r, row))
    case Unary(op, x) => UnaryRes(m, op, EvalRow(m, x, row))
    case Cast(x, target) => CastRes(m, target, EvalRow(m, x, row))
    case FuncApp(f, args, ordering) =>
      if f == "now" && args == [] then StampOf(row, Now) else CallRes(m, f, EvalRows(m, args, row))
    case Selected(app, selector) => SelectRes(m, selector, EvalRow(m, app, row))
    case MakeArray(elems) => ArrayRes(EvalRows(m, elems, row))
    case MakeMap(names, elems) => MapRes(names, EvalRows(m, elems, row))
    case Case(reference, whens, thens, otherwise) =>
      CaseRes(m, if reference.Some? then EvalRow(m, reference.value, row) else Ok(Bool(true)),
              EvalRows(m, whens, row), EvalRows(m, thens, row),
              if otherwise.Some? then EvalRow(m, otherwise.value, row) else Ok(Null))
    case Wildcard(alias) => m.wildcard(row, alias)
  }

  function EvalRows(m: Interp, es: seq<Expr>, row: Row): (rs: seq<Res>)
    ensures |rs| == |es|
    decreases es, 0
  {
    seq(|es|, i requires 0 <= i < |es| => EvalRow(m, es[i], row))
  }

  /** count(*) counts rows: the wildcard stands for a value that is never NULL. */
  function Star(f: string, args: seq<Expr>): (as': seq<Expr>)
    ensures |as'| == |args|
  {
    seq(|args|, i requires 0 <= i < |args| => if args[i].Wildcard? && f == "count" then Literal(Int(1)) else args[i])
  }

  /** The values of an expression over all rows of a group, in row order. */
  function ValuesOver(m: Interp, e: Expr, rows: seq<Row>): Result<seq<Value>> {
    AllOk(seq(|rows|, j requires 0 <= j < |rows| => EvalRow(m, e, rows[j])))
  }

  function OrderData(m: Interp, ordering: seq<SortKey>, rows: seq<Row>): Result<seq<(seq<Value>, bool)>> {
    if ordering == [] then Ok([]) else
      var l := |ordering| - 1;
      var init :- OrderData(m, ordering[..l], rows);
      var vs :- ValuesOver(m, ordering[l].expr, rows);
      Ok(init + [(vs, ordering[l].ascending)])
  }

  /** The arguments of an aggregate: the values of the whole group for aggregation parameters. */
  function AggregateArgs(m: Interp, f: string, args: seq<Expr>, rows: seq<Row>, perm: Option<seq<nat>>): (rs: seq<Res>)
    requires rows != []
    ensures |rs| == |args|
  {
    seq(|args|, i requires 0 <= i < |args| =>
      if m.aggregates(f, i) then AggregateArg(m, args[i], rows, perm) else EvalRow(m, args[i], rows[0]))
  }

  function AggregateArg(m: Interp, e: Expr, rows: seq<Row>, perm: Option<seq<nat>>): Res {
    var vs :- ValuesOver(m, e, rows);
    var sorted :- if perm.Some? then Permute(vs, perm.value) else Ok(vs);
    Ok(Array(sorted))
  }

  /** Applies an aggregate directly to the rows of a group. */
  function Aggregate(m: Interp, f: string, args: seq<Expr>, ordering: seq<SortKey>, rows: seq<Row>): Res
    requires rows != []
  {
    if ordering == [] then CallRes(m, f, AggregateArgs(m, f, args, rows, None)) else
      var keys :- OrderData(m, ordering, rows);
      CallRes(m, f, AggregateArgs(m, f, args, rows, Some(m.sort(keys))))
  }

  /** Evaluation over a group of rows: aggregates see all rows, everything else sees the first one. */
  function EvalGroup(m: Interp, e: Expr, rows: seq<Row>): Res
    requires rows != []
    decreases e, 1
  {
    match e
    case RowMeta(alias) => StampOf(rows[0], Stamp(alias))
    case RowValue(alias, column) => ColumnOf(m, rows[0], alias, column)
    case Alias(x) => EvalGroup(m, x, rows)
    case Literal(value) => Ok(value)
    case Missing => Err
    case Binary(op, l, r) =>
      if r.Missing? then MissingRes(m, op, l, rows[0]) else BinaryRes(m, op, EvalGroup(m, l, rows), EvalGroup(m, r, rows))
    case Unary(op, x) => UnaryRes(m, op, EvalGroup(m, x, rows))
    case Cast(x, target) => CastRes(m, target, EvalGroup(m, x, rows))
    case FuncApp(f, args, ordering) =>
      if f == "now" && args == [] then StampOf(rows[0], Now)
      else if IsAggregate(m, f, |args|) then Aggregate(m, f, Star(f, args), ordering, rows)
      else CallRes(m, f, EvalGroups(m, args, rows))
    case Selected(app, selector) => SelectRes(m, selector, EvalGroup(m, app, rows))
    case MakeArray(elems) => ArrayRes(EvalGroups(m, elems, rows))
    case MakeMap(names, elems) => MapRes(names, EvalGroups(m, elems, rows))
    case Case(reference, whens, thens, otherwise) =>
      CaseRes(m, if reference.Some? then EvalGroup(m, reference.value, rows) else Ok(Bool(true)),
              EvalGroups(m, whens, rows), EvalGroups(m, thens, rows),
              if otherwise.Some? then EvalGroup(m, otherwise.value, rows) else Ok(Null))
    case Wildcard(alias) => m.wildcard(rows[0], alias)
  }

  function EvalGroups(m: Interp, es: seq<Expr>, rows: seq<Row>): (rs: seq<Res>)
    requires rows != []
    ensures |rs| == |es|
    decreases es, 0
  {
    seq(|es|, i requires 0 <= i < |es| => EvalGroup(m, es[i], rows))
  }

  // ---- conversion --------------------------------------------------------------------------

  /** Conversion of an expression that must not contain aggregates. */
  function ToFlat(m: Interp, e: Expr): Result<Flat>
    decreases e, 1
  {
    match e
    case RowMeta(alias) => Ok(FRowMeta(alias))
    case RowValue(alias, column) => Ok(FRowValue(alias, column))
    case Alias(x) => ToFlat(m, x)
    case Literal(value) => Ok(FLiteral(value))
    case Missing => Err
    case Binary(op, l, r) =>
      var left :- ToFlat(m, l);
      if r.Missing? then ToMissing(op, left) else
        var right :- ToFlat(m, r);
        Ok(FBinary(op, left, right))
    case Unary(op, x) =>
      var f :- ToFlat(m, x);
      Ok(FUnary(op, f))
    case Cast(x, target) =>
      var f :- ToFlat(m, x);
      Ok(FCast(f, target))
    case FuncApp(f, args, ordering) =>
      if f == "now" && args == [] && ordering == [] then Ok(FNow)
      else if !m.known(f, |args|) || IsAggregate(m, f, |args|) || ordering != [] then Err
      else
        var fs :- ToFlats(m, args);
        Ok(FCall(f, fs))
    case Selected(app, selector) =>
      var f :- ToFlat(m, app);
      Ok(FSelected(f, selector))
    case MakeArray(elems) =>
      var fs :- ToFlats(m, elems);
      Ok(FArray(fs))
    case MakeMap(names, elems) =>
      var fs :- ToFlats(m, elems);
      Ok(FMap(names, fs))
    case Case(reference, whens, thens, otherwise) =>
      var ws :- ToFlats(m, whens);
      var ts :- ToFlats(m, thens);
      var d :- if otherwise.Some? then ToFlat(m, otherwise.value) else Ok(FLiteral(Null));
      var r :- if reference.Some? then ToFlat(m, reference.value) else Ok(FLiteral(Bool(true)));
      Ok(FCase(r, ws, ts, d))
    case Wildcard(alias) => Ok(FWildcard(alias))
  }

  function ToMissing(op: string, left: Flat): Result<Flat> {
    if left.FRowValue? && op == "IS" then Ok(FMissing(left.alias, left.column, false))
    else if left.FRowValue? && op == "IS NOT" then Ok(FMissing(left.alias, left.column, true))
    else Err
  }

  function ToFlats(m: Interp, es: seq<Expr>): (r: Result<seq<Flat>>)
    ensures r.Ok? ==> |r.value| == |es|
    decreases es, 0
  {
    if es == [] then Ok([]) else
      var init :- ToFlats(m, es[..|es| - 1]);
      var last :- ToFlat(m, es[|es| - 1]);
      Ok(init + [last])
  }

  /** An aggregate input and the index under which it is named. */
  type Request = (Flat, nat)

  /** The collected inputs by id, and everything that was asked for. The converter itself keeps only the
      former: an input whose id is taken replaces the one collected before. */
  datatype Inputs = Inputs(exprs: map<string, Flat>, asked: set<Request>)

  const NO_INPUTS := Inputs(map[], {})

  /** A flat expression and the aggregate inputs that it refers to. */
  datatype Split<T> = Split(flat: T, aggs: Inputs)

  function IdOf(m: Interp, p: Request): string { m.id(p.0, p.1) }

  ghost predicate Backs(m: Interp, asked: set<Request>, id: string, f: Flat) {
    exists p | p in asked :: IdOf(m, p) == id && p.0 == f
  }

  /** Collected are exactly the ids asked for, each with one of the inputs asked for under it. */
  ghost predicate Backed(m: Interp, aggs: Inputs) {
    && (forall id | id in aggs.exprs :: Backs(m, aggs.asked, id, aggs.exprs[id]))
    && forall p | p in aggs.asked :: IdOf(m, p) in aggs.exprs
  }

  function Count(aggs: Inputs): nat { |aggs.exprs| }

  function Merge(m: Interp, left: Inputs, right: Inputs): (r: Inputs)
    requires Backed(m, left) && Backed(m, right)
    ensures Backed(m, r) && r.asked == left.asked + right.asked
  {
    MergeBacked(m, left, right);
    Inputs(left.exprs + right.exprs, left.asked + right.asked)
  }

  lemma {:induction false} MergeBacked(m: Interp, left: Inputs, right: Inputs)
    requires Backed(m, left) && Backed(m, right)
    ensures Backed(m, Inputs(left.exprs + right.exprs, left.asked + right.asked))
  {
    var r := Inputs(left.exprs + right.exprs, left.asked + right.asked);
    forall id | id in r.exprs ensures Backs(m, r.asked, id, r.exprs[id]) {
      if id in right.exprs {
        assert Backs(m, right.asked, id, right.exprs[id]);
      } else {
        assert Backs(m, left.asked, id, left.exprs[id]);
      }
    }
  }

  function Extend(m: Interp, aggs: Inputs, f: Flat, n: nat): (r: Inputs)
    requires Backed(m, aggs)
    ensures Backed(m, r) && r.asked == aggs.asked + {(f, n)}
  {
    ExtendBacked(m, aggs, f, n);
    Inputs(aggs.exprs[m.id(f, n) := f], aggs.asked + {(f, n)})
  }

  lemma {:induction false} ExtendBacked(m: Interp, aggs: Inputs, f: Flat, n: nat)
    requires Backed(m, aggs)
    ensures Backed(m, Inputs(aggs.exprs[m.id(f, n) := f], aggs.asked + {(f, n)}))
  {
    var r := Inputs(aggs.exprs[m.id(f, n) := f], aggs.asked + {(f, n)});
    assert (f, n) in r.asked && IdOf(m, (f, n)) == m.id(f, n);
    forall id | id in r.exprs ensures Backs(m, r.asked, id, r.exprs[id]) {
      if id != m.id(f, n) { assert Backs(m, aggs.asked, id, aggs.exprs[id]); }
    }
  }

  /** Separates the aggregate and the non-aggregate parts of an expression. */
  function ToSplit(m: Interp, e: Expr, idx: nat): (r: Result<Split<Flat>>)
    ensures r.Ok? ==> Backed(m, r.value.aggs)
    decreases e, 1
  {
    hide Backed, Count, Merge;
    match e
    case Alias(x) => ToSplit(m, x, idx)
    case Binary(op, l, r) =>
      var left :- ToSplit(m, l, idx);
      if r.Missing? then
        var f :- ToMissing(op, left.flat);
        Ok(Split(f, left.aggs))
      else
        var right :- ToSplit(m, r, idx + Count(left.aggs));
        Ok(Split(FBinary(op, left.flat, right.flat), Merge(m, left.aggs, right.aggs)))
    case Unary(op, x) =>
      var s :- ToSplit(m, x, idx);
      Ok(Split(FUnary(op, s.flat), s.aggs))
    case Cast(x, target) =>
      var s :- ToSplit(m, x, idx);
      Ok(Split(FCast(s.flat, target), s.aggs))
    case FuncApp(f, args, ordering) =>
      if f == "now" && args == [] then Ok(Split(FNow, NO_INPUTS))
      else if !m.known(f, |args|) then Err
      else if IsAggregate(m, f, |args|) then
        var s :- SplitArgs(m, f, Star(f, args), idx);
        if ordering == [] then Ok(Split(FCall(f, s.flat), s.aggs)) else
          var o :- SplitOrdering(m, ordering, idx, s.aggs);
          Ok(Split(FSortedCall(f, s.flat, o.flat), o.aggs))
      else
        var s :- SplitList(m, args, idx, false);
        Ok(Split(FCall(f, s.flat), s.aggs))
    case Selected(app, selector) =>
      var s :- ToSplit(m, app, idx);
      Ok(Split(FSelected(s.flat, selector), s.aggs))
    case MakeArray(elems) =>
      var s :- SplitList(m, elems, idx, true);
      Ok(Split(FArray(s.flat), s.aggs))
    case MakeMap(names, elems) =>
      var s :- SplitList(m, elems, idx, true);
      Ok(Split(FMap(names, s.flat), s.aggs))
    case Case(reference, whens, thens, otherwise) =>
      if |whens| != |thens| then Err else SplitCase(m, e, idx)
    case _ =>
      match ToFlat(m, e)
      case Ok(f) => Ok(Split(f, NO_INPUTS))
      case Err => Err
  }

  /** Children in order. The arguments of an ordinary function all start from the same index. */
  function SplitList(m: Interp, es: seq<Expr>, idx: nat, advance: bool): (r: Result<Split<seq<Flat>>>)
    ensures r.Ok? ==> |r.value.flat| == |es| && Backed(m, r.value.aggs)
    decreases es, 0
  {
    if es == [] then Ok(Split([], NO_INPUTS)) else
      var l := |es| - 1;
      var init :- SplitList(m, es[..l], idx, advance);
      var last :- ToSplit(m, es[l], if advance then idx + Count(init.aggs) else idx);
      Ok(Split(init.flat + [last.flat], Merge(m, init.aggs, last.aggs)))
  }

  /** The pairs of a CASE, then its default, then its reference. */
  function SplitCase(m: Interp, e: Expr, idx: nat): (r: Result<Split<Flat>>)
    requires e.Case? && |e.whens| == |e.thens|
    ensures r.Ok? ==> Backed(m, r.value.aggs)
    decreases e, 0, |e.whens| + 1
  {
    hide Backed, Count, Merge;
    var c :- SplitPairs(m, e, |e.whens|, idx);
    var d :- SplitOption(m, e.otherwise, FLiteral(Null), idx + Count(c.aggs));
    var cd := Merge(m, c.aggs, d.aggs);
    var r :- SplitOption(m, e.reference, FLiteral(Bool(true)), idx + Count(cd));
    Ok(Split(FCase(r.flat, c.flat.0, c.flat.1, d.flat), Merge(m, cd, r.aggs)))
  }

  function SplitOption(m: Interp, o: Option<Expr>, absent: Flat, idx: nat): (r: Result<Split<Flat>>)
    ensures r.Ok? ==> Backed(m, r.value.aggs)
    decreases o
  {
    if o.Some? then ToSplit(m, o.value, idx) else Ok(Split(absent, NO_INPUTS))
  }

  /** The first n WHEN-THEN pairs of a CASE, in order. */
  function SplitPairs(m: Interp, e: Expr, n: nat, idx: nat): (r: Result<Split<(seq<Flat>, seq<Flat>)>>)
    requires e.Case? && n <= |e.whens| == |e.thens|
    ensures r.Ok? ==> |r.value.flat.0| == n == |r.value.flat.1| && Backed(m, r.value.aggs)
    decreases e, 0, n
  {
    if n == 0 then Ok(Split(([], []), NO_INPUTS)) else
      var init :- SplitPairs(m, e, n - 1, idx);
      var w :- ToSplit(m, e.whens[n - 1], idx + Count(init.aggs));
      var aggs := Merge(m, init.aggs, w.aggs);
      var t :- ToSplit(m, e.thens[n - 1], idx + Count(aggs));
      Ok(Split((init.flat.0 + [w.flat], init.flat.1 + [t.flat]), Merge(m, aggs, t.aggs)))
  }

  /** The arguments of an aggregate: aggregation parameters become references. */
  function SplitArgs(m: Interp, f: string, es: seq<Expr>, idx: nat): (r: Result<Split<seq<Flat>>>)
    ensures r.Ok? ==> |r.value.flat| == |es| && Backed(m, r.value.aggs)
  {
    if es == [] then Ok(Split([], NO_INPUTS)) else
      var l := |es| - 1;
      var init :- SplitArgs(m, f, es[..l], idx);
      var last :- ToFlat(m, es[l]);
      if m.aggregates(f, l) then
        var n := idx + Count(init.aggs);
        Ok(Split(init.flat + [FRef(m.id(last, n))], Extend(m, init.aggs, last, n)))
      else
        Ok(Split(init.flat + [last], init.aggs))
  }

  function SplitOrdering(m: Interp, ordering: seq<SortKey>, idx: nat, aggs: Inputs): (r: Result<Split<seq<(string, bool)>>>)
    requires Backed(m, aggs)
    ensures r.Ok? ==> |r.value.flat| == |ordering| && Backed(m, r.value.aggs) && aggs.asked <= r.value.aggs.asked
  {
    if ordering == [] then Ok(Split([], aggs)) else
      var l := |ordering| - 1;
      var init :- SplitOrdering(m, ordering[..l], idx, aggs);
      var last :- ToFlat(m, ordering[l].expr);
      var n := idx + Count(init.aggs);
      Ok(Split(init.flat + [(m.id(last, n), ordering[l].ascending)], Extend(m, init.aggs, last, n)))
  }

  // ---- what the conversions preserve -------------------------------------------------------

  /** Two rows with the same columns, timestamps and clock. */
  ghost predicate SameBase(row: Row, row': Row) {
    forall k: Key | !k.Agg? :: (k in row <==> k in row') && (k in row ==> row[k] == row'[k])
  }

  predicate WildFree(f: Flat) {
    match f
    case FBinary(_, l, r) => WildFree(l) && WildFree(r)
    case FUnary(_, x) => WildFree(x)
    case FCast(x, _) => WildFree(x)
    case FCall(_, args) => forall i | 0 <= i < |args| :: WildFree(args[i])
    case FSortedCall(_, args, _) => forall i | 0 <= i < |args| :: WildFree(args[i])
    case FSelected(app, _) => WildFree(app)
    case FArray(elems) => forall i | 0 <= i < |elems| :: WildFree(elems[i])
    case FMap(_, elems) => forall i | 0 <= i < |elems| :: WildFree(elems[i])
    case FCase(r, ws, ts, d) =>
      && WildFree(r) && WildFree(d)
      && (forall i | 0 <= i < |ws| :: WildFree(ws[i])) && forall i | 0 <= i < |ts| :: WildFree(ts[i])
    case FWildcard(_) => false
    case _ => true
  }

  /** A selector applies to an ordinary function call or to an aggregate without ORDER BY. */
  predicate PlainApp(m: Interp, app: Expr) {
    app.FuncApp? && !(app.name == "now" && app.args == []) && !(IsAggregate(m, app.name, |app.args|) && app.ordering != [])
  }

  predicate PlainSelectors(m: Interp, e: Expr) {
    match e
    case Alias(x) => PlainSelectors(m, x)
    case Binary(_, l, r) => PlainSelectors(m, l) && PlainSelectors(m, r)
    case Unary(_, x) => PlainSelectors(m, x)
    case Cast(x, _) => PlainSelectors(m, x)
    case FuncApp(_, args, ordering) =>
      && (forall i | 0 <= i < |args| :: PlainSelectors(m, args[i]))
      && (IsAggregate(m, e.name, |args|) ==> forall i | 0 <= i < |ordering| :: PlainSelectors(m, ordering[i].expr))
    case Selected(app, _) => PlainApp(m, app) && PlainSelectors(m, app)
    case MakeArray(elems) => forall i | 0 <= i < |elems| :: PlainSelectors(m, elems[i])
    case MakeMap(_, elems) => forall i | 0 <= i < |elems| :: PlainSelectors(m, elems[i])
    case Case(reference, whens, thens, otherwise) =>
      && (reference.Some? ==> PlainSelectors(m, reference.value)) && (otherwise.Some? ==> PlainSelectors(m, otherwise.value))
      && (forall i | 0 <= i < |whens| :: PlainSelectors(m, whens[i])) && forall i | 0 <= i < |thens| :: PlainSelectors(m, thens[i])
    case _ => true
  }

  lemma {:induction false} ColumnUnderFlat(m: Interp, e: Expr)
    ensures ToFlat(m, e).Ok? && ToFlat(m, e).value.FRowValue? <==> ColumnUnder(e).Some?
    ensures ColumnUnder(e).Some? ==> ToFlat(m, e) == Ok(FRowValue(ColumnUnder(e).value.0, ColumnUnder(e).value.1))
  {
    if e.Alias? { ColumnUnderFlat(m, e.expr); }
  }

  lemma {:induction false} FlatsAt(m: Interp, es: seq<Expr>, i: nat)
    requires ToFlats(m, es).Ok? && i < |es|
    ensures ToFlat(m, es[i]) == Ok(ToFlats(m, es).value[i])
  {
    if i < |es| - 1 { FlatsAt(m, es[..|es| - 1], i); }
  }

  /** Flat conversion preserves meaning, also on a row that has collected arrays in addition. */
  lemma {:induction false} FlatPreserves(m: Interp, e: Expr, row: Row, row': Row)
    requires ToFlat(m, e).Ok? && PlainSelectors(m, e) && SameBase(row, row')
    requires row == row' || WildFree(ToFlat(m, e).value)
    ensures EvalFlat(m, ToFlat(m, e).value, row') == EvalRow(m, e, row)
    decreases e, 1
  {
    hide *;
    match e
    case Alias(_) => FlatPreservesPart(m, e, row, row');
    case Binary(_, _, _) => FlatPreservesBinary(m, e, row, row');
    case Unary(_, _) => FlatPreservesPart(m, e, row, row');
    case Cast(_, _) => FlatPreservesPart(m, e, row, row');
    case FuncApp(_, _, _) => FlatPreservesCall(m, e, row, row');
    case Selected(_, _) => FlatPreservesCall(m, e, row, row');
    case MakeArray(_) => FlatPreservesList(m, e, row, row');
    case MakeMap(_, _) => FlatPreservesList(m, e, row, row');
    case Case(_, _, _, _) => FlatPreservesCase(m, e, row, row');
    case _ => FlatPreservesLeaf(m, e, row, row');
  }

  lemma {:induction false} FlatPreservesLeaf(m: Interp, e: Expr, row: Row, row': Row)
    requires e.RowMeta? || e.RowValue? || e.Literal? || e.Missing? || e.Wildcard?
    requires ToFlat(m, e).Ok? && PlainSelectors(m, e) && SameBase(row, row')
    requires row == row' || WildFree(ToFlat(m, e).value)
    ensures EvalFlat(m, ToFlat(m, e).value, row') == EvalRow(m, e, row)
  {
    hide BinaryRes, UnaryRes, CastRes, CallRes, SelectRes, ArrayRes, MapRes, CaseRes;
  }

  lemma {:induction false} FlatPreservesPart(m: Interp, e: Expr, row: Row, row': Row)
    requires e.Alias? || e.Unary? || e.Cast?
    requires ToFlat(m, e).Ok? && PlainSelectors(m, e) && SameBase(row, row')
    requires row == row' || WildFree(ToFlat(m, e).value)
    ensures EvalFlat(m, ToFlat(m, e).value, row') == EvalRow(m, e, row)
    decreases e, 0
  {
    hide BinaryRes, UnaryRes, CastRes, CallRes, SelectRes, ArrayRes, MapRes, CaseRes, SameBase, ColumnOf, StampOf, IsAggregate;
    FlatPreserves(m, e.expr, row, row');
  }

  lemma {:induction false} FlatPreservesBinary(m: Interp, e: Expr, row: Row, row': Row)
    requires e.Binary?
    requires ToFlat(m, e).Ok? && PlainSelectors(m, e) && SameBase(row, row')
    requires row == row' || WildFree(ToFlat(m, e).value)
    ensures EvalFlat(m, ToFlat(m, e).value, row') == EvalRow(m, e, row)
    decreases e, 0
  {
    hide BinaryRes, UnaryRes, CastRes, CallRes, SelectRes, ArrayRes, MapRes, CaseRes, StampOf, IsAggregate;
    if e.right.Missing? {
      ColumnUnderFlat(m, e.left);
    } else {
      FlatPreserves(m, e.left, row, row');
      FlatPreserves(m, e.right, row, row');
    }
  }

  lemma {:induction false} FlatPreservesCall(m: Interp, e: Expr, row: Row, row': Row)
    requires e.FuncApp? || e.Selected?
    requires ToFlat(m, e).Ok? && PlainSelectors(m, e) && SameBase(row, row')
    requires row == row' || WildFree(ToFlat(m, e).value)
    ensures EvalFlat(m, ToFlat(m, e).value, row') == EvalRow(m, e, row)
    decreases e, 0
  {
    hide BinaryRes, UnaryRes, CastRes, CallRes, SelectRes, ArrayRes, MapRes, CaseRes, ColumnOf, IsAggregate;
    if e.Selected? {
      FlatPreserves(m, e.app, row, row');
    } else if !(e.name == "now" && e.args == []) {
      FlatsPreserve(m, e.args, row, row');
    }
  }

  lemma {:induction false} FlatPreservesList(m: Interp, e: Expr, row: Row, row': Row)
    requires e.MakeArray? || e.MakeMap?
    requires ToFlat(m, e).Ok? && PlainSelectors(m, e) && SameBase(row, row')
    requires row == row' || WildFree(ToFlat(m, e).value)
    ensures EvalFlat(m, ToFlat(m, e).value, row') == EvalRow(m, e, row)
    decreases e, 0
  {
    hide BinaryRes, UnaryRes, CastRes, CallRes, SelectRes, ArrayRes, MapRes, CaseRes, SameBase, ColumnOf, StampOf, IsAggregate;
    FlatsPreserve(m, e.elems, row, row');
  }

  lemma {:induction false} FlatPreservesCase(m: Interp, e: Expr, row: Row, row': Row)
    requires e.Case?
    requires ToFlat(m, e).Ok? && PlainSelectors(m, e) && SameBase(row, row')
    requires row == row' || WildFree(ToFlat(m, e).value)
    ensures EvalFlat(m, ToFlat(m, e).value, row') == EvalRow(m, e, row)
    decreases e, 0
  {
    hide BinaryRes, UnaryRes, CastRes, CallRes, SelectRes, ArrayRes, MapRes, CaseRes, SameBase, ColumnOf, StampOf, IsAggregate, EvalFlats, EvalRows, ToFlats;
    FlatsPreserve(m, e.whens, row, row');
    FlatsPreserve(m, e.thens, row, row');
    if e.reference.Some? { FlatPreserves(m, e.reference.value, row, row'); }
    if e.otherwise.Some? { FlatPreserves(m, e.otherwise.value, row, row'); }
  }

  lemma {:induction false} FlatsPreserve(m: Interp, es: seq<Expr>, row: Row, row': Row)
    requires ToFlats(m, es).Ok? && SameBase(row, row')
    requires forall i | 0 <= i < |es| :: PlainSelectors(m, es[i])
    requires row == row' || forall i | 0 <= i < |es| :: WildFree(ToFlats(m, es).value[i])
    ensures EvalFlats(m, ToFlats(m, es).value, row') == EvalRows(m, es, row)
    decreases es, 0
  {
    forall i | 0 <= i < |es| ensures EvalFlat(m, ToFlats(m, es).value[i], row') == EvalRow(m, es[i], row) {
      FlatsAt(m, es, i);
      FlatPreserves(m, es[i], row, row');
    }
  }

  // ---- aggregates --------------------------------------------------------------------------

  function FlatValues(m: Interp, f: Flat, rows: seq<Row>): seq<Value> {
    seq(|rows|, j requires 0 <= j < |rows| => match EvalFlat(m, f, rows[j]) case Ok(v) => v case Err => Null)
  }

  ghost predicate EvaluatesOn(m: Interp, f: Flat, rows: seq<Row>) {
    forall j | 0 <= j < |rows| :: EvalFlat(m, f, rows[j]).Ok?
  }

  /** A reference to the input finds the values of this very input. */
  ghost predicate Supplied(m: Interp, p: Request, rows: seq<Row>, row: Row) {
    EvaluatesOn(m, p.0, rows) && Agg(IdOf(m, p)) in row && row[Agg(IdOf(m, p))] == Array(FlatValues(m, p.0, rows))
  }

  /** The collected arrays answer every request. */
  ghost predicate Supplies(m: Interp, asked: set<Request>, rows: seq<Row>, row: Row) {
    forall p | p in asked :: Supplied(m, p, rows, row)
  }

  /** The first row of a group together with the array of values of every collected input. */
  function GroupRow(m: Interp, aggs: Inputs, rows: seq<Row>): Row
    requires rows != []
  {
    rows[0] + map id | id in aggs.exprs :: Agg(id) := Array(FlatValues(m, aggs.exprs[id], rows))
  }

  lemma {:induction false} GroupRowProvides(m: Interp, aggs: Inputs, rows: seq<Row>)
    requires rows != []
    ensures SameBase(rows[0], GroupRow(m, aggs, rows))
    ensures forall id | id in aggs.exprs ::
              Agg(id) in GroupRow(m, aggs, rows) && GroupRow(m, aggs, rows)[Agg(id)] == Array(FlatValues(m, aggs.exprs[id], rows))
  {
    hide FlatValues, EvaluatesOn;
    var row := GroupRow(m, aggs, rows);
    forall id | id in aggs.exprs ensures Agg(id) in row && row[Agg(id)] == Array(FlatValues(m, aggs.exprs[id], rows)) {}
  }

  ghost predicate AllEvaluate(m: Interp, asked: set<Request>, rows: seq<Row>) {
    forall p | p in asked :: EvaluatesOn(m, p.0, rows)
  }

  /** Inputs that share an id have the same values on the group. */
  ghost predicate Agree(m: Interp, asked: set<Request>, rows: seq<Row>) {
    forall p, q | p in asked && q in asked && IdOf(m, p) == IdOf(m, q) :: FlatValues(m, p.0, rows) == FlatValues(m, q.0, rows)
  }

  /** Every reference finds the values of its own input exactly if inputs that share an id agree. */
  lemma {:induction false} SuppliedIff(m: Interp, aggs: Inputs, rows: seq<Row>)
    requires rows != [] && Backed(m, aggs) && AllEvaluate(m, aggs.asked, rows)
    ensures Supplies(m, aggs.asked, rows, GroupRow(m, aggs, rows)) <==> Agree(m, aggs.asked, rows)
  {
    GroupRowProvides(m, aggs, rows);
    hide FlatValues, EvaluatesOn, GroupRow, SameBase;
    var row := GroupRow(m, aggs, rows);
    if Agree(m, aggs.asked, rows) {
      forall p | p in aggs.asked ensures Supplied(m, p, rows, row) {
        var id := IdOf(m, p);
        assert Backs(m, aggs.asked, id, aggs.exprs[id]);
        var q :| q in aggs.asked && IdOf(m, q) == id && q.0 == aggs.exprs[id];
      }
    } else {
      var p, q :| p in aggs.asked && q in aggs.asked && IdOf(m, p) == IdOf(m, q) && FlatValues(m, p.0, rows) != FlatValues(m, q.0, rows);
      assert !(Supplied(m, p, rows, row) && Supplied(m, q, rows, row));
    }
  }

  /** Different inputs of the expression have different ids. */
  ghost predicate DistinctIds(m: Interp, asked: set<Request>) {
    forall p, q | p in asked && q in asked && IdOf(m, p) == IdOf(m, q) :: p.0 == q.0
  }

  // ---- the aggregate call ------------------------------------------------------------------

  lemma {:induction false} AllOkValues(rs: seq<Res>, vs: seq<Value>)
    requires |rs| == |vs| && forall i | 0 <= i < |rs| :: rs[i] == Ok(vs[i])
    ensures AllOk(rs) == Ok(vs)
  {
    if rs != [] {
      AllOkValues(rs[..|rs| - 1], vs[..|vs| - 1]);
      assert vs == vs[..|vs| - 1] + [vs[|vs| - 1]];
    }
  }

  /** The values collected for an input are the values of its expression over the group. */
  lemma {:induction false} CollectedValues(m: Interp, e: Expr, rows: seq<Row>)
    requires ToFlat(m, e).Ok? && PlainSelectors(m, e) && EvaluatesOn(m, ToFlat(m, e).value, rows)
    ensures ValuesOver(m, e, rows) == Ok(FlatValues(m, ToFlat(m, e).value, rows))
  {
    hide ToFlat, EvalFlat, EvalRow, PlainSelectors, WildFree;
    var f := ToFlat(m, e).value;
    var rs := seq(|rows|, j requires 0 <= j < |rows| => EvalRow(m, e, rows[j]));
    forall j | 0 <= j < |rows| ensures rs[j] == Ok(FlatValues(m, f, rows)[j]) {
      FlatPreserves(m, e, rows[j], rows[j]);
    }
    AllOkValues(rs, FlatValues(m, f, rows));
  }

  /** What a reference inserted for an aggregation parameter evaluates to. */
  lemma {:induction false} ReferenceIsValues(m: Interp, e: Expr, n: nat, asked: set<Request>, rows: seq<Row>, row: Row)
    requires ToFlat(m, e).Ok? && PlainSelectors(m, e) && Supplies(m, asked, rows, row) && (ToFlat(m, e).value, n) in asked
    ensures ValuesOver(m, e, rows).Ok? && ArrayAt(row, m.id(ToFlat(m, e).value, n)) == ValuesOver(m, e, rows)
    ensures EvalFlat(m, FRef(m.id(ToFlat(m, e).value, n)), row) == AggregateArg(m, e, rows, None)
    ensures forall perm: seq<nat> :: SortedArg(row, m.id(ToFlat(m, e).value, n), perm) == AggregateArg(m, e, rows, Some(perm))
  {
    hide ToFlat, EvalRow, PlainSelectors, WildFree, ValuesOver, FlatValues;
    CollectedValues(m, e, rows);
  }

  /** A flat argument, evaluated with the collected arrays rearranged if the aggregate is ordered. */
  function EvalArg(m: Interp, f: Flat, row: Row, perm: Option<seq<nat>>): Res {
    if perm.Some? && f.FRef? then SortedArg(row, f.id, perm.value) else EvalFlat(m, f, row)
  }

  function GroupArg(m: Interp, f: string, i: nat, e: Expr, rows: seq<Row>, perm: Option<seq<nat>>): Res
    requires rows != []
  {
    if m.aggregates(f, i) then AggregateArg(m, e, rows, perm) else EvalRow(m, e, rows[0])
  }

  /** Flat conversion never produces a reference. */
  lemma {:induction false} NotReference(m: Interp, e: Expr)
    requires ToFlat(m, e).Ok?
    ensures !ToFlat(m, e).value.FRef?
  {
    if e.Alias? { NotReference(m, e.expr); }
  }

  lemma {:induction false} ArgsParts(m: Interp, f: string, es: seq<Expr>, idx: nat) returns (init: Split<seq<Flat>>, last: Flat)
    requires es != [] && SplitArgs(m, f, es, idx).Ok?
    ensures SplitArgs(m, f, es[..|es| - 1], idx) == Ok(init) && ToFlat(m, es[|es| - 1]) == Ok(last) && |init.flat| == |es| - 1
    ensures var n, s := idx + Count(init.aggs), SplitArgs(m, f, es, idx).value;
            if m.aggregates(f, |es| - 1) then s.flat == init.flat + [FRef(m.id(last, n))] && s.aggs.asked == init.aggs.asked + {(last, n)}
            else s.flat == init.flat + [last] && s.aggs.asked == init.aggs.asked
  {
    hide ToFlat, Backed, Count, Extend;
    init := SplitArgs(m, f, es[..|es| - 1], idx).value;
    last := ToFlat(m, es[|es| - 1]).value;
  }

  lemma {:induction false} LastArg(m: Interp, f: string, es: seq<Expr>, idx: nat, asked: set<Request>, rows: seq<Row>, row: Row, perm: Option<seq<nat>>)
    requires es != [] && SplitArgs(m, f, es, idx).Ok? && rows != [] && SameBase(rows[0], row)
    requires SplitArgs(m, f, es, idx).value.aggs.asked <= asked && Supplies(m, asked, rows, row)
    requires var l := |es| - 1; PlainSelectors(m, es[l]) && WildFree(SplitArgs(m, f, es, idx).value.flat[l])
    ensures var l := |es| - 1; EvalArg(m, SplitArgs(m, f, es, idx).value.flat[l], row, perm) == GroupArg(m, f, l, es[l], rows, perm)
  {
    hide ToFlat, EvalRow, PlainSelectors, SameBase, Supplies, Backed, AggregateArg, SortedArg, SplitArgs, Count, WildFree;
    var l := |es| - 1;
    var init, last := ArgsParts(m, f, es, idx);
    if m.aggregates(f, l) {
      ReferenceIsValues(m, es[l], idx + Count(init.aggs), asked, rows, row);
    } else {
      NotReference(m, es[l]);
      FlatPreserves(m, es[l], rows[0], row);
    }
  }

  /** The arguments of an aggregate evaluate to the values of the group, sorted if asked for. */
  lemma {:induction false} ArgsPreserve(m: Interp, f: string, es: seq<Expr>, idx: nat, asked: set<Request>, rows: seq<Row>, row: Row, perm: Option<seq<nat>>, i: nat)
    requires SplitArgs(m, f, es, idx).Ok? && rows != [] && SameBase(rows[0], row) && i < |es|
    requires SplitArgs(m, f, es, idx).value.aggs.asked <= asked && Supplies(m, asked, rows, row)
    requires PlainSelectors(m, es[i]) && WildFree(SplitArgs(m, f, es, idx).value.flat[i])
    ensures EvalArg(m, SplitArgs(m, f, es, idx).value.flat[i], row, perm) == GroupArg(m, f, i, es[i], rows, perm)
    decreases es
  {
    hide *;
    if i == |es| - 1 {
      LastArg(m, f, es, idx, asked, rows, row, perm);
    } else {
      var init, last := ArgsParts(m, f, es, idx);
      ArgsPreserve(m, f, es[..|es| - 1], idx, asked, rows, row, perm, i);
    }
  }

  lemma {:induction false} AllArgsPreserve(m: Interp, f: string, es: seq<Expr>, idx: nat, asked: set<Request>, rows: seq<Row>, row: Row, perm: Option<seq<nat>>)
    requires SplitArgs(m, f, es, idx).Ok? && rows != [] && SameBase(rows[0], row)
    requires SplitArgs(m, f, es, idx).value.aggs.asked <= asked && Supplies(m, asked, rows, row)
    requires forall i | 0 <= i < |es| :: PlainSelectors(m, es[i]) && WildFree(SplitArgs(m, f, es, idx).value.flat[i])
    ensures AggregateArgs(m, f, es, rows, perm) ==
            var fs := SplitArgs(m, f, es, idx).value.flat;
            if perm.Some? then EvalSorted(m, fs, row, perm.value) else EvalFlats(m, fs, row)
  {
    hide SplitArgs, EvalRow, EvalFlat, PlainSelectors, SameBase, Supplies, Backed, AggregateArg, SortedArg, WildFree;
    var fs := SplitArgs(m, f, es, idx).value.flat;
    forall i | 0 <= i < |es| ensures EvalArg(m, fs[i], row, perm) == GroupArg(m, f, i, es[i], rows, perm) {
      ArgsPreserve(m, f, es, idx, asked, rows, row, perm, i);
    }
  }

  lemma {:induction false} OrderingPreserves(m: Interp, ordering: seq<SortKey>, idx: nat, aggs: Inputs, asked: set<Request>, rows: seq<Row>, row: Row)
    requires Backed(m, aggs) && SplitOrdering(m, ordering, idx, aggs).Ok?
    requires SplitOrdering(m, ordering, idx, aggs).value.aggs.asked <= asked && Supplies(m, asked, rows, row)
    requires forall i | 0 <= i < |ordering| :: PlainSelectors(m, ordering[i].expr)
    ensures SortData(row, SplitOrdering(m, ordering, idx, aggs).value.flat) == OrderData(m, ordering, rows)
  {
    hide ToFlat, PlainSelectors, Supplies, Backed, ValuesOver, ArrayAt, EvalFlat, AggregateArg, SortedArg, Count, Merge, Extend;
    if ordering != [] {
      var l := |ordering| - 1;
      var init := SplitOrdering(m, ordering[..l], idx, aggs).value;
      var fs := SplitOrdering(m, ordering, idx, aggs).value.flat;
      assert fs[..l] == init.flat;
      OrderingPreserves(m, ordering[..l], idx, aggs, asked, rows, row);
      assert (ToFlat(m, ordering[l].expr).value, idx + Count(init.aggs)) in asked;
      ReferenceIsValues(m, ordering[l].expr, idx + Count(init.aggs), asked, rows, row);
    }
  }

  // ---- flattening preserves meaning --------------------------------------------------------

  lemma {:induction false} ColumnUnderSplit(m: Interp, e: Expr, idx: nat)
    ensures ToSplit(m, e, idx).Ok? && ToSplit(m, e, idx).value.flat.FRowValue? <==> ColumnUnder(e).Some?
    ensures ColumnUnder(e).Some? ==> ToSplit(m, e, idx) == Ok(Split(FRowValue(ColumnUnder(e).value.0, ColumnUnder(e).value.1), NO_INPUTS))
  {
    hide Backed, IsAggregate, SplitArgs, SplitOrdering;
    if e.Alias? { ColumnUnderSplit(m, e.expr, idx); }
  }

  /** The flat part, evaluated on a row of the group that carries the collected arrays, has the value
      of the whole expression over the group. */
  lemma {:induction false} SplitPreserves(m: Interp, e: Expr, idx: nat, asked: set<Request>, rows: seq<Row>, row: Row)
    requires ToSplit(m, e, idx).Ok? && WildFree(ToSplit(m, e, idx).value.flat) && PlainSelectors(m, e)
    requires rows != [] && SameBase(rows[0], row) && ToSplit(m, e, idx).value.aggs.asked <= asked && Supplies(m, asked, rows, row)
    ensures EvalFlat(m, ToSplit(m, e, idx).value.flat, row) == EvalGroup(m, e, rows)
    decreases e, 1
  {
    hide *;
    match e
    case Alias(_) => SplitPreservesPart(m, e, idx, asked, rows, row);
    case Binary(_, _, _) => SplitPreservesBinary(m, e, idx, asked, rows, row);
    case Unary(_, _) => SplitPreservesPart(m, e, idx, asked, rows, row);
    case Cast(_, _) => SplitPreservesPart(m, e, idx, asked, rows, row);
    case FuncApp(_, _, _) => SplitPreservesCall(m, e, idx, asked, rows, row);
    case Selected(_, _) => SplitPreservesSelected(m, e, idx, asked, rows, row);
    case MakeArray(_) => SplitPreservesList(m, e, idx, asked, rows, row);
    case MakeMap(_, _) => SplitPreservesList(m, e, idx, asked, rows, row);
    case Case(_, _, _, _) => SplitPreservesCase(m, e, idx, asked, rows, row);
    case _ => SplitPreservesLeaf(m, e, idx, asked, rows, row);
  }

  lemma {:induction false} SplitPreservesLeaf(m: Interp, e: Expr, idx: nat, asked: set<Request>, rows: seq<Row>, row: Row)
    requires e.RowMeta? || e.RowValue? || e.Literal? || e.Missing? || e.Wildcard?
    requires ToSplit(m, e, idx).Ok? && WildFree(ToSplit(m, e, idx).value.flat) && PlainSelectors(m, e)
    requires rows != [] && SameBase(rows[0], row) && ToSplit(m, e, idx).value.aggs.asked <= asked && Supplies(m, asked, rows, row)
    ensures EvalFlat(m, ToSplit(m, e, idx).value.flat, row) == EvalGroup(m, e, rows)
    decreases e, 0
  {
    hide BinaryRes, UnaryRes, CastRes, CallRes, SelectRes, ArrayRes, MapRes, CaseRes, Supplies, Backed, Count, Merge, Extend;
  }

  lemma {:induction false} SplitPreservesPart(m: Interp, e: Expr, idx: nat, asked: set<Request>, rows: seq<Row>, row: Row)
    requires e.Alias? || e.Unary? || e.Cast?
    requires ToSplit(m, e, idx).Ok? && WildFree(ToSplit(m, e, idx).value.flat) && PlainSelectors(m, e)
    requires rows != [] && SameBase(rows[0], row) && ToSplit(m, e, idx).value.aggs.asked <= asked && Supplies(m, asked, rows, row)
    ensures EvalFlat(m, ToSplit(m, e, idx).value.flat, row) == EvalGroup(m, e, rows)
    decreases e, 0
  {
    hide BinaryRes, UnaryRes, CastRes, CallRes, SelectRes, ArrayRes, MapRes, CaseRes, Aggregate, SameBase, Supplies, Backed, ColumnOf, StampOf, IsAggregate, SplitArgs, SplitOrdering, Count, Merge, Extend;
    SplitPreserves(m, e.expr, idx, asked, rows, row);
  }

  lemma {:induction false} SplitPreservesBinary(m: Interp, e: Expr, idx: nat, asked: set<Request>, rows: seq<Row>, row: Row)
    requires e.Binary?
    requires ToSplit(m, e, idx).Ok? && WildFree(ToSplit(m, e, idx).value.flat) && PlainSelectors(m, e)
    requires rows != [] && SameBase(rows[0], row) && ToSplit(m, e, idx).value.aggs.asked <= asked && Supplies(m, asked, rows, row)
    ensures EvalFlat(m, ToSplit(m, e, idx).value.flat, row) == EvalGroup(m, e, rows)
    decreases e, 0
  {
    hide BinaryRes, UnaryRes, CastRes, CallRes, SelectRes, ArrayRes, MapRes, CaseRes, Aggregate, Supplies, Backed, StampOf, IsAggregate, SplitArgs, SplitOrdering, Count, Merge, Extend;
    if e.right.Missing? {
      ColumnUnderSplit(m, e.left, idx);
    } else {
      var left := ToSplit(m, e.left, idx).value;
      SplitPreserves(m, e.left, idx, asked, rows, row);
      SplitPreserves(m, e.right, idx + Count(left.aggs), asked, rows, row);
    }
  }

  lemma {:induction false} SplitPreservesCall(m: Interp, e: Expr, idx: nat, asked: set<Request>, rows: seq<Row>, row: Row)
    requires e.FuncApp?
    requires ToSplit(m, e, idx).Ok? && WildFree(ToSplit(m, e, idx).value.flat) && PlainSelectors(m, e)
    requires rows != [] && SameBase(rows[0], row) && ToSplit(m, e, idx).value.aggs.asked <= asked && Supplies(m, asked, rows, row)
    ensures EvalFlat(m, ToSplit(m, e, idx).value.flat, row) == EvalGroup(m, e, rows)
    decreases e, 0
  {
    hide BinaryRes, UnaryRes, CastRes, CallRes, SelectRes, ArrayRes, MapRes, CaseRes, Aggregate, Supplies, Backed, ColumnOf, IsAggregate, SplitArgs, SplitOrdering, Count, Merge, Extend;
    if e.name == "now" && e.args == [] {
    } else if IsAggregate(m, e.name, |e.args|) {
      AggregatePreserves(m, e, idx, asked, rows, row);
    } else {
      ListPreserves(m, e.args, idx, false, asked, rows, row);
    }
  }

  lemma {:induction false} AggregatePreserves(m: Interp, e: Expr, idx: nat, asked: set<Request>, rows: seq<Row>, row: Row)
    requires e.FuncApp? && !(e.name == "now" && e.args == []) && IsAggregate(m, e.name, |e.args|)
    requires ToSplit(m, e, idx).Ok? && WildFree(ToSplit(m, e, idx).value.flat) && PlainSelectors(m, e)
    requires rows != [] && SameBase(rows[0], row) && ToSplit(m, e, idx).value.aggs.asked <= asked && Supplies(m, asked, rows, row)
    ensures EvalFlat(m, ToSplit(m, e, idx).value.flat, row) == EvalGroup(m, e, rows)
    decreases e, 0
  {
    hide BinaryRes, UnaryRes, CastRes, CallRes, SelectRes, ArrayRes, MapRes, CaseRes, SameBase, Supplies, Backed, ColumnOf, StampOf, IsAggregate, SplitArgs, SplitOrdering, OrderData, SortData, AggregateArgs, Count, Merge, Extend;
    var args := Star(e.name, e.args);
    var s := SplitArgs(m, e.name, args, idx).value;
    if e.ordering == [] {
      AllArgsPreserve(m, e.name, args, idx, asked, rows, row, None);
    } else {
      OrderingPreserves(m, e.ordering, idx, s.aggs, asked, rows, row);
      var keys := OrderData(m, e.ordering, rows);
      if keys.Ok? { AllArgsPreserve(m, e.name, args, idx, asked, rows, row, Some(m.sort(keys.value))); }
    }
  }

  lemma {:induction false} SplitPreservesSelected(m: Interp, e: Expr, idx: nat, asked: set<Request>, rows: seq<Row>, row: Row)
    requires e.Selected?
    requires ToSplit(m, e, idx).Ok? && WildFree(ToSplit(m, e, idx).value.flat) && PlainSelectors(m, e)
    requires rows != [] && SameBase(rows[0], row) && ToSplit(m, e, idx).value.aggs.asked <= asked && Supplies(m, asked, rows, row)
    ensures EvalFlat(m, ToSplit(m, e, idx).value.flat, row) == EvalGroup(m, e, rows)
    decreases e, 0
  {
    hide BinaryRes, UnaryRes, CastRes, CallRes, SelectRes, ArrayRes, MapRes, CaseRes, Aggregate, SameBase, Supplies, Backed, ColumnOf, StampOf, IsAggregate, SplitArgs, SplitOrdering, Count, Merge, Extend;
    SplitPreserves(m, e.app, idx, asked, rows, row);
  }

  lemma {:induction false} SplitPreservesList(m: Interp, e: Expr, idx: nat, asked: set<Request>, rows: seq<Row>, row: Row)
    requires e.MakeArray? || e.MakeMap?
    requires ToSplit(m, e, idx).Ok? && WildFree(ToSplit(m, e, idx).value.flat) && PlainSelectors(m, e)
    requires rows != [] && SameBase(rows[0], row) && ToSplit(m, e, idx).value.aggs.asked <= asked && Supplies(m, asked, rows, row)
    ensures EvalFlat(m, ToSplit(m, e, idx).value.flat, row) == EvalGroup(m, e, rows)
    decreases e, 0
  {
    hide BinaryRes, UnaryRes, CastRes, CallRes, SelectRes, ArrayRes, MapRes, CaseRes, Aggregate, SameBase, Supplies, Backed, ColumnOf, StampOf, IsAggregate, SplitArgs, SplitOrdering, Count, Merge, Extend, EvalFlats, EvalGroups, SplitList, SplitCase, SplitPairs;
    ListPreserves(m, e.elems, idx, true, asked, rows, row);
  }

  lemma {:induction false} SplitPreservesCase(m: Interp, e: Expr, idx: nat, asked: set<Request>, rows: seq<Row>, row: Row)
    requires e.Case?
    requires ToSplit(m, e, idx).Ok? && WildFree(ToSplit(m, e, idx).value.flat) && PlainSelectors(m, e)
    requires rows != [] && SameBase(rows[0], row) && ToSplit(m, e, idx).value.aggs.asked <= asked && Supplies(m, asked, rows, row)
    ensures EvalFlat(m, ToSplit(m, e, idx).value.flat, row) == EvalGroup(m, e, rows)
    decreases e, 0
  {
    hide BinaryRes, UnaryRes, CastRes, CallRes, SelectRes, ArrayRes, MapRes, CaseRes, Aggregate, SameBase, Supplies, Backed, ColumnOf, StampOf, IsAggregate, SplitArgs, SplitOrdering, EvalFlats, EvalGroups, SplitList, SplitPairs, ToSplit, SplitCase, Count, Merge, Extend;
    var c, d, r := CaseParts(m, e, idx);
    PairsPreserve(m, e, |e.whens|, idx, asked, rows, row);
    assert e.whens[..|e.whens|] == e.whens && e.thens[..|e.thens|] == e.thens;
    if e.otherwise.Some? { SplitPreserves(m, e.otherwise.value, idx + Count(c.aggs), asked, rows, row); }
    if e.reference.Some? { SplitPreserves(m, e.reference.value, idx + Count(Merge(m, c.aggs, d.aggs)), asked, rows, row); }
  }

  lemma {:induction false} CaseParts(m: Interp, e: Expr, idx: nat) returns (c: Split<(seq<Flat>, seq<Flat>)>, d: Split<Flat>, r: Split<Flat>)
    requires e.Case? && ToSplit(m, e, idx).Ok?
    ensures |e.whens| == |e.thens| && SplitPairs(m, e, |e.whens|, idx) == Ok(c) && |c.flat.0| == |e.whens| == |c.flat.1| && Backed(m, c.aggs)
    ensures SplitOption(m, e.otherwise, FLiteral(Null), idx + Count(c.aggs)) == Ok(d) && Backed(m, d.aggs)
    ensures SplitOption(m, e.reference, FLiteral(Bool(true)), idx + Count(Merge(m, c.aggs, d.aggs))) == Ok(r) && Backed(m, r.aggs)
    ensures ToSplit(m, e, idx).value.flat == FCase(r.flat, c.flat.0, c.flat.1, d.flat)
    ensures ToSplit(m, e, idx).value.aggs.asked == c.aggs.asked + d.aggs.asked + r.aggs.asked
  {
    CaseIsSplitCase(m, e, idx);
    hide *;
    c, d, r := SplitCaseParts(m, e, idx);
  }

  lemma {:induction false} CaseIsSplitCase(m: Interp, e: Expr, idx: nat)
    requires e.Case? && ToSplit(m, e, idx).Ok?
    ensures |e.whens| == |e.thens| && ToSplit(m, e, idx) == SplitCase(m, e, idx)
  {
    hide SplitCase, SplitArgs, SplitList, SplitOrdering, Backed;
  }

  lemma {:induction false} SplitCaseParts(m: Interp, e: Expr, idx: nat) returns (c: Split<(seq<Flat>, seq<Flat>)>, d: Split<Flat>, r: Split<Flat>)
    requires e.Case? && |e.whens| == |e.thens| && SplitCase(m, e, idx).Ok?
    ensures SplitPairs(m, e, |e.whens|, idx) == Ok(c) && |c.flat.0| == |e.whens| == |c.flat.1| && Backed(m, c.aggs)
    ensures SplitOption(m, e.otherwise, FLiteral(Null), idx + Count(c.aggs)) == Ok(d) && Backed(m, d.aggs)
    ensures SplitOption(m, e.reference, FLiteral(Bool(true)), idx + Count(Merge(m, c.aggs, d.aggs))) == Ok(r) && Backed(m, r.aggs)
    ensures SplitCase(m, e, idx).value.flat == FCase(r.flat, c.flat.0, c.flat.1, d.flat)
    ensures SplitCase(m, e, idx).value.aggs.asked == c.aggs.asked + d.aggs.asked + r.aggs.asked
  {
    hide ToSplit, SplitPairs, SplitOption, Count, Merge, Extend, Backed;
    c := SplitPairs(m, e, |e.whens|, idx).value;
    d := SplitOption(m, e.otherwise, FLiteral(Null), idx + Count(c.aggs)).value;
    r := SplitOption(m, e.reference, FLiteral(Bool(true)), idx + Count(Merge(m, c.aggs, d.aggs))).value;
  }

  lemma {:induction false} FlatsSnoc(m: Interp, fs: seq<Flat>, f: Flat, row: Row)
    ensures EvalFlats(m, fs + [f], row) == EvalFlats(m, fs, row) + [EvalFlat(m, f, row)]
  {
    hide EvalFlat;
  }

  lemma {:induction false} GroupsSnoc(m: Interp, es: seq<Expr>, e: Expr, rows: seq<Row>)
    requires rows != []
    ensures EvalGroups(m, es + [e], rows) == EvalGroups(m, es, rows) + [EvalGroup(m, e, rows)]
  {
    hide EvalGroup;
  }

  lemma {:induction false} ListPreserves(m: Interp, es: seq<Expr>, idx: nat, advance: bool, asked: set<Request>, rows: seq<Row>, row: Row)
    requires SplitList(m, es, idx, advance).Ok? && rows != [] && SameBase(rows[0], row)
    requires SplitList(m, es, idx, advance).value.aggs.asked <= asked && Supplies(m, asked, rows, row)
    requires forall i | 0 <= i < |es| :: PlainSelectors(m, es[i]) && WildFree(SplitList(m, es, idx, advance).value.flat[i])
    ensures EvalFlats(m, SplitList(m, es, idx, advance).value.flat, row) == EvalGroups(m, es, rows)
    decreases es, 0
  {
    hide ToSplit, EvalFlat, EvalFlats, EvalGroup, EvalGroups, PlainSelectors, WildFree, SameBase, Supplies, Backed, Count, Merge, Extend;
    if es != [] {
      var l := |es| - 1;
      var init := SplitList(m, es[..l], idx, advance).value;
      var fs := SplitList(m, es, idx, advance).value.flat;
      assert forall i | 0 <= i < l :: fs[i] == init.flat[i] && es[..l][i] == es[i];
      ListPreserves(m, es[..l], idx, advance, asked, rows, row);
      SplitPreserves(m, es[l], if advance then idx + Count(init.aggs) else idx, asked, rows, row);
      FlatsSnoc(m, init.flat, fs[l], row);
      GroupsSnoc(m, es[..l], es[l], rows);
      assert es == es[..l] + [es[l]];
    }
  }

  lemma {:induction false} PairsNone(m: Interp, e: Expr, idx: nat, rows: seq<Row>, row: Row)
    requires e.Case? && |e.whens| == |e.thens| && rows != []
    ensures SplitPairs(m, e, 0, idx) == Ok(Split(([], []), NO_INPUTS))
    ensures EvalFlats(m, [], row) == [] && EvalGroups(m, e.whens[..0], rows) == [] && EvalGroups(m, e.thens[..0], rows) == []
  {}

  lemma {:induction false} PairsParts(m: Interp, e: Expr, n: nat, idx: nat) returns (init: Split<(seq<Flat>, seq<Flat>)>, w: Split<Flat>, t: Split<Flat>)
    requires e.Case? && 0 < n <= |e.whens| == |e.thens| && SplitPairs(m, e, n, idx).Ok?
    ensures SplitPairs(m, e, n - 1, idx) == Ok(init) && |init.flat.0| == n - 1 == |init.flat.1|
    ensures ToSplit(m, e.whens[n - 1], idx + Count(init.aggs)) == Ok(w)
    ensures ToSplit(m, e.thens[n - 1], idx + Count(Merge(m, init.aggs, w.aggs))) == Ok(t)
    ensures SplitPairs(m, e, n, idx) == Ok(Split((init.flat.0 + [w.flat], init.flat.1 + [t.flat]), Merge(m, Merge(m, init.aggs, w.aggs), t.aggs)))
    ensures var all := SplitPairs(m, e, n, idx).value.aggs.asked; init.aggs.asked <= all && w.aggs.asked <= all && t.aggs.asked <= all
  {
    hide ToSplit, Backed, Count, Merge, Extend;
    init := SplitPairs(m, e, n - 1, idx).value;
    w := ToSplit(m, e.whens[n - 1], idx + Count(init.aggs)).value;
    t := ToSplit(m, e.thens[n - 1], idx + Count(Merge(m, init.aggs, w.aggs))).value;
  }

  lemma {:induction false} PairsPreserve(m: Interp, e: Expr, n: nat, idx: nat, asked: set<Request>, rows: seq<Row>, row: Row)
    requires e.Case? && n <= |e.whens| == |e.thens|
    requires SplitPairs(m, e, n, idx).Ok? && rows != [] && SameBase(rows[0], row)
    requires SplitPairs(m, e, n, idx).value.aggs.asked <= asked && Supplies(m, asked, rows, row)
    requires forall i | 0 <= i < n :: PlainSelectors(m, e.whens[i]) && PlainSelectors(m, e.thens[i])
    requires var c := SplitPairs(m, e, n, idx).value.flat; forall i | 0 <= i < n :: WildFree(c.0[i]) && WildFree(c.1[i])
    ensures EvalFlats(m, SplitPairs(m, e, n, idx).value.flat.0, row) == EvalGroups(m, e.whens[..n], rows)
    ensures EvalFlats(m, SplitPairs(m, e, n, idx).value.flat.1, row) == EvalGroups(m, e.thens[..n], rows)
    decreases e, 0, n
  {
    hide ToSplit, SplitPairs, EvalFlat, EvalFlats, EvalGroup, EvalGroups, PlainSelectors, WildFree, SameBase, Supplies, Backed, Count, Merge, Extend;
    if n == 0 {
      PairsNone(m, e, idx, rows, row);
    } else {
      var init, w, t := PairsParts(m, e, n, idx);
      var c := SplitPairs(m, e, n, idx).value.flat;
      assert forall i | 0 <= i < n - 1 :: c.0[i] == init.flat.0[i] && c.1[i] == init.flat.1[i];
      assert c.0[n - 1] == w.flat && c.1[n - 1] == t.flat;
      PairsPreserve(m, e, n - 1, idx, asked, rows, row);
      SplitPreserves(m, e.whens[n - 1], idx + Count(init.aggs), asked, rows, row);
      SplitPreserves(m, e.thens[n - 1], idx + Count(Merge(m, init.aggs, w.aggs)), asked, rows, row);
      FlatsSnoc(m, init.flat.0, c.0[n - 1], row);
      FlatsSnoc(m, init.flat.1, c.1[n - 1], row);
      GroupsSnoc(m, e.whens[..n - 1], e.whens[n - 1], rows);
      GroupsSnoc(m, e.thens[..n - 1], e.thens[n - 1], rows);
      assert e.whens[..n] == e.whens[..n - 1] + [e.whens[n - 1]];
      assert e.thens[..n] == e.thens[..n - 1] + [e.thens[n - 1]];
    }
  }

  /** The main result: if every input asked for can be computed on every row of the group, and inputs that
      share an id have the same values, then evaluating the flat part on the first row extended by the
      collected arrays is the same as evaluating the original expression with each aggregate applied
      directly to the group. */
  lemma {:induction false} FlatteningPreservesMeaning(m: Interp, e: Expr, rows: seq<Row>)
    requires ToSplit(m, e, 0).Ok? && PlainSelectors(m, e) && WildFree(ToSplit(m, e, 0).value.flat) && rows != []
    requires AllEvaluate(m, ToSplit(m, e, 0).value.aggs.asked, rows) && Agree(m, ToSplit(m, e, 0).value.aggs.asked, rows)
    ensures EvalFlat(m, ToSplit(m, e, 0).value.flat, GroupRow(m, ToSplit(m, e, 0).value.aggs, rows)) == EvalGroup(m, e, rows)
  {
    hide *;
    var aggs := ToSplit(m, e, 0).value.aggs;
    GroupRowProvides(m, aggs, rows);
    SuppliedIff(m, aggs, rows);
    SplitPreserves(m, e, 0, aggs.asked, rows, GroupRow(m, aggs, rows));
  }

  /** In particular, different ids for the different inputs of this expression suffice. */
  lemma {:induction false} DistinctIdsSuffice(m: Interp, e: Expr, rows: seq<Row>)
    requires ToSplit(m, e, 0).Ok? && PlainSelectors(m, e) && WildFree(ToSplit(m, e, 0).value.flat) && rows != []
    requires DistinctIds(m, ToSplit(m, e, 0).value.aggs.asked)
    requires var exprs := ToSplit(m, e, 0).value.aggs.exprs; forall id | id in exprs :: EvaluatesOn(m, exprs[id], rows)
    ensures EvalFlat(m, ToSplit(m, e, 0).value.flat, GroupRow(m, ToSplit(m, e, 0).value.aggs, rows)) == EvalGroup(m, e, rows)
  {
    var aggs := ToSplit(m, e, 0).value.aggs;
    hide ToSplit, EvaluatesOn, FlatValues, PlainSelectors, WildFree, EvalFlat, EvalGroup, GroupRow;
    forall p | p in aggs.asked ensures EvaluatesOn(m, p.0, rows) {
      var id := IdOf(m, p);
      assert Backs(m, aggs.asked, id, aggs.exprs[id]);
      var q :| q in aggs.asked && IdOf(m, q) == id && q.0 == aggs.exprs[id];
    }
    FlatteningPreservesMeaning(m, e, rows);
  }

  /** The single argument of an aggregate, if it is an aggregation parameter. */
  lemma {:induction false} OneArgument(m: Interp, f: string, a: Expr, idx: nat)
    requires m.aggregates(f, 0) && ToFlat(m, a).Ok?
    ensures var fa := ToFlat(m, a).value;
            && SplitArgs(m, f, [a], idx).Ok? && SplitArgs(m, f, [a], idx).value.flat == [FRef(m.id(fa, idx))]
            && SplitArgs(m, f, [a], idx).value.aggs == Inputs(map[m.id(fa, idx) := fa], {(fa, idx)})
  {
    assert [a][..0] == [];
    assert SplitArgs(m, f, [], idx) == Ok(Split([], NO_INPUTS));
    hide ToFlat, Backed;
    assert Count(NO_INPUTS) == 0;
  }

  lemma {:induction false} AggregateSplit(m: Interp, f: string, args: seq<Expr>, idx: nat)
    requires m.known(f, |args|) && IsAggregate(m, f, |args|) && SplitArgs(m, f, Star(f, args), idx).Ok?
    ensures var s := SplitArgs(m, f, Star(f, args), idx).value;
            ToSplit(m, FuncApp(f, args, []), idx) == Ok(Split(FCall(f, s.flat), s.aggs))
  {
    hide SplitArgs, Star, Backed;
  }

  /** An aggregate of one aggregation parameter: its flat form, and the input it asks for. */
  lemma {:induction false} SimpleAggregate(m: Interp, f: string, a: Expr, idx: nat)
    requires m.known(f, 1) && m.aggregates(f, 0) && !a.Wildcard? && ToFlat(m, a).Ok?
    ensures var fa := ToFlat(m, a).value;
            ToSplit(m, FuncApp(f, [a], []), idx) ==
              Ok(Split(FCall(f, [FRef(m.id(fa, idx))]), Inputs(map[m.id(fa, idx) := fa], {(fa, idx)})))
  {
    assert IsAggregate(m, f, 1) by { assert m.aggregates(f, 0); }
    assert Star(f, [a]) == [a];
    hide ToFlat, ToSplit, SplitArgs, Star, IsAggregate;
    OneArgument(m, f, a, idx);
    AggregateSplit(m, f, [a], idx);
  }

  /** The converse, for all interpretations: if two different inputs share an id, then f(a) op f(b) is
      flattened to something that computes f(b) op f(b). */
  lemma {:induction false} CollisionComputesOther(m: Interp, f: string, op: string, a: Expr, b: Expr, rows: seq<Row>)
    requires m.known(f, 1) && m.aggregates(f, 0) && !a.Wildcard? && !b.Wildcard? && PlainSelectors(m, b) && rows != []
    requires ToFlat(m, a).Ok? && ToFlat(m, b).Ok? && m.id(ToFlat(m, a).value, 0) == m.id(ToFlat(m, b).value, 1)
    requires EvaluatesOn(m, ToFlat(m, b).value, rows)
    ensures var fa, fb := FuncApp(f, [a], []), FuncApp(f, [b], []);
            && ToSplit(m, Binary(op, fa, fb), 0).Ok?
            && var s := ToSplit(m, Binary(op, fa, fb), 0).value;
               EvalFlat(m, s.flat, GroupRow(m, s.aggs, rows)) == EvalGroup(m, Binary(op, fb, fb), rows)
  {
    var ea, eb := FuncApp(f, [a], []), FuncApp(f, [b], []);
    var fb, id := ToFlat(m, b).value, m.id(ToFlat(m, b).value, 1);
    assert PlainSelectors(m, eb) && WildFree(FCall(f, [FRef(id)]));
    hide *;
    CollidingSplit(m, f, op, a, b);
    var s := ToSplit(m, Binary(op, ea, eb), 0).value;
    var row := GroupRow(m, s.aggs, rows);
    GroupRowProvides(m, s.aggs, rows);
    OneSupplied(m, fb, rows, row);
    SplitPreserves(m, eb, 1, {(fb, 1)}, rows, row);
    SameTwice(m, op, FCall(f, [FRef(id)]), eb, rows, row);
  }

  lemma {:induction false} OneSupplied(m: Interp, f: Flat, rows: seq<Row>, row: Row)
    requires EvaluatesOn(m, f, rows) && Agg(m.id(f, 1)) in row && row[Agg(m.id(f, 1))] == Array(FlatValues(m, f, rows))
    ensures Supplies(m, {(f, 1)}, rows, row)
  {
    hide EvaluatesOn, FlatValues;
  }

  lemma {:induction false} CollidingSplit(m: Interp, f: string, op: string, a: Expr, b: Expr)
    requires m.known(f, 1) && m.aggregates(f, 0) && !a.Wildcard? && !b.Wildcard?
    requires ToFlat(m, a).Ok? && ToFlat(m, b).Ok? && m.id(ToFlat(m, a).value, 0) == m.id(ToFlat(m, b).value, 1)
    ensures var ea, eb, fb := FuncApp(f, [a], []), FuncApp(f, [b], []), ToFlat(m, b).value;
            var call := FCall(f, [FRef(m.id(fb, 1))]);
            && ToSplit(m, Binary(op, ea, eb), 0).Ok? && ToSplit(m, Binary(op, ea, eb), 0).value.flat == FBinary(op, call, call)
            && m.id(fb, 1) in ToSplit(m, Binary(op, ea, eb), 0).value.aggs.exprs
            && ToSplit(m, Binary(op, ea, eb), 0).value.aggs.exprs[m.id(fb, 1)] == fb
            && ToSplit(m, eb, 1).Ok? && ToSplit(m, eb, 1).value.flat == call && ToSplit(m, eb, 1).value.aggs.asked == {(fb, 1)}
  {
    hide ToFlat, ToSplit, Backed;
    SimpleAggregate(m, f, a, 0);
    SimpleAggregate(m, f, b, 1);
    assert Count(ToSplit(m, FuncApp(f, [a], []), 0).value.aggs) == 1;
    CollisionSplit(m, op, FuncApp(f, [a], []), FuncApp(f, [b], []));
  }

  lemma {:induction false} SameTwice(m: Interp, op: string, f: Flat, e: Expr, rows: seq<Row>, row: Row)
    requires rows != [] && !e.Missing? && EvalFlat(m, f, row) == EvalGroup(m, e, rows)
    ensures EvalFlat(m, FBinary(op, f, f), row) == EvalGroup(m, Binary(op, e, e), rows)
  {
    hide BinaryRes;
  }

  lemma {:induction false} CollisionSplit(m: Interp, op: string, l: Expr, r: Expr)
    requires !r.Missing? && ToSplit(m, l, 0).Ok? && ToSplit(m, r, Count(ToSplit(m, l, 0).value.aggs)).Ok?
    ensures var sl := ToSplit(m, l, 0).value; var sr := ToSplit(m, r, Count(sl.aggs)).value;
            && ToSplit(m, Binary(op, l, r), 0).Ok?
            && ToSplit(m, Binary(op, l, r), 0).value.flat == FBinary(op, sl.flat, sr.flat)
            && ToSplit(m, Binary(op, l, r), 0).value.aggs.exprs == sl.aggs.exprs + sr.aggs.exprs
  {
    hide Count, Backed;
  }

  // ---- which flat expressions an evaluator can be built for --------------------------------

  /** A selector is built only on the evaluator of a plain function call. */
  predicate Buildable(f: Flat) {
    match f
    case FBinary(_, l, r) => Buildable(l) && Buildable(r)
    case FUnary(_, x) => Buildable(x)
    case FCast(x, _) => Buildable(x)
    case FCall(_, args) => forall i | 0 <= i < |args| :: Buildable(args[i])
    case FSortedCall(_, args, _) => forall i | 0 <= i < |args| :: Buildable(args[i])
    case FSelected(app, _) => app.FCall? && Buildable(app)
    case FArray(elems) => forall i | 0 <= i < |elems| :: Buildable(elems[i])
    case FMap(_, elems) => forall i | 0 <= i < |elems| :: Buildable(elems[i])
    case FCase(r, ws, ts, d) =>
      && Buildable(r) && Buildable(d)
      && (forall i | 0 <= i < |ws| :: Buildable(ws[i])) && forall i | 0 <= i < |ts| :: Buildable(ts[i])
    case _ => true
  }

  /** What the grammar produces: selectors apply to function calls only. */
  predicate Parsed(e: Expr) {
    match e
    case Alias(x) => Parsed(x)
    case Binary(_, l, r) => Parsed(l) && Parsed(r)
    case Unary(_, x) => Parsed(x)
    case Cast(x, _) => Parsed(x)
    case FuncApp(_, args, ordering) =>
      && (forall i | 0 <= i < |args| :: Parsed(args[i]))
      && forall i | 0 <= i < |ordering| :: Parsed(ordering[i].expr)
    case Selected(app, _) => app.FuncApp? && Parsed(app)
    case MakeArray(elems) => forall i | 0 <= i < |elems| :: Parsed(elems[i])
    case MakeMap(_, elems) => forall i | 0 <= i < |elems| :: Parsed(elems[i])
    case Case(reference, whens, thens, otherwise) =>
      && (reference.Some? ==> Parsed(reference.value)) && (otherwise.Some? ==> Parsed(otherwise.value))
      && (forall i | 0 <= i < |whens| :: Parsed(whens[i])) && forall i | 0 <= i < |thens| :: Parsed(thens[i])
    case _ => true
  }

  lemma {:induction false} ColumnIsPlain(m: Interp, e: Expr)
    requires ColumnUnder(e).Some?
    ensures PlainSelectors(m, e)
  {
    if e.Alias? { ColumnIsPlain(m, e.expr); }
  }

  lemma {:induction false} BuildableFlat(m: Interp, e: Expr)
    requires ToFlat(m, e).Ok? && Parsed(e)
    ensures Buildable(ToFlat(m, e).value) <==> PlainSelectors(m, e)
    decreases e, 1
  {
    hide *;
    match e
    case Alias(_) => BuildableFlatPart(m, e);
    case Binary(_, _, _) => BuildableFlatBinary(m, e);
    case Unary(_, _) => BuildableFlatPart(m, e);
    case Cast(_, _) => BuildableFlatPart(m, e);
    case FuncApp(_, _, _) => BuildableFlatCall(m, e);
    case Selected(_, _) => BuildableFlatCall(m, e);
    case MakeArray(_) => BuildableFlatList(m, e);
    case MakeMap(_, _) => BuildableFlatList(m, e);
    case Case(_, _, _, _) => BuildableFlatCase(m, e);
    case _ => BuildableFlatLeaf(m, e);
  }

  lemma {:induction false} BuildableFlatLeaf(m: Interp, e: Expr)
    requires e.RowMeta? || e.RowValue? || e.Literal? || e.Missing? || e.Wildcard?
    requires ToFlat(m, e).Ok? && Parsed(e)
    ensures Buildable(ToFlat(m, e).value) <==> PlainSelectors(m, e)
  {}

  lemma {:induction false} BuildableFlatPart(m: Interp, e: Expr)
    requires e.Alias? || e.Unary? || e.Cast?
    requires ToFlat(m, e).Ok? && Parsed(e)
    ensures Buildable(ToFlat(m, e).value) <==> PlainSelectors(m, e)
    decreases e, 0
  {
    BuildableFlat(m, e.expr);
  }

  lemma {:induction false} BuildableFlatBinary(m: Interp, e: Expr)
    requires e.Binary? && ToFlat(m, e).Ok? && Parsed(e)
    ensures Buildable(ToFlat(m, e).value) <==> PlainSelectors(m, e)
    decreases e, 0
  {
    BuildableFlat(m, e.left);
    if e.right.Missing? {
      ColumnUnderFlat(m, e.left);
      ColumnIsPlain(m, e.left);
    } else {
      BuildableFlat(m, e.right);
    }
  }

  lemma {:induction false} BuildableFlatCall(m: Interp, e: Expr)
    requires e.FuncApp? || e.Selected?
    requires ToFlat(m, e).Ok? && Parsed(e)
    ensures Buildable(ToFlat(m, e).value) <==> PlainSelectors(m, e)
    decreases e, 0
  {
    if e.Selected? {
      BuildableFlat(m, e.app);
    } else if !(e.name == "now" && e.args == []) {
      BuildableFlats(m, e.args);
    }
  }

  lemma {:induction false} BuildableFlatList(m: Interp, e: Expr)
    requires e.MakeArray? || e.MakeMap?
    requires ToFlat(m, e).Ok? && Parsed(e)
    ensures Buildable(ToFlat(m, e).value) <==> PlainSelectors(m, e)
    decreases e, 0
  {
    BuildableFlats(m, e.elems);
  }

  lemma {:induction false} BuildableFlatCase(m: Interp, e: Expr)
    requires e.Case? && ToFlat(m, e).Ok? && Parsed(e)
    ensures Buildable(ToFlat(m, e).value) <==> PlainSelectors(m, e)
    decreases e, 0
  {
    hide IsAggregate, ToFlats;
    BuildableFlats(m, e.whens);
    BuildableFlats(m, e.thens);
    if e.reference.Some? { BuildableFlat(m, e.reference.value); }
    if e.otherwise.Some? { BuildableFlat(m, e.otherwise.value); }
  }

  lemma {:induction false} BuildableFlats(m: Interp, es: seq<Expr>)
    requires ToFlats(m, es).Ok? && forall i | 0 <= i < |es| :: Parsed(es[i])
    ensures forall i | 0 <= i < |es| :: Buildable(ToFlats(m, es).value[i]) <==> PlainSelectors(m, es[i])
    decreases es, 0
  {
    hide Buildable, PlainSelectors, ToFlat;
    forall i | 0 <= i < |es| ensures Buildable(ToFlats(m, es).value[i]) <==> PlainSelectors(m, es[i]) {
      FlatsAt(m, es, i);
      BuildableFlat(m, es[i]);
    }
  }

  ghost predicate AllBuildable(asked: set<Request>) {
    forall p | p in asked :: Buildable(p.0)
  }

  ghost predicate AllPlain(m: Interp, es: seq<Expr>) {
    forall i | 0 <= i < |es| :: PlainSelectors(m, es[i])
  }

  ghost predicate AllParsed(es: seq<Expr>) {
    forall i | 0 <= i < |es| :: Parsed(es[i])
  }

  lemma {:induction false} ParsedParts(es: seq<Expr>)
    requires AllParsed(es) && es != []
    ensures AllParsed(es[..|es| - 1]) && Parsed(es[|es| - 1])
  {
    hide Parsed;
  }

  ghost predicate AllFlatBuildable(fs: seq<Flat>) {
    forall i | 0 <= i < |fs| :: Buildable(fs[i])
  }

  lemma {:induction false} SnocBuildable(m: Interp, fs: seq<Flat>, f: Flat, es: seq<Expr>, asked: set<Request>, more: set<Request>)
    requires es != []
    ensures AllFlatBuildable(fs + [f]) <==> AllFlatBuildable(fs) && Buildable(f)
    ensures AllPlain(m, es) <==> AllPlain(m, es[..|es| - 1]) && PlainSelectors(m, es[|es| - 1])
    ensures AllBuildable(asked + more) <==> AllBuildable(asked) && AllBuildable(more)
  {
    hide Buildable, PlainSelectors;
    assert (fs + [f])[|fs|] == f && forall i | 0 <= i < |fs| :: (fs + [f])[i] == fs[i];
    if AllPlain(m, es) {
      assert PlainSelectors(m, es[|es| - 1]);
      assert forall i | 0 <= i < |es| - 1 :: es[..|es| - 1][i] == es[i];
    }
    if AllPlain(m, es[..|es| - 1]) {
      assert forall i | 0 <= i < |es| - 1 :: es[..|es| - 1][i] == es[i];
    }
  }

  lemma {:induction false} OneBuildable(f: Flat, n: nat)
    ensures AllBuildable({(f, n)}) <==> Buildable(f)
  {
    assert (f, n) in {(f, n)};
  }

  lemma {:induction false} BuildableArgs(m: Interp, f: string, es: seq<Expr>, idx: nat)
    requires SplitArgs(m, f, es, idx).Ok? && AllParsed(es)
    ensures var s := SplitArgs(m, f, es, idx).value; AllFlatBuildable(s.flat) && AllBuildable(s.aggs.asked) <==> AllPlain(m, es)
    decreases es
  {
    hide *;
    if es == [] {
      NoArgsBuildable(m, f, idx);
    } else {
      var init, last := ArgsParts(m, f, es, idx);
      ParsedParts(es);
      BuildableArgs(m, f, es[..|es| - 1], idx);
      BuildableFlat(m, es[|es| - 1]);
      var n := idx + Count(init.aggs);
      SnocBuildable(m, init.flat, last, es, init.aggs.asked, {(last, n)});
      SnocBuildable(m, init.flat, FRef(m.id(last, n)), es, init.aggs.asked, {(last, n)});
      OneBuildable(last, n);
      RefBuildable(m.id(last, n));
    }
  }

  lemma {:induction false} NoArgsBuildable(m: Interp, f: string, idx: nat)
    ensures SplitArgs(m, f, [], idx) == Ok(Split([], NO_INPUTS))
    ensures AllFlatBuildable([]) && AllBuildable(NO_INPUTS.asked) && AllPlain(m, [])
  {}

  lemma {:induction false} RefBuildable(id: string)
    ensures Buildable(FRef(id))
  {}

  ghost predicate OrderingPlain(m: Interp, ordering: seq<SortKey>) {
    forall i | 0 <= i < |ordering| :: PlainSelectors(m, ordering[i].expr)
  }

  lemma {:induction false} BuildableOrdering(m: Interp, ordering: seq<SortKey>, idx: nat, aggs: Inputs)
    requires Backed(m, aggs) && SplitOrdering(m, ordering, idx, aggs).Ok? && forall i | 0 <= i < |ordering| :: Parsed(ordering[i].expr)
    ensures AllBuildable(SplitOrdering(m, ordering, idx, aggs).value.aggs.asked) <==> AllBuildable(aggs.asked) && OrderingPlain(m, ordering)
    decreases ordering
  {
    hide ToFlat, Buildable, PlainSelectors, Backed, AllBuildable, Count, Parsed;
    if ordering != [] {
      var l := |ordering| - 1;
      var init := SplitOrdering(m, ordering[..l], idx, aggs).value;
      var last, n := ToFlat(m, ordering[l].expr).value, idx + Count(init.aggs);
      BuildableOrdering(m, ordering[..l], idx, aggs);
      BuildableFlat(m, ordering[l].expr);
      UnionBuildable(init.aggs.asked, {(last, n)});
      OneBuildable(last, n);
      assert forall i | 0 <= i < l :: ordering[..l][i] == ordering[i];
      assert OrderingPlain(m, ordering) <==> OrderingPlain(m, ordering[..l]) && PlainSelectors(m, ordering[l].expr);
    }
  }

  lemma {:induction false} UnionBuildable(a: set<Request>, b: set<Request>)
    ensures AllBuildable(a + b) <==> AllBuildable(a) && AllBuildable(b)
  {
    hide Buildable;
  }

  /** Nested to any depth: evaluators can be built for the flat part and for every input asked for exactly
      if each selector applies to an ordinary call or to an aggregate without ORDER BY. */
  lemma {:induction false} BuildableIffPlain(m: Interp, e: Expr, idx: nat)
    requires ToSplit(m, e, idx).Ok? && Parsed(e)
    ensures Buildable(ToSplit(m, e, idx).value.flat) && AllBuildable(ToSplit(m, e, idx).value.aggs.asked) <==> PlainSelectors(m, e)
    decreases e, 1
  {
    hide *;
    match e
    case Alias(_) => BuildablePart(m, e, idx);
    case Binary(_, _, _) => BuildableBinary(m, e, idx);
    case Unary(_, _) => BuildablePart(m, e, idx);
    case Cast(_, _) => BuildablePart(m, e, idx);
    case FuncApp(_, _, _) => BuildableCall(m, e, idx);
    case Selected(_, _) => BuildableSelected(m, e, idx);
    case MakeArray(_) => BuildableMake(m, e, idx);
    case MakeMap(_, _) => BuildableMake(m, e, idx);
    case Case(_, _, _, _) => BuildableCase(m, e, idx);
    case _ => BuildableLeaf(m, e, idx);
  }

  lemma {:induction false} BuildableLeaf(m: Interp, e: Expr, idx: nat)
    requires e.RowMeta? || e.RowValue? || e.Literal? || e.Missing? || e.Wildcard?
    requires ToSplit(m, e, idx).Ok? && Parsed(e)
    ensures Buildable(ToSplit(m, e, idx).value.flat) && AllBuildable(ToSplit(m, e, idx).value.aggs.asked) <==> PlainSelectors(m, e)
  {
    hide Backed;
  }

  lemma {:induction false} BuildablePart(m: Interp, e: Expr, idx: nat)
    requires e.Alias? || e.Unary? || e.Cast?
    requires ToSplit(m, e, idx).Ok? && Parsed(e)
    ensures Buildable(ToSplit(m, e, idx).value.flat) && AllBuildable(ToSplit(m, e, idx).value.aggs.asked) <==> PlainSelectors(m, e)
    decreases e, 0
  {
    hide Backed, AllBuildable, IsAggregate, SplitArgs, SplitList, SplitOrdering, SplitCase;
    BuildableIffPlain(m, e.expr, idx);
  }

  lemma {:induction false} BuildableBinary(m: Interp, e: Expr, idx: nat)
    requires e.Binary? && ToSplit(m, e, idx).Ok? && Parsed(e)
    ensures Buildable(ToSplit(m, e, idx).value.flat) && AllBuildable(ToSplit(m, e, idx).value.aggs.asked) <==> PlainSelectors(m, e)
    decreases e, 0
  {
    hide Backed, AllBuildable, IsAggregate, SplitArgs, SplitList, SplitOrdering, SplitCase, Count, Merge;
    BuildableIffPlain(m, e.left, idx);
    if e.right.Missing? {
      ColumnUnderSplit(m, e.left, idx);
      ColumnIsPlain(m, e.left);
    } else {
      var left := ToSplit(m, e.left, idx).value;
      var right := ToSplit(m, e.right, idx + Count(left.aggs)).value;
      BuildableIffPlain(m, e.right, idx + Count(left.aggs));
      UnionBuildable(left.aggs.asked, right.aggs.asked);
    }
  }

  lemma {:induction false} BuildableSelected(m: Interp, e: Expr, idx: nat)
    requires e.Selected? && ToSplit(m, e, idx).Ok? && Parsed(e)
    ensures Buildable(ToSplit(m, e, idx).value.flat) && AllBuildable(ToSplit(m, e, idx).value.aggs.asked) <==> PlainSelectors(m, e)
    decreases e, 0
  {
    BuildableIffPlain(m, e.app, idx);
    CallIffPlain(m, e.app, idx);
    hide Backed, AllBuildable, IsAggregate, SplitArgs, SplitList, SplitOrdering, SplitCase, PlainApp;
    assert ToSplit(m, e, idx).value.flat == FSelected(ToSplit(m, e.app, idx).value.flat, e.selector);
  }

  lemma {:induction false} CallIffPlain(m: Interp, app: Expr, idx: nat)
    requires app.FuncApp? && ToSplit(m, app, idx).Ok?
    ensures ToSplit(m, app, idx).value.flat.FCall? <==> PlainApp(m, app)
  {
    hide Backed, IsAggregate, SplitArgs, SplitList, SplitOrdering, SplitCase;
  }

  lemma {:induction false} BuildableCall(m: Interp, e: Expr, idx: nat)
    requires e.FuncApp? && ToSplit(m, e, idx).Ok? && Parsed(e)
    ensures Buildable(ToSplit(m, e, idx).value.flat) && AllBuildable(ToSplit(m, e, idx).value.aggs.asked) <==> PlainSelectors(m, e)
    decreases e, 0
  {
    hide Backed, SplitArgs, SplitList, SplitOrdering, SplitCase;
    if e.name == "now" && e.args == [] {
      assert !IsAggregate(m, e.name, |e.args|);
    } else if IsAggregate(m, e.name, |e.args|) {
      BuildableAggregate(m, e, idx);
    } else {
      BuildableList(m, e.args, idx, false);
    }
  }

  lemma {:induction false} StarPlain(m: Interp, f: string, args: seq<Expr>)
    requires AllParsed(args)
    ensures AllParsed(Star(f, args)) && (AllPlain(m, Star(f, args)) <==> AllPlain(m, args))
  {
    var s := Star(f, args);
    forall i | 0 <= i < |args| ensures Parsed(s[i]) && (PlainSelectors(m, s[i]) <==> PlainSelectors(m, args[i])) {
      assert s[i] == args[i] || (args[i].Wildcard? && s[i] == Literal(Int(1)));
    }
    hide Parsed, PlainSelectors;
    if AllPlain(m, s) { assert forall i | 0 <= i < |args| :: PlainSelectors(m, s[i]); }
  }

  lemma {:induction false} AggregateShape(m: Interp, e: Expr, idx: nat)
    requires e.FuncApp? && !(e.name == "now" && e.args == []) && IsAggregate(m, e.name, |e.args|) && ToSplit(m, e, idx).Ok?
    ensures SplitArgs(m, e.name, Star(e.name, e.args), idx).Ok?
    ensures var s, a := ToSplit(m, e, idx).value, SplitArgs(m, e.name, Star(e.name, e.args), idx).value;
            if e.ordering == [] then s == Split(FCall(e.name, a.flat), a.aggs)
            else SplitOrdering(m, e.ordering, idx, a.aggs).Ok? &&
                 s == Split(FSortedCall(e.name, a.flat, SplitOrdering(m, e.ordering, idx, a.aggs).value.flat), SplitOrdering(m, e.ordering, idx, a.aggs).value.aggs)
  {
    hide Backed, SplitArgs, SplitList, SplitOrdering, SplitCase, IsAggregate, Star;
  }

  lemma {:induction false} AggregatePlain(m: Interp, e: Expr)
    requires e.FuncApp? && IsAggregate(m, e.name, |e.args|)
    ensures PlainSelectors(m, e) <==> AllPlain(m, e.args) && OrderingPlain(m, e.ordering)
    ensures Parsed(e) ==> AllParsed(e.args) && forall i | 0 <= i < |e.ordering| :: Parsed(e.ordering[i].expr)
  {
    hide IsAggregate;
  }

  lemma {:induction false} CallsBuildable(f: string, fs: seq<Flat>, ordering: seq<(string, bool)>)
    ensures Buildable(FCall(f, fs)) <==> AllFlatBuildable(fs)
    ensures Buildable(FSortedCall(f, fs, ordering)) <==> AllFlatBuildable(fs)
  {}

  lemma {:induction false} BuildableAggregate(m: Interp, e: Expr, idx: nat)
    requires e.FuncApp? && !(e.name == "now" && e.args == []) && IsAggregate(m, e.name, |e.args|) && ToSplit(m, e, idx).Ok? && Parsed(e)
    ensures Buildable(ToSplit(m, e, idx).value.flat) && AllBuildable(ToSplit(m, e, idx).value.aggs.asked) <==> PlainSelectors(m, e)
    decreases e, 0
  {
    hide *;
    var args := Star(e.name, e.args);
    AggregateShape(m, e, idx);
    AggregatePlain(m, e);
    StarPlain(m, e.name, e.args);
    var a := SplitArgs(m, e.name, args, idx).value;
    BuildableArgs(m, e.name, args, idx);
    CallsBuildable(e.name, a.flat, []);
    NoOrderingPlain(m);
    if e.ordering != [] {
      CallsBuildable(e.name, a.flat, SplitOrdering(m, e.ordering, idx, a.aggs).value.flat);
      BuildableOrdering(m, e.ordering, idx, a.aggs);
    }
  }

  lemma {:induction false} NoOrderingPlain(m: Interp)
    ensures OrderingPlain(m, [])
  {}

  lemma {:induction false} BuildableMake(m: Interp, e: Expr, idx: nat)
    requires e.MakeArray? || e.MakeMap?
    requires ToSplit(m, e, idx).Ok? && Parsed(e)
    ensures Buildable(ToSplit(m, e, idx).value.flat) && AllBuildable(ToSplit(m, e, idx).value.aggs.asked) <==> PlainSelectors(m, e)
    decreases e, 0
  {
    hide Backed, AllBuildable, IsAggregate, SplitArgs, SplitList, SplitOrdering, SplitCase;
    BuildableList(m, e.elems, idx, true);
  }

  lemma {:induction false} ListParts(m: Interp, es: seq<Expr>, idx: nat, advance: bool) returns (init: Split<seq<Flat>>, last: Split<Flat>, n: nat)
    requires es != [] && SplitList(m, es, idx, advance).Ok?
    ensures SplitList(m, es[..|es| - 1], idx, advance) == Ok(init) && |init.flat| == |es| - 1 && ToSplit(m, es[|es| - 1], n) == Ok(last)
    ensures SplitList(m, es, idx, advance).value.flat == init.flat + [last.flat]
    ensures SplitList(m, es, idx, advance).value.aggs.asked == init.aggs.asked + last.aggs.asked
  {
    hide ToSplit, Backed, Count, Merge;
    init := SplitList(m, es[..|es| - 1], idx, advance).value;
    n := if advance then idx + Count(init.aggs) else idx;
    last := ToSplit(m, es[|es| - 1], n).value;
  }

  lemma {:induction false} BuildableList(m: Interp, es: seq<Expr>, idx: nat, advance: bool)
    requires SplitList(m, es, idx, advance).Ok? && AllParsed(es)
    ensures var s := SplitList(m, es, idx, advance).value; AllFlatBuildable(s.flat) && AllBuildable(s.aggs.asked) <==> AllPlain(m, es)
    decreases es, 0
  {
    hide *;
    if es == [] {
      NoElementsBuildable(m, idx, advance);
    } else {
      var init, last, n := ListParts(m, es, idx, advance);
      ParsedParts(es);
      BuildableList(m, es[..|es| - 1], idx, advance);
      BuildableIffPlain(m, es[|es| - 1], n);
      SnocBuildable(m, init.flat, last.flat, es, init.aggs.asked, last.aggs.asked);
    }
  }

  lemma {:induction false} NoElementsBuildable(m: Interp, idx: nat, advance: bool)
    ensures SplitList(m, [], idx, advance) == Ok(Split([], NO_INPUTS))
    ensures AllFlatBuildable([]) && AllBuildable(NO_INPUTS.asked) && AllPlain(m, [])
  {}

  lemma {:induction false} CasePlain(m: Interp, e: Expr)
    requires e.Case?
    ensures PlainSelectors(m, e) <==> OptionPlain(m, e.reference) && OptionPlain(m, e.otherwise) && AllPlain(m, e.whens) && AllPlain(m, e.thens)
    ensures Parsed(e) ==> OptionParsed(e.reference) && OptionParsed(e.otherwise) && AllParsed(e.whens) && AllParsed(e.thens)
  {}

  ghost predicate OptionPlain(m: Interp, o: Option<Expr>) { o.Some? ==> PlainSelectors(m, o.value) }

  ghost predicate OptionParsed(o: Option<Expr>) { o.Some? ==> Parsed(o.value) }

  lemma {:induction false} CaseBuildable(r: Flat, ws: seq<Flat>, ts: seq<Flat>, d: Flat)
    ensures Buildable(FCase(r, ws, ts, d)) <==> Buildable(r) && Buildable(d) && AllFlatBuildable(ws) && AllFlatBuildable(ts)
  {}

  lemma {:induction false} BuildableCase(m: Interp, e: Expr, idx: nat)
    requires e.Case? && ToSplit(m, e, idx).Ok? && Parsed(e)
    ensures Buildable(ToSplit(m, e, idx).value.flat) && AllBuildable(ToSplit(m, e, idx).value.aggs.asked) <==> PlainSelectors(m, e)
    decreases e, 0
  {
    hide *;
    var c, d, r := CaseParts(m, e, idx);
    CasePlain(m, e);
    CaseBuildable(r.flat, c.flat.0, c.flat.1, d.flat);
    assert e.whens[..|e.whens|] == e.whens && e.thens[..|e.thens|] == e.thens;
    BuildablePairs(m, e, |e.whens|, idx);
    BuildableOption(m, e.otherwise, FLiteral(Null), idx + Count(c.aggs));
    BuildableOption(m, e.reference, FLiteral(Bool(true)), idx + Count(Merge(m, c.aggs, d.aggs)));
    UnionBuildable(c.aggs.asked, d.aggs.asked);
    UnionBuildable(c.aggs.asked + d.aggs.asked, r.aggs.asked);
  }

  lemma {:induction false} BuildableOption(m: Interp, o: Option<Expr>, absent: Flat, idx: nat)
    requires SplitOption(m, o, absent, idx).Ok? && absent.FLiteral? && OptionParsed(o)
    ensures var s := SplitOption(m, o, absent, idx).value;
            Buildable(s.flat) && AllBuildable(s.aggs.asked) <==> OptionPlain(m, o)
    decreases o, 0
  {
    hide ToSplit, PlainSelectors, Parsed;
    if o.Some? { BuildableIffPlain(m, o.value, idx); }
  }

  lemma {:induction false} BuildablePairs(m: Interp, e: Expr, n: nat, idx: nat)
    requires e.Case? && n <= |e.whens| == |e.thens| && SplitPairs(m, e, n, idx).Ok?
    requires AllParsed(e.whens[..n]) && AllParsed(e.thens[..n])
    ensures var s := SplitPairs(m, e, n, idx).value;
            AllFlatBuildable(s.flat.0) && AllFlatBuildable(s.flat.1) && AllBuildable(s.aggs.asked) <==> AllPlain(m, e.whens[..n]) && AllPlain(m, e.thens[..n])
    decreases e, 0, n
  {
    hide *;
    if n == 0 {
      NoPairsBuildable(m, e, idx);
    } else {
      var init, w, t := PairsParts(m, e, n, idx);
      var ws, ts := e.whens[..n], e.thens[..n];
      assert ws[..n - 1] == e.whens[..n - 1] && ts[..n - 1] == e.thens[..n - 1];
      ParsedParts(ws);
      ParsedParts(ts);
      BuildablePairs(m, e, n - 1, idx);
      BuildableIffPlain(m, e.whens[n - 1], idx + Count(init.aggs));
      BuildableIffPlain(m, e.thens[n - 1], idx + Count(Merge(m, init.aggs, w.aggs)));
      SnocBuildable(m, init.flat.0, w.flat, ws, init.aggs.asked, w.aggs.asked);
      SnocBuildable(m, init.flat.1, t.flat, ts, init.aggs.asked + w.aggs.asked, t.aggs.asked);
    }
  }

  lemma {:induction false} NoPairsBuildable(m: Interp, e: Expr, idx: nat)
    requires e.Case? && |e.whens| == |e.thens|
    ensures SplitPairs(m, e, 0, idx) == Ok(Split(([], []), NO_INPUTS))
    ensures AllFlatBuildable([]) && AllBuildable(NO_INPUTS.asked) && AllPlain(m, e.whens[..0]) && AllPlain(m, e.thens[..0])
  {}

  /** A selector on a function call that does not itself contain offending ones: where the original has a
      value, the converted one has this value exactly if the selector does not apply to now() or to an
      aggregate with ORDER BY. */
  lemma {:induction false} SelectorIffPlain(m: Interp, app: Expr, selector: string, rows: seq<Row>)
    requires app.FuncApp? && PlainSelectors(m, app) && rows != [] && ToSplit(m, Selected(app, selector), 0).Ok?
    requires WildFree(ToSplit(m, Selected(app, selector), 0).value.flat) && EvalGroup(m, Selected(app, selector), rows).Ok?
    requires var asked := ToSplit(m, Selected(app, selector), 0).value.aggs.asked; AllEvaluate(m, asked, rows) && Agree(m, asked, rows)
    ensures var e := Selected(app, selector); var s := ToSplit(m, e, 0).value;
            EvalFlat(m, s.flat, GroupRow(m, s.aggs, rows)) == EvalGroup(m, e, rows) <==> PlainApp(m, app)
  {
    var e := Selected(app, selector);
    var s := ToSplit(m, e, 0).value;
    SelectedShape(m, app, selector);
    hide *;
    if PlainApp(m, app) {
      FlatteningPreservesMeaning(m, e, rows);
    } else {
      NotACall(m, ToSplit(m, app, 0).value.flat, selector, GroupRow(m, s.aggs, rows));
    }
  }

  lemma {:induction false} SelectedShape(m: Interp, app: Expr, selector: string)
    requires app.FuncApp? && ToSplit(m, Selected(app, selector), 0).Ok?
    ensures ToSplit(m, app, 0).Ok? && ToSplit(m, Selected(app, selector), 0).value.flat == FSelected(ToSplit(m, app, 0).value.flat, selector)
    ensures ToSplit(m, app, 0).value.flat.FCall? <==> PlainApp(m, app)
    ensures PlainApp(m, app) && PlainSelectors(m, app) ==> PlainSelectors(m, Selected(app, selector))
  {
    CallIffPlain(m, app, 0);
    hide Backed, IsAggregate, SplitArgs, SplitList, SplitOrdering, SplitCase, PlainApp;
  }

  lemma {:induction false} NotACall(m: Interp, f: Flat, selector: string, row: Row)
    requires !f.FCall?
    ensures EvalFlat(m, FSelected(f, selector), row) == Err
  {}
}
