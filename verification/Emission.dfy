/** Relation-to-stream: which rows a plan emits, computed with counters that are bucketed by hash.
    Hash values may collide in any way; all that is used is that equal rows have equal hashes. */
module Emission {
  import opened Values

  datatype Emitter = Rstream | Istream | Dstream

  /** A result row and its precomputed hash. */
  datatype ResultRow = ResultRow(row: Value, hash: nat)

  datatype RowCount = RowCount(row: Value, count: nat)

  type Counters = map<nat, seq<RowCount>>

  type Equality = (Value, Value) -> bool

  /** On the given domain the equality is an equivalence that the hash respects. */
  ghost predicate Lawful(eq: Equality, hash: Value -> nat, dom: iset<Value>) {
    && (forall a | a in dom :: eq(a, a))
    && (forall a, b | a in dom && b in dom && eq(a, b) :: eq(b, a) && hash(a) == hash(b))
    && (forall a, b, c | a in dom && b in dom && c in dom && eq(a, b) && eq(b, c) :: eq(a, c))
  }

  // ---- reference semantics -----------------------------------------------------------------

  /** How many of the given rows equal v. */
  function Count(eq: Equality, rows: seq<Value>, v: Value): (n: nat)
    ensures n <= |rows|
  {
    if rows == [] then 0 else
      var l := |rows| - 1;
      Count(eq, rows[..l], v) + if eq(v, rows[l]) then 1 else 0
  }

  ghost function Places(eq: Equality, rows: seq<Value>, v: Value): set<int> {
    set i: int | 0 <= i < |rows| && eq(v, rows[i])
  }

  lemma {:induction false} PlacesSnoc(eq: Equality, rows: seq<Value>, x: Value, v: Value)
    ensures |Places(eq, rows + [x], v)| == |Places(eq, rows, v)| + if eq(v, x) then 1 else 0
  {
    var all := rows + [x];
    assert forall i | 0 <= i < |rows| :: all[i] == rows[i];
    assert Places(eq, all, v) == Places(eq, rows, v) + if eq(v, x) then {|rows|} else {};
  }

  /** Count is the number of places that hold an equal row. */
  lemma {:induction false} CountIsNumber(eq: Equality, rows: seq<Value>, v: Value)
    ensures Count(eq, rows, v) == |Places(eq, rows, v)|
    decreases rows
  {
    if rows == [] {
      assert Places(eq, rows, v) == {};
    } else {
      hide Places;
      var l := |rows| - 1;
      CountIsNumber(eq, rows[..l], v);
      PlacesSnoc(eq, rows[..l], rows[l], v);
      assert rows == rows[..l] + [rows[l]];
    }
  }

  /** The rows that occur, counted from the front, more often than in the base. */
  function Surplus(eq: Equality, rows: seq<Value>, base: seq<Value>): seq<Value> {
    if rows == [] then [] else
      var l := |rows| - 1;
      Surplus(eq, rows[..l], base) + if Count(eq, rows, rows[l]) > Count(eq, base, rows[l]) then [rows[l]] else []
  }

  ghost predicate AllIn(rows: seq<Value>, dom: iset<Value>) {
    forall i | 0 <= i < |rows| :: rows[i] in dom
  }

  function Monus(a: nat, b: nat): nat {
    if a > b then a - b else 0
  }

  lemma {:induction false} CountRespectsEq(eq: Equality, hash: Value -> nat, dom: iset<Value>, rows: seq<Value>, v: Value, w: Value)
    requires Lawful(eq, hash, dom) && AllIn(rows, dom) && v in dom && w in dom && eq(v, w)
    ensures Count(eq, rows, v) == Count(eq, rows, w)
  {
    if rows != [] {
      var l := |rows| - 1;
      CountRespectsEq(eq, hash, dom, rows[..l], v, w);
      assert rows[l] in dom;
      assert eq(w, v);
    }
  }

  lemma {:induction false} CountAppend(eq: Equality, rows: seq<Value>, x: Value, v: Value)
    ensures Count(eq, rows + [x], v) == Count(eq, rows, v) + if eq(v, x) then 1 else 0
  {
    assert (rows + [x])[..|rows|] == rows;
  }

  /** The surplus is the exact multiset difference, for every class of equal rows. */
  lemma {:induction false} SurplusIsDifference(eq: Equality, hash: Value -> nat, dom: iset<Value>, rows: seq<Value>, base: seq<Value>, v: Value)
    requires Lawful(eq, hash, dom) && AllIn(rows, dom) && AllIn(base, dom) && v in dom
    ensures Count(eq, Surplus(eq, rows, base), v) == Monus(Count(eq, rows, v), Count(eq, base, v))
  {
    if rows != [] {
      var l := |rows| - 1;
      var x, older := rows[l], Surplus(eq, rows[..l], base);
      SurplusIsDifference(eq, hash, dom, rows[..l], base, v);
      CountAppend(eq, older, x, v);
      assert older + [] == older;
      assert x in dom;
      if eq(v, x) {
        CountRespectsEq(eq, hash, dom, rows, v, x);
        CountRespectsEq(eq, hash, dom, base, v, x);
      }
    }
  }

  // ---- counters ----------------------------------------------------------------------------

  /** The count stored in a bucket for the first row equal to v. */
  function Lookup(eq: Equality, bucket: seq<RowCount>, v: Value): nat {
    if bucket == [] then 0
    else if eq(v, bucket[0].row) then bucket[0].count
    else Lookup(eq, bucket[1..], v)
  }

  function Multiplicity(eq: Equality, counters: Counters, r: ResultRow): nat {
    if r.hash in counters then Lookup(eq, counters[r.hash], r.row) else 0
  }

  /** A bucket holds pairwise different rows of the domain, all with the hash of the bucket. */
  ghost predicate BucketOk(eq: Equality, hash: Value -> nat, dom: iset<Value>, key: nat, bucket: seq<RowCount>) {
    && (forall i | 0 <= i < |bucket| :: bucket[i].row in dom && hash(bucket[i].row) == key)
    && forall i, j | 0 <= i < j < |bucket| :: !eq(bucket[i].row, bucket[j].row)
  }

  /** The counters hold, for every row of the domain, how often it occurs in the rows tallied. */
  ghost predicate Tally(eq: Equality, hash: Value -> nat, dom: iset<Value>, counters: Counters, rows: seq<Value>) {
    && (forall key | key in counters :: BucketOk(eq, hash, dom, key, counters[key]))
    && forall v | v in dom :: Multiplicity(eq, counters, ResultRow(v, hash(v))) == Count(eq, rows, v)
  }

  lemma {:induction false} NotBoth(eq: Equality, hash: Value -> nat, dom: iset<Value>, a: Value, b: Value, v: Value)
    requires Lawful(eq, hash, dom) && a in dom && b in dom && v in dom && !eq(a, b)
    ensures !(eq(v, a) && eq(v, b))
  {
  }

  lemma {:induction false} LookupAt(eq: Equality, hash: Value -> nat, dom: iset<Value>, key: nat, bucket: seq<RowCount>, i: nat, v: Value)
    requires Lawful(eq, hash, dom) && BucketOk(eq, hash, dom, key, bucket)
    requires i < |bucket| && v in dom && eq(v, bucket[i].row)
    ensures Lookup(eq, bucket, v) == bucket[i].count
    ensures forall j | 0 <= j < |bucket| && j != i :: !eq(v, bucket[j].row)
  {
    forall j | 0 <= j < |bucket| && j != i ensures !eq(v, bucket[j].row) {
      NotBoth(eq, hash, dom, bucket[if i < j then i else j].row, bucket[if i < j then j else i].row, v);
    }
    if i > 0 { LookupAt(eq, hash, dom, key, bucket[1..], i - 1, v); }
  }

  lemma {:induction false} LookupNone(eq: Equality, bucket: seq<RowCount>, v: Value)
    requires forall j | 0 <= j < |bucket| :: !eq(v, bucket[j].row)
    ensures Lookup(eq, bucket, v) == 0
  {
    if bucket != [] { LookupNone(eq, bucket[1..], v); }
  }

  /** Counting one more row: an existing entry is incremented, or a new one is appended. */
  lemma {:induction false} TallyIncr(eq: Equality, hash: Value -> nat, dom: iset<Value>, counters: Counters, rows: seq<Value>, r: ResultRow, i: nat)
    requires Lawful(eq, hash, dom) && Tally(eq, hash, dom, counters, rows)
    requires r.row in dom && r.hash == hash(r.row) && r.hash in counters
    requires i < |counters[r.hash]| && eq(r.row, counters[r.hash][i].row)
    ensures var b := counters[r.hash];
            && b[i].count == Count(eq, rows, r.row)
            && Tally(eq, hash, dom, counters[r.hash := b[i := b[i].(count := b[i].count + 1)]], rows + [r.row])
  {
    var b := counters[r.hash];
    var b' := b[i := b[i].(count := b[i].count + 1)];
    var counters' := counters[r.hash := b'];
    LookupAt(eq, hash, dom, r.hash, b, i, r.row);
    assert BucketOk(eq, hash, dom, r.hash, b');
    assert Multiplicity(eq, counters, ResultRow(r.row, hash(r.row))) == Count(eq, rows, r.row);
    hide Lawful, BucketOk, Count, Lookup;
    forall v | v in dom
      ensures Multiplicity(eq, counters', ResultRow(v, hash(v))) == Count(eq, rows + [r.row], v)
    {
      CountAppend(eq, rows, r.row, v);
      assert Multiplicity(eq, counters, ResultRow(v, hash(v))) == Count(eq, rows, v);
      BumpLookup(eq, hash, dom, r.hash, b, i, r.row, v);
    }
  }

  lemma {:induction false} BumpLookup(eq: Equality, hash: Value -> nat, dom: iset<Value>, key: nat, b: seq<RowCount>, i: nat, x: Value, v: Value)
    requires Lawful(eq, hash, dom) && BucketOk(eq, hash, dom, key, b)
    requires i < |b| && x in dom && v in dom && eq(x, b[i].row)
    ensures eq(v, x) ==> hash(v) == key
    ensures Lookup(eq, b[i := b[i].(count := b[i].count + 1)], v) == Lookup(eq, b, v) + if eq(v, x) then 1 else 0
  {
    var b' := b[i := b[i].(count := b[i].count + 1)];
    assert b[i].row in dom && hash(x) == hash(b[i].row) == key;
    if eq(v, x) {
      assert eq(v, b[i].row);
      LookupAt(eq, hash, dom, key, b, i, v);
      LookupAt(eq, hash, dom, key, b', i, v);
    } else {
      assert eq(b[i].row, x);
      SameLookup(eq, b, b', i, v);
    }
  }

  lemma {:induction false} SameLookup(eq: Equality, b: seq<RowCount>, b': seq<RowCount>, i: nat, v: Value)
    requires i < |b| == |b'| && !eq(v, b[i].row) && b'[i].row == b[i].row
    requires forall j | 0 <= j < |b| && j != i :: b'[j] == b[j]
    ensures Lookup(eq, b', v) == Lookup(eq, b, v)
  {
    if i == 0 {
      assert b[1..] == b'[1..];
    } else {
      SameLookup(eq, b[1..], b'[1..], i - 1, v);
    }
  }

  lemma {:induction false} LookupAppend(eq: Equality, b: seq<RowCount>, x: Value, v: Value)
    requires forall j | 0 <= j < |b| && eq(v, x) :: !eq(v, b[j].row)
    ensures Lookup(eq, b + [RowCount(x, 1)], v) == Lookup(eq, b, v) + if eq(v, x) then 1 else 0
  {
    if b == [] {
    } else {
      assert (b + [RowCount(x, 1)])[1..] == b[1..] + [RowCount(x, 1)];
      if eq(v, b[0].row) {
      } else {
        LookupAppend(eq, b[1..], x, v);
      }
    }
  }

  lemma {:induction false} AppendLookup(eq: Equality, hash: Value -> nat, dom: iset<Value>, key: nat, b: seq<RowCount>, x: Value, v: Value)
    requires Lawful(eq, hash, dom) && BucketOk(eq, hash, dom, key, b)
    requires x in dom && v in dom && hash(x) == key && forall j | 0 <= j < |b| :: !eq(x, b[j].row)
    ensures eq(v, x) ==> hash(v) == key
    ensures Lookup(eq, b + [RowCount(x, 1)], v) == Lookup(eq, b, v) + if eq(v, x) then 1 else 0
  {
    if eq(v, x) {
      assert eq(x, v);
      forall j | 0 <= j < |b| ensures !eq(v, b[j].row) { assert b[j].row in dom; }
    }
    LookupAppend(eq, b, x, v);
  }

  lemma {:induction false} AppendBucket(eq: Equality, hash: Value -> nat, dom: iset<Value>, key: nat, b: seq<RowCount>, x: Value)
    requires Lawful(eq, hash, dom) && BucketOk(eq, hash, dom, key, b)
    requires x in dom && hash(x) == key && forall j | 0 <= j < |b| :: !eq(x, b[j].row)
    ensures BucketOk(eq, hash, dom, key, b + [RowCount(x, 1)])
  {
    forall j | 0 <= j < |b| ensures !eq(b[j].row, x) { assert b[j].row in dom; }
  }

  lemma {:induction false} TallyNew(eq: Equality, hash: Value -> nat, dom: iset<Value>, counters: Counters, rows: seq<Value>, r: ResultRow)
    requires Lawful(eq, hash, dom) && Tally(eq, hash, dom, counters, rows)
    requires r.row in dom && r.hash == hash(r.row)
    requires r.hash in counters ==> forall j | 0 <= j < |counters[r.hash]| :: !eq(r.row, counters[r.hash][j].row)
    ensures var b := if r.hash in counters then counters[r.hash] else [];
            && Count(eq, rows, r.row) == 0
            && Tally(eq, hash, dom, counters[r.hash := b + [RowCount(r.row, 1)]], rows + [r.row])
  {
    assert forall v :: Lookup(eq, [], v) == 0;
    hide Lawful, Count, Lookup;
    var b := if r.hash in counters then counters[r.hash] else [];
    var counters' := counters[r.hash := b + [RowCount(r.row, 1)]];
    assert BucketOk(eq, hash, dom, r.hash, b);
    hide BucketOk;
    LookupNone(eq, b, r.row);
    assert Multiplicity(eq, counters, ResultRow(r.row, hash(r.row))) == Count(eq, rows, r.row);
    AppendBucket(eq, hash, dom, r.hash, b, r.row);
    forall v | v in dom
      ensures Multiplicity(eq, counters', ResultRow(v, hash(v))) == Count(eq, rows + [r.row], v)
    {
      CountAppend(eq, rows, r.row, v);
      assert Multiplicity(eq, counters, ResultRow(v, hash(v))) == Count(eq, rows, v);
      AppendLookup(eq, hash, dom, r.hash, b, r.row, v);
    }
  }

  // ---- the emitter -------------------------------------------------------------------------

  function RowValues(rows: seq<ResultRow>): (vs: seq<Value>)
    ensures |vs| == |rows|
  {
    seq(|rows|, i requires 0 <= i < |rows| => rows[i].row)
  }

  ghost predicate Hashed(hash: Value -> nat, dom: iset<Value>, rows: seq<ResultRow>) {
    forall i | 0 <= i < |rows| :: rows[i].row in dom && rows[i].hash == hash(rows[i].row)
  }

  ghost predicate SomeZero(rows: seq<ResultRow>) {
    exists i | 0 <= i < |rows| :: rows[i].hash == 0
  }

  method CurrentMultiplicity(eq: Equality, r: ResultRow, counters: Counters) returns (n: nat)
    ensures n == Multiplicity(eq, counters, r)
  {
    if r.hash !in counters {
      return 0;
    }
    var list := counters[r.hash];
    for i := 0 to |list|
      invariant Lookup(eq, list, r.row) == Lookup(eq, list[i..], r.row)
    {
      assert list[i..][1..] == list[i + 1..];
      if eq(r.row, list[i].row) {
        return list[i].count;
      }
    }
    return 0;
  }

  method IncrAndGetMultiplicity(eq: Equality, ghost hash: Value -> nat, ghost dom: iset<Value>, r: ResultRow, counters: Counters,
                                ghost rows: seq<Value>)
    returns (n: nat, counters': Counters)
    requires Lawful(eq, hash, dom) && Tally(eq, hash, dom, counters, rows)
    requires r.row in dom && r.hash == hash(r.row)
    ensures Tally(eq, hash, dom, counters', rows + [r.row])
    ensures n == Count(eq, rows + [r.row], r.row)
  {
    hide Tally, Lookup;
    CountAppend(eq, rows, r.row, r.row);
    if r.hash !in counters {
      TallyNew(eq, hash, dom, counters, rows, r);
      counters' := counters[r.hash := [RowCount(r.row, 1)]];
      assert [] + [RowCount(r.row, 1)] == [RowCount(r.row, 1)];
      return 1, counters';
    }
    var list := counters[r.hash];
    for i := 0 to |list|
      invariant forall j | 0 <= j < i :: !eq(r.row, list[j].row)
    {
      if eq(r.row, list[i].row) {
        TallyIncr(eq, hash, dom, counters, rows, r, i);
        var c := list[i].count;
        return c + 1, counters[r.hash := list[i := list[i].(count := c + 1)]];
      }
    }
    TallyNew(eq, hash, dom, counters, rows, r);
    return 1, counters[r.hash := list + [RowCount(r.row, 1)]];
  }

  lemma {:induction false} EmptyTally(eq: Equality, hash: Value -> nat, dom: iset<Value>)
    ensures Tally(eq, hash, dom, map[], [])
  {
  }

  lemma {:induction false} TallyReads(eq: Equality, hash: Value -> nat, dom: iset<Value>, counters: Counters, rows: seq<Value>, r: ResultRow)
    requires Tally(eq, hash, dom, counters, rows) && r.row in dom && r.hash == hash(r.row)
    ensures Multiplicity(eq, counters, r) == Count(eq, rows, r.row)
  {
  }

  /** After the first i rows: they are counted, and what they exceed the base by is emitted. */
  ghost predicate Emitting(eq: Equality, hash: Value -> nat, dom: iset<Value>, rows: seq<ResultRow>, baseRows: seq<Value>,
                           i: nat, counters: Counters, output: seq<Value>) {
    && i <= |rows|
    && Tally(eq, hash, dom, counters, RowValues(rows[..i]))
    && output == Surplus(eq, RowValues(rows[..i]), baseRows)
  }

  lemma {:induction false} EmittingStarts(eq: Equality, hash: Value -> nat, dom: iset<Value>, rows: seq<ResultRow>, baseRows: seq<Value>)
    ensures Emitting(eq, hash, dom, rows, baseRows, 0, map[], [])
  {
    hide Tally;
    EmptyTally(eq, hash, dom);
    assert RowValues(rows[..0]) == [];
  }

  lemma {:induction false} EmittingStep(eq: Equality, hash: Value -> nat, dom: iset<Value>, rows: seq<ResultRow>, baseRows: seq<Value>,
                                        i: nat, counters: Counters, counters': Counters, output: seq<Value>, n: nat, before: nat)
    requires Emitting(eq, hash, dom, rows, baseRows, i, counters, output) && i < |rows|
    requires Tally(eq, hash, dom, counters', RowValues(rows[..i]) + [rows[i].row])
    requires n == Count(eq, RowValues(rows[..i]) + [rows[i].row], rows[i].row) && before == Count(eq, baseRows, rows[i].row)
    ensures Emitting(eq, hash, dom, rows, baseRows, i + 1, counters', output + if n > before then [rows[i].row] else [])
  {
    hide Tally, Count;
    var all, vs := RowValues(rows[..i + 1]), RowValues(rows[..i]);
    assert all == vs + [rows[i].row];
    assert all[..i] == vs;
  }

  /** Emits the rows that exceed their multiplicity in the base counters, and counts all rows. */
  method EmitSurplus(eq: Equality, ghost hash: Value -> nat, ghost dom: iset<Value>, rows: seq<ResultRow>,
                     base: Counters, ghost baseRows: seq<Value>)
    returns (r: Result<seq<Value>>, counters: Counters)
    requires Lawful(eq, hash, dom) && Hashed(hash, dom, rows) && Tally(eq, hash, dom, base, baseRows)
    ensures r.Err? <==> SomeZero(rows)
    ensures r.Ok? ==> r.value == Surplus(eq, RowValues(rows), baseRows)
    ensures r.Ok? ==> Tally(eq, hash, dom, counters, RowValues(rows))
  {
    hide Tally, Lawful, Multiplicity, Count, Surplus, RowValues;
    var output: seq<Value> := [];
    counters := map[];
    EmittingStarts(eq, hash, dom, rows, baseRows);
    for i := 0 to |rows|
      invariant forall j | 0 <= j < i :: rows[j].hash != 0
      invariant Emitting(eq, hash, dom, rows, baseRows, i, counters, output)
    {
      var res := rows[i];
      if res.hash == 0 {
        return Err, counters;
      }
      ghost var counted := counters;
      var n;
      n, counters := IncrAndGetMultiplicity(eq, hash, dom, res, counters, RowValues(rows[..i]));
      TallyReads(eq, hash, dom, base, baseRows, res);
      var before := CurrentMultiplicity(eq, res, base);
      EmittingStep(eq, hash, dom, rows, baseRows, i, counted, counters, output, n, before);
      output := output + if n > before then [res.row] else [];
    }
    assert rows[..|rows|] == rows;
    return Ok(output), counters;
  }

  method CountRows(eq: Equality, ghost hash: Value -> nat, ghost dom: iset<Value>, rows: seq<ResultRow>)
    returns (ok: bool, counters: Counters)
    requires Lawful(eq, hash, dom) && Hashed(hash, dom, rows)
    ensures !ok <==> SomeZero(rows)
    ensures ok ==> Tally(eq, hash, dom, counters, RowValues(rows))
  {
    hide Tally, Lawful, Count;
    counters := map[];
    EmptyTally(eq, hash, dom);
    ghost var all := RowValues(rows);
    assert all[..0] == [];
    for i := 0 to |rows|
      invariant forall j | 0 <= j < i :: rows[j].hash != 0
      invariant Tally(eq, hash, dom, counters, all[..i])
    {
      if rows[i].hash == 0 {
        return false, counters;
      }
      var _, next := IncrAndGetMultiplicity(eq, hash, dom, rows[i], counters, all[..i]);
      counters := next;
      assert all[..i] + [rows[i].row] == all[..i + 1];
    }
    assert all[..|rows|] == all;
    return true, counters;
  }

  class RowEmitter {
    const emitter: Emitter
    const eq: Equality
    ghost const hash: Value -> nat
    ghost const dom: iset<Value>
    /** Counters of the last results that ISTREAM emitted against, and those results. */
    var prevHashesForIstream: Counters
    ghost var hashed: seq<Value>

    ghost predicate Valid()
      reads this
    {
      Lawful(eq, hash, dom) && Tally(eq, hash, dom, prevHashesForIstream, hashed)
    }

    constructor (emitter: Emitter, eq: Equality, ghost hash: Value -> nat, ghost dom: iset<Value>)
      requires Lawful(eq, hash, dom)
      ensures Valid() && this.emitter == emitter && this.eq == eq && this.hash == hash && this.dom == dom && hashed == []
    {
      this.emitter, this.eq, this.hash, this.dom := emitter, eq, hash, dom;
      prevHashesForIstream, hashed := map[], [];
      new;
      EmptyTally(eq, hash, dom);
    }

    /** Fails exactly when a row it has to look up carries the hash value 0; then nothing changes. */
    method ComputeResultTuples(cur: seq<ResultRow>, prev: seq<ResultRow>) returns (r: Result<seq<Value>>)
      requires Valid() && Hashed(hash, dom, cur) && Hashed(hash, dom, prev)
      modifies this`prevHashesForIstream, this`hashed
      ensures Valid()
      ensures r.Err? <==> (emitter.Istream? && SomeZero(cur)) || (emitter.Dstream? && (SomeZero(cur) || SomeZero(prev)))
      ensures hashed == if emitter.Istream? && r.Ok? then RowValues(cur) else old(hashed)
      ensures r.Ok? ==> r.value == match emitter
                                   case Rstream => RowValues(cur)
                                   case Istream => Surplus(eq, RowValues(cur), old(hashed))
                                   case Dstream => Surplus(eq, RowValues(prev), RowValues(cur))
    {
      hide Tally, Lawful, Surplus, SomeZero, Hashed, Count;
      match emitter
      case Rstream =>
        r := Ok(RowValues(cur));
      case Istream =>
        var counters;
        r, counters := EmitSurplus(eq, hash, dom, cur, prevHashesForIstream, hashed);
        if r.Ok? {
          prevHashesForIstream, hashed := counters, RowValues(cur);
        }
      case Dstream =>
        var ok, counters := CountRows(eq, hash, dom, cur);
        if !ok {
          return Err;
        }
        r, counters := EmitSurplus(eq, hash, dom, prev, counters, RowValues(cur));
    }
  }
}
