/** Grouping: rows are collected into groups that are looked up by the hash of the GROUP BY values and
    compared with Equal, aggregate inputs are collected per group, then groups are projected. */
module GroupBy {
  import opened Values
  import opened Streams
  import opened Rows
  import opened Emission

  type AggData = map<string, seq<Value>>

  /** The evaluators of a grouping statement: the GROUP BY values, the aggregate inputs by their id,
      HAVING, the projections over a group, and the projections over no input at all. */
  datatype GroupQuery = GroupQuery(
    keyOf: InputRow -> Result<Value>,
    aggs: map<string, InputRow -> Result<Value>>,
    having: (InputRow, AggData) -> Result<Value>,
    output: (InputRow, AggData) -> Result<Value>,
    grouped: bool,
    emptyOutput: Result<Value>)

  datatype Group = Group(key: Value, agg: AggData, rep: InputRow)

  // ---- specification -----------------------------------------------------------------------

  function OkOr(r: Result<Value>): Value {
    if r.Ok? then r.value else Null
  }

  /** The indices below n of the rows whose key equals k, in row order. */
  function Members(eq: Equality, keys: seq<Value>, n: nat, k: Value): seq<nat>
    requires n <= |keys|
  {
    if n == 0 then [] else Members(eq, keys, n - 1, k) + if eq(keys[n - 1], k) then [n - 1] else []
  }

  function Collect(f: InputRow -> Result<Value>, rows: seq<Row>, idx: seq<nat>): seq<Value>
    requires Within(idx, |rows|)
  {
    seq(|idx|, j requires 0 <= j < |idx| => OkOr(f(rows[idx[j]].input)))
  }

  ghost predicate KeysOf(g: GroupQuery, rows: seq<Row>, keys: seq<Value>) {
    |keys| == |rows| && forall i | 0 <= i < |rows| :: g.keyOf(rows[i].input) == Ok(keys[i])
  }

  /** A group after n rows: its key and representative come from its first member, and every
      aggregate array lists the values of its members in row order. */
  ghost predicate GroupOk(g: GroupQuery, eq: Equality, rows: seq<Row>, keys: seq<Value>, n: nat, x: Group)
    requires n <= |keys| == |rows|
  {
    var idx := Members(eq, keys, n, x.key);
    && idx != [] && Within(idx, n)
    && x.key == keys[idx[0]] && x.rep == rows[idx[0]].input
    && x.agg.Keys == g.aggs.Keys
    && forall a | a in g.aggs :: x.agg[a] == Collect(g.aggs[a], rows, idx)
  }

  ghost predicate Covered(eq: Equality, all: seq<Group>, k: Value) {
    exists j | 0 <= j < |all| :: eq(k, all[j].key)
  }

  ghost predicate DistinctKeys(eq: Equality, all: seq<Group>) {
    forall i, j | 0 <= i < j < |all| :: !eq(all[i].key, all[j].key)
  }

  ghost predicate GroupsOk(g: GroupQuery, eq: Equality, rows: seq<Row>, keys: seq<Value>, n: nat, all: seq<Group>)
    requires n <= |keys| == |rows|
  {
    forall i | 0 <= i < |all| :: GroupOk(g, eq, rows, keys, n, all[i])
  }

  /** The groups of all rows: different keys, complete contents, and every row is in one of them. */
  ghost predicate Partition(g: GroupQuery, eq: Equality, rows: seq<Row>, keys: seq<Value>, all: seq<Group>)
    requires |keys| == |rows|
  {
    && DistinctKeys(eq, all)
    && GroupsOk(g, eq, rows, keys, |rows|, all)
    && forall i | 0 <= i < |rows| :: Covered(eq, all, keys[i])
  }

  ghost predicate ItemFails(g: GroupQuery, row: Row) {
    g.keyOf(row.input).Err? || exists a | a in g.aggs :: g.aggs[a](row.input).Err?
  }

  /** HAVING of a group: NULL and false drop it, anything but a boolean is an error. */
  function HavingVerdict(g: GroupQuery, x: Group): Verdict {
    match g.having(x.rep, x.agg)
    case Ok(Null) => Drop
    case Ok(Bool(b)) => if b then Pass else Drop
    case _ => Fail
  }

  ghost predicate GroupFails(g: GroupQuery, x: Group) {
    HavingVerdict(g, x) == Fail || (HavingVerdict(g, x) == Pass && g.output(x.rep, x.agg).Err?)
  }

  /** Exactly the groups whose HAVING is true yield one row. */
  function OutputOf(g: GroupQuery, all: seq<Group>): seq<Value> {
    if all == [] then [] else
      var l := |all| - 1;
      OutputOf(g, all[..l]) + if HavingVerdict(g, all[l]) == Pass then [OkOr(g.output(all[l].rep, all[l].agg))] else []
  }

  // ---- laws of the partition ---------------------------------------------------------------

  lemma {:induction false} MembersFacts(eq: Equality, keys: seq<Value>, n: nat, k: Value)
    requires n <= |keys|
    ensures Within(Members(eq, keys, n, k), n) && Increasing(Members(eq, keys, n, k))
    ensures forall i: nat :: i in Members(eq, keys, n, k) <==> i < n && eq(keys[i], k)
  {
    if n > 0 { MembersFacts(eq, keys, n - 1, k); }
  }

  /** Every row is a member of exactly one group. */
  lemma {:induction false} RowInExactlyOneGroup(g: GroupQuery, eq: Equality, hash: Value -> nat, dom: iset<Value>,
                             rows: seq<Row>, keys: seq<Value>, all: seq<Group>, i: nat)
    requires |keys| == |rows| && Partition(g, eq, rows, keys, all) && i < |rows|
    requires Lawful(eq, hash, dom) && AllIn(keys, dom)
    ensures exists j | 0 <= j < |all| :: i in Members(eq, keys, |rows|, all[j].key)
    ensures forall j, k | 0 <= j < |all| && 0 <= k < |all| &&
                          i in Members(eq, keys, |rows|, all[j].key) && i in Members(eq, keys, |rows|, all[k].key) :: j == k
  {
    hide Members, Lawful;
    assert Covered(eq, all, keys[i]);
    forall j | 0 <= j < |all|
      ensures i in Members(eq, keys, |rows|, all[j].key) <==> eq(keys[i], all[j].key)
      ensures all[j].key in dom
    {
      assert GroupOk(g, eq, rows, keys, |rows|, all[j]);
      MembersFacts(eq, keys, |rows|, all[j].key);
    }
    forall j, k | 0 <= j < k < |all| ensures !(eq(keys[i], all[j].key) && eq(keys[i], all[k].key)) {
      assert keys[i] in dom;
      NotBoth(eq, hash, dom, all[j].key, all[k].key, keys[i]);
    }
  }

  lemma {:induction false} SameMembers(eq: Equality, hash: Value -> nat, dom: iset<Value>, keys: seq<Value>, n: nat, k: Value, l: Value)
    requires n <= |keys| && Lawful(eq, hash, dom) && AllIn(keys, dom) && k in dom && l in dom && eq(k, l)
    ensures Members(eq, keys, n, k) == Members(eq, keys, n, l)
  {
    if n > 0 {
      SameMembers(eq, hash, dom, keys, n - 1, k, l);
      assert keys[n - 1] in dom && eq(l, k);
    }
  }

  /** The groups are determined by the rows: two partitions have the same groups. */
  lemma {:induction false} PartitionUnique(g: GroupQuery, eq: Equality, hash: Value -> nat, dom: iset<Value>,
                        rows: seq<Row>, keys: seq<Value>, all: seq<Group>, all': seq<Group>, x: Group)
    requires |keys| == |rows| && Partition(g, eq, rows, keys, all) && Partition(g, eq, rows, keys, all')
    requires Lawful(eq, hash, dom) && AllIn(keys, dom)
    requires x in all
    ensures x in all'
  {
    hide Lawful, GroupOk;
    assert GroupOk(g, eq, rows, keys, |rows|, x);
    var i := GroupMember(g, eq, rows, keys, x);
    assert Covered(eq, all', keys[i]);
    var j :| 0 <= j < |all'| && eq(keys[i], all'[j].key);
    var y := all'[j];
    assert GroupOk(g, eq, rows, keys, |rows|, y);
    var k := GroupMember(g, eq, rows, keys, y);
    SameMembers(eq, hash, dom, keys, |rows|, x.key, y.key);
    SameGroup(g, eq, rows, keys, x, y);
  }

  lemma {:induction false} GroupMember(g: GroupQuery, eq: Equality, rows: seq<Row>, keys: seq<Value>, x: Group) returns (i: nat)
    requires |keys| == |rows| && GroupOk(g, eq, rows, keys, |rows|, x)
    ensures i < |keys| && keys[i] == x.key
  {
    hide Members;
    i := Members(eq, keys, |rows|, x.key)[0];
  }

  lemma {:induction false} SameGroup(g: GroupQuery, eq: Equality, rows: seq<Row>, keys: seq<Value>, x: Group, y: Group)
    requires |keys| == |rows| && GroupOk(g, eq, rows, keys, |rows|, x) && GroupOk(g, eq, rows, keys, |rows|, y)
    requires Members(eq, keys, |rows|, x.key) == Members(eq, keys, |rows|, y.key)
    ensures x == y
  {
    hide Members, Collect;
    assert x.agg == y.agg;
  }

  // ---- the table of groups -----------------------------------------------------------------

  type Groups = map<nat, seq<Group>>

  ghost predicate BucketOk(g: GroupQuery, eq: Equality, hash: Value -> nat, rows: seq<Row>, keys: seq<Value>, n: nat,
                           h: nat, bucket: seq<Group>)
    requires n <= |keys| == |rows|
  {
    && (forall i | 0 <= i < |bucket| :: hash(bucket[i].key) == h)
    && DistinctKeys(eq, bucket)
    && GroupsOk(g, eq, rows, keys, n, bucket)
  }

  ghost predicate Placed(eq: Equality, hash: Value -> nat, groups: Groups, k: Value) {
    hash(k) in groups && exists j | 0 <= j < |groups[hash(k)]| :: eq(k, groups[hash(k)][j].key)
  }

  /** After n rows: buckets hold the groups of their hash, and every row so far has its group. */
  ghost predicate Table(g: GroupQuery, eq: Equality, hash: Value -> nat, rows: seq<Row>, keys: seq<Value>, n: nat, groups: Groups)
    requires n <= |keys| == |rows|
  {
    && (forall h | h in groups :: BucketOk(g, eq, hash, rows, keys, n, h, groups[h]))
    && forall i | 0 <= i < n :: Placed(eq, hash, groups, keys[i])
  }

  /** The order in which hashes were first seen lists every bucket once. */
  ghost predicate OrderOk(groups: Groups, order: seq<nat>) {
    && (forall i, j | 0 <= i < j < |order| :: order[i] != order[j])
    && forall h: nat :: h in order <==> h in groups
  }

  lemma {:induction false} MembersStep(eq: Equality, keys: seq<Value>, n: nat, k: Value)
    requires n < |keys|
    ensures Members(eq, keys, n + 1, k) == Members(eq, keys, n, k) + if eq(keys[n], k) then [n] else []
  {
  }

  lemma {:induction false} CollectAppend(f: InputRow -> Result<Value>, rows: seq<Row>, idx: seq<nat>, n: nat)
    requires Within(idx, n) && n < |rows|
    ensures Within(idx + [n], |rows|)
    ensures Collect(f, rows, idx + [n]) == Collect(f, rows, idx) + [OkOr(f(rows[n].input))]
  {
  }

  lemma {:induction false} GroupOkSkip(g: GroupQuery, eq: Equality, rows: seq<Row>, keys: seq<Value>, n: nat, x: Group)
    requires n < |keys| == |rows| && GroupOk(g, eq, rows, keys, n, x) && !eq(keys[n], x.key)
    ensures GroupOk(g, eq, rows, keys, n + 1, x)
  {
    hide Members;
    MembersStep(eq, keys, n, x.key);
    assert Members(eq, keys, n + 1, x.key) == Members(eq, keys, n, x.key);
  }

  /** The aggregate data extended by the values of one more row. */
  ghost predicate Extended(g: GroupQuery, row: Row, x: Group, x': Group) {
    && x'.key == x.key && x'.rep == x.rep
    && x'.agg.Keys == g.aggs.Keys && x.agg.Keys == g.aggs.Keys
    && forall a | a in g.aggs :: g.aggs[a](row.input).Ok? && x'.agg[a] == x.agg[a] + [g.aggs[a](row.input).value]
  }

  lemma {:induction false} GroupOkAdd(g: GroupQuery, eq: Equality, rows: seq<Row>, keys: seq<Value>, n: nat, x: Group, x': Group)
    requires n < |keys| == |rows| && GroupOk(g, eq, rows, keys, n, x) && eq(keys[n], x.key)
    requires Extended(g, rows[n], x, x')
    ensures GroupOk(g, eq, rows, keys, n + 1, x')
  {
    hide Members, Collect;
    var idx := Members(eq, keys, n, x.key);
    MembersStep(eq, keys, n, x.key);
    forall a | a in g.aggs ensures x'.agg[a] == Collect(g.aggs[a], rows, idx + [n]) {
      CollectAppend(g.aggs[a], rows, idx, n);
    }
  }

  lemma {:induction false} GroupOkNew(g: GroupQuery, eq: Equality, rows: seq<Row>, keys: seq<Value>, n: nat, x: Group, x': Group)
    requires n < |keys| == |rows| && eq(keys[n], keys[n]) && forall i | 0 <= i < n :: !eq(keys[i], keys[n])
    requires x == Group(keys[n], map a | a in g.aggs :: [], rows[n].input)
    requires Extended(g, rows[n], x, x')
    ensures GroupOk(g, eq, rows, keys, n + 1, x')
  {
    hide Members;
    var idx := Members(eq, keys, n, x.key);
    assert |idx| > 0 ==> idx[0] in idx;
    MembersStep(eq, keys, n, x.key);
    MembersFacts(eq, keys, n, x.key);
    assert idx == [];
    assert Members(eq, keys, n + 1, x.key) == [n];
  }

  lemma {:induction false} AddToBucket(g: GroupQuery, eq: Equality, hash: Value -> nat, dom: iset<Value>, rows: seq<Row>, keys: seq<Value>, n: nat,
                    h: nat, bucket: seq<Group>, i: nat, x': Group)
    requires n < |keys| == |rows| && Lawful(eq, hash, dom) && AllIn(keys, dom)
    requires BucketOk(g, eq, hash, rows, keys, n, h, bucket)
    requires i < |bucket| && eq(keys[n], bucket[i].key) && Extended(g, rows[n], bucket[i], x')
    ensures BucketOk(g, eq, hash, rows, keys, n + 1, h, bucket[i := x'])
  {
    hide Members, Collect, Lawful, Extended;
    GroupOkAdd(g, eq, rows, keys, n, bucket[i], x');
    assert x'.key == bucket[i].key by { ExtendedKey(g, rows[n], bucket[i], x'); }
    forall j | 0 <= j < |bucket| && j != i ensures GroupOk(g, eq, rows, keys, n + 1, bucket[j]) {
      assert bucket[j].key in dom && bucket[i].key in dom && keys[n] in dom;
      NotBoth(eq, hash, dom, bucket[if i < j then i else j].key, bucket[if i < j then j else i].key, keys[n]);
      GroupOkSkip(g, eq, rows, keys, n, bucket[j]);
    }
  }

  lemma {:induction false} ExtendedKey(g: GroupQuery, row: Row, x: Group, x': Group)
    requires Extended(g, row, x, x')
    ensures x'.key == x.key
  {
  }

  /** Rows of another bucket, or with no equal key in this one, leave a bucket as it is. */
  lemma {:induction false} SkipBucket(g: GroupQuery, eq: Equality, hash: Value -> nat, rows: seq<Row>, keys: seq<Value>, n: nat, h: nat, bucket: seq<Group>)
    requires n < |keys| == |rows| && BucketOk(g, eq, hash, rows, keys, n, h, bucket)
    requires forall j | 0 <= j < |bucket| :: !eq(keys[n], bucket[j].key)
    ensures BucketOk(g, eq, hash, rows, keys, n + 1, h, bucket)
  {
    hide GroupOk;
    forall j | 0 <= j < |bucket| ensures GroupOk(g, eq, rows, keys, n + 1, bucket[j]) {
      GroupOkSkip(g, eq, rows, keys, n, bucket[j]);
    }
  }

  lemma {:induction false} OtherBucket(g: GroupQuery, eq: Equality, hash: Value -> nat, dom: iset<Value>, rows: seq<Row>, keys: seq<Value>, n: nat,
                    h: nat, bucket: seq<Group>)
    requires n < |keys| == |rows| && Lawful(eq, hash, dom) && AllIn(keys, dom)
    requires BucketOk(g, eq, hash, rows, keys, n, h, bucket) && h != hash(keys[n])
    ensures BucketOk(g, eq, hash, rows, keys, n + 1, h, bucket)
  {
    hide Members, Collect;
    forall j | 0 <= j < |bucket| ensures !eq(keys[n], bucket[j].key) {
      assert GroupOk(g, eq, rows, keys, n, bucket[j]);
      assert bucket[j].key in dom && keys[n] in dom;
    }
    SkipBucket(g, eq, hash, rows, keys, n, h, bucket);
  }

  lemma {:induction false} NewInBucket(g: GroupQuery, eq: Equality, hash: Value -> nat, dom: iset<Value>, rows: seq<Row>, keys: seq<Value>, n: nat,
                    bucket: seq<Group>, x': Group)
    requires n < |keys| == |rows| && Lawful(eq, hash, dom) && AllIn(keys, dom)
    requires BucketOk(g, eq, hash, rows, keys, n, hash(keys[n]), bucket)
    requires forall j | 0 <= j < |bucket| :: !eq(keys[n], bucket[j].key)
    requires forall i | 0 <= i < n :: !eq(keys[i], keys[n])
    requires Extended(g, rows[n], Group(keys[n], map a | a in g.aggs :: [], rows[n].input), x')
    ensures BucketOk(g, eq, hash, rows, keys, n + 1, hash(keys[n]), bucket + [x'])
  {
    hide Members, Collect;
    assert keys[n] in dom && eq(keys[n], keys[n]);
    GroupOkNew(g, eq, rows, keys, n, Group(keys[n], map a | a in g.aggs :: [], rows[n].input), x');
    SkipBucket(g, eq, hash, rows, keys, n, hash(keys[n]), bucket);
    forall j | 0 <= j < |bucket| ensures !eq(bucket[j].key, keys[n]) {
      assert GroupOk(g, eq, rows, keys, n, bucket[j]);
      assert bucket[j].key in dom;
    }
  }

  lemma {:induction false} NoEarlierEqual(g: GroupQuery, eq: Equality, hash: Value -> nat, dom: iset<Value>, rows: seq<Row>, keys: seq<Value>, n: nat, groups: Groups)
    requires n < |keys| == |rows| && Lawful(eq, hash, dom) && AllIn(keys, dom) && Table(g, eq, hash, rows, keys, n, groups)
    requires hash(keys[n]) in groups ==> forall j | 0 <= j < |groups[hash(keys[n])]| :: !eq(keys[n], groups[hash(keys[n])][j].key)
    ensures forall i | 0 <= i < n :: !eq(keys[i], keys[n])
  {
    hide Members, Collect;
    forall i | 0 <= i < n ensures !eq(keys[i], keys[n]) {
      assert keys[i] in dom && keys[n] in dom;
      assert Placed(eq, hash, groups, keys[i]);
      var j :| 0 <= j < |groups[hash(keys[i])]| && eq(keys[i], groups[hash(keys[i])][j].key);
      var y := groups[hash(keys[i])][j];
      assert GroupOk(g, eq, rows, keys, n, y);
      assert y.key in dom;
      NotEqualThrough(eq, hash, dom, keys[i], keys[n], y.key);
    }
  }

  lemma {:induction false} NotEqualThrough(eq: Equality, hash: Value -> nat, dom: iset<Value>, a: Value, b: Value, c: Value)
    requires Lawful(eq, hash, dom) && a in dom && b in dom && c in dom && eq(a, c)
    ensures eq(a, b) ==> eq(b, c) && hash(a) == hash(b)
  {
  }

  /** The table after the bucket of the new row has been brought up to date. */
  lemma {:induction false} TableStep(g: GroupQuery, eq: Equality, hash: Value -> nat, dom: iset<Value>, rows: seq<Row>, keys: seq<Value>, n: nat,
                  groups: Groups, bucket': seq<Group>)
    requires n < |keys| == |rows| && Lawful(eq, hash, dom) && AllIn(keys, dom) && Table(g, eq, hash, rows, keys, n, groups)
    requires BucketOk(g, eq, hash, rows, keys, n + 1, hash(keys[n]), bucket')
    requires exists j | 0 <= j < |bucket'| :: eq(keys[n], bucket'[j].key)
    requires var b := if hash(keys[n]) in groups then groups[hash(keys[n])] else [];
             |b| <= |bucket'| && forall j | 0 <= j < |b| :: bucket'[j].key == b[j].key
    ensures Table(g, eq, hash, rows, keys, n + 1, groups[hash(keys[n]) := bucket'])
  {
    hide BucketOk, Lawful;
    var h0 := hash(keys[n]);
    var groups' := groups[h0 := bucket'];
    forall h | h in groups' ensures BucketOk(g, eq, hash, rows, keys, n + 1, h, groups'[h]) {
      if h != h0 { OtherBucket(g, eq, hash, dom, rows, keys, n, h, groups[h]); }
    }
    forall i | 0 <= i < n ensures Placed(eq, hash, groups', keys[i]) {
      var h := hash(keys[i]);
      assert Placed(eq, hash, groups, keys[i]);
      var j :| 0 <= j < |groups[h]| && eq(keys[i], groups[h][j].key);
      assert eq(keys[i], groups'[h][j].key);
    }
    assert groups'[h0] == bucket' && Placed(eq, hash, groups', keys[n]);
  }

  /** All groups, bucket by bucket in the order in which the hashes were first seen. */
  function Flatten(groups: Groups, order: seq<nat>): seq<Group> {
    if order == [] then [] else
      var l := |order| - 1;
      Flatten(groups, order[..l]) + if order[l] in groups then groups[order[l]] else []
  }

  lemma {:induction false} InFlatten(groups: Groups, order: seq<nat>, x: Group)
    requires forall h | h in order :: h in groups
    ensures x in Flatten(groups, order) <==> exists h | h in order :: x in groups[h]
  {
    if order != [] {
      var l := |order| - 1;
      InFlatten(groups, order[..l], x);
      assert order == order[..l] + [order[l]];
    }
  }

  lemma {:induction false} BucketKey(g: GroupQuery, eq: Equality, hash: Value -> nat, dom: iset<Value>, rows: seq<Row>, keys: seq<Value>, n: nat,
                  h: nat, bucket: seq<Group>, x: Group)
    requires n <= |keys| == |rows| && AllIn(keys, dom)
    requires BucketOk(g, eq, hash, rows, keys, n, h, bucket) && x in bucket
    ensures hash(x.key) == h && x.key in dom && GroupOk(g, eq, rows, keys, n, x)
  {
  }

  lemma {:induction false} Concatenated(g: GroupQuery, eq: Equality, rows: seq<Row>, keys: seq<Value>, n: nat, a: seq<Group>, b: seq<Group>)
    requires n <= |keys| == |rows|
    requires DistinctKeys(eq, a) && DistinctKeys(eq, b) && GroupsOk(g, eq, rows, keys, n, a) && GroupsOk(g, eq, rows, keys, n, b)
    requires forall i, j | 0 <= i < |a| && 0 <= j < |b| :: !eq(a[i].key, b[j].key)
    ensures DistinctKeys(eq, a + b) && GroupsOk(g, eq, rows, keys, n, a + b)
  {
    hide GroupOk;
  }

  lemma {:induction false} FlattenDistinct(g: GroupQuery, eq: Equality, hash: Value -> nat, dom: iset<Value>, rows: seq<Row>, keys: seq<Value>,
                                           n: nat, groups: Groups, order: seq<nat>)
    requires n <= |keys| == |rows| && Lawful(eq, hash, dom) && AllIn(keys, dom)
    requires forall h | h in order :: h in groups && BucketOk(g, eq, hash, rows, keys, n, h, groups[h])
    requires forall i, j | 0 <= i < j < |order| :: order[i] != order[j]
    ensures DistinctKeys(eq, Flatten(groups, order)) && GroupsOk(g, eq, rows, keys, n, Flatten(groups, order))
  {
    hide GroupOk;
    if order != [] {
      var l := |order| - 1;
      var older, last := Flatten(groups, order[..l]), groups[order[l]];
      FlattenDistinct(g, eq, hash, dom, rows, keys, n, groups, order[..l]);
      assert order[l] in order;
      assert BucketOk(g, eq, hash, rows, keys, n, order[l], last);
      forall i, j | 0 <= i < |older| && 0 <= j < |last| ensures !eq(older[i].key, last[j].key) {
        InFlatten(groups, order[..l], older[i]);
        assert older[i] in older;
        var h :| h in order[..l] && older[i] in groups[h];
        BucketKey(g, eq, hash, dom, rows, keys, n, h, groups[h], older[i]);
        BucketKey(g, eq, hash, dom, rows, keys, n, order[l], last, last[j]);
      }
      Concatenated(g, eq, rows, keys, n, older, last);
    }
  }

  lemma {:induction false} TableIsPartition(g: GroupQuery, eq: Equality, hash: Value -> nat, dom: iset<Value>, rows: seq<Row>, keys: seq<Value>,
                         groups: Groups, order: seq<nat>)
    requires |keys| == |rows| && Lawful(eq, hash, dom) && AllIn(keys, dom)
    requires Table(g, eq, hash, rows, keys, |rows|, groups) && OrderOk(groups, order)
    ensures Partition(g, eq, rows, keys, Flatten(groups, order))
  {
    var all := Flatten(groups, order);
    FlattenDistinct(g, eq, hash, dom, rows, keys, |rows|, groups, order);
    forall i | 0 <= i < |rows| ensures Covered(eq, all, keys[i]) {
      assert Placed(eq, hash, groups, keys[i]);
      PlacedIsCovered(eq, hash, groups, order, keys[i]);
    }
  }

  lemma {:induction false} PlacedIsCovered(eq: Equality, hash: Value -> nat, groups: Groups, order: seq<nat>, key: Value)
    requires OrderOk(groups, order) && Placed(eq, hash, groups, key)
    ensures Covered(eq, Flatten(groups, order), key)
  {
    hide Flatten;
    var all, h := Flatten(groups, order), hash(key);
    var k :| 0 <= k < |groups[h]| && eq(key, groups[h][k].key);
    InFlatten(groups, order, groups[h][k]);
    assert groups[h][k] in groups[h];
    var j :| 0 <= j < |all| && all[j] == groups[h][k];
    assert eq(key, all[j].key);
  }

  // ---- execution ---------------------------------------------------------------------------

  /** Appends the aggregate inputs of a row to a group, in any order of the aggregates. */
  method CollectAggs(g: GroupQuery, row: Row, x: Group) returns (ok: bool, x': Group)
    requires x.agg.Keys == g.aggs.Keys
    ensures !ok <==> exists a | a in g.aggs :: g.aggs[a](row.input).Err?
    ensures ok ==> Extended(g, row, x, x')
  {
    x' := x;
    var todo := g.aggs.Keys;
    while todo != {}
      invariant todo <= g.aggs.Keys && x'.agg.Keys == g.aggs.Keys && x'.key == x.key && x'.rep == x.rep
      invariant forall a | a in g.aggs && a !in todo ::
        g.aggs[a](row.input).Ok? && x'.agg[a] == x.agg[a] + [g.aggs[a](row.input).value]
      invariant forall a | a in todo :: x'.agg[a] == x.agg[a]
    {
      var a :| a in todo;
      var v := g.aggs[a](row.input);
      if v.Err? {
        return false, x';
      }
      x' := x'.(agg := x'.agg[a := x'.agg[a] + [v.value]]);
      todo := todo - {a};
    }
    ok := true;
  }

  method FindGroup(eq: Equality, bucket: seq<Group>, key: Value) returns (i: nat)
    ensures i <= |bucket| && (i < |bucket| ==> eq(key, bucket[i].key))
    ensures forall j | 0 <= j < i :: !eq(key, bucket[j].key)
  {
    i := 0;
    while i < |bucket| && !eq(key, bucket[i].key)
      invariant i <= |bucket|
      invariant forall j | 0 <= j < i :: !eq(key, bucket[j].key)
    {
      i := i + 1;
    }
  }

  /** Finds or creates the group of row n and collects its aggregate inputs. */
  method EvalItem(g: GroupQuery, eq: Equality, hash: Value -> nat, ghost dom: iset<Value>, rows: seq<Row>, ghost keys: seq<Value>, n: nat,
                  key: Value, groups: Groups, order: seq<nat>) returns (ok: bool, groups': Groups, order': seq<nat>)
    requires n < |rows| == |keys| && key == keys[n] && Lawful(eq, hash, dom) && AllIn(keys, dom)
    requires Table(g, eq, hash, rows, keys, n, groups) && OrderOk(groups, order)
    ensures !ok <==> exists a | a in g.aggs :: g.aggs[a](rows[n].input).Err?
    ensures ok ==> Table(g, eq, hash, rows, keys, n + 1, groups') && OrderOk(groups', order')
  {
    hide GroupOk, Lawful, AllIn;
    var h := hash(key);
    var bucket := if h in groups then groups[h] else [];
    order' := if h in groups then order else order + [h];
    assert BucketOk(g, eq, hash, rows, keys, n, h, bucket);
    var i := FindGroup(eq, bucket, key);
    var x';
    if i < |bucket| {
      GroupKeys(g, eq, rows, keys, n, bucket[i]);
      ok, x' := CollectAggs(g, rows[n], bucket[i]);
      if !ok { return false, groups, order; }
      AddToBucket(g, eq, hash, dom, rows, keys, n, h, bucket, i, x');
      assert eq(keys[n], bucket[i := x'][i].key);
      groups' := groups[h := bucket[i := x']];
      TableStep(g, eq, hash, dom, rows, keys, n, groups, bucket[i := x']);
    } else {
      ok, x' := CollectAggs(g, rows[n], Group(key, map a | a in g.aggs :: [], rows[n].input));
      if !ok { return false, groups, order; }
      NoEarlierEqual(g, eq, hash, dom, rows, keys, n, groups);
      NewInBucket(g, eq, hash, dom, rows, keys, n, bucket, x');
      SelfEqual(eq, hash, dom, keys, n);
      assert eq(keys[n], (bucket + [x'])[|bucket|].key);
      groups' := groups[h := bucket + [x']];
      TableStep(g, eq, hash, dom, rows, keys, n, groups, bucket + [x']);
    }
  }

  lemma {:induction false} SelfEqual(eq: Equality, hash: Value -> nat, dom: iset<Value>, keys: seq<Value>, n: nat)
    requires Lawful(eq, hash, dom) && AllIn(keys, dom) && n < |keys|
    ensures eq(keys[n], keys[n])
  {
  }

  lemma {:induction false} GroupKeys(g: GroupQuery, eq: Equality, rows: seq<Row>, keys: seq<Value>, n: nat, x: Group)
    requires n <= |keys| == |rows| && GroupOk(g, eq, rows, keys, n, x)
    ensures x.agg.Keys == g.aggs.Keys
  {
  }

  /** The GROUP BY values of a row, from the cache if they were computed before. */
  ghost predicate KeyCacheOk(g: GroupQuery, hash: Value -> nat, rows: seq<Row>, cache: map<nat, ResultRow>) {
    forall i | 0 <= i < |rows| && rows[i].id in cache ::
      g.keyOf(rows[i].input) == Ok(cache[rows[i].id].row) && cache[rows[i].id].hash == hash(cache[rows[i].id].row)
  }

  ghost predicate OnlyRowsAdded(rows: seq<Row>, cache: map<nat, ResultRow>, cache': map<nat, ResultRow>) {
    forall id | id in cache' :: id in cache || exists i | 0 <= i < |rows| :: rows[i].id == id
  }

  /** The GROUP BY values of the given rows lie in the domain of the equality. */
  ghost predicate KeysIn(g: GroupQuery, dom: iset<Value>, rows: seq<Row>) {
    forall i | 0 <= i < |rows| && g.keyOf(rows[i].input).Ok? :: g.keyOf(rows[i].input).value in dom
  }

  ghost function Filler(dom: iset<Value>): (v: Value)
    ensures (exists w: Value :: w in dom) ==> v in dom
  {
    if exists w: Value :: w in dom then var w: Value :| w in dom; w else Null
  }

  /** The keys of the rows; a row without a key is given some value of the domain. */
  ghost function KeyList(g: GroupQuery, dom: iset<Value>, rows: seq<Row>): (keys: seq<Value>)
    ensures |keys| == |rows|
  {
    seq(|rows|, i requires 0 <= i < |rows| => match g.keyOf(rows[i].input) case Ok(v) => v case Err => Filler(dom))
  }

  lemma {:induction false} KeyListIn(g: GroupQuery, dom: iset<Value>, rows: seq<Row>, n: nat)
    requires KeysIn(g, dom, rows) && n < |rows| && g.keyOf(rows[n].input).Ok?
    ensures AllIn(KeyList(g, dom, rows), dom)
  {
    assert g.keyOf(rows[n].input).value in dom;
  }

  /** Collects all rows into groups, or fails because some expression fails on some row. */
  method CollectGroups(g: GroupQuery, eq: Equality, hash: Value -> nat, ghost dom: iset<Value>, rows: seq<Row>, cache: map<nat, ResultRow>)
    returns (ok: bool, cache': map<nat, ResultRow>, groups: Groups, order: seq<nat>)
    requires Lawful(eq, hash, dom) && KeysIn(g, dom, rows) && KeyCacheOk(g, hash, rows, cache)
    requires forall i, j | 0 <= i < j < |rows| :: rows[i].id != rows[j].id
    ensures KeyCacheOk(g, hash, rows, cache') && OnlyRowsAdded(rows, cache, cache')
    ensures !ok <==> exists i | 0 <= i < |rows| :: ItemFails(g, rows[i])
    ensures ok ==> (|groups| == 0 <==> rows == [])
    ensures ok ==> KeysOf(g, rows, KeyList(g, dom, rows)) && Table(g, eq, hash, rows, KeyList(g, dom, rows), |rows|, groups) && OrderOk(groups, order)
  {
    hide Lawful, Table, OrderOk, AllIn, KeysIn;
    ghost var keys := KeyList(g, dom, rows);
    cache', groups, order := cache, map[], [];
    EmptyTable(g, eq, hash, rows, keys);
    for n := 0 to |rows|
      invariant KeyCacheOk(g, hash, rows, cache') && OnlyRowsAdded(rows, cache, cache')
      invariant n == 0 ==> groups == map[]
      invariant forall i | 0 <= i < n :: !ItemFails(g, rows[i])
      invariant Table(g, eq, hash, rows, keys, n, groups) && OrderOk(groups, order)
    {
      var row := rows[n];
      if row.id !in cache' {
        var v := g.keyOf(row.input);
        if v.Err? {
          return false, cache', groups, order;
        }
        cache' := cache'[row.id := ResultRow(v.value, hash(v.value))];
      }
      KeyListIn(g, dom, rows, n);
      ok, groups, order := EvalItem(g, eq, hash, dom, rows, keys, n, cache'[row.id].row, groups, order);
      if !ok {
        return;
      }
    }
    ok := true;
    if |rows| > 0 { NonemptyTable(g, eq, hash, rows, keys, groups); }
  }

  lemma {:induction false} NonemptyTable(g: GroupQuery, eq: Equality, hash: Value -> nat, rows: seq<Row>, keys: seq<Value>, groups: Groups)
    requires 0 < |rows| == |keys| && Table(g, eq, hash, rows, keys, |rows|, groups)
    ensures |groups| > 0
  {
    assert Placed(eq, hash, groups, keys[0]);
  }

  lemma {:induction false} EmptyTable(g: GroupQuery, eq: Equality, hash: Value -> nat, rows: seq<Row>, keys: seq<Value>)
    requires |keys| == |rows|
    ensures Table(g, eq, hash, rows, keys, 0, map[]) && OrderOk(map[], [])
  {
  }

  /** Projects the groups in order, dropping those that HAVING rejects. */
  method EvalGroups(g: GroupQuery, all: seq<Group>) returns (r: Result<seq<Value>>)
    ensures r.Err? <==> exists i | 0 <= i < |all| :: GroupFails(g, all[i])
    ensures r.Ok? ==> r.value == OutputOf(g, all)
  {
    var output: seq<Value> := [];
    for i := 0 to |all|
      invariant forall j | 0 <= j < i :: !GroupFails(g, all[j])
      invariant output == OutputOf(g, all[..i])
    {
      assert all[..i + 1][..i] == all[..i];
      var x := all[i];
      var having := g.having(x.rep, x.agg);
      if having.Err? || (!having.value.Null? && !having.value.Bool?) {
        return Err;
      }
      if having.value.Bool? && having.value.b {
        var v := g.output(x.rep, x.agg);
        if v.Err? {
          return Err;
        }
        output := output + [v.value];
      }
    }
    assert all[..|all|] == all;
    return Ok(output);
  }

  /** The query step of the grouping plan. */
  method PerformQueryOnBuffer(g: GroupQuery, eq: Equality, hash: Value -> nat, ghost dom: iset<Value>, rows: seq<Row>, cache: map<nat, ResultRow>)
    returns (r: Result<seq<Value>>, cache': map<nat, ResultRow>, ghost all: seq<Group>)
    requires Lawful(eq, hash, dom) && KeysIn(g, dom, rows) && KeyCacheOk(g, hash, rows, cache)
    requires forall i, j | 0 <= i < j < |rows| :: rows[i].id != rows[j].id
    ensures KeyCacheOk(g, hash, rows, cache') && OnlyRowsAdded(rows, cache, cache')
    ensures (exists i | 0 <= i < |rows| :: ItemFails(g, rows[i])) ==> r.Err?
    ensures (forall i | 0 <= i < |rows| :: !ItemFails(g, rows[i])) ==>
              && KeysOf(g, rows, KeyList(g, dom, rows)) && Partition(g, eq, rows, KeyList(g, dom, rows), all)
              && if rows == [] && !g.grouped then
                   match g.emptyOutput case Ok(v) => r == Ok([v]) case Err => r.Err?
                 else if exists i | 0 <= i < |all| :: GroupFails(g, all[i]) then
                   r.Err?
                 else
                   r == Ok(OutputOf(g, all))
  {
    hide Lawful, Table, OrderOk, KeysIn, KeyCacheOk, OnlyRowsAdded, GroupFails, OutputOf, GroupOk, KeysOf;
    all := [];
    var ok, groups, order;
    ok, cache', groups, order := CollectGroups(g, eq, hash, dom, rows, cache);
    if !ok {
      return Err, cache', all;
    }
    if rows != [] {
      assert !ItemFails(g, rows[0]);
      KeyListIn(g, dom, rows, 0);
    }
    TableIsPartition(g, eq, hash, dom, rows, KeyList(g, dom, rows), groups, order);
    var list := Flatten(groups, order);
    all := list;
    r := EvalGroups(g, list);
    if |groups| == 0 {
      FlattenEmpty(groups, order);
      if r.Ok? && !g.grouped {
        r := match g.emptyOutput case Ok(v) => Ok([v]) case Err => Err;
      }
    }
  }

  lemma {:induction false} FlattenEmpty(groups: Groups, order: seq<nat>)
    requires |groups| == 0
    ensures Flatten(groups, order) == []
  {
    if order != [] { FlattenEmpty(groups, order[..|order| - 1]); }
  }
}
