/** The recursive enumeration of a cartesian product of buffer sublists, which evaluates the filter on
    every combination, publishes the passing ones as rows and links them to their tuples. */
module Product {
  import opened Streams
  import opened Buffers
  import opened Rows

  /** A sublist of a buffer: from index lo up to but excluding index hi. */
  datatype Range = Range(lo: nat, hi: nat)

  ghost predicate InRange(buf: seq<Entry>, range: Range, p: nat) {
    exists e | range.lo <= e < range.hi && e < |buf| :: buf[e].pos == p
  }

  /** A box gives a sublist of every buffer; its members are the combinations drawn from them. */
  ghost predicate InBox(buffers: seq<seq<Entry>>, box: seq<Range>, c: Combo) {
    |c| == |box| == |buffers| && forall r | 0 <= r < |c| :: InRange(buffers[r], box[r], c[r])
  }

  /** The box still to be enumerated: a range per unvisited relation, one tuple per visited one. */
  ghost function BoxOf(n: nat, remaining: map<nat, Range>, origin: map<nat, nat>): (box: seq<Range>)
    ensures |box| == n
  {
    seq(n, r requires 0 <= r < n =>
      if r in remaining then remaining[r] else if r in origin then Range(origin[r], origin[r] + 1) else Range(0, 0))
  }

  ghost predicate Fails(q: Query, h: seq<Arrival>, now: int, c: Combo) {
    Within(c, |h|) && VerdictOf(q.filter, RowAt(h, c, now)) == Fail
  }

  ghost predicate Passes(q: Query, h: seq<Arrival>, now: int, c: Combo) {
    Within(c, |h|) && VerdictOf(q.filter, RowAt(h, c, now)) == Pass
  }

  ghost predicate NewRows(h: seq<Arrival>, now: int, news: seq<Row>, lo: nat, hi: nat) {
    && lo <= hi
    && Distinct(news)
    && forall i | 0 <= i < |news| ::
         lo <= news[i].id < hi && Within(news[i].combo, |h|) && news[i].input == RowAt(h, news[i].combo, now)
  }

  ghost predicate LinksOf(news: seq<Row>, r: nat, p: nat, id: nat) {
    exists i | 0 <= i < |news| :: news[i].id == id && r < |news[i].combo| && news[i].combo[r] == p
  }

  /** The only back-pointers added are those from the tuples of the new rows. */
  ghost predicate LinksGrew(before: Links, after: Links, news: seq<Row>) {
    forall r: nat, p: nat, id: nat ::
      id in Derived(after, r, p) <==> id in Derived(before, r, p) || LinksOf(news, r, p, id)
  }

  /** After a failed run there may be back-pointers to rows that were never published. */
  ghost predicate LinksStray(before: Links, after: Links, lo: nat, hi: nat) {
    forall r: nat, p: nat, id: nat ::
      && (id in Derived(before, r, p) ==> id in Derived(after, r, p))
      && (id in Derived(after, r, p) ==> id in Derived(before, r, p) || lo <= id < hi)
  }

  lemma {:induction false} GrewThenStray(h: seq<Arrival>, now: int, l0: Links, l1: Links, l2: Links, a: seq<Row>, id0: nat, id1: nat, id2: nat)
    requires LinksGrew(l0, l1, a) && NewRows(h, now, a, id0, id1)
    requires LinksStray(l1, l2, id1, id2) && id1 <= id2
    ensures LinksStray(l0, l2, id0, id2)
  {
  }

  lemma {:induction false} NewRowsAppend(h: seq<Arrival>, now: int, a: seq<Row>, b: seq<Row>, lo: nat, mid: nat, hi: nat)
    requires NewRows(h, now, a, lo, mid) && NewRows(h, now, b, mid, hi)
    requires forall c: Combo :: !(Has(a, c) && Has(b, c))
    ensures NewRows(h, now, a + b, lo, hi)
  {
    forall i, j | 0 <= i < |a| && 0 <= j < |b| ensures a[i].combo != b[j].combo {
      assert Has(a, a[i].combo) && Has(b, b[j].combo);
    }
  }

  lemma {:induction false} LinksGrewTwice(l0: Links, l1: Links, l2: Links, a: seq<Row>, b: seq<Row>)
    requires LinksGrew(l0, l1, a) && LinksGrew(l1, l2, b)
    ensures LinksGrew(l0, l2, a + b)
  {
    forall r: nat, p: nat, id: nat ensures LinksOf(a + b, r, p, id) <==> LinksOf(a, r, p, id) || LinksOf(b, r, p, id) {
      if LinksOf(a, r, p, id) {
        var i :| 0 <= i < |a| && a[i].id == id && r < |a[i].combo| && a[i].combo[r] == p;
        assert (a + b)[i] == a[i];
      }
      if LinksOf(b, r, p, id) {
        var i :| 0 <= i < |b| && b[i].id == id && r < |b[i].combo| && b[i].combo[r] == p;
        assert (a + b)[|a| + i] == b[i];
      }
    }
  }

  lemma {:induction false} BoxVisit(n: nat, remaining: map<nat, Range>, start: map<nat, nat>, origin: map<nat, nat>, k: nat, e: nat)
    requires k in remaining && k < n
    requires forall r: nat | r < n && r !in remaining :: r in start && r in origin && origin[r] == start[r]
    ensures BoxOf(n, remaining - {k}, origin[k := e]) == BoxOf(n, remaining, start)[k := Range(e, e + 1)]
  {
  }

  lemma {:induction false} SuffixSplit<T>(a: seq<T>, b: seq<T>, c: seq<T>)
    requires a <= b <= c
    ensures c[|a|..] == b[|a|..] + c[|b|..]
  {
  }

  /** The state that the recursive product works on: the rows found so far, the back-pointers, the
      next free row id, and the holders of the current partial combination, which are shared by all
      levels of the recursion and overwritten in place. */
  datatype Scratch = Scratch(pending: seq<Row>, links: Links, nextId: nat, origin: map<nat, nat>, dataHolder: map<nat, Tuple>)

  /** The members of a box. */
  ghost function Members(buffers: seq<seq<Entry>>, box: seq<Range>): iset<Combo> {
    iset c: Combo | InBox(buffers, box, c)
  }

  ghost predicate FailsIn(q: Query, h: seq<Arrival>, now: int, domain: iset<Combo>) {
    exists c: Combo :: c in domain && Fails(q, h, now, c)
  }

  /** The new rows are exactly the passing members of the domain. */
  ghost predicate Collected(q: Query, h: seq<Arrival>, now: int, domain: iset<Combo>, news: seq<Row>) {
    forall c: Combo :: Has(news, c) <==> c in domain && Passes(q, h, now, c)
  }

  /** Everything an enumeration of a domain of combinations contributes. */
  ghost predicate RunDone(q: Query, h: seq<Arrival>, now: int, domain: iset<Combo>, s0: Scratch, s1: Scratch)
    ensures RunDone(q, h, now, domain, s0, s1) ==> !FailsIn(q, h, now, domain)
  {
    && s0.pending <= s1.pending
    && !FailsIn(q, h, now, domain)
    && Collected(q, h, now, domain, s1.pending[|s0.pending|..])
    && NewRows(h, now, s1.pending[|s0.pending|..], s0.nextId, s1.nextId)
    && LinksGrew(s0.links, s1.links, s1.pending[|s0.pending|..])
  }

  /** What is left behind by an enumeration that met a combination on which the filter fails. */
  ghost predicate RunFailed(q: Query, h: seq<Arrival>, now: int, domain: iset<Combo>, s0: Scratch, s1: Scratch)
    ensures RunFailed(q, h, now, domain, s0, s1) ==> FailsIn(q, h, now, domain)
  {
    && FailsIn(q, h, now, domain)
    && s0.nextId <= s1.nextId
    && LinksStray(s0.links, s1.links, s0.nextId, s1.nextId)
  }

  lemma {:induction false} RunEmpty(q: Query, h: seq<Arrival>, now: int, s: Scratch)
    ensures RunDone(q, h, now, iset{}, s, s)
  {
    assert s.pending[|s.pending|..] == [];
  }

  /** Enumerations of disjoint domains compose. */
  lemma {:induction false} RunJoin(q: Query, h: seq<Arrival>, now: int, d1: iset<Combo>, d2: iset<Combo>, s0: Scratch, s1: Scratch, s2: Scratch)
    requires d1 !! d2
    requires RunDone(q, h, now, d1, s0, s1) && RunDone(q, h, now, d2, s1, s2)
    ensures RunDone(q, h, now, d1 + d2, s0, s2)
  {
    hide LinksGrew, NewRows, Fails, Passes;
    var a, b := s1.pending[|s0.pending|..], s2.pending[|s1.pending|..];
    SuffixSplit(s0.pending, s1.pending, s2.pending);
    forall c: Combo ensures Has(a + b, c) <==> Has(a, c) || Has(b, c) { HasAppend(a, b, c); }
    NewRowsAppend(h, now, a, b, s0.nextId, s1.nextId, s2.nextId);
    LinksGrewTwice(s0.links, s1.links, s2.links, a, b);
  }

  lemma {:induction false} RunFailsLater(q: Query, h: seq<Arrival>, now: int, d1: iset<Combo>, d2: iset<Combo>, d: iset<Combo>,
                      s0: Scratch, s1: Scratch, s2: Scratch)
    requires d2 <= d
    requires RunDone(q, h, now, d1, s0, s1) && RunFailed(q, h, now, d2, s1, s2)
    ensures RunFailed(q, h, now, d, s0, s2)
  {
    GrewThenStray(h, now, s0.links, s1.links, s2.links, s1.pending[|s0.pending|..], s0.nextId, s1.nextId, s2.nextId);
  }

  /** Only the rows, back-pointers and ids of the starting state matter. */
  lemma {:induction false} RunIgnoresHolders(q: Query, h: seq<Arrival>, now: int, d: iset<Combo>, s0: Scratch, s0': Scratch, s1: Scratch)
    requires s0.pending == s0'.pending && s0.links == s0'.links && s0.nextId == s0'.nextId
    ensures RunDone(q, h, now, d, s0, s1) <==> RunDone(q, h, now, d, s0', s1)
    ensures RunFailed(q, h, now, d, s0, s1) <==> RunFailed(q, h, now, d, s0', s1)
  {
  }

  // ---- boxes -------------------------------------------------------------------------------

  lemma {:induction false} MembersSlice(buffers: seq<seq<Entry>>, box: seq<Range>, k: nat, lo: nat, e: nat)
    requires k < |box| == |buffers| && lo <= e && Increasing(Positions(buffers[k]))
    ensures Members(buffers, box[k := Range(lo, e + 1)]) ==
            Members(buffers, box[k := Range(lo, e)]) + Members(buffers, box[k := Range(e, e + 1)])
    ensures Members(buffers, box[k := Range(lo, e)]) !! Members(buffers, box[k := Range(e, e + 1)])
  {
    var whole, left, right := box[k := Range(lo, e + 1)], box[k := Range(lo, e)], box[k := Range(e, e + 1)];
    forall c: Combo
      ensures InBox(buffers, whole, c) <==> InBox(buffers, left, c) || InBox(buffers, right, c)
      ensures !(InBox(buffers, left, c) && InBox(buffers, right, c))
    {
      BoxSplit(buffers, box, k, lo, e, c);
      BoxDisjoint(buffers, box, k, lo, e, c);
    }
  }

  lemma {:induction false} MembersPart(buffers: seq<seq<Entry>>, box: seq<Range>, k: nat, e: nat)
    requires k < |box| == |buffers| && box[k].lo <= e < box[k].hi
    ensures Members(buffers, box[k := Range(e, e + 1)]) <= Members(buffers, box)
  {
    var part := box[k := Range(e, e + 1)];
    forall c: Combo | InBox(buffers, part, c) ensures InBox(buffers, box, c) {
      forall r | 0 <= r < |c| ensures InRange(buffers[r], box[r], c[r]) { assert InRange(buffers[r], part[r], c[r]); }
    }
  }

  lemma {:induction false} MembersNone(buffers: seq<seq<Entry>>, box: seq<Range>, k: nat, lo: nat)
    requires k < |box| == |buffers|
    ensures Members(buffers, box[k := Range(lo, lo)]) == iset{}
  {
    var none := box[k := Range(lo, lo)];
    forall c: Combo ensures !InBox(buffers, none, c) {
      if |c| == |box| { assert !InRange(buffers[k], none[k], c[k]); }
    }
  }

  lemma {:induction false} BoxSplit(buffers: seq<seq<Entry>>, box: seq<Range>, k: nat, lo: nat, e: nat, c: Combo)
    requires k < |box| == |buffers| && lo <= e
    ensures InBox(buffers, box[k := Range(lo, e + 1)], c) <==>
            InBox(buffers, box[k := Range(lo, e)], c) || InBox(buffers, box[k := Range(e, e + 1)], c)
  {
    var whole, left, right := box[k := Range(lo, e + 1)], box[k := Range(lo, e)], box[k := Range(e, e + 1)];
    if |c| == |box| {
      assert InRange(buffers[k], whole[k], c[k]) <==>
             InRange(buffers[k], left[k], c[k]) || InRange(buffers[k], right[k], c[k]);
      assert forall r | 0 <= r < |c| && r != k :: whole[r] == left[r] == right[r];
    }
  }

  lemma {:induction false} BoxDisjoint(buffers: seq<seq<Entry>>, box: seq<Range>, k: nat, lo: nat, e: nat, c: Combo)
    requires k < |box| == |buffers| && lo <= e
    requires Increasing(Positions(buffers[k]))
    ensures !(InBox(buffers, box[k := Range(lo, e)], c) && InBox(buffers, box[k := Range(e, e + 1)], c))
  {
    var buf, left, right := buffers[k], box[k := Range(lo, e)], box[k := Range(e, e + 1)];
    forall i | lo <= i < e < |buf| ensures buf[i].pos != buf[e].pos {
      assert Positions(buf)[i] < Positions(buf)[e];
    }
    if |c| == |box| {
      assert !(InRange(buf, left[k], c[k]) && InRange(buf, right[k], c[k]));
    }
  }

  /** The combination selected once every relation has been visited. */
  function Selected(buffers: seq<seq<Entry>>, origin: map<nat, nat>): (c: Combo)
    requires forall r: nat | r < |buffers| :: r in origin && origin[r] < |buffers[r]|
  {
    seq(|buffers|, r requires 0 <= r < |buffers| => buffers[r][origin[r]].pos)
  }

  lemma {:induction false} SelectedOnly(buffers: seq<seq<Entry>>, origin: map<nat, nat>, c: Combo)
    requires forall r: nat | r < |buffers| :: r in origin && origin[r] < |buffers[r]|
    ensures InBox(buffers, BoxOf(|buffers|, map[], origin), c) <==> c == Selected(buffers, origin)
  {
    var n := |buffers|;
    var box, s := BoxOf(n, map[], origin), Selected(buffers, origin);
    if |c| == n {
      forall r: nat | r < n ensures InRange(buffers[r], box[r], c[r]) <==> c[r] == s[r] {
        OneEntryRange(buffers[r], origin[r], c[r]);
      }
      if InBox(buffers, box, c) {
        forall r: nat | r < n ensures c[r] == s[r] { assert InRange(buffers[r], box[r], c[r]); }
      }
    }
  }

  lemma {:induction false} OneEntryRange(buf: seq<Entry>, e: nat, p: nat)
    requires e < |buf|
    ensures InRange(buf, Range(e, e + 1), p) <==> p == buf[e].pos
  {
  }

  /** Enters the tuple at index e of relation k into the holders. */
  function Place(s: Scratch, k: nat, e: nat, t: Tuple): (p: Scratch)
    ensures p.pending == s.pending && p.links == s.links && p.nextId == s.nextId
  {
    s.(dataHolder := s.dataHolder[k := t], origin := s.origin[k := e])
  }

  /** What the recursion may rely on: every relation already visited has its tuple in place. */
  ghost predicate Visited(buffers: seq<seq<Entry>>, remaining: map<nat, Range>, s: Scratch) {
    && (forall r | r in remaining :: r < |buffers| && remaining[r].lo <= remaining[r].hi <= |buffers[r]|)
    && forall r: nat | r < |buffers| && r !in remaining ::
         && r in s.origin && s.origin[r] < |buffers[r]|
         && r in s.dataHolder && s.dataHolder[r] == buffers[r][s.origin[r]].tuple
  }

  ghost predicate SameVisited(buffers: seq<seq<Entry>>, remaining: map<nat, Range>, s0: Scratch, s1: Scratch) {
    forall r: nat | r < |buffers| && r !in remaining && r in s0.origin && r in s0.dataHolder ::
      r in s1.origin && s1.origin[r] == s0.origin[r] && r in s1.dataHolder && s1.dataHolder[r] == s0.dataHolder[r]
  }

  lemma {:induction false} SameVisitedSelf(buffers: seq<seq<Entry>>, remaining: map<nat, Range>, s: Scratch)
    ensures SameVisited(buffers, remaining, s, s)
  {
  }

  lemma {:induction false} Pick(buffers: seq<seq<Entry>>, remaining: map<nat, Range>, k: nat, s: Scratch)
    requires k in remaining && Visited(buffers, remaining, s)
    ensures k < |buffers| && remaining[k].lo <= remaining[k].hi <= |buffers[k]|
    ensures BoxOf(|buffers|, remaining, s.origin)[k] == remaining[k]
    ensures forall lo, hi: nat | Range(lo, hi) == remaining[k] ::
              BoxOf(|buffers|, remaining, s.origin)[k := Range(lo, hi)] == BoxOf(|buffers|, remaining, s.origin)
  {
  }

  lemma {:induction false} Descend(buffers: seq<seq<Entry>>, remaining: map<nat, Range>, k: nat, e: nat, s0: Scratch, s1: Scratch)
    requires k in remaining && Visited(buffers, remaining, s0) && SameVisited(buffers, remaining, s0, s1)
    requires e < remaining[k].hi
    ensures var s := Place(s1, k, e, buffers[k][e].tuple);
            && Visited(buffers, remaining - {k}, s)
            && BoxOf(|buffers|, remaining - {k}, s.origin) == BoxOf(|buffers|, remaining, s0.origin)[k := Range(e, e + 1)]
    ensures |remaining - {k}| < |remaining|
  {
    var s := Place(s1, k, e, buffers[k][e].tuple);
    BoxVisit(|buffers|, remaining, s0.origin, s1.origin, k, e);
    assert (remaining - {k}).Keys == remaining.Keys - {k};
    forall r: nat | r < |buffers| && r !in remaining - {k}
      ensures r in s.origin && s.origin[r] < |buffers[r]| && r in s.dataHolder && s.dataHolder[r] == buffers[r][s.origin[r]].tuple
    {
    }
  }

  lemma {:induction false} Ascend(buffers: seq<seq<Entry>>, remaining: map<nat, Range>, k: nat, e: nat, t: Tuple, s0: Scratch, s1: Scratch, s: Scratch)
    requires k in remaining
    requires SameVisited(buffers, remaining, s0, s1)
    requires SameVisited(buffers, remaining - {k}, Place(s1, k, e, t), s)
    ensures SameVisited(buffers, remaining, s0, s)
  {
  }

  method LinkRow(before: Links, row: Row) returns (links: Links)
    ensures LinksGrew(before, links, [row])
  {
    links := before;
    for r := 0 to |row.combo|
      invariant forall k: nat, p: nat, id: nat :: id in Derived(links, k, p) <==>
        id in Derived(before, k, p) || (k < r && row.combo[k] == p && row.id == id)
    {
      var slot: Slot := (r as nat, row.combo[r]);
      links := links[slot := Derived(links, r, row.combo[r]) + [row.id]];
    }
    forall r: nat, p: nat, id: nat
      ensures LinksOf([row], r, p, id) <==> r < |row.combo| && row.combo[r] == p && row.id == id
    {
      assert [row][0] == row;
    }
  }

  lemma {:induction false} RunOne(q: Query, h: seq<Arrival>, now: int, row: Row, s0: Scratch, s: Scratch)
    requires Within(row.combo, |h|) && row.input == RowAt(h, row.combo, now) && row.id == s0.nextId
    requires if Passes(q, h, now, row.combo)
             then s.pending == s0.pending + [row] && s.nextId == s0.nextId + 1 && LinksGrew(s0.links, s.links, [row])
             else s == s0
    ensures Fails(q, h, now, row.combo) ==> RunFailed(q, h, now, iset{row.combo}, s0, s)
    ensures !Fails(q, h, now, row.combo) ==> RunDone(q, h, now, iset{row.combo}, s0, s)
  {
    assert row.combo in iset{row.combo};
    assert [row][0] == row;
    assert s.pending[|s0.pending|..] == if Passes(q, h, now, row.combo) then [row] else [];
  }

  /** The innermost level: every relation has been visited, so the filter can be evaluated. */
  method PreprocLeaf(q: Query, ghost h: seq<Arrival>, buffers: seq<seq<Entry>>, now: int, s0: Scratch) returns (ok: bool, s: Scratch)
    requires WellFormed(q) && BuffersOk(q, h, buffers) && Visited(buffers, map[], s0)
    ensures SameVisited(buffers, map[], s0, s)
    ensures ok ==> RunDone(q, h, now, Members(buffers, BoxOf(|buffers|, map[], s0.origin)), s0, s)
    ensures !ok ==> RunFailed(q, h, now, Members(buffers, BoxOf(|buffers|, map[], s0.origin)), s0, s)
  {
    hide RunDone, RunFailed, LinksGrew;
    var n := |q.relations|;
    var combo := Selected(buffers, s0.origin);
    var item := InputRow(seq(n, r requires 0 <= r < n => s0.dataHolder[r]), now);
    var row := Row(s0.nextId, combo, item);
    assert item == RowAt(h, combo, now);
    ghost var box := BoxOf(n, map[], s0.origin);
    assert Members(buffers, box) == iset{combo} by {
      forall c: Combo ensures InBox(buffers, box, c) <==> c == combo { SelectedOnly(buffers, s0.origin, c); }
    }
    s := s0;
    if q.filter.Where? {
      var res := q.filter.eval(item);
      if res.Err? || (!res.value.Null? && !res.value.Bool?) {
        RunOne(q, h, now, row, s0, s);
        return false, s;
      }
      if res.value.Null? || !res.value.b {
        RunOne(q, h, now, row, s0, s);
        return true, s;
      }
    }
    var links := LinkRow(s0.links, row);
    s := s.(pending := s.pending + [row], links := links, nextId := s.nextId + 1);
    RunOne(q, h, now, row, s0, s);
    ok := true;
  }

  /** Enumerates the combinations of the remaining sublists in any order of the relations. */
  method PreprocCartProdInt(q: Query, ghost h: seq<Arrival>, buffers: seq<seq<Entry>>, remaining: map<nat, Range>, now: int, s0: Scratch)
    returns (ok: bool, s: Scratch)
    requires WellFormed(q) && BuffersOk(q, h, buffers) && Visited(buffers, remaining, s0)
    ensures SameVisited(buffers, remaining, s0, s)
    ensures ok ==> RunDone(q, h, now, Members(buffers, BoxOf(|buffers|, remaining, s0.origin)), s0, s)
    ensures !ok ==> RunFailed(q, h, now, Members(buffers, BoxOf(|buffers|, remaining, s0.origin)), s0, s)
    decreases |remaining|
  {
    hide *;
    if remaining == map[] {
      ok, s := PreprocLeaf(q, h, buffers, now, s0);
      return;
    }
    var k :| k in remaining;
    var rest := remaining - {k};
    var lo, hi := remaining[k].lo, remaining[k].hi;
    ghost var box := BoxOf(|buffers|, remaining, s0.origin);
    Pick(buffers, remaining, k, s0);
    BuffersIncreasing(q, h, buffers);
    MembersNone(buffers, box, k, lo);
    RunEmpty(q, h, now, s0);
    SameVisitedSelf(buffers, remaining, s0);
    s := s0;
    var e := lo;
    while e < hi
      invariant lo <= e <= hi
      invariant SameVisited(buffers, remaining, s0, s)
      invariant RunDone(q, h, now, Members(buffers, box[k := Range(lo, e)]), s0, s)
    {
      ghost var s1 := s;
      var t := buffers[k][e].tuple;
      Descend(buffers, remaining, k, e, s0, s);
      ok, s := PreprocCartProdInt(q, h, buffers, rest, now, Place(s, k, e, t));
      Ascend(buffers, remaining, k, e, t, s0, s1, s);
      ghost var done, slice := Members(buffers, box[k := Range(lo, e)]), Members(buffers, box[k := Range(e, e + 1)]);
      RunIgnoresHolders(q, h, now, slice, s1, Place(s1, k, e, t), s);
      if !ok {
        MembersPart(buffers, box, k, e);
        RunFailsLater(q, h, now, done, slice, Members(buffers, box), s0, s1, s);
        return;
      }
      MembersSlice(buffers, box, k, lo, e);
      RunJoin(q, h, now, done, slice, s0, s1, s);
      e := e + 1;
    }
    assert Range(lo, hi) == remaining[k];
    ok := true;
  }
}
