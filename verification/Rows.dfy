/** The filtered input rows and the back-pointers by which an expiring tuple finds the rows derived
    from it. */
module Rows {
  import opened Streams
  import opened Buffers

  /** A row of the filtered cartesian product. The id stands for the address of the row. */
  datatype Row = Row(id: nat, combo: Combo, input: InputRow)

  /** A buffered tuple as seen by the back-pointers: relation and position. */
  type Slot = (nat, nat)

  type Links = map<Slot, seq<nat>>

  /** The ids of the rows derived from a buffered tuple. */
  function Derived(links: Links, r: nat, p: nat): seq<nat> {
    if (r, p) in links then links[(r, p)] else []
  }

  ghost predicate Has(rows: seq<Row>, c: Combo) {
    exists i | 0 <= i < |rows| :: rows[i].combo == c
  }

  /** Every row is listed once, under its own id, for its own combination. */
  ghost predicate Distinct(rows: seq<Row>) {
    forall i, j | 0 <= i < j < |rows| :: rows[i].id < rows[j].id && rows[i].combo != rows[j].combo
  }

  ghost predicate IdsBelow(rows: seq<Row>, links: Links, next: nat) {
    && (forall i | 0 <= i < |rows| :: rows[i].id < next)
    && forall r: nat, p: nat, id: nat | id in Derived(links, r, p) :: id < next
  }

  /** A row is derived from exactly the tuples of its combination. */
  ghost predicate Linked(n: nat, rows: seq<Row>, links: Links) {
    && (forall i | 0 <= i < |rows| :: |rows[i].combo| == n)
    && forall i, r: nat, p: nat | 0 <= i < |rows| && r < n ::
         rows[i].id in Derived(links, r, p) <==> rows[i].combo[r] == p
  }

  /** The rows are exactly the view, once each, with the data of their combination. */
  ghost predicate RowsOk(q: Query, h: seq<Arrival>, rows: seq<Row>)
    requires WellFormed(q)
  {
    && Distinct(rows)
    && (forall i | 0 <= i < |rows| ::
          InView(q, h, rows[i].combo) && rows[i].input == RowOf(q, h, rows[i].combo))
    && forall c: Combo | InView(q, h, c) :: Has(rows, c)
  }

  lemma {:induction false} HasAppend(a: seq<Row>, b: seq<Row>, c: Combo)
    ensures Has(a + b, c) <==> Has(a, c) || Has(b, c)
  {
    if Has(a, c) {
      var i :| 0 <= i < |a| && a[i].combo == c;
      assert (a + b)[i].combo == c;
    }
    if Has(b, c) {
      var i :| 0 <= i < |b| && b[i].combo == c;
      assert (a + b)[|a| + i].combo == c;
    }
  }

  // ---- deleting the rows of expired tuples -------------------------------------------------

  /** The rows derived from the tuples that eviction removes from a buffer. */
  ghost predicate ExpiredBy(links: Links, r: nat, buf: seq<Entry>, kept: seq<Entry>, id: nat) {
    exists i | 0 <= i < |buf| :: buf[i] !in kept && id in Derived(links, r, buf[i].pos)
  }

  function IdSet(ids: seq<nat>): set<nat> {
    set id | id in ids
  }

  /** The rows that eviction leaves in place. */
  function Surviving(rows: seq<Row>, expired: set<nat>): seq<Row> {
    if rows == [] then [] else
      var l := |rows| - 1;
      Surviving(rows[..l], expired) + if rows[l].id in expired then [] else [rows[l]]
  }

  lemma {:induction false} SurvivingMembers(rows: seq<Row>, expired: set<nat>)
    ensures forall row :: row in Surviving(rows, expired) <==> row in rows && row.id !in expired
  {
    if rows != [] {
      var l := |rows| - 1;
      SurvivingMembers(rows[..l], expired);
      assert rows == rows[..l] + [rows[l]];
    }
  }

  lemma {:induction false} SurvivingDistinct(rows: seq<Row>, expired: set<nat>)
    requires Distinct(rows)
    ensures Distinct(Surviving(rows, expired))
  {
    if rows != [] {
      var l := |rows| - 1;
      var older := Surviving(rows[..l], expired);
      SurvivingDistinct(rows[..l], expired);
      SurvivingMembers(rows[..l], expired);
      forall i | 0 <= i < |older| ensures older[i].id < rows[l].id && older[i].combo != rows[l].combo {
        assert older[i] in rows[..l];
      }
    }
  }

  /** The back-pointers of one buffer condemn a row exactly when its tuple left that buffer. */
  lemma {:induction false} ExpiredIffGone(n: nat, rows: seq<Row>, links: Links, i: nat, r: nat, buf: seq<Entry>, kept: seq<Entry>)
    requires Linked(n, rows, links) && i < |rows| && r < n
    requires Increasing(Positions(buf)) && forall e | e in kept :: e in buf
    requires |rows[i].combo| == n && rows[i].combo[r] in Positions(buf)
    ensures ExpiredBy(links, r, buf, kept, rows[i].id) <==> rows[i].combo[r] !in Positions(kept)
  {
    var p := rows[i].combo[r];
    var j :| 0 <= j < |buf| && Positions(buf)[j] == p;
    assert rows[i].id in Derived(links, r, p);
    assert forall k | 0 <= k < |buf| && buf[k].pos == p :: k == j by {
      assert forall k | 0 <= k < |buf| :: Positions(buf)[k] == buf[k].pos;
    }
    assert buf[j] in kept <==> p in Positions(kept) by {
      if p in Positions(kept) {
        var k :| 0 <= k < |kept| && Positions(kept)[k] == p;
        assert kept[k] in buf;
      }
      if buf[j] in kept {
        var k :| 0 <= k < |kept| && kept[k] == buf[j];
        assert Positions(kept)[k] == p;
      }
    }
  }

  /** The ids collected while evicting all buffers. */
  ghost predicate Condemned(links: Links, before: seq<seq<Entry>>, after: seq<seq<Entry>>, expired: set<nat>)
    requires |before| == |after|
  {
    forall id: nat :: id in expired <==>
      exists k | 0 <= k < |before| :: ExpiredBy(links, k, before[k], after[k], id)
  }

  lemma {:induction false} CondemnedIffGone(rows: seq<Row>, links: Links, before: seq<seq<Entry>>, after: seq<seq<Entry>>,
                         expired: set<nat>, i: nat)
    requires |before| == |after| && Linked(|before|, rows, links) && i < |rows|
    requires forall r | 0 <= r < |before| :: Increasing(Positions(before[r])) && forall e | e in after[r] :: e in before[r]
    requires Buffered(before, rows[i].combo) && Condemned(links, before, after, expired)
    ensures rows[i].id in expired <==> !Buffered(after, rows[i].combo)
  {
    forall r | 0 <= r < |before|
      ensures ExpiredBy(links, r, before[r], after[r], rows[i].id) <==> rows[i].combo[r] !in Positions(after[r])
    {
      ExpiredIffGone(|before|, rows, links, i, r, before[r], after[r]);
    }
  }

  method DropExpired(rows: seq<Row>, expired: set<nat>) returns (left: seq<Row>)
    ensures left == Surviving(rows, expired)
  {
    left := [];
    for i := 0 to |rows|
      invariant left == Surviving(rows[..i], expired)
    {
      assert rows[..i + 1][..i] == rows[..i];
      if rows[i].id !in expired { left := left + [rows[i]]; }
    }
    assert rows[..|rows|] == rows;
  }
}
