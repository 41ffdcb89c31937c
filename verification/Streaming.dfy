/** The byte stream of a value without maps determines the value: streams can be read back from the front. */
module Streaming {
  import opened Values
  import opened Hash

  /** The inverse of PRIME_32 modulo 2^32. */
  const INVERSE_32: nat := 899433627

  // ---- fixed-size parts --------------------------------------------------------------------

  lemma {:induction false} TagInjective(t: TypeId, u: TypeId)
    requires Tag(t) == Tag(u)
    ensures t == u
  {}

  /** Two sequences with a common start of the same length continue alike. */
  lemma {:induction false} Cut(a: seq<nat>, r: seq<nat>, b: seq<nat>, s: seq<nat>)
    requires a + r == b + s && |a| == |b|
    ensures a == b && r == s
  {
    assert a == (a + r)[..|a|] && b == (b + s)[..|b|];
    assert r == (a + r)[|a|..] && s == (b + s)[|b|..];
  }

  lemma {:induction false} PrimeProduct32(i: nat, j: nat)
    requires i < TWO_32 && j < TWO_32 && (i * PRIME_32) % TWO_32 == (j * PRIME_32) % TWO_32
    ensures i == j
  {
    var t := ModEqualMeansMultiple(i * PRIME_32, j * PRIME_32, TWO_32);
    var d: int := i - j;
    assert d * PRIME_32 == TWO_32 * t;
    assert d * PRIME_32 * INVERSE_32 == d * (PRIME_32 * INVERSE_32);
    assert PRIME_32 * INVERSE_32 == 1 + TWO_32 * 3513497;
    assert d * (1 + TWO_32 * 3513497) == d + TWO_32 * (d * 3513497);
    assert TWO_32 * t * INVERSE_32 == TWO_32 * (t * INVERSE_32);
    var w := t * INVERSE_32 - d * 3513497;
    assert d == TWO_32 * w;
    assert w == 0;
  }

  lemma {:induction false} Cut32(t: TypeId, i: nat, r: seq<nat>, u: TypeId, j: nat, s: seq<nat>)
    requires i < TWO_32 && j < TWO_32 && AppendInt32([], t, i) + r == AppendInt32([], u, j) + s
    ensures t == u && i == j && r == s
  {
    Cut(AppendInt32([], t, i), r, AppendInt32([], u, j), s);
    var x, y := (i * PRIME_32) % TWO_32, (j * PRIME_32) % TWO_32;
    assert AppendInt32([], t, i)[0] == Tag(t) && AppendInt32([], u, j)[0] == Tag(u);
    assert AppendInt32([], t, i)[1..] == LowBytes(x, 4) && AppendInt32([], u, j)[1..] == LowBytes(y, 4);
    TagInjective(t, u);
    assert Pow256(4) == TWO_32 by {
      assert Pow256(4) == 256 * Pow256(3) && Pow256(3) == 256 * Pow256(2) && Pow256(2) == 65536;
    }
    LowBytesInjective(x, y, 4, TWO_32);
    PrimeProduct32(i, j);
  }

  lemma {:induction false} Cut64(t: TypeId, i: Int64, r: seq<nat>, u: TypeId, j: Int64, s: seq<nat>)
    requires AppendInt64([], t, i) + r == AppendInt64([], u, j) + s
    ensures t == u && i == j && r == s
  {
    Cut(AppendInt64([], t, i), r, AppendInt64([], u, j), s);
    assert AppendInt64([], t, i)[0] == Tag(t) && AppendInt64([], u, j)[0] == Tag(u);
    TagInjective(t, u);
    AppendInt64Injective(t, i, j);
  }

  // ---- values ------------------------------------------------------------------------------

  /** The bit patterns of doubles that are not integral tell them apart. */
  ghost predicate BitsTell(p: Hasher) {
    forall f, g | Integral(f).Err? && Integral(g).Err? && !f.NaN? && !g.NaN? && p.bits(f) == p.bits(g) :: f == g
  }

  /** No maps, no NaN, exact integers, lengths below 2^32 and times whose seconds fit an integer. */
  predicate Readable(v: Value) {
    match v
    case Int(i) => ExactInt(i)
    case Float(f) => !f.NaN?
    case String(s) => |s| < TWO_32
    case Blob(b) => |b| < TWO_32
    case Timestamp(ns) => -TWO_63 <= ns / 1_000_000_000 < TWO_63
    case Array(x) => |x| < TWO_32 && forall i | 0 <= i < |x| :: Readable(x[i])
    case Map(_) => false
    case _ => true
  }

  /** Equal, where times are compared by the microsecond. */
  predicate Alike(a: Value, b: Value) {
    match (a, b)
    case (Timestamp(x), Timestamp(y)) => x / 1000 == y / 1000
    case (Array(x), Array(y)) => |x| == |y| && forall i | 0 <= i < |x| :: Alike(x[i], y[i])
    case _ => Equal(a, b)
  }

  function HeadOf(v: Value): TypeId {
    match v
    case Null => TNull
    case Bool(_) => TBool
    case Int(_) => TInt
    case Float(f) => if Integral(f).Ok? then TInt else if f.NaN? then TNull else TFloat
    case String(_) => TString
    case Blob(_) => TBlob
    case Timestamp(_) => TTimestamp
    case Array(_) => TArray
    case Map(_) => TMap
  }

  lemma {:induction false} HeadFirst(p: Hasher, v: Value)
    ensures Stream(p, v) != [] && Stream(p, v)[0] == Tag(HeadOf(v))
  {
    hide LowBytes, ElementStream, EntryTotal;
  }

  lemma {:induction false} SameHead(p: Hasher, a: Value, r: seq<nat>, b: Value, s: seq<nat>)
    requires Stream(p, a) + r == Stream(p, b) + s
    ensures HeadOf(a) == HeadOf(b)
  {
    hide Stream, HeadOf;
    HeadFirst(p, a);
    HeadFirst(p, b);
    assert (Stream(p, a) + r)[0] == Stream(p, a)[0] && (Stream(p, b) + s)[0] == Stream(p, b)[0];
    TagInjective(HeadOf(a), HeadOf(b));
  }

  /** NULL, integers and doubles are one word. */
  function WordOf(p: Hasher, v: Value): Int64
    requires v.Null? || v.Int? || v.Float?
  {
    match v
    case Null => 0
    case Int(i) => i
    case Float(f) => match Integral(f) case Ok(i) => i case Err => if f.NaN? then p.nan else p.bits(f)
  }

  lemma {:induction false} WordStream(p: Hasher, v: Value)
    requires v.Null? || v.Int? || v.Float?
    ensures Stream(p, v) == AppendInt64([], HeadOf(v), WordOf(p, v))
  {
    hide AppendInt64;
  }

  lemma {:induction false} WordAlike(p: Hasher, a: Value, b: Value)
    requires (a.Null? || a.Int? || a.Float?) && (b.Null? || b.Int? || b.Float?)
    requires BitsTell(p) && Readable(a) && Readable(b) && HeadOf(a) == HeadOf(b) && WordOf(p, a) == WordOf(p, b)
    ensures Alike(a, b)
  {
    hide RoundInt;
  }

  lemma {:induction false} WordDetermines(p: Hasher, a: Value, r: seq<nat>, b: Value, s: seq<nat>)
    requires (a.Null? || a.Int? || a.Float?) && (b.Null? || b.Int? || b.Float?)
    requires BitsTell(p) && Readable(a) && Readable(b) && Stream(p, a) + r == Stream(p, b) + s
    ensures Alike(a, b) && r == s
  {
    hide *;
    WordStream(p, a);
    WordStream(p, b);
    Cut64(HeadOf(a), WordOf(p, a), r, HeadOf(b), WordOf(p, b), s);
    WordAlike(p, a, b);
  }

  lemma {:induction false} CharBytesInjective(x: string, y: string)
    requires CharBytes(x) == CharBytes(y)
    ensures x == y
  {
    forall i | 0 <= i < |x| ensures x[i] == y[i] {
      assert CharBytes(x)[i] == CharBytes(y)[i];
    }
  }

  lemma {:induction false} TextDetermines(p: Hasher, a: Value, r: seq<nat>, b: Value, s: seq<nat>)
    requires (a.String? && b.String?) || (a.Blob? && b.Blob?)
    requires Readable(a) && Readable(b) && Stream(p, a) + r == Stream(p, b) + s
    ensures Alike(a, b) && r == s
  {
    hide AppendInt32, CharBytes;
    var t := if a.String? then TString else TBlob;
    var x, y := if a.String? then CharBytes(a.s) else a.bytes, if b.String? then CharBytes(b.s) else b.bytes;
    CharLength(a);
    CharLength(b);
    assert Stream(p, a) + r == AppendInt32([], t, |x|) + (x + r);
    assert Stream(p, b) + s == AppendInt32([], t, |y|) + (y + s);
    Cut32(t, |x|, x + r, t, |y|, y + s);
    Cut(x, r, y, s);
    if a.String? { CharBytesInjective(a.s, b.s); }
  }

  lemma {:induction false} CharLength(v: Value)
    ensures v.String? ==> |CharBytes(v.s)| == |v.s|
  {}

  lemma {:induction false} BoolDetermines(p: Hasher, a: Value, r: seq<nat>, b: Value, s: seq<nat>)
    requires a.Bool? && b.Bool? && Stream(p, a) + r == Stream(p, b) + s
    ensures Alike(a, b) && r == s
  {
    Cut(Stream(p, a), r, Stream(p, b), s);
    assert Stream(p, a)[1] == Stream(p, b)[1];
  }

  lemma {:induction false} Micros(x: int)
    ensures 0 <= x % 1_000_000_000 / 1000 < TWO_32 && x / 1000 == x / 1_000_000_000 * 1_000_000 + x % 1_000_000_000 / 1000
  {}

  lemma {:induction false} TimeDetermines(p: Hasher, a: Value, r: seq<nat>, b: Value, s: seq<nat>)
    requires a.Timestamp? && b.Timestamp? && Readable(a) && Readable(b) && Stream(p, a) + r == Stream(p, b) + s
    ensures Alike(a, b) && r == s
  {
    var sec, sec' := a.ns / 1_000_000_000, b.ns / 1_000_000_000;
    Micros(a.ns);
    Micros(b.ns);
    var us, us' := a.ns % 1_000_000_000 / 1000, b.ns % 1_000_000_000 / 1000;
    TwoParts(TTimestamp, sec, TInt, us);
    TwoParts(TTimestamp, sec', TInt, us');
    hide AppendInt32, AppendInt64;
    assert Stream(p, a) + r == AppendInt64([], TTimestamp, sec) + (AppendInt32([], TInt, us) + r);
    assert Stream(p, b) + s == AppendInt64([], TTimestamp, sec') + (AppendInt32([], TInt, us') + s);
    Cut64(TTimestamp, sec, AppendInt32([], TInt, us) + r, TTimestamp, sec', AppendInt32([], TInt, us') + s);
    Cut32(TInt, us, r, TInt, us', s);
  }

  lemma {:induction false} TwoParts(t: TypeId, i: int, u: TypeId, j: int)
    ensures AppendInt32(AppendInt64([], t, i), u, j) == AppendInt64([], t, i) + AppendInt32([], u, j)
  {
    hide LowBytes;
  }

  // ---- arrays ------------------------------------------------------------------------------

  /** The streams of the elements, taken from the front. */
  ghost function Run(p: Hasher, x: seq<Value>): seq<nat> {
    if x == [] then [] else Stream(p, x[0]) + Run(p, x[1..])
  }

  lemma {:induction false} RunSnoc(p: Hasher, x: seq<Value>, v: Value)
    ensures Run(p, x + [v]) == Run(p, x) + Stream(p, v)
    decreases x
  {
    hide Stream;
    if x == [] {
      assert (x + [v])[1..] == [];
    } else {
      assert (x + [v])[0] == x[0] && (x + [v])[1..] == x[1..] + [v];
      RunSnoc(p, x[1..], v);
    }
  }

  lemma {:induction false} ElementsRun(p: Hasher, a: Value, n: nat)
    requires a.Array? && n <= |a.elems|
    ensures ElementStream(p, a, n) == Run(p, a.elems[..n])
    decreases n
  {
    hide Stream;
    if n > 0 {
      ElementsRun(p, a, n - 1);
      assert a.elems[..n] == a.elems[..n - 1] + [a.elems[n - 1]];
      RunSnoc(p, a.elems[..n - 1], a.elems[n - 1]);
    }
  }

  lemma {:induction false} ArrayStream(p: Hasher, a: Value)
    requires a.Array?
    ensures Stream(p, a) == AppendInt32([], TArray, |a.elems|) + Run(p, a.elems)
  {
    ElementsRun(p, a, |a.elems|);
    assert a.elems[..|a.elems|] == a.elems;
  }

  lemma {:induction false} RunDetermines(p: Hasher, x: seq<Value>, r: seq<nat>, y: seq<Value>, s: seq<nat>)
    requires BitsTell(p) && |x| == |y| && (forall i | 0 <= i < |x| :: Readable(x[i]) && Readable(y[i])) && Run(p, x) + r == Run(p, y) + s
    ensures (forall i | 0 <= i < |x| :: Alike(x[i], y[i])) && r == s
    decreases x, 0
  {
    hide Stream, Alike, Readable, BitsTell;
    if x != [] {
      assert Run(p, x) + r == Stream(p, x[0]) + (Run(p, x[1..]) + r);
      assert Run(p, y) + s == Stream(p, y[0]) + (Run(p, y[1..]) + s);
      StreamDetermines(p, x[0], Run(p, x[1..]) + r, y[0], Run(p, y[1..]) + s);
      RunDetermines(p, x[1..], r, y[1..], s);
      forall i | 0 <= i < |x| ensures Alike(x[i], y[i]) {
        if i > 0 { assert x[i] == x[1..][i - 1] && y[i] == y[1..][i - 1]; }
      }
    } else {
      assert Run(p, x) + r == r && Run(p, y) + s == s;
    }
  }

  lemma {:induction false} ArrayDetermines(p: Hasher, a: Value, r: seq<nat>, b: Value, s: seq<nat>)
    requires BitsTell(p) && a.Array? && b.Array? && Readable(a) && Readable(b) && Stream(p, a) + r == Stream(p, b) + s
    ensures Alike(a, b) && r == s
    decreases a, 0
  {
    hide Stream, AppendInt32, BitsTell, Run;
    ArrayStream(p, a);
    ArrayStream(p, b);
    var x, y := a.elems, b.elems;
    assert Stream(p, a) + r == AppendInt32([], TArray, |x|) + (Run(p, x) + r);
    assert Stream(p, b) + s == AppendInt32([], TArray, |y|) + (Run(p, y) + s);
    Cut32(TArray, |x|, Run(p, x) + r, TArray, |y|, Run(p, y) + s);
    RunDetermines(p, x, r, y, s);
  }

  /** Whatever follows it, the stream of a readable value can be told from that of any other one that is not
      alike, and it ends where it ends: no stream is the beginning of another. */
  lemma {:induction false} StreamDetermines(p: Hasher, a: Value, r: seq<nat>, b: Value, s: seq<nat>)
    requires BitsTell(p) && Readable(a) && Readable(b) && Stream(p, a) + r == Stream(p, b) + s
    ensures Alike(a, b) && r == s
    decreases a, 1
  {
    SameHead(p, a, r, b, s);
    SameKind(a, b);
    hide *;
    if a.Null? || a.Int? || a.Float? {
      WordDetermines(p, a, r, b, s);
    } else if a.Bool? {
      BoolDetermines(p, a, r, b, s);
    } else if a.Timestamp? {
      TimeDetermines(p, a, r, b, s);
    } else if a.Array? {
      ArrayDetermines(p, a, r, b, s);
    } else {
      TextDetermines(p, a, r, b, s);
    }
  }

  lemma {:induction false} SameKind(a: Value, b: Value)
    requires HeadOf(a) == HeadOf(b) && Readable(a) && Readable(b)
    ensures (a.Null? || a.Int? || a.Float?) <==> (b.Null? || b.Int? || b.Float?)
    ensures (a.Bool? <==> b.Bool?) && (a.Timestamp? <==> b.Timestamp?) && (a.Array? <==> b.Array?) && (a.String? <==> b.String?) && (a.Blob? <==> b.Blob?)
    ensures !a.Map? && !b.Map?
  {}

  lemma {:induction false} AlikeStream(p: Hasher, a: Value, b: Value)
    requires Readable(a) && Readable(b) && Alike(a, b)
    ensures Stream(p, a) == Stream(p, b)
    decreases a
  {
    match (a, b)
    case (Array(x), Array(y)) =>
      forall i | 0 <= i < |x| ensures Stream(p, x[i]) == Stream(p, y[i]) { AlikeStream(p, x[i], y[i]); }
      ElementStreamSame(p, a, b, |x|);
    case (Timestamp(x), Timestamp(y)) =>
      Micros(x);
      Micros(y);
    case _ => EqualSameStream(p, a, b);
  }

  /** Two readable values are hashed from the same bytes if and only if they are equal up to the microsecond. */
  lemma {:induction false} SameStreamIff(p: Hasher, a: Value, b: Value)
    requires BitsTell(p) && Readable(a) && Readable(b)
    ensures Stream(p, a) == Stream(p, b) <==> Alike(a, b)
  {
    hide *;
    if Stream(p, a) == Stream(p, b) { StreamDetermines(p, a, [], b, []); }
    if Alike(a, b) { AlikeStream(p, a, b); }
  }

  /** Both zeros and the integer 0 are equal. */
  lemma {:induction false} ZerosEqual()
    ensures Equal(Float(NegZero), Float(Whole(0))) && Equal(Float(NegZero), Int(0)) && Equal(Int(0), Float(Whole(0)))
  {}
}
