/** Equality of values and the byte stream that the hash is computed from. The hash function itself
    (64-bit FNV-1a in the source) is a parameter: nothing here depends on which function it is. */
module Hash {
  import opened Values
  import Emission

  const TWO_32: nat := 0x1_0000_0000
  const TWO_53: nat := 0x20_0000_0000_0000
  const TWO_64: nat := 0x1_0000_0000_0000_0000
  const TWO_96: nat := 0x1_0000_0000_0000_0000_0000_0000
  const PRIME_32: nat := 16777619
  const PRIME_64: nat := 1099511628211
  /** The inverse of PRIME_64 modulo 2^64. */
  const INVERSE_64: nat := 14886173955864302971

  // ---- doubles -----------------------------------------------------------------------------

  function Abs(i: int): nat {
    if i < 0 then -i else i
  }

  /** The distance between neighbouring doubles around a. */
  function Ulp(a: nat): (u: nat)
    ensures u > 0
  {
    if a < TWO_53 then 1 else 2 * Ulp(a / 2)
  }

  /** Rounds a magnitude to a multiple of the ulp, ties to even. */
  function RoundMagnitude(a: nat): nat {
    var u := Ulp(a);
    var q, r := a / u, a % u;
    if 2 * r < u || (2 * r == u && q % 2 == 0) then q * u else (q + 1) * u
  }

  /** The conversion of an integer to a double. */
  function RoundInt(i: int): int {
    if i < 0 then 0 - RoundMagnitude(-i) else RoundMagnitude(i)
  }

  /** Conversion to a double loses nothing. */
  predicate ExactInt(i: int) {
    RoundInt(i) == i
  }

  predicate FloatEqual(f: Float64, g: Float64) {
    && !f.NaN? && !g.NaN?
    && (f == g || (f == NegZero && g == Whole(0)) || (f == Whole(0) && g == NegZero))
  }

  /** The integer n with f == float64(int64(f)), where such an integer exists. */
  function Integral(f: Float64): Result<Int64> {
    match f
    case Whole(n) => if -TWO_63 <= n < TWO_63 then Ok(n) else Err
    case NegZero => Ok(0)
    case _ => Err
  }

  // ---- equality ----------------------------------------------------------------------------

  predicate Equal(a: Value, b: Value) {
    match (a, b)
    case (Null, Null) => true
    case (Bool(x), Bool(y)) => x == y
    case (Int(x), Int(y)) => x == y
    case (Int(x), Float(g)) => FloatEqual(Whole(RoundInt(x)), g)
    case (Float(f), Int(y)) => FloatEqual(f, Whole(RoundInt(y)))
    case (Float(f), Float(g)) => FloatEqual(f, g)
    case (String(x), String(y)) => x == y
    case (Blob(x), Blob(y)) => x == y
    case (Timestamp(x), Timestamp(y)) => x == y
    case (Array(x), Array(y)) => |x| == |y| && forall i | 0 <= i < |x| :: Equal(x[i], y[i])
    case (Map(x), Map(y)) => |x| == |y| && forall k | k in x :: k in y && Equal(x[k], y[k])
    case _ => false
  }

  predicate NaNFree(v: Value) {
    match v
    case Float(f) => !f.NaN?
    case Array(x) => forall i | 0 <= i < |x| :: NaNFree(x[i])
    case Map(x) => forall k | k in x :: NaNFree(x[k])
    case _ => true
  }

  /** All integers in the value, at any depth, are exactly representable as doubles. */
  predicate Exact(v: Value) {
    match v
    case Int(i) => ExactInt(i)
    case Array(x) => forall i | 0 <= i < |x| :: Exact(x[i])
    case Map(x) => forall k | k in x :: Exact(x[k])
    case _ => true
  }

  lemma {:induction false} SameKeys(x: map<string, Value>, y: map<string, Value>)
    requires |x| == |y| && forall k | k in x :: k in y
    ensures x.Keys == y.Keys
  {
    assert x.Keys <= y.Keys && |x.Keys| == |y.Keys|;
    if x.Keys != y.Keys {
      var k :| k in y.Keys && k !in x.Keys;
      SmallerSubset(x.Keys, y.Keys - {k});
    }
  }

  lemma {:induction false} SmallerSubset(a: set<string>, b: set<string>)
    requires a <= b
    ensures |a| <= |b|
  {
    if a != {} {
      var k :| k in a;
      SmallerSubset(a - {k}, b - {k});
    }
  }

  /** Equality is reflexive exactly on the values without NaN. */
  lemma {:induction false} ReflexiveIffNaNFree(v: Value)
    ensures Equal(v, v) <==> NaNFree(v)
  {
    match v
    case Array(x) => forall i | 0 <= i < |x| { ReflexiveIffNaNFree(x[i]); }
    case Map(x) => forall k | k in x { ReflexiveIffNaNFree(x[k]); }
    case _ =>
  }

  lemma {:induction false} EqualSymmetric(a: Value, b: Value)
    requires Equal(a, b)
    ensures Equal(b, a)
  {
    match (a, b)
    case (Array(x), Array(y)) => forall i | 0 <= i < |x| { EqualSymmetric(x[i], y[i]); }
    case (Map(x), Map(y)) =>
      SameKeys(x, y);
      forall k | k in x { EqualSymmetric(x[k], y[k]); }
    case _ =>
  }

  lemma {:induction false} EqualTransitive(a: Value, b: Value, c: Value)
    requires Equal(a, b) && Equal(b, c) && Exact(a) && Exact(b) && Exact(c)
    ensures Equal(a, c)
  {
    match (a, b, c)
    case (Array(x), Array(y), Array(z)) => forall i | 0 <= i < |x| { EqualTransitive(x[i], y[i], z[i]); }
    case (Map(x), Map(y), Map(z)) => forall k | k in x { EqualTransitive(x[k], y[k], z[k]); }
    case _ =>
  }

  // ---- how far equality through doubles is transitive --------------------------------------

  const TWO_52: nat := 0x10_0000_0000_0000

  lemma {:induction false} Grows(d: nat, u: nat)
    requires d >= 1
    ensures d * u >= u
  {}

  lemma {:induction false} DivMod(q: nat, u: nat, r: nat)
    requires r < u
    ensures (q * u + r) / u == q && (q * u + r) % u == r
  {
    var x := q * u + r;
    var d, m := x / u, x % u;
    assert (q - d) * u == m - r;
    if q > d { Grows(q - d, u); }
    if q < d { Grows(d - q, u); }
  }

  /** From 2^53 on, the mantissa has 53 bits: the ulp is determined by the magnitude. */
  lemma {:induction false} UlpRange(a: nat)
    requires a >= TWO_53
    ensures TWO_52 * Ulp(a) <= a < TWO_53 * Ulp(a) && Ulp(a) >= 2 && Ulp(a) % 2 == 0
    ensures a >= 2 * TWO_53 ==> Ulp(a) >= 4
    ensures a < 2 * TWO_53 ==> Ulp(a) == 2
    decreases a
  {
    if a / 2 >= TWO_53 { UlpRange(a / 2); }
  }

  lemma {:induction false} UlpSame(a: nat, b: nat)
    requires a >= TWO_53 && TWO_52 * Ulp(a) <= b < TWO_53 * Ulp(a)
    ensures Ulp(b) == Ulp(a)
    decreases a
  {
    UlpRange(a);
    if a / 2 >= TWO_53 { UlpSame(a / 2, b / 2); }
  }

  /** Rounding a magnitude given as a multiple of its ulp and a rest. */
  lemma {:induction false} RoundAt(q: nat, u: nat, r: nat)
    requires r < u && Ulp(q * u + r) == u
    ensures RoundMagnitude(q * u + r) == if 2 * r < u || (2 * r == u && q % 2 == 0) then q * u else (q + 1) * u
  {
    hide Ulp;
    DivMod(q, u, r);
  }

  lemma {:induction false} RoundSmall(a: nat)
    requires a < TWO_53
    ensures RoundMagnitude(a) == a
  {}

  /** Rounding does not leave the binade downwards. */
  lemma {:induction false} RoundAtLeast(a: nat)
    requires a >= TWO_53
    ensures RoundMagnitude(a) >= TWO_52 * Ulp(a) >= TWO_53
  {
    UlpRange(a);
    hide Ulp;
    AtLeast(a, Ulp(a));
  }

  lemma {:induction false} AtLeast(a: nat, u: nat)
    requires u > 0 && TWO_52 * u <= a
    ensures (a / u) * u >= TWO_52 * u && (a / u + 1) * u >= TWO_52 * u
  {
    var q := a / u;
    if q < TWO_52 { Shrinks(q, u); }
    OneMore(q, u);
  }

  lemma {:induction false} Shrinks(q: nat, u: nat)
    requires q < TWO_52 && u > 0
    ensures q * u + u <= TWO_52 * u
  {
    Grows(TWO_52 - q, u);
    assert (TWO_52 - q) * u == TWO_52 * u - q * u;
  }

  lemma {:induction false} OneMore(q: nat, u: nat)
    ensures (q + 1) * u == q * u + u
  {}

  /** With ulp 2, even magnitudes are exact and odd ones go to the neighbour divisible by four. */
  lemma {:induction false} RoundQuarters(n: nat, c: nat)
    requires TWO_53 <= 4 * n + c < 2 * TWO_53 && c < 4
    ensures RoundMagnitude(4 * n + c) == 4 * n + if c == 3 then 4 else if c == 2 then 2 else 0
  {
    var a := 4 * n + c;
    UlpRange(a);
    hide Ulp;
    assert a / 2 == 2 * n + (if c < 2 then 0 else 1) && a % 2 == c % 2;
  }

  lemma {:induction false} RoundUlpTwo(a: nat)
    requires TWO_53 <= a < 2 * TWO_53
    ensures a % 2 == 0 ==> RoundMagnitude(a) == a
    ensures a % 2 == 1 ==> RoundMagnitude(a) == if a % 4 == 1 then a - 1 else a + 1
  {
    hide RoundMagnitude;
    RoundQuarters(a / 4, a % 4);
  }

  /** The integers that no other integer is converted to the same double as. */
  predicate Lonely(i: int) {
    Abs(i) < TWO_53 || (Abs(i) < 2 * TWO_53 && Abs(i) % 4 == 2)
  }

  lemma {:induction false} LonelyMagnitude(a: nat, b: nat)
    requires Lonely(a) && RoundMagnitude(a) == RoundMagnitude(b)
    ensures a == b
  {
    hide RoundMagnitude, Ulp;
    if b >= TWO_53 {
      RoundAtLeast(b);
      UlpRange(b);
      if b < 2 * TWO_53 { RoundUlpTwo(b); }
    } else {
      RoundSmall(b);
    }
    if a < TWO_53 { RoundSmall(a); } else { RoundUlpTwo(a); }
  }

  lemma {:induction false} RoundZero(a: nat)
    ensures RoundMagnitude(a) == 0 ==> a == 0
  {
    if a < TWO_53 { RoundSmall(a); } else { RoundAtLeast(a); UlpRange(a); }
  }

  lemma {:induction false} LonelyAlone(i: Int64, j: Int64)
    requires Lonely(i) && RoundInt(i) == RoundInt(j)
    ensures i == j
  {
    hide RoundMagnitude;
    RoundZero(Abs(i));
    RoundZero(Abs(j));
    LonelyMagnitude(Abs(i), Abs(j));
  }

  /** Another magnitude that is rounded alike, where there is one. */
  lemma {:induction false} Companion(a: nat) returns (b: nat)
    requires !Lonely(a) && a <= TWO_63
    ensures b != a && RoundMagnitude(b) == RoundMagnitude(a) && b <= TWO_63 && (a < TWO_63 ==> b < TWO_63)
  {
    hide RoundMagnitude, Ulp;
    if a < 2 * TWO_53 {
      b := NearCompanion(a);
    } else {
      b := FarCompanion(a);
    }
  }

  lemma {:induction false} NearCompanion(a: nat) returns (b: nat)
    requires TWO_53 <= a < 2 * TWO_53 && a % 4 != 2
    ensures b != a && RoundMagnitude(b) == RoundMagnitude(a) && b <= 2 * TWO_53
  {
    hide RoundMagnitude, Ulp;
    var n, c := a / 4, a % 4;
    RoundQuarters(n, c);
    if c == 1 {
      b := 4 * n;
      RoundQuarters(n, 0);
    } else if c == 0 {
      b := 4 * n + 1;
      RoundQuarters(n, 1);
    } else {
      b := 4 * (n + 1);
      if b < 2 * TWO_53 { RoundQuarters(n + 1, 0); } else { PowerExact(); }
    }
  }

  lemma {:induction false} PowerExact()
    ensures RoundMagnitude(2 * TWO_53) == 2 * TWO_53
  {
    UlpRange(2 * TWO_53);
    assert Ulp(2 * TWO_53) == 2 * Ulp(TWO_53) && Ulp(TWO_53) == 2 * Ulp(TWO_52) && Ulp(TWO_52) == 1;
  }

  /** From 2^54 on there is always one: the ulp is at least 4. */
  lemma {:induction false} FarCompanion(a: nat) returns (b: nat)
    requires 2 * TWO_53 <= a <= TWO_63
    ensures b != a && RoundMagnitude(b) == RoundMagnitude(a) && b <= TWO_63 && (a < TWO_63 ==> b < TWO_63)
  {
    hide RoundMagnitude, Ulp;
    UlpRange(a);
    var u := Ulp(a);
    var q, r := a / u, a % u;
    assert a == q * u + r;
    AtLeast(a, u);
    RoundAt(q, u, r);
    if a >= TWO_63 - 1 {
      b := LargestCompanion(a);
    } else if r == 0 {
      b := a + 1;
      NextSame(a, q, u, 0);
      RoundAt(q, u, 1);
    } else if 2 * r < u || 2 * (r - 1) > u || (2 * r == u && q % 2 == 0) || (2 * (r - 1) == u && q % 2 == 1) {
      b := a - 1;
      UlpSame(a, b);
      RoundAt(q, u, r - 1);
    } else if r + 1 < u {
      b := a + 1;
      NextSame(a, q, u, r);
      RoundAt(q, u, r + 1);
    } else {
      b := a + 1;
      assert u == 4 && r == 3 && b == (q + 1) * u;
      MultipleExact(a, q + 1, u);
    }
  }

  /** The next magnitude has the same ulp unless it is a multiple of it. */
  lemma {:induction false} NextSame(a: nat, q: nat, u: nat, r: nat)
    requires a >= TWO_53 && u == Ulp(a) && a == q * u + r && r + 1 < u
    ensures Ulp(a + 1) == u
  {
    UlpRange(a);
    hide Ulp;
    if q >= TWO_53 { Multiply(q, u); }
    UpTo(q, u);
    UlpSame(a, a + 1);
  }

  lemma {:induction false} Multiply(q: nat, u: nat)
    requires q >= TWO_53
    ensures q * u >= TWO_53 * u
  {}

  lemma {:induction false} UpTo(q: nat, u: nat)
    ensures q < TWO_53 ==> q * u + u <= TWO_53 * u
  {
    if q < TWO_53 { assert (TWO_53 - q) * u == TWO_53 * u - q * u; if u > 0 { Grows(TWO_53 - q, u); } }
  }

  /** Multiples of the ulp just above a magnitude are exact, also where the ulp doubles. */
  lemma {:induction false} MultipleExact(a: nat, n: nat, u: nat)
    requires a >= TWO_53 && u == Ulp(a) && a + 1 == n * u
    ensures RoundMagnitude(n * u) == n * u
  {
    UlpRange(a);
    var b := a + 1;
    if b < TWO_53 * u {
      UlpSame(a, b);
      hide Ulp;
      RoundAt(n, u, 0);
    } else {
      assert b == TWO_53 * u;
      DoubleUlp(a, u);
      hide Ulp;
      assert b == TWO_52 * (2 * u);
      RoundAt(TWO_52, 2 * u, 0);
    }
  }

  lemma {:induction false} DoubleUlp(a: nat, u: nat)
    requires a >= TWO_53 && u == Ulp(a) && a + 1 == TWO_53 * u
    ensures Ulp(a + 1) == 2 * u
    decreases a
  {
    UlpRange(a);
    if a / 2 >= TWO_53 {
      DoubleUlp(a / 2, u / 2);
    } else {
      assert a + 1 == 2 * TWO_53;
      assert Ulp(2 * TWO_53) == 2 * Ulp(TWO_53) && Ulp(TWO_53) == 2 * Ulp(TWO_52) && Ulp(TWO_52) == 1;
    }
  }

  function Pow2(k: nat): (p: nat)
    ensures p > 0
  {
    if k == 0 then 1 else 2 * Pow2(k - 1)
  }

  lemma {:induction false} UlpOfPower(a: nat, k: nat)
    requires k >= 1 && TWO_52 * Pow2(k) <= a < TWO_53 * Pow2(k)
    ensures Ulp(a) == Pow2(k)
    decreases k
  {
    if k > 1 {
      UlpOfPower(a / 2, k - 1);
    } else {
      assert Pow2(1) == 2 * Pow2(0);
    }
  }

  lemma {:induction false} LargestUlp()
    ensures Ulp(TWO_63 - 1) == Ulp(TWO_63 - 2) == 1024 && Ulp(TWO_63) == 2048
  {
    assert Pow2(2) == 4 && Pow2(4) == 16 && Pow2(6) == 64 && Pow2(8) == 256 && Pow2(10) == 1024 && Pow2(11) == 2048;
    UlpOfPower(TWO_63 - 1, 10);
    UlpOfPower(TWO_63 - 2, 10);
    UlpOfPower(TWO_63, 11);
  }

  /** The largest magnitudes: 2^63 - 1 and 2^63 - 2 are both rounded to 2^63. */
  lemma {:induction false} LargestCompanion(a: nat) returns (b: nat)
    requires TWO_63 - 1 <= a <= TWO_63
    ensures b != a && RoundMagnitude(b) == RoundMagnitude(a) && b < TWO_63
  {
    b := if a == TWO_63 then TWO_63 - 1 else TWO_63 - 2;
    LargestUlp();
    hide Ulp;
  }


  /** The integers alone with their double are exactly the lonely ones. */
  lemma {:induction false} LonelyIff(i: Int64)
    ensures Lonely(i) <==> forall j: Int64 | RoundInt(j) == RoundInt(i) :: j == i
  {
    hide RoundMagnitude, Ulp;
    if Lonely(i) {
      forall j: Int64 | RoundInt(j) == RoundInt(i) ensures j == i { LonelyAlone(i, j); }
    } else {
      var b := Companion(Abs(i));
      RoundSmall(0);
      RoundZero(Abs(i));
      var n: int := b;
      var j: Int64 := if i < 0 then -n else n;
      assert RoundInt(j) == RoundInt(i) && j != i;
    }
  }

  /** Equality through a double, from an integer to another: it leads back to the same integer, for all
      doubles and integers, exactly if the integer is below 2^53 or is 2 modulo 4 below 2^54. */
  lemma {:induction false} TransitiveThroughDoublesIff(i: Int64)
    ensures (forall f: Float64, j: Int64 | Equal(Int(i), Float(f)) && Equal(Float(f), Int(j)) :: Equal(Int(i), Int(j))) <==> Lonely(i)
  {
    hide RoundInt, Lonely;
    LonelyIff(i);
    if Lonely(i) {
      forall f: Float64, j: Int64 | Equal(Int(i), Float(f)) && Equal(Float(f), Int(j)) ensures i == j {
        assert RoundInt(j) == RoundInt(i);
      }
    } else {
      var j: Int64 :| RoundInt(j) == RoundInt(i) && j != i;
      assert Equal(Int(i), Float(Whole(RoundInt(i)))) && Equal(Float(Whole(RoundInt(i))), Int(j));
    }
  }

  // ---- the byte stream ---------------------------------------------------------------------

  /** The hash function over bytes, the bit pattern of a double, and the counter used for NaN. */
  datatype Hasher = Hasher(sum64: seq<nat> -> nat, bits: Float64 -> Int64, nan: Int64)

  datatype TypeId = TNull | TBool | TInt | TFloat | TString | TBlob | TTimestamp | TArray | TMap

  function Tag(t: TypeId): nat {
    match t
    case TNull => 1
    case TBool => 2
    case TInt => 3
    case TFloat => 4
    case TString => 5
    case TBlob => 6
    case TTimestamp => 7
    case TArray => 8
    case TMap => 9
  }

  /** The n lowest bytes of x, lowest first. */
  function LowBytes(x: nat, n: nat): (b: seq<nat>)
    ensures |b| == n
  {
    if n == 0 then [] else [x % 256] + LowBytes(x / 256, n - 1)
  }

  function AppendInt32(b: seq<nat>, t: TypeId, i: int): seq<nat> {
    b + [Tag(t)] + LowBytes((i * PRIME_32) % TWO_32, 4)
  }

  function AppendInt64(b: seq<nat>, t: TypeId, i: int): seq<nat> {
    b + [Tag(t)] + LowBytes((i * PRIME_64) % TWO_64, 8)
  }

  function CharBytes(s: string): seq<nat> {
    seq(|s|, i requires 0 <= i < |s| => s[i] as nat)
  }

  /** The hash of one entry of a map: the value first, then the key. */
  ghost function EntryHash(p: Hasher, m: Value, k: string): nat
    requires m.Map? && k in m.entries
    decreases m, 1, 0
  {
    p.sum64(Stream(p, m.entries[k]) + AppendInt32([], TString, |k|) + CharBytes(k)) % TWO_64
  }

  ghost function EntryTotal(p: Hasher, m: Value, keys: set<string>): nat
    requires m.Map? && keys <= m.entries.Keys
    decreases m, 2, |keys|
  {
    if keys == {} then 0 else
      var k :| k in keys;
      EntryHash(p, m, k) + EntryTotal(p, m, keys - {k})
  }

  /** What the hasher is fed with. A map contributes its size and the sum of its entry hashes. */
  ghost function Stream(p: Hasher, v: Value): seq<nat>
    decreases v, 3, 0
  {
    match v
    case Null => AppendInt64([], TNull, 0)
    case Bool(b) => [Tag(TBool), if b then 0xaa else 0x55]
    case Int(i) => AppendInt64([], TInt, i)
    case Float(f) =>
      (match Integral(f)
       case Ok(i) => AppendInt64([], TInt, i)
       case Err => if f.NaN? then AppendInt64([], TNull, p.nan) else AppendInt64([], TFloat, p.bits(f)))
    case String(s) => AppendInt32([], TString, |s|) + CharBytes(s)
    case Blob(b) => AppendInt32([], TBlob, |b|) + b
    case Timestamp(ns) =>
      AppendInt32(AppendInt64([], TTimestamp, ns / 1_000_000_000), TInt, ns % 1_000_000_000 / 1000)
    case Array(x) => AppendInt32([], TArray, |x|) + ElementStream(p, v, |x|)
    case Map(x) =>
      var total := EntryTotal(p, v, x.Keys);
      AppendInt64(AppendInt32(AppendInt32([], TMap, |x|), TMap, total / TWO_64 % TWO_32), TMap, total % TWO_64)
  }

  /** The streams of the first n elements of an array, in order. */
  ghost function ElementStream(p: Hasher, a: Value, n: nat): seq<nat>
    requires a.Array? && n <= |a.elems|
    decreases a, 2, n
  {
    if n == 0 then [] else ElementStream(p, a, n - 1) + Stream(p, a.elems[n - 1])
  }

  ghost function HashOf(p: Hasher, v: Value): nat {
    p.sum64(Stream(p, v)) % TWO_64
  }

  lemma {:induction false} EntryTotalPick(p: Hasher, m: Value, keys: set<string>, k: string)
    requires m.Map? && keys <= m.entries.Keys && k in keys
    ensures EntryTotal(p, m, keys) == EntryHash(p, m, k) + EntryTotal(p, m, keys - {k})
    decreases |keys|
  {
    hide EntryHash;
    var j :| j in keys && EntryTotal(p, m, keys) == EntryHash(p, m, j) + EntryTotal(p, m, keys - {j});
    if j != k {
      EntryTotalPick(p, m, keys - {j}, k);
      EntryTotalPick(p, m, keys - {k}, j);
      assert keys - {j} - {k} == keys - {k} - {j};
    }
  }

  lemma {:induction false} EntryTotalSame(p: Hasher, a: Value, b: Value, keys: set<string>)
    requires a.Map? && b.Map? && keys <= a.entries.Keys && keys <= b.entries.Keys
    requires forall k | k in keys :: Stream(p, a.entries[k]) == Stream(p, b.entries[k])
    ensures EntryTotal(p, a, keys) == EntryTotal(p, b, keys)
    decreases |keys|
  {
    if keys != {} {
      var k :| k in keys;
      EntryTotalPick(p, a, keys, k);
      EntryTotalPick(p, b, keys, k);
      EntryTotalSame(p, a, b, keys - {k});
    }
  }

  lemma {:induction false} ElementStreamSame(p: Hasher, a: Value, b: Value, n: nat)
    requires a.Array? && b.Array? && n <= |a.elems| && n <= |b.elems|
    requires forall i | 0 <= i < n :: Stream(p, a.elems[i]) == Stream(p, b.elems[i])
    ensures ElementStream(p, a, n) == ElementStream(p, b, n)
  {
    if n > 0 { ElementStreamSame(p, a, b, n - 1); }
  }

  /** Equal values feed the same bytes to the hasher, however they are nested. */
  lemma {:induction false} EqualSameStream(p: Hasher, a: Value, b: Value)
    requires Equal(a, b) && Exact(a) && Exact(b)
    ensures Stream(p, a) == Stream(p, b)
  {
    match (a, b)
    case (Array(x), Array(y)) =>
      forall i | 0 <= i < |x| { EqualSameStream(p, x[i], y[i]); }
      ElementStreamSame(p, a, b, |x|);
    case (Map(x), Map(y)) =>
      SameKeys(x, y);
      forall k | k in x.Keys ensures Stream(p, x[k]) == Stream(p, y[k]) { EqualSameStream(p, x[k], y[k]); }
      EntryTotalSame(p, a, b, x.Keys);
    case _ =>
  }

  /** The requirement that every hash-bucketed structure places on Equal and Hash. */
  lemma {:induction false} EqualAndHashAreLawful(p: Hasher)
    ensures Emission.Lawful(Equal, v => HashOf(p, v), iset v | NaNFree(v) && Exact(v))
  {
    var dom := iset v | NaNFree(v) && Exact(v);
    forall a | a in dom ensures Equal(a, a) { ReflexiveIffNaNFree(a); }
    forall a, b | a in dom && b in dom && Equal(a, b) ensures Equal(b, a) && HashOf(p, a) == HashOf(p, b) {
      EqualSymmetric(a, b);
      EqualSameStream(p, a, b);
    }
    forall a, b, c | a in dom && b in dom && c in dom && Equal(a, b) && Equal(b, c) ensures Equal(a, c) {
      EqualTransitive(a, b, c);
    }
  }

  // ---- integers against doubles ------------------------------------------------------------

  lemma {:induction false} LowBytesInjective(x: nat, y: nat, n: nat, bound: nat)
    requires LowBytes(x, n) == LowBytes(y, n) && x < bound && y < bound && bound <= Pow256(n)
    ensures x == y
  {
    if n > 0 {
      assert LowBytes(x, n)[0] == x % 256 && LowBytes(y, n)[0] == y % 256;
      assert LowBytes(x, n)[1..] == LowBytes(x / 256, n - 1) && LowBytes(y, n)[1..] == LowBytes(y / 256, n - 1);
      LowBytesInjective(x / 256, y / 256, n - 1, Pow256(n - 1));
    }
  }

  function Pow256(n: nat): nat {
    if n == 0 then 1 else 256 * Pow256(n - 1)
  }

  lemma {:induction false} ModEqualMeansMultiple(a: int, b: int, m: nat) returns (t: int)
    requires m > 0 && a % m == b % m
    ensures a - b == m * t
  {
    t := a / m - b / m;
    assert a == m * (a / m) + a % m && b == m * (b / m) + b % m;
    assert m * t == m * (a / m) - m * (b / m);
  }

  /** Multiplying by the odd constant loses no information modulo 2^64. */
  lemma {:induction false} PrimeProductInjective(i: Int64, j: Int64)
    requires (i * PRIME_64) % TWO_64 == (j * PRIME_64) % TWO_64
    ensures i == j
  {
    var t := ModEqualMeansMultiple(i * PRIME_64, j * PRIME_64, TWO_64);
    var d := i - j;
    assert d * PRIME_64 == TWO_64 * t;
    assert d * PRIME_64 * INVERSE_64 == d * (PRIME_64 * INVERSE_64);
    assert PRIME_64 * INVERSE_64 == 1 + TWO_64 * 887285111055;
    assert d * (1 + TWO_64 * 887285111055) == d + TWO_64 * (d * 887285111055);
    assert TWO_64 * t * INVERSE_64 == TWO_64 * (t * INVERSE_64);
    var w := t * INVERSE_64 - d * 887285111055;
    assert d == TWO_64 * w;
    assert -(TWO_64 as int) < d < TWO_64;
    assert w == 0;
  }

  lemma {:induction false} AppendInt64Injective(t: TypeId, i: Int64, j: Int64)
    requires AppendInt64([], t, i) == AppendInt64([], t, j)
    ensures i == j
  {
    var x, y := (i * PRIME_64) % TWO_64, (j * PRIME_64) % TWO_64;
    assert AppendInt64([], t, i)[1..] == LowBytes(x, 8) && AppendInt64([], t, j)[1..] == LowBytes(y, 8);
    assert Pow256(8) == TWO_64 by {
      assert Pow256(4) == 256 * Pow256(3) && Pow256(3) == 256 * Pow256(2) && Pow256(2) == 65536;
      assert Pow256(8) == 256 * Pow256(7) && Pow256(7) == 256 * Pow256(6) && Pow256(6) == 256 * Pow256(5);
    }
    LowBytesInjective(x, y, 8, TWO_64);
    PrimeProductInjective(i, j);
  }

  /** An integer and a double that are equal are fed to the hasher as the same bytes if and only if
      the integer is exactly representable. */
  lemma {:induction false} IntFloatStreamIff(p: Hasher, i: Int64, f: Float64)
    requires Equal(Int(i), Float(f))
    ensures Stream(p, Int(i)) == Stream(p, Float(f)) <==> ExactInt(i)
  {
    var n := RoundInt(i);
    assert f == Whole(n) || (f == NegZero && n == 0);
    match Integral(f)
    case Ok(m) =>
      assert m == n;
      if Stream(p, Int(i)) == Stream(p, Float(f)) { AppendInt64Injective(TInt, i, m); }
    case Err =>
      assert AppendInt64([], TFloat, p.bits(f))[0] == 4 && AppendInt64([], TInt, i)[0] == 3;
  }

  // ---- the order-free digest of a map ------------------------------------------------------

  /** The smallest example: 2^53 + 1, its double and 2^53 are equal in turn, but the first and the last
      are not; and the first two are hashed from different bytes. */
  lemma {:induction false} InexactIntegers(p: Hasher)
    ensures var big, mid, small := Int(TWO_53 + 1), Float(Whole(TWO_53)), Int(TWO_53);
            && Equal(big, mid) && Equal(mid, small) && !Equal(big, small)
            && Stream(p, big) != Stream(p, mid) && Stream(p, mid) == Stream(p, small)
  {
    hide Stream, RoundMagnitude;
    RoundUlpTwo(TWO_53 + 1);
    RoundUlpTwo(TWO_53);
    IntFloatStreamIff(p, TWO_53 + 1, Whole(TWO_53));
    IntFloatStreamIff(p, TWO_53, Whole(TWO_53));
  }

  /** Bitwise or of unsigned integers. */
  function BitOr(a: nat, b: nat): nat {
    if a == 0 && b == 0 then 0
    else 2 * BitOr(a / 2, b / 2) + if a % 2 == 1 || b % 2 == 1 then 1 else 0
  }

  lemma {:induction false} BitOrBounds(a: nat, b: nat)
    ensures a <= BitOr(a, b) && b <= BitOr(a, b) && BitOr(a, b) <= a + b
  {
    if a != 0 || b != 0 { BitOrBounds(a / 2, b / 2); }
  }

  /** The test that the source uses for a carry out of a 64-bit addition is exact. */
  lemma {:induction false} CarryTest(a: nat, b: nat)
    requires a < TWO_64 && b < TWO_64
    ensures (a + b) % TWO_64 < BitOr(a, b) <==> a + b >= TWO_64
  {
    BitOrBounds(a, b);
    if a + b >= TWO_64 { assert (a + b) % TWO_64 == a + b - TWO_64; }
  }

  /** One iteration of the accumulation keeps (upper, lower) the sum modulo 2^96. */
  lemma {:induction false} AccumulateStep(total: nat, upper: nat, lower: nat, sh: nat)
    requires upper < TWO_32 && lower < TWO_64 && sh < TWO_64
    requires upper * TWO_64 + lower == total % TWO_96
    ensures var carried := (sh + lower) % TWO_64 < BitOr(sh, lower);
            var upper' := if carried then (upper + 1) % TWO_32 else upper;
            upper' * TWO_64 + (lower + sh) % TWO_64 == (total + sh) % TWO_96
  {
    hide BitOr;
    CarryTest(sh, lower);
    var k := total / TWO_96;
    assert total == k * TWO_96 + (upper * TWO_64 + lower);
    if sh + lower < TWO_64 {
      Remainder(total + sh, k, upper * TWO_64 + lower + sh);
    } else if upper + 1 < TWO_32 {
      Remainder(total + sh, k, (upper + 1) * TWO_64 + (lower + sh - TWO_64));
    } else {
      Remainder(total + sh, k + 1, lower + sh - TWO_64);
    }
  }

  lemma {:induction false} Remainder(x: nat, k: nat, r: nat)
    requires x == k * TWO_96 + r && r < TWO_96
    ensures x % TWO_96 == r
  {
  }

  lemma {:induction false} SplitTotal(total: nat, upper: nat, lower: nat)
    requires upper < TWO_32 && lower < TWO_64 && upper * TWO_64 + lower == total % TWO_96
    ensures upper == total / TWO_64 % TWO_32 && lower == total % TWO_64
  {
    var k := total / TWO_96;
    assert total == k * TWO_96 + upper * TWO_64 + lower;
    assert total == (k * TWO_32 + upper) * TWO_64 + lower;
    assert total / TWO_64 == k * TWO_32 + upper;
  }

  /** Feeds a value to the hasher. The entries of a map are visited in an arbitrary order. Every NaN draws
      the next number of a global counter, so only the bytes of NaN-free values are determined. */
  method UpdateHash(sum64: seq<nat> -> nat, bits: Float64 -> Int64, counter: nat, v: Value, h: seq<nat>) returns (h': seq<nat>, counter': nat)
    ensures NaNFree(v) ==> counter' == counter && forall nan: Int64 :: h' == h + Stream(Hasher(sum64, bits, nan), v)
    ensures !NaNFree(v) ==> counter' > counter
    ensures v == Float(NaN) ==> counter' == counter + 1 && h' == h + AppendInt64([], TNull, counter + 1)
    decreases v
  {
    hide AppendInt32, AppendInt64, EntryTotal, EntryHash, LowBytes, CharBytes;
    counter' := counter;
    match v
    case Null => h' := h + AppendInt64([], TNull, 0);
    case Bool(b) => h' := h + [Tag(TBool), if b then 0xaa else 0x55];
    case Int(i) => h' := h + AppendInt64([], TInt, i);
    case Float(f) =>
      match Integral(f) {
        case Ok(i) => h' := h + AppendInt64([], TInt, i);
        case Err =>
          if f.NaN? {
            counter' := counter + 1;
            h' := h + AppendInt64([], TNull, counter');
          } else {
            h' := h + AppendInt64([], TFloat, bits(f));
          }
      }
    case String(s) => h' := h + (AppendInt32([], TString, |s|) + CharBytes(s));
    case Blob(b) => h' := h + (AppendInt32([], TBlob, |b|) + b);
    case Timestamp(ns) =>
      h' := h + AppendInt32(AppendInt64([], TTimestamp, ns / 1_000_000_000), TInt, ns % 1_000_000_000 / 1000);
    case Array(x) =>
      h', counter' := UpdateElements(sum64, bits, counter, v, h + AppendInt32([], TArray, |x|));
    case Map(x) =>
      var upper, lower;
      upper, lower, counter' := MapDigest(sum64, bits, counter, v);
      h' := h + AppendInt64(AppendInt32(AppendInt32([], TMap, |x|), TMap, upper), TMap, lower);
  }

  method UpdateElements(sum64: seq<nat> -> nat, bits: Float64 -> Int64, counter: nat, a: Value, h: seq<nat>) returns (h': seq<nat>, counter': nat)
    requires a.Array?
    ensures NaNFree(a) ==> counter' == counter && forall nan: Int64 :: h' == h + ElementStream(Hasher(sum64, bits, nan), a, |a.elems|)
    ensures !NaNFree(a) ==> counter' > counter
    decreases a, 0
  {
    hide Stream;
    h', counter' := h, counter;
    for i := 0 to |a.elems|
      invariant (forall j | 0 <= j < i :: NaNFree(a.elems[j])) ==>
                  counter' == counter && forall nan: Int64 :: h' == h + ElementStream(Hasher(sum64, bits, nan), a, i)
      invariant (exists j | 0 <= j < i :: !NaNFree(a.elems[j])) ==> counter' > counter
    {
      h', counter' := UpdateHash(sum64, bits, counter', a.elems[i], h');
    }
  }

  /** The sum of the entry hashes, accumulated in two words, whatever the order of the entries. */
  method MapDigest(sum64: seq<nat> -> nat, bits: Float64 -> Int64, counter: nat, m: Value) returns (upper: nat, lower: nat, counter': nat)
    requires m.Map?
    ensures NaNFree(m) ==> counter' == counter && forall nan: Int64 :: IsDigest(Hasher(sum64, bits, nan), m, upper, lower)
    ensures !NaNFree(m) ==> counter' > counter
    decreases m, 0
  {
    hide EntryTotal, BitOr, Stream, AppendInt32, CharBytes, IsDigest;
    ghost var all := m.entries.Keys;
    upper, lower, counter' := 0, 0, counter;
    var todo := m.entries.Keys;
    ghost var total: nat := 0;
    forall nan: Int64 ensures EntryTotal(Hasher(sum64, bits, nan), m, {}) == 0 { NoEntries(Hasher(sum64, bits, nan), m); }
    while todo != {}
      invariant todo <= all && upper < TWO_32 && lower < TWO_64 && upper * TWO_64 + lower == total % TWO_96
      invariant (forall k | k in all - todo :: NaNFree(m.entries[k])) ==>
                  counter' == counter && forall nan: Int64 :: SumsTo(Hasher(sum64, bits, nan), m, total, todo)
      invariant (exists k | k in all - todo :: !NaNFree(m.entries[k])) ==> counter' > counter
    {
      var k :| k in todo;
      var sub;
      sub, counter' := UpdateHash(sum64, bits, counter', m.entries[k], []);
      sub := sub + (AppendInt32([], TString, |k|) + CharBytes(k));
      var sh := sum64(sub) % TWO_64;
      if NaNFree(m.entries[k]) {
        forall nan: Int64 ensures SumsTo(Hasher(sum64, bits, nan), m, total, todo) ==> SumsTo(Hasher(sum64, bits, nan), m, total + sh, todo - {k}) {
          var p := Hasher(sum64, bits, nan);
          assert sub == Stream(p, m.entries[k]) + AppendInt32([], TString, |k|) + CharBytes(k);
          EntryTotalPick(p, m, todo, k);
        }
      }
      AccumulateStep(total, upper, lower, sh);
      if (sh + lower) % TWO_64 < BitOr(sh, lower) {
        upper := (upper + 1) % TWO_32;
      }
      lower := (lower + sh) % TWO_64;
      todo := todo - {k};
      total := total + sh;
    }
    forall nan: Int64 ensures SumsTo(Hasher(sum64, bits, nan), m, total, {}) ==> IsDigest(Hasher(sum64, bits, nan), m, upper, lower) {
      DigestOf(Hasher(sum64, bits, nan), m, total, upper, lower);
    }
  }

  /** total and the entries still to be visited make up the whole. */
  ghost predicate SumsTo(p: Hasher, m: Value, total: nat, todo: set<string>)
    requires m.Map?
  {
    todo <= m.entries.Keys && total + EntryTotal(p, m, todo) == EntryTotal(p, m, m.entries.Keys)
  }

  /** The two words hold the sum of all entry hashes modulo 2^96. */
  ghost predicate IsDigest(p: Hasher, m: Value, upper: nat, lower: nat)
    requires m.Map?
  {
    var total := EntryTotal(p, m, m.entries.Keys);
    upper == total / TWO_64 % TWO_32 && lower == total % TWO_64
  }

  lemma {:induction false} DigestOf(p: Hasher, m: Value, total: nat, upper: nat, lower: nat)
    requires m.Map? && upper < TWO_32 && lower < TWO_64 && upper * TWO_64 + lower == total % TWO_96
    ensures SumsTo(p, m, total, {}) ==> IsDigest(p, m, upper, lower)
  {
    hide EntryTotal;
    NoEntries(p, m);
    SplitTotal(total, upper, lower);
  }

  lemma {:induction false} NoEntries(p: Hasher, m: Value)
    requires m.Map?
    ensures EntryTotal(p, m, {}) == 0
  {
  }
}
