/** Reading and setting entries of nested maps and arrays by JSON path. */
module JsonPath {
  import opened Values

  datatype Component = Key(key: string) | Index(i: int) | Slice | Recursive

  type Path = seq<Component>

  /** Paths of keys and non-negative indices. */
  predicate Plain(p: Path) {
    forall i | 0 <= i < |p| :: PlainComponent(p[i])
  }

  predicate PlainComponent(c: Component) {
    c.Key? || (c.Index? && c.i >= 0)
  }

  // ---- reading -----------------------------------------------------------------------------

  function Extract(v: Value, c: Component): Result<Value> {
    match c
    case Key(k) => if v.Map? && k in v.entries then Ok(v.entries[k]) else Err
    case Index(i) =>
      if !v.Array? then Err else
        var n := if i < 0 then |v.elems| + i else i;
        if 0 <= n < |v.elems| then Ok(v.elems[n]) else Err
    case _ => Err
  }

  function Get(v: Value, p: Path): Result<Value>
    decreases p
  {
    if p == [] then Ok(v) else
      var next :- Extract(v, p[0]);
      Get(next, p[1..])
  }

  // ---- setting, as a loop ------------------------------------------------------------------

  datatype Status = Done | Failed | Panicked

  function Nulls(n: nat): (r: seq<Value>)
    ensures |r| == n && forall i | 0 <= i < n :: r[i] == Null
  {
    seq(n, _ => Null)
  }

  /** Makes room for a child: NULL becomes a container, missing entries become NULL. */
  function Room(v: Value, c: Component): (r: Value)
    requires PlainComponent(c)
  {
    match c
    case Key(k) =>
      if v.Null? then Map(map[k := Null])
      else if v.Map? && k !in v.entries then Map(v.entries[k := Null])
      else v
    case Index(i) =>
      if v.Null? then Array(Nulls(i + 1))
      else if v.Array? && i >= |v.elems| then Array(v.elems + Nulls(i + 1 - |v.elems|))
      else v
  }

  predicate HasChild(v: Value, c: Component) {
    match c
    case Key(k) => v.Map? && k in v.entries
    case Index(i) => v.Array? && 0 <= i < |v.elems|
    case _ => false
  }

  function Child(v: Value, c: Component): Value
    requires HasChild(v, c)
  {
    if c.Key? then v.entries[c.key] else v.elems[c.i]
  }

  function WithChild(v: Value, c: Component, x: Value): (r: Value)
    requires HasChild(v, c)
    ensures HasChild(r, c) && Child(r, c) == x
  {
    if c.Key? then Map(v.entries[c.key := x]) else Array(v.elems[c.i := x])
  }

  /** The value found by following components that are present. */
  predicate Present(v: Value, p: Path)
    decreases p
  {
    p == [] || (HasChild(v, p[0]) && Present(Child(v, p[0]), p[1..]))
  }

  function At(v: Value, p: Path): Value
    requires Present(v, p)
    decreases p
  {
    if p == [] then v else At(Child(v, p[0]), p[1..])
  }

  function WriteAt(v: Value, p: Path, x: Value): Value
    requires Present(v, p)
    decreases p
  {
    if p == [] then x else WithChild(v, p[0], WriteAt(Child(v, p[0]), p[1..], x))
  }

  /** What a set does to a value: how it ends and what it leaves behind. */
  function Effect(v: Value, p: Path, x: Value): (Status, Value)
    decreases p
  {
    if p == [] then (Done, x)
    else if PlainComponent(p[0]) then
      var r := Room(v, p[0]);
      if !HasChild(r, p[0]) then (Failed, v)
      else
        var (status, child) := Effect(Child(r, p[0]), p[1..], x);
        (status, WithChild(r, p[0], child))
    else Obstacle(v, p[0])
  }

  /** Components that cannot be set through. A negative index is not normalised: it indexes out of
      range, and on NULL the index -1 first creates an empty array. */
  function Obstacle(v: Value, c: Component): (Status, Value) {
    if !c.Index? then (Failed, v)
    else if v.Null? then (Panicked, if c.i == -1 then Array([]) else v)
    else if v.Array? then (Panicked, v)
    else (Failed, v)
  }

  lemma {:induction false} PresentSnoc(v: Value, p: Path, c: Component)
    requires Present(v, p) && HasChild(At(v, p), c)
    ensures Present(v, p + [c]) && At(v, p + [c]) == Child(At(v, p), c)
    decreases p
  {
    if p == [] {
      assert [c][1..] == [];
    } else {
      assert (p + [c])[1..] == p[1..] + [c];
      PresentSnoc(Child(v, p[0]), p[1..], c);
    }
  }

  lemma {:induction false} WriteThenAt(v: Value, p: Path, x: Value)
    requires Present(v, p)
    ensures Present(WriteAt(v, p, x), p) && At(WriteAt(v, p, x), p) == x
    decreases p
  {
    if p != [] { WriteThenAt(Child(v, p[0]), p[1..], x); }
  }

  lemma {:induction false} WriteTwice(v: Value, p: Path, x: Value, y: Value)
    requires Present(v, p)
    ensures Present(WriteAt(v, p, x), p) && WriteAt(WriteAt(v, p, x), p, y) == WriteAt(v, p, y)
    decreases p
  {
    WriteThenAt(v, p, x);
    if p != [] { WriteTwice(Child(v, p[0]), p[1..], x, y); }
  }

  lemma {:induction false} WriteSame(v: Value, p: Path)
    requires Present(v, p)
    ensures WriteAt(v, p, At(v, p)) == v
    decreases p
  {
    if p != [] { WriteSame(Child(v, p[0]), p[1..]); }
  }

  lemma {:induction false} WriteSnoc(v: Value, p: Path, c: Component, x: Value)
    requires Present(v, p) && HasChild(At(v, p), c) && Present(v, p + [c])
    ensures WriteAt(v, p + [c], x) == WriteAt(v, p, WithChild(At(v, p), c, x))
    decreases p
  {
    if p == [] {
      assert [c][1..] == [];
    } else {
      assert (p + [c])[1..] == p[1..] + [c];
      WriteSnoc(Child(v, p[0]), p[1..], c, x);
    }
  }

  /** The rest of the work at a position, seen from the root. */
  ghost function Rest(root: Value, p: Path, rest: Path, x: Value): (Status, Value)
    requires Present(root, p)
  {
    var (status, v) := Effect(At(root, p), rest, x);
    (status, WriteAt(root, p, v))
  }

  /** Making room at a position and descending does not change what remains to be done. */
  lemma {:induction false} RestStep(root: Value, root': Value, p: Path, c: Component, rest: Path, x: Value)
    requires Present(root, p) && PlainComponent(c) && HasChild(Room(At(root, p), c), c)
    requires root' == WriteAt(root, p, Room(At(root, p), c))
    ensures Present(root', p + [c]) && At(root', p + [c]) == Child(Room(At(root, p), c), c)
    ensures Rest(root', p + [c], rest, x) == Rest(root, p, [c] + rest, x)
  {
    hide Room, Effect;
    var r := Room(At(root, p), c);
    WriteThenAt(root, p, r);
    PresentSnoc(root', p, c);
    var (status, child) := Effect(Child(r, c), rest, x);
    WriteSnoc(root', p, c, child);
    WriteTwice(root, p, r, WithChild(r, c, child));
    EffectStep(At(root, p), c, rest, x);
  }

  lemma {:induction false} EffectStep(v: Value, c: Component, rest: Path, x: Value)
    requires PlainComponent(c) && HasChild(Room(v, c), c)
    ensures var r := Room(v, c);
            Effect(v, [c] + rest, x) == (Effect(Child(r, c), rest, x).0, WithChild(r, c, Effect(Child(r, c), rest, x).1))
  {
    assert ([c] + rest)[0] == c && ([c] + rest)[1..] == rest;
  }

  lemma {:induction false} RestBlocked(root: Value, p: Path, rest: Path, x: Value)
    requires Present(root, p) && rest != []
    ensures PlainComponent(rest[0]) && !HasChild(Room(At(root, p), rest[0]), rest[0]) ==> Rest(root, p, rest, x) == (Failed, root)
    ensures !PlainComponent(rest[0]) ==>
              var (status, v) := Obstacle(At(root, p), rest[0]);
              Rest(root, p, rest, x) == (status, if v == At(root, p) then root else WriteAt(root, p, v))
  {
    WriteSame(root, p);
  }

  /** Walks down the path, creating what is missing, and finally writes the value at the place that
      was reached last. The root is changed in place: by the parent setter of the position reached. */
  method Set(m: map<string, Value>, path: Path, x: Value) returns (status: Status, after: Value)
    ensures path == [] ==> status == Failed && after == Map(m)
    ensures path != [] ==> (status, after) == Effect(Map(m), path, x)
  {
    hide Room, Effect, Obstacle;
    var root, current := Map(m), Map(m);
    var hasSetter := false;
    var i := 0;
    assert path != [] ==> path[0..] == path && path[..0] == [];
    while i < |path|
      invariant i <= |path| && (hasSetter <==> i > 0) && (i == 0 ==> root == Map(m))
      invariant Present(root, path[..i]) && At(root, path[..i]) == current
      invariant Rest(root, path[..i], path[i..], x) == Effect(Map(m), path, x)
    {
      var c := path[i];
      assert path[i..] == [c] + path[i + 1..] && path[..i + 1] == path[..i] + [c];
      RestBlocked(root, path[..i], path[i..], x);
      if !PlainComponent(c) {
        var (s, v) := Obstacle(current, c);
        if v != current { root := WriteAt(root, path[..i], v); }
        return s, root;
      }
      var room := Room(current, c);
      if !HasChild(room, c) { return Failed, root; }
      ghost var before := root;
      if room != current { root := WriteAt(root, path[..i], room); }
      WriteSame(before, path[..i]);
      RestStep(before, root, path[..i], c, path[i + 1..], x);
      current := Child(room, c);
      hasSetter := true;
      i := i + 1;
    }
    if !hasSetter { return Failed, root; }
    assert path[..i] == path && path[i..] == [];
    EffectEnd(current, x);
    return Done, WriteAt(root, path, x);
  }

  lemma {:induction false} EffectEnd(v: Value, x: Value)
    ensures Effect(v, [], x) == (Done, x)
  {}

  // ---- laws --------------------------------------------------------------------------------

  /** The caller can tell in advance whether a plain path can be set: the walk meets only containers of
      the right kind until it reaches something absent or NULL. */
  predicate Settable(v: Value, p: Path)
    decreases p
  {
    p == [] || v.Null? ||
    match p[0]
    case Key(k) => v.Map? && (k in v.entries ==> Settable(v.entries[k], p[1..]))
    case Index(i) => v.Array? && (0 <= i < |v.elems| ==> Settable(v.elems[i], p[1..]))
    case _ => false
  }

  lemma {:induction false} RoomFor(v: Value, c: Component)
    requires PlainComponent(c)
    ensures HasChild(Room(v, c), c) <==> v.Null? || (if c.Key? then v.Map? else v.Array?)
    ensures HasChild(v, c) ==> Room(v, c) == v
    ensures HasChild(Room(v, c), c) && !HasChild(v, c) ==> Child(Room(v, c), c) == Null && Room(v, c) != v
    ensures Extract(v, c).Ok? <==> HasChild(v, c)
    ensures HasChild(v, c) ==> Extract(v, c) == Ok(Child(v, c))
  {}

  /** A plain path is set exactly if it is settable; otherwise the set fails and changes nothing. */
  lemma {:induction false} SetIffSettable(v: Value, p: Path, x: Value)
    requires Plain(p)
    ensures Effect(v, p, x).0 == (if Settable(v, p) then Done else Failed)
    ensures !Settable(v, p) ==> Effect(v, p, x).1 == v
    decreases p
  {
    if p != [] {
      RoomFor(v, p[0]);
      var r := Room(v, p[0]);
      if HasChild(r, p[0]) {
        SetIffSettable(Child(r, p[0]), p[1..], x);
      }
    }
  }

  /** What was set is what is found, also further below it. */
  lemma {:induction false} GetAfterSet(v: Value, p: Path, x: Value, below: Path)
    requires Plain(p) && Settable(v, p)
    ensures Get(Effect(v, p, x).1, p + below) == Get(x, below)
    decreases p
  {
    if p == [] {
      assert p + below == below;
    } else {
      SetIffSettable(v, p, x);
      RoomFor(v, p[0]);
      var r := Room(v, p[0]);
      GetAfterSet(Child(r, p[0]), p[1..], x, below);
      assert (p + below)[0] == p[0] && (p + below)[1..] == p[1..] + below;
      RoomFor(Effect(v, p, x).1, p[0]);
    }
  }

  /** Two paths that part at some component. */
  predicate Diverge(p: Path, q: Path)
    decreases p
  {
    p != [] && q != [] && (p[0] != q[0] || Diverge(p[1..], q[1..]))
  }

  /** A path that diverges finds what it found before; one that found nothing still finds nothing, or a
      NULL that pads an array. */
  lemma {:induction false} DivergingPathKept(v: Value, p: Path, x: Value, q: Path)
    requires Plain(p) && Plain(q) && Settable(v, p) && Diverge(p, q)
    ensures var before, after := Get(v, q), Get(Effect(v, p, x).1, q);
            after == before || (before.Err? && after == Ok(Null))
    decreases p
  {
    RoomFor(v, p[0]);
    SetIffSettable(v, p, x);
    var r, e := Room(v, p[0]), Effect(v, p, x).1;
    if p[0] == q[0] {
      DivergingPathKept(Child(r, p[0]), p[1..], x, q[1..]);
      RoomFor(e, p[0]);
      if !HasChild(v, p[0]) { NullHasNothing(q[1..]); }
    } else {
      SiblingKept(v, p[0], Effect(Child(r, p[0]), p[1..], x).1, q[0]);
      NullHasNothing(q[1..]);
    }
  }

  lemma {:induction false} SiblingKept(v: Value, c: Component, child: Value, d: Component)
    requires PlainComponent(c) && PlainComponent(d) && c != d && HasChild(Room(v, c), c)
    ensures var after := Extract(WithChild(Room(v, c), c, child), d);
            after == Extract(v, d) || (Extract(v, d).Err? && after == Ok(Null))
  {}

  lemma {:induction false} NullHasNothing(q: Path)
    ensures Get(Null, q) == if q == [] then Ok(Null) else Err
  {}

  lemma {:induction false} ChildTwice(v: Value, c: Component, x: Value, y: Value)
    requires HasChild(v, c)
    ensures WithChild(v, c, Child(v, c)) == v && WithChild(WithChild(v, c, x), c, y) == WithChild(v, c, y)
  {
    if c.Key? {
      assert v.entries[c.key := v.entries[c.key]] == v.entries;
      assert v.entries[c.key := x][c.key := y] == v.entries[c.key := y];
    } else {
      assert v.elems[c.i := v.elems[c.i]] == v.elems;
      assert v.elems[c.i := x][c.i := y] == v.elems[c.i := y];
    }
  }

  /** Setting what is there already changes nothing. */
  lemma {:induction false} SetWhatIsThere(v: Value, p: Path, x: Value)
    requires Plain(p) && Get(v, p) == Ok(x)
    ensures Effect(v, p, x) == (Done, v)
    decreases p
  {
    if p != [] {
      RoomFor(v, p[0]);
      SetWhatIsThere(Child(v, p[0]), p[1..], x);
      ChildTwice(v, p[0], Child(v, p[0]), Child(v, p[0]));
    }
  }

  /** The last of two sets on the same path wins. */
  lemma {:induction false} SetTwice(v: Value, p: Path, x: Value, y: Value)
    requires Plain(p) && Settable(v, p)
    ensures Effect(Effect(v, p, x).1, p, y) == Effect(v, p, y)
    decreases p
  {
    if p != [] {
      RoomFor(v, p[0]);
      SetIffSettable(v, p, x);
      var r, e := Room(v, p[0]), Effect(v, p, x).1;
      SetTwice(Child(r, p[0]), p[1..], x, y);
      RoomFor(e, p[0]);
      ChildTwice(r, p[0], Effect(Child(r, p[0]), p[1..], x).1, Effect(Child(r, p[0]), p[1..], y).1);
    }
  }

  ghost function KeysAt(r: Result<Value>): set<string> {
    if r.Ok? && r.value.Map? then r.value.entries.Keys else {}
  }

  ghost function LengthAt(r: Result<Value>): nat {
    if r.Ok? && r.value.Array? then |r.value.elems| else 0
  }

  /** What a set leaves on its way: a map has gained at most the key of the path, and an array has grown just
      enough for the index of the path. */
  lemma {:induction false} SetShape(v: Value, p: Path, x: Value, k: nat)
    requires Plain(p) && Settable(v, p) && k < |p|
    ensures var before, after := Get(v, p[..k]), Get(Effect(v, p, x).1, p[..k]);
            && after.Ok?
            && (p[k].Key? ==> after.value.Map? && KeysAt(after) == KeysAt(before) + {p[k].key})
            && (p[k].Index? ==> after.value.Array? && LengthAt(after) == if LengthAt(before) <= p[k].i then p[k].i + 1 else LengthAt(before))
    decreases p
  {
    RoomFor(v, p[0]);
    SetIffSettable(v, p, x);
    var r, e := Room(v, p[0]), Effect(v, p, x).1;
    if k == 0 {
      assert p[..0] == [];
      RoomShape(v, p[0], Effect(Child(r, p[0]), p[1..], x).1);
    } else {
      SetShape(Child(r, p[0]), p[1..], x, k - 1);
      RoomFor(e, p[0]);
      assert p[..k][0] == p[0] && p[..k][1..] == p[1..][..k - 1];
      if !HasChild(v, p[0]) { NullHasNothing(p[..k][1..]); }
    }
  }

  lemma {:induction false} RoomShape(v: Value, c: Component, x: Value)
    requires PlainComponent(c) && HasChild(Room(v, c), c)
    ensures var after := WithChild(Room(v, c), c, x);
            && (c.Key? ==> after.Map? && KeysAt(Ok(after)) == KeysAt(Ok(v)) + {c.key})
            && (c.Index? ==> after.Array? && LengthAt(Ok(after)) == if LengthAt(Ok(v)) <= c.i then c.i + 1 else LengthAt(Ok(v)))
  {}

  lemma {:induction false} GetSnoc(v: Value, p: Path, c: Component)
    ensures Get(v, p + [c]) == if Get(v, p).Ok? then Extract(Get(v, p).value, c) else Err
    decreases p
  {
    if p == [] {
      assert (p + [c])[1..] == [];
    } else {
      assert (p + [c])[0] == p[0] && (p + [c])[1..] == p[1..] + [c];
      if Extract(v, p[0]).Ok? { GetSnoc(Extract(v, p[0]).value, p[1..], c); }
    }
  }

  /** When reading, a negative index counts from the end. */
  lemma {:induction false} NegativeIndex(v: Value, p: Path, k: int)
    requires Get(v, p).Ok? && Get(v, p).value.Array? && k > 0
    ensures var n := |Get(v, p).value.elems|;
            Get(v, p + [Index(-k)]) == if k <= n then Get(v, p + [Index(n - k)]) else Err
  {
    GetSnoc(v, p, Index(-k));
    GetSnoc(v, p, Index(|Get(v, p).value.elems| - k));
  }

  // ---- paths that cannot be set ------------------------------------------------------------

  /** The part of a path in front of the first component that cannot be set through. */
  function PlainPart(p: Path): (r: Path)
    ensures Plain(r) && r <= p && (|r| < |p| ==> !PlainComponent(p[|r|]))
    decreases p
  {
    if p != [] && PlainComponent(p[0]) then [p[0]] + PlainPart(p[1..]) else []
  }

  /** Such a set never succeeds. It leaves the value unchanged exactly if it already fails in front of
      the obstacle, or if everything in front of the obstacle exists and is not replaced: slices,
      recursive components and negative indices fail only after the way to them has been created. */
  lemma {:induction false} ObstructedSet(v: Value, p: Path, x: Value)
    requires !Plain(p)
    ensures |PlainPart(p)| < |p| && Effect(v, p, x).0 != Done
    ensures var pre := PlainPart(p);
            Effect(v, p, x).1 == v <==>
              || !Settable(v, pre)
              || (Get(v, pre).Ok? && !(p[|pre|] == Index(-1) && Get(v, pre).value.Null?))
    decreases p
  {
    var pre := PlainPart(p);
    if PlainComponent(p[0]) {
      assert !Plain(p[1..]) by { assert p == [p[0]] + p[1..]; }
      assert pre[1..] == PlainPart(p[1..]) && pre[0] == p[0] && p[|pre|] == p[1..][|pre| - 1];
      RoomFor(v, p[0]);
      var r := Room(v, p[0]);
      if HasChild(r, p[0]) {
        ObstructedSet(Child(r, p[0]), p[1..], x);
        ChildTwice(r, p[0], Child(r, p[0]), Child(r, p[0]));
      }
    }
  }

  /** Such a set panics exactly if it reaches a negative index with NULL, something missing or an array in
      hand; otherwise it fails. */
  lemma {:induction false} ObstructedStatus(v: Value, p: Path, x: Value)
    requires !Plain(p)
    ensures |PlainPart(p)| < |p|
    ensures var pre := PlainPart(p);
            Effect(v, p, x).0 == Panicked <==>
              Settable(v, pre) && p[|pre|].Index? && match Get(v, pre) case Err => true case Ok(w) => w.Null? || w.Array?
    decreases p
  {
    var pre := PlainPart(p);
    if PlainComponent(p[0]) {
      assert !Plain(p[1..]) by { assert p == [p[0]] + p[1..]; }
      assert pre[1..] == PlainPart(p[1..]) && pre[0] == p[0] && p[|pre|] == p[1..][|pre| - 1];
      RoomFor(v, p[0]);
      var r := Room(v, p[0]);
      if HasChild(r, p[0]) {
        ObstructedStatus(Child(r, p[0]), p[1..], x);
        if !HasChild(v, p[0]) { NullHasNothing(pre[1..]); }
      }
    }
  }

  /** A set that fails and yet changes the map: the key in front of a slice is created. */
  lemma {:induction false} FailedSetChangesMap(x: Value)
    ensures Effect(Map(map[]), [Key("a"), Slice], x) == (Failed, Map(map["a" := Null]))
  {
    var p := [Key("a"), Slice];
    assert p[1..] == [Slice];
    assert Effect(Null, [Slice], x) == (Failed, Null);
    var e: map<string, Value> := map[];
    var r := Room(Map(e), Key("a"));
    assert e["a" := Null] == map["a" := Null] && r == Map(map["a" := Null]);
    ChildTwice(r, Key("a"), Null, Null);
  }
}
