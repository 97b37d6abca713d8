/** The dynamically typed `Value` of src/value.rs and the two relations it
    defines by hand: `PartialEq` and `Ord`.

    Floats are kept as their bit patterns (`to_bits`), which is all the
    source ever compares them by. The two `BTreeMap`s are kept as sequences
    of entries in iteration order: ascending keys under `Cmp` for `Map`,
    ascending tags for `Object`. `Insert` and `Get` are the map operations
    the visitor and the round trip need. */
module Values {
  import opened Errors
  import opened BigEndian
  import opened Utf8

  datatype Value =
    | Zero
    | Int(i: Int64)
    | Float(f: Uint32)
    | Double(d: Uint64)
    | String(s: seq<Byte>)
    | Bytes(b: seq<Byte>)
    | List(items: seq<Value>)
    | Map(entries: seq<Pair>)
    | Object(fields: seq<Slot>)

  /** An entry of `Map<Value, Value>`. */
  datatype Pair = Pair(key: Value, value: Value)

  /** An entry of `Map<u8, Value>`. */
  datatype Slot = Slot(tag: Byte, value: Value)

  datatype Ordering = Less | Equal | Greater

  function Flip(o: Ordering): Ordering
  {
    match o
    case Less => Greater
    case Equal => Equal
    case Greater => Less
  }

  // -------------------------------------------------------------- PartialEq

  /** `eq`: the same variant and equal payloads, floats by their bits, the
      collections element by element (a `Vec` or `BTreeMap` is equal to
      another of the same length whose entries are pairwise equal). */
  predicate Eq(a: Value, b: Value)
    decreases a
  {
    match a
    case Zero => b.Zero?
    case Int(x) => b.Int? && x == b.i
    case Float(x) => b.Float? && x == b.f
    case Double(x) => b.Double? && x == b.d
    case String(x) => b.String? && x == b.s
    case Bytes(x) => b.Bytes? && x == b.b
    case List(xs) => b.List? && EqItems(xs, b.items)
    case Map(ps) => b.Map? && EqPairs(ps, b.entries)
    case Object(fs) => b.Object? && EqSlots(fs, b.fields)
  }

  predicate EqItems(xs: seq<Value>, ys: seq<Value>)
    decreases xs
  {
    |xs| == |ys| && forall i :: 0 <= i < |xs| ==> Eq(xs[i], ys[i])
  }

  predicate EqPair(p: Pair, q: Pair)
    decreases p
  {
    Eq(p.key, q.key) && Eq(p.value, q.value)
  }

  predicate EqPairs(ps: seq<Pair>, qs: seq<Pair>)
    decreases ps
  {
    |ps| == |qs| && forall i :: 0 <= i < |ps| ==> EqPair(ps[i], qs[i])
  }

  predicate EqSlot(f: Slot, g: Slot)
    decreases f
  {
    f.tag == g.tag && Eq(f.value, g.value)
  }

  predicate EqSlots(fs: seq<Slot>, gs: seq<Slot>)
    decreases fs
  {
    |fs| == |gs| && forall i :: 0 <= i < |fs| ==> EqSlot(fs[i], gs[i])
  }

  /** `PartialEq` is structural equality, which is what makes the
      `impl Eq for Value` sound. */
  lemma {:induction false} EqIsEquality(a: Value, b: Value)
    ensures Eq(a, b) <==> a == b
    decreases a
  {
    match a
    case List(xs) => if b.List? { EqItemsIsEquality(xs, b.items); }
    case Map(ps) => if b.Map? { EqPairsIsEquality(ps, b.entries); }
    case Object(fs) => if b.Object? { EqSlotsIsEquality(fs, b.fields); }
    case _ =>
  }

  lemma {:induction false} EqItemsIsEquality(xs: seq<Value>, ys: seq<Value>)
    ensures EqItems(xs, ys) <==> xs == ys
    decreases xs
  {
    if |xs| == |ys| {
      forall i | 0 <= i < |xs| ensures Eq(xs[i], ys[i]) <==> xs[i] == ys[i] {
        EqIsEquality(xs[i], ys[i]);
      }
    }
  }

  lemma {:induction false} EqPairIsEquality(p: Pair, q: Pair)
    ensures EqPair(p, q) <==> p == q
    decreases p
  {
    EqIsEquality(p.key, q.key);
    EqIsEquality(p.value, q.value);
  }

  lemma {:induction false} EqPairsIsEquality(ps: seq<Pair>, qs: seq<Pair>)
    ensures EqPairs(ps, qs) <==> ps == qs
    decreases ps
  {
    if |ps| == |qs| {
      forall i | 0 <= i < |ps| ensures EqPair(ps[i], qs[i]) <==> ps[i] == qs[i] {
        EqPairIsEquality(ps[i], qs[i]);
      }
    }
  }

  lemma {:induction false} EqSlotsIsEquality(fs: seq<Slot>, gs: seq<Slot>)
    ensures EqSlots(fs, gs) <==> fs == gs
    decreases fs
  {
    if |fs| == |gs| {
      forall i | 0 <= i < |fs| ensures EqSlot(fs[i], gs[i]) <==> fs[i] == gs[i] {
        EqSlotIsEquality(fs[i], gs[i]);
      }
    }
  }

  lemma {:induction false} EqSlotIsEquality(f: Slot, g: Slot)
    ensures EqSlot(f, g) <==> f == g
    decreases f
  {
    EqIsEquality(f.value, g.value);
  }

  // -------------------------------------------------------------------- Ord

  /** The order of the variants in `cmp`: a value of an earlier variant is
      less than one of a later variant. */
  function Rank(v: Value): (r: nat)
    ensures r < 9
  {
    match v
    case Zero => 0
    case Int(_) => 1
    case Float(_) => 2
    case Double(_) => 3
    case String(_) => 4
    case Bytes(_) => 5
    case List(_) => 6
    case Map(_) => 7
    case Object(_) => 8
  }

  /** `Ord::cmp` on integers (and on the `u32` / `u64` float bits). */
  function CmpInt(x: int, y: int): Ordering
  {
    if x < y then Less else if x == y then Equal else Greater
  }

  /** `Ord::cmp` on byte strings (`String` and `Vec<u8>`): lexicographic,
      a proper prefix first. */
  function CmpBytes(x: seq<Byte>, y: seq<Byte>): Ordering
    decreases |x|
  {
    if x == [] then (if y == [] then Equal else Less)
    else if y == [] then Greater
    else if x[0] != y[0] then CmpInt(x[0], y[0])
    else CmpBytes(x[1..], y[1..])
  }

  /** `cmp`: values of different variants by `Rank`; within a variant,
      integers by value, floats by their bits, strings and byte strings
      lexicographically, lists element by element, and both maps entry by
      entry in iteration order, an entry being the tuple (key, value). */
  function Cmp(a: Value, b: Value): Ordering
    decreases a
  {
    if Rank(a) != Rank(b) then CmpInt(Rank(a), Rank(b))
    else
      match a
      case Zero => Equal
      case Int(x) => CmpInt(x, b.i)
      case Float(x) => CmpInt(x, b.f)
      case Double(x) => CmpInt(x, b.d)
      case String(x) => CmpBytes(x, b.s)
      case Bytes(x) => CmpBytes(x, b.b)
      case List(xs) => CmpItems(xs, b.items)
      case Map(ps) => CmpPairs(ps, b.entries)
      case Object(fs) => CmpSlots(fs, b.fields)
  }

  function CmpItems(xs: seq<Value>, ys: seq<Value>): Ordering
    decreases xs
  {
    if xs == [] then (if ys == [] then Equal else Less)
    else if ys == [] then Greater
    else
      var c := Cmp(xs[0], ys[0]);
      if c != Equal then c else CmpItems(xs[1..], ys[1..])
  }

  function CmpPair(p: Pair, q: Pair): Ordering
    decreases p
  {
    var c := Cmp(p.key, q.key);
    if c != Equal then c else Cmp(p.value, q.value)
  }

  function CmpPairs(ps: seq<Pair>, qs: seq<Pair>): Ordering
    decreases ps
  {
    if ps == [] then (if qs == [] then Equal else Less)
    else if qs == [] then Greater
    else
      var c := CmpPair(ps[0], qs[0]);
      if c != Equal then c else CmpPairs(ps[1..], qs[1..])
  }

  function CmpSlot(f: Slot, g: Slot): Ordering
    decreases f
  {
    var c := CmpInt(f.tag, g.tag);
    if c != Equal then c else Cmp(f.value, g.value)
  }

  function CmpSlots(fs: seq<Slot>, gs: seq<Slot>): Ordering
    decreases fs
  {
    if fs == [] then (if gs == [] then Equal else Less)
    else if gs == [] then Greater
    else
      var c := CmpSlot(fs[0], gs[0]);
      if c != Equal then c else CmpSlots(fs[1..], gs[1..])
  }

  // ------------------------------------------------ Ord agrees with PartialEq

  lemma {:induction false} CmpBytesEqual(x: seq<Byte>, y: seq<Byte>)
    ensures CmpBytes(x, y) == Equal <==> x == y
    decreases |x|
  {
    if x != [] && y != [] && x[0] == y[0] {
      CmpBytesEqual(x[1..], y[1..]);
      assert x == [x[0]] + x[1..] && y == [y[0]] + y[1..];
    }
  }

  /** `cmp` says Equal exactly for equal values, so `Ord` is consistent
      with `PartialEq`. */
  lemma {:induction false} CmpEqual(a: Value, b: Value)
    ensures Cmp(a, b) == Equal <==> a == b
    decreases a
  {
    if Rank(a) == Rank(b) {
      match a
      case String(x) => CmpBytesEqual(x, b.s);
      case Bytes(x) => CmpBytesEqual(x, b.b);
      case List(xs) => CmpItemsEqual(xs, b.items);
      case Map(ps) => CmpPairsEqual(ps, b.entries);
      case Object(fs) => CmpSlotsEqual(fs, b.fields);
      case _ =>
    }
  }

  lemma {:induction false} CmpItemsEqual(xs: seq<Value>, ys: seq<Value>)
    ensures CmpItems(xs, ys) == Equal <==> xs == ys
    decreases xs
  {
    if xs != [] && ys != [] {
      CmpEqual(xs[0], ys[0]);
      CmpItemsEqual(xs[1..], ys[1..]);
      assert xs == [xs[0]] + xs[1..] && ys == [ys[0]] + ys[1..];
    }
  }

  lemma {:induction false} CmpPairEqual(p: Pair, q: Pair)
    ensures CmpPair(p, q) == Equal <==> p == q
    decreases p
  {
    CmpEqual(p.key, q.key);
    CmpEqual(p.value, q.value);
  }

  lemma {:induction false} CmpPairsEqual(ps: seq<Pair>, qs: seq<Pair>)
    ensures CmpPairs(ps, qs) == Equal <==> ps == qs
    decreases ps
  {
    if ps != [] && qs != [] {
      CmpPairEqual(ps[0], qs[0]);
      CmpPairsEqual(ps[1..], qs[1..]);
      assert ps == [ps[0]] + ps[1..] && qs == [qs[0]] + qs[1..];
    }
  }

  lemma {:induction false} CmpSlotEqual(f: Slot, g: Slot)
    ensures CmpSlot(f, g) == Equal <==> f == g
    decreases f
  {
    CmpEqual(f.value, g.value);
  }

  lemma {:induction false} CmpSlotsEqual(fs: seq<Slot>, gs: seq<Slot>)
    ensures CmpSlots(fs, gs) == Equal <==> fs == gs
    decreases fs
  {
    if fs != [] && gs != [] {
      CmpSlotEqual(fs[0], gs[0]);
      CmpSlotsEqual(fs[1..], gs[1..]);
      assert fs == [fs[0]] + fs[1..] && gs == [gs[0]] + gs[1..];
    }
  }

  // ------------------------------------------------------------ antisymmetry

  lemma {:induction false} CmpBytesFlip(x: seq<Byte>, y: seq<Byte>)
    ensures CmpBytes(y, x) == Flip(CmpBytes(x, y))
    decreases |x|
  {
    if x != [] && y != [] && x[0] == y[0] {
      CmpBytesFlip(x[1..], y[1..]);
    }
  }

  /** Swapping the operands of `cmp` reverses the answer. */
  lemma {:induction false} CmpFlip(a: Value, b: Value)
    ensures Cmp(b, a) == Flip(Cmp(a, b))
    decreases a
  {
    if Rank(a) == Rank(b) {
      match a
      case String(x) => CmpBytesFlip(x, b.s);
      case Bytes(x) => CmpBytesFlip(x, b.b);
      case List(xs) => CmpItemsFlip(xs, b.items);
      case Map(ps) => CmpPairsFlip(ps, b.entries);
      case Object(fs) => CmpSlotsFlip(fs, b.fields);
      case _ =>
    }
  }

  lemma {:induction false} CmpItemsFlip(xs: seq<Value>, ys: seq<Value>)
    ensures CmpItems(ys, xs) == Flip(CmpItems(xs, ys))
    decreases xs
  {
    if xs != [] && ys != [] {
      CmpFlip(xs[0], ys[0]);
      CmpItemsFlip(xs[1..], ys[1..]);
    }
  }

  lemma {:induction false} CmpPairFlip(p: Pair, q: Pair)
    ensures CmpPair(q, p) == Flip(CmpPair(p, q))
    decreases p
  {
    CmpFlip(p.key, q.key);
    CmpFlip(p.value, q.value);
  }

  lemma {:induction false} CmpPairsFlip(ps: seq<Pair>, qs: seq<Pair>)
    ensures CmpPairs(qs, ps) == Flip(CmpPairs(ps, qs))
    decreases ps
  {
    if ps != [] && qs != [] {
      CmpPairFlip(ps[0], qs[0]);
      CmpPairsFlip(ps[1..], qs[1..]);
    }
  }

  lemma {:induction false} CmpSlotFlip(f: Slot, g: Slot)
    ensures CmpSlot(g, f) == Flip(CmpSlot(f, g))
    decreases f
  {
    CmpFlip(f.value, g.value);
  }

  lemma {:induction false} CmpSlotsFlip(fs: seq<Slot>, gs: seq<Slot>)
    ensures CmpSlots(gs, fs) == Flip(CmpSlots(fs, gs))
    decreases fs
  {
    if fs != [] && gs != [] {
      CmpSlotFlip(fs[0], gs[0]);
      CmpSlotsFlip(fs[1..], gs[1..]);
    }
  }

  // ------------------------------------------------------------ transitivity

  lemma {:induction false} CmpBytesTrans(x: seq<Byte>, y: seq<Byte>, z: seq<Byte>)
    requires CmpBytes(x, y) == Less && CmpBytes(y, z) == Less
    ensures CmpBytes(x, z) == Less
    decreases |x|
  {
    if x != [] && x[0] == y[0] && y[0] == z[0] {
      CmpBytesTrans(x[1..], y[1..], z[1..]);
    }
  }

  /** `cmp` is transitive, so `Less` is a strict order and the keys of a
      `BTreeMap` can be kept ascending. */
  lemma {:induction false} CmpTrans(a: Value, b: Value, c: Value)
    requires Cmp(a, b) == Less && Cmp(b, c) == Less
    ensures Cmp(a, c) == Less
    decreases a
  {
    if Rank(a) == Rank(b) == Rank(c) {
      match a
      case String(x) => CmpBytesTrans(x, b.s, c.s);
      case Bytes(x) => CmpBytesTrans(x, b.b, c.b);
      case List(xs) => CmpItemsTrans(xs, b.items, c.items);
      case Map(ps) => CmpPairsTrans(ps, b.entries, c.entries);
      case Object(fs) => CmpSlotsTrans(fs, b.fields, c.fields);
      case _ =>
    }
  }

  lemma {:induction false} CmpItemsTrans(xs: seq<Value>, ys: seq<Value>, zs: seq<Value>)
    requires CmpItems(xs, ys) == Less && CmpItems(ys, zs) == Less
    ensures CmpItems(xs, zs) == Less
    decreases xs
  {
    if xs != [] {
      CmpEqual(xs[0], ys[0]);
      CmpEqual(ys[0], zs[0]);
      if Cmp(xs[0], ys[0]) == Less && Cmp(ys[0], zs[0]) == Less {
        CmpTrans(xs[0], ys[0], zs[0]);
      } else if Cmp(xs[0], ys[0]) == Equal && Cmp(ys[0], zs[0]) == Equal {
        CmpItemsTrans(xs[1..], ys[1..], zs[1..]);
      }
    }
  }

  lemma {:induction false} CmpPairTrans(p: Pair, q: Pair, r: Pair)
    requires CmpPair(p, q) == Less && CmpPair(q, r) == Less
    ensures CmpPair(p, r) == Less
    decreases p
  {
    CmpEqual(p.key, q.key);
    CmpEqual(q.key, r.key);
    if Cmp(p.key, q.key) == Less && Cmp(q.key, r.key) == Less {
      CmpTrans(p.key, q.key, r.key);
    } else if Cmp(p.key, q.key) == Equal && Cmp(q.key, r.key) == Equal {
      CmpTrans(p.value, q.value, r.value);
    }
  }

  lemma {:induction false} CmpPairsTrans(ps: seq<Pair>, qs: seq<Pair>, rs: seq<Pair>)
    requires CmpPairs(ps, qs) == Less && CmpPairs(qs, rs) == Less
    ensures CmpPairs(ps, rs) == Less
    decreases ps
  {
    if ps != [] {
      CmpPairEqual(ps[0], qs[0]);
      CmpPairEqual(qs[0], rs[0]);
      if CmpPair(ps[0], qs[0]) == Less && CmpPair(qs[0], rs[0]) == Less {
        CmpPairTrans(ps[0], qs[0], rs[0]);
      } else if CmpPair(ps[0], qs[0]) == Equal && CmpPair(qs[0], rs[0]) == Equal {
        CmpPairsTrans(ps[1..], qs[1..], rs[1..]);
      }
    }
  }

  lemma {:induction false} CmpSlotTrans(f: Slot, g: Slot, h: Slot)
    requires CmpSlot(f, g) == Less && CmpSlot(g, h) == Less
    ensures CmpSlot(f, h) == Less
    decreases f
  {
    if f.tag == g.tag == h.tag {
      CmpTrans(f.value, g.value, h.value);
    }
  }

  lemma {:induction false} CmpSlotsTrans(fs: seq<Slot>, gs: seq<Slot>, hs: seq<Slot>)
    requires CmpSlots(fs, gs) == Less && CmpSlots(gs, hs) == Less
    ensures CmpSlots(fs, hs) == Less
    decreases fs
  {
    if fs != [] {
      CmpSlotEqual(fs[0], gs[0]);
      CmpSlotEqual(gs[0], hs[0]);
      if CmpSlot(fs[0], gs[0]) == Less && CmpSlot(gs[0], hs[0]) == Less {
        CmpSlotTrans(fs[0], gs[0], hs[0]);
      } else if CmpSlot(fs[0], gs[0]) == Equal && CmpSlot(gs[0], hs[0]) == Equal {
        CmpSlotsTrans(fs[1..], gs[1..], hs[1..]);
      }
    }
  }

  // ------------------------------------------------------------- the maps

  /** The iteration order of a `Map<Value, Value>`: keys strictly ascending. */
  predicate KeysAscending(ps: seq<Pair>)
  {
    forall i, j :: 0 <= i < j < |ps| ==> Cmp(ps[i].key, ps[j].key) == Less
  }

  /** The iteration order of a `Map<u8, Value>`: tags strictly ascending. */
  predicate TagsAscending(fs: seq<Slot>)
  {
    forall i, j :: 0 <= i < j < |fs| ==> fs[i].tag < fs[j].tag
  }

  /** `get`: the value stored under `k`. */
  function Get(ps: seq<Pair>, k: Value): (r: Option<Value>)
    ensures r.Some? <==> exists i :: 0 <= i < |ps| && ps[i].key == k
  {
    if ps == [] then None
    else if ps[0].key == k then Some(ps[0].value)
    else
      var r := Get(ps[1..], k);
      assert forall i :: 1 <= i < |ps| ==> ps[i] == ps[1..][i - 1];
      r
  }

  /** `insert`: a new key goes in its place in the order; an existing key
      keeps its place and gets the new value. */
  function Insert(ps: seq<Pair>, k: Value, v: Value): (r: seq<Pair>)
    ensures |ps| <= |r| <= |ps| + 1
    decreases |ps|
  {
    if ps == [] then [Pair(k, v)]
    else
      match Cmp(k, ps[0].key)
      case Less => [Pair(k, v)] + ps
      case Equal => [Pair(ps[0].key, v)] + ps[1..]
      case Greater => [ps[0]] + Insert(ps[1..], k, v)
  }

  /** After `insert(k, v)`, `k` maps to `v` and every other key to what it
      mapped to before: a repeated key keeps only the later value. */
  lemma {:induction false} InsertGet(ps: seq<Pair>, k: Value, v: Value, x: Value)
    ensures Get(Insert(ps, k, v), x) == if x == k then Some(v) else Get(ps, x)
    decreases |ps|
  {
    if ps != [] {
      CmpEqual(k, ps[0].key);
      if Cmp(k, ps[0].key) == Greater {
        InsertGet(ps[1..], k, v, x);
      }
    }
  }

  /** Every key of `Insert(ps, k, v)` is `k` or a key of `ps`. */
  lemma {:induction false} InsertKeys(ps: seq<Pair>, k: Value, v: Value, b: Value)
    requires Cmp(b, k) == Less
    requires forall i :: 0 <= i < |ps| ==> Cmp(b, ps[i].key) == Less
    ensures forall i :: 0 <= i < |Insert(ps, k, v)| ==> Cmp(b, Insert(ps, k, v)[i].key) == Less
    decreases |ps|
  {
    if ps != [] && Cmp(k, ps[0].key) == Greater {
      InsertKeys(ps[1..], k, v, b);
      var r := Insert(ps, k, v);
      assert r == [ps[0]] + Insert(ps[1..], k, v);
      forall i | 0 <= i < |r| ensures Cmp(b, r[i].key) == Less {
        if i > 0 {
          assert r[i] == Insert(ps[1..], k, v)[i - 1];
        }
      }
    }
  }

  /** `insert` keeps the keys ascending. */
  lemma {:induction false} InsertAscending(ps: seq<Pair>, k: Value, v: Value)
    requires KeysAscending(ps)
    ensures KeysAscending(Insert(ps, k, v))
    decreases |ps|
  {
    if ps != [] {
      var r := Insert(ps, k, v);
      match Cmp(k, ps[0].key)
      case Less =>
        forall i, j | 0 <= i < j < |r| ensures Cmp(r[i].key, r[j].key) == Less {
          if i == 0 && j > 1 {
            CmpTrans(k, ps[0].key, ps[j - 1].key);
          }
        }
      case Equal =>
        CmpEqual(k, ps[0].key);
      case Greater =>
        var tail := ps[1..];
        InsertAscending(tail, k, v);
        CmpFlip(k, ps[0].key);
        InsertKeys(tail, k, v, ps[0].key);
        assert r == [ps[0]] + Insert(tail, k, v);
        forall i, j | 0 <= i < j < |r| ensures Cmp(r[i].key, r[j].key) == Less {
          if i > 0 {
            assert r[i] == Insert(tail, k, v)[i - 1] && r[j] == Insert(tail, k, v)[j - 1];
          } else {
            assert r[j] == Insert(tail, k, v)[j - 1];
          }
        }
    }
  }

  /** Inserting a key above every present key appends it: a map rebuilt
      from its own entries in iteration order is that map again. */
  lemma {:induction false} InsertLast(ps: seq<Pair>, k: Value, v: Value)
    requires forall i :: 0 <= i < |ps| ==> Cmp(ps[i].key, k) == Less
    ensures Insert(ps, k, v) == ps + [Pair(k, v)]
    decreases |ps|
  {
    if ps != [] {
      CmpFlip(ps[0].key, k);
      InsertLast(ps[1..], k, v);
      assert ps == [ps[0]] + ps[1..];
    }
  }

  /** `get` on a `Map<u8, Value>`. */
  function GetSlot(fs: seq<Slot>, t: Byte): (r: Option<Value>)
    ensures r.Some? <==> exists i :: 0 <= i < |fs| && fs[i].tag == t
  {
    if fs == [] then None
    else if fs[0].tag == t then Some(fs[0].value)
    else
      var r := GetSlot(fs[1..], t);
      assert forall i :: 1 <= i < |fs| ==> fs[i] == fs[1..][i - 1];
      r
  }

  /** `insert` on a `Map<u8, Value>`. */
  function InsertSlot(fs: seq<Slot>, t: Byte, v: Value): (r: seq<Slot>)
    ensures |fs| <= |r| <= |fs| + 1
    decreases |fs|
  {
    if fs == [] then [Slot(t, v)]
    else if t < fs[0].tag then [Slot(t, v)] + fs
    else if t == fs[0].tag then [Slot(t, v)] + fs[1..]
    else [fs[0]] + InsertSlot(fs[1..], t, v)
  }

  lemma {:induction false} InsertSlotGet(fs: seq<Slot>, t: Byte, v: Value, x: Byte)
    ensures GetSlot(InsertSlot(fs, t, v), x) == if x == t then Some(v) else GetSlot(fs, x)
    decreases |fs|
  {
    if fs != [] && t > fs[0].tag {
      InsertSlotGet(fs[1..], t, v, x);
    }
  }

  lemma {:induction false} InsertSlotAscending(fs: seq<Slot>, t: Byte, v: Value)
    requires TagsAscending(fs)
    ensures TagsAscending(InsertSlot(fs, t, v))
    decreases |fs|
  {
    if fs != [] && t > fs[0].tag {
      InsertSlotAscending(fs[1..], t, v);
      InsertSlotAbove(fs[1..], t, v, fs[0].tag);
      assert InsertSlot(fs, t, v) == [fs[0]] + InsertSlot(fs[1..], t, v);
    }
  }

  /** Inserting a tag above a bound keeps every tag above it. */
  lemma {:induction false} InsertSlotAbove(fs: seq<Slot>, t: Byte, v: Value, b: int)
    requires b < t && forall i :: 0 <= i < |fs| ==> b < fs[i].tag
    ensures forall i :: 0 <= i < |InsertSlot(fs, t, v)| ==> b < InsertSlot(fs, t, v)[i].tag
    decreases |fs|
  {
    if fs != [] && t > fs[0].tag {
      InsertSlotAbove(fs[1..], t, v, b);
      assert InsertSlot(fs, t, v) == [fs[0]] + InsertSlot(fs[1..], t, v);
    }
  }

  lemma {:induction false} InsertSlotLast(fs: seq<Slot>, t: Byte, v: Value)
    requires forall i :: 0 <= i < |fs| ==> fs[i].tag < t
    ensures InsertSlot(fs, t, v) == fs + [Slot(t, v)]
    decreases |fs|
  {
    if fs != [] {
      InsertSlotLast(fs[1..], t, v);
      assert fs == [fs[0]] + fs[1..];
    }
  }

  // ------------------------------------------------------- well-formedness

  /** What the Rust types guarantee of a `Value`: strings are UTF-8 and both
      maps iterate in ascending key order, all the way down. */
  predicate Valid(v: Value)
    decreases v
  {
    match v
    case String(x) => ValidUtf8(x)
    case List(xs) => ValidItems(xs)
    case Map(ps) => KeysAscending(ps) && ValidPairs(ps)
    case Object(fs) => TagsAscending(fs) && ValidSlots(fs)
    case _ => true
  }

  predicate ValidItems(xs: seq<Value>)
    decreases xs
  {
    forall i :: 0 <= i < |xs| ==> Valid(xs[i])
  }

  predicate ValidPair(p: Pair)
    decreases p
  {
    Valid(p.key) && Valid(p.value)
  }

  predicate ValidPairs(ps: seq<Pair>)
    decreases ps
  {
    forall i :: 0 <= i < |ps| ==> ValidPair(ps[i])
  }

  predicate ValidSlots(fs: seq<Slot>)
    decreases fs
  {
    forall i :: 0 <= i < |fs| ==> ValidSlot(fs[i])
  }

  predicate ValidSlot(f: Slot)
    decreases f
  {
    Valid(f.value)
  }
}
