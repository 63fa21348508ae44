/**
 * The archive format: what the save operators write, what the load operators read back,
 * and the size calculator that `build` trusts to allocate its buffer.
 *
 * A type is a value of `Ty`. Structs with a `serializable` member are chains of `Field`
 * closed by `Unit`. An `Obj` is a C++ object, including the order in which each of its hash
 * maps happens to iterate; a `Val` is what `==` can see of it.
 */
module Serializer {
  import opened Base

  datatype Ty =
    | Prim(size: nat)
    | Unit
    | Field(head: Ty, tail: Ty)
    | Array(len: nat, elem: Ty)
    | Vec(elem: Ty)
    | Dict(elem: Ty)

  datatype Obj =
    | OPrim(bytes: seq<byte>)
    | OUnit
    | OField(head: Obj, tail: Obj)
    | OSeq(items: seq<Obj>)
    | ODict(entries: seq<Obj>)

  datatype Val =
    | VPrim(bytes: seq<byte>)
    | VUnit
    | VField(head: Val, tail: Val)
    | VSeq(items: seq<Val>)
    | VDict(m: map<Val, Val>)

  const SIZE_T: nat := 8

  /** Map entries are key-value pairs at every level of the type. */
  predicate WellFormed(ty: Ty) {
    match ty
    case Prim(_) => true
    case Unit => true
    case Field(h, t) => WellFormed(h) && WellFormed(t)
    case Array(_, e) => WellFormed(e)
    case Vec(e) => WellFormed(e)
    case Dict(e) => e.Field? && WellFormed(e)
  }

  /** The objects of a type: hash maps hold distinct keys, and every length fits a size_t. */
  ghost predicate IsObj(ty: Ty, o: Obj)
    decreases ty, 0
  {
    match ty
    case Prim(n) => o.OPrim? && |o.bytes| == n
    case Unit => o.OUnit?
    case Field(h, t) => o.OField? && IsObj(h, o.head) && IsObj(t, o.tail)
    case Array(n, e) => o.OSeq? && |o.items| == n && AllObj(e, o.items)
    case Vec(e) => o.OSeq? && |o.items| < Pow256(SIZE_T) && AllObj(e, o.items)
    case Dict(e) =>
      && o.ODict? && |o.entries| < Pow256(SIZE_T) && AllObj(e, o.entries)
      && DistinctKeys(AbsAll(e, o.entries))
  }

  ghost predicate AllObj(ty: Ty, items: seq<Obj>)
    decreases ty, 1
  {
    forall i :: 0 <= i < |items| ==> IsObj(ty, items[i])
  }

  predicate DistinctKeys(entries: seq<Val>) {
    forall i, j :: 0 <= i < j < |entries| ==>
      !(entries[i].VField? && entries[j].VField? && entries[i].head == entries[j].head)
  }

  /** The value an object holds, forgetting iteration orders. */
  function Abs(ty: Ty, o: Obj): Val
    decreases ty, 0
  {
    match ty
    case Prim(_) => if o.OPrim? then VPrim(o.bytes) else VUnit
    case Unit => VUnit
    case Field(h, t) => if o.OField? then VField(Abs(h, o.head), Abs(t, o.tail)) else VUnit
    case Array(_, e) => if o.OSeq? then VSeq(AbsAll(e, o.items)) else VUnit
    case Vec(e) => if o.OSeq? then VSeq(AbsAll(e, o.items)) else VUnit
    case Dict(e) => if o.ODict? then VDict(Inserted(map[], AbsAll(e, o.entries))) else VUnit
  }

  function AbsAll(ty: Ty, items: seq<Obj>): (vs: seq<Val>)
    ensures |vs| == |items|
    ensures forall i :: 0 <= i < |items| ==> vs[i] == Abs(ty, items[i])
    decreases ty, 1 + |items|
  {
    if items == [] then [] else [Abs(ty, items[0])] + AbsAll(ty, items[1..])
  }

  /** `map[k] = v` for each entry in turn. */
  function Inserted(m: map<Val, Val>, entries: seq<Val>): map<Val, Val>
    decreases entries
  {
    if entries == [] then m
    else if entries[0].VField? then Inserted(m[entries[0].head := entries[0].tail], entries[1..])
    else Inserted(m, entries[1..])
  }

  // ----- saving -----

  function Encode(ty: Ty, o: Obj): seq<byte>
    decreases ty, 0
  {
    match ty
    case Prim(_) => if o.OPrim? then o.bytes else []
    case Unit => []
    case Field(h, t) => if o.OField? then Encode(h, o.head) + Encode(t, o.tail) else []
    case Array(_, e) => if o.OSeq? then EncodeAll(e, o.items) else []
    case Vec(e) => if o.OSeq? then LittleEndian(|o.items|, SIZE_T) + EncodeAll(e, o.items) else []
    case Dict(e) => if o.ODict? then LittleEndian(|o.entries|, SIZE_T) + EncodeAll(e, o.entries) else []
  }

  function EncodeAll(ty: Ty, items: seq<Obj>): seq<byte>
    decreases ty, 1 + |items|
  {
    if items == [] then [] else Encode(ty, items[0]) + EncodeAll(ty, items[1..])
  }

  // ----- loading -----

  /** The values of a type, as loaded objects compare. */
  ghost predicate HasType(ty: Ty, v: Val) {
    match ty
    case Prim(n) => v.VPrim? && |v.bytes| == n
    case Unit => v.VUnit?
    case Field(h, t) => v.VField? && HasType(h, v.head) && HasType(t, v.tail)
    case Array(n, e) => v.VSeq? && |v.items| == n && forall i :: 0 <= i < n ==> HasType(e, v.items[i])
    case Vec(e) => v.VSeq? && forall i :: 0 <= i < |v.items| ==> HasType(e, v.items[i])
    case Dict(e) => v.VDict? && e.Field? && forall k :: k in v.m ==> HasType(e.head, k) && HasType(e.tail, v.m[k])
  }

  /** A freshly constructed object. */
  function Default(ty: Ty): Val {
    match ty
    case Prim(n) => VPrim(seq(n, _ => 0))
    case Unit => VUnit
    case Field(h, t) => VField(Default(h), Default(t))
    case Array(n, e) => VSeq(seq(n, _ => Default(e)))
    case Vec(_) => VSeq([])
    case Dict(_) => VDict(map[])
  }

  function Resize(ty: Ty, items: seq<Val>, n: nat): (r: seq<Val>)
    ensures |r| == n
  {
    if n <= |items| then items[..n] else items + seq(n - |items|, _ => Default(ty))
  }

  /** `ar >> obj`: reads into an object that already holds `cur`; None is the overflow exception. */
  function LoadInto(ty: Ty, cur: Val, b: seq<byte>): Option<(Val, seq<byte>)>
    decreases ty, 0, 0
  {
    match ty
    case Prim(n) => if n > |b| then None else Some((VPrim(b[..n]), b[n..]))
    case Unit => Some((VUnit, b))
    case Field(h, t) =>
      if !cur.VField? then None else
      (match LoadInto(h, cur.head, b)
       case None => None
       case Some((vh, b1)) =>
         match LoadInto(t, cur.tail, b1)
         case None => None
         case Some((vt, b2)) => Some((VField(vh, vt), b2)))
    case Array(n, e) =>
      if !cur.VSeq? then None else
      (match LoadAll(e, Resize(e, cur.items, n), b)
       case None => None
       case Some((vs, b1)) => Some((VSeq(vs), b1)))
    case Vec(e) =>
      if !cur.VSeq? || SIZE_T > |b| then None else
      (match LoadAll(e, Resize(e, cur.items, FromLittleEndian(b[..SIZE_T])), b[SIZE_T..])
       case None => None
       case Some((vs, b1)) => Some((VSeq(vs), b1)))
    case Dict(e) =>
      if !cur.VDict? || SIZE_T > |b| then None else
      (match LoadEntries(e, cur.m, FromLittleEndian(b[..SIZE_T]), b[SIZE_T..])
       case None => None
       case Some((m, b1)) => Some((VDict(m), b1)))
  }

  /** Loads each element of a span in place. */
  function LoadAll(ty: Ty, curs: seq<Val>, b: seq<byte>): Option<(seq<Val>, seq<byte>)>
    decreases ty, 1, |curs|
  {
    if curs == [] then Some(([], b)) else
    match LoadInto(ty, curs[0], b)
    case None => None
    case Some((v, b1)) =>
      match LoadAll(ty, curs[1..], b1)
      case None => None
      case Some((vs, b2)) => Some(([v] + vs, b2))
  }

  /** Loads `n` key-value pairs, each into fresh locals, and stores them in the map. */
  function LoadEntries(ty: Ty, m: map<Val, Val>, n: nat, b: seq<byte>): Option<(map<Val, Val>, seq<byte>)>
    decreases ty, 1, n
  {
    if n == 0 then Some((m, b)) else
    match LoadInto(ty, Default(ty), b)
    case None => None
    case Some((kv, b1)) => LoadEntries(ty, Inserted(m, [kv]), n - 1, b1)
  }

  /** What an object holding `cur` holds after `v` is loaded into it: maps are merged, the rest replaced. */
  function Overlay(ty: Ty, cur: Val, v: Val): Val
    decreases ty, 0
  {
    match ty
    case Prim(_) => v
    case Unit => v
    case Field(h, t) =>
      if cur.VField? && v.VField? then VField(Overlay(h, cur.head, v.head), Overlay(t, cur.tail, v.tail)) else v
    case Array(n, e) =>
      if cur.VSeq? && v.VSeq? then VSeq(OverlayAll(e, Resize(e, cur.items, |v.items|), v.items)) else v
    case Vec(e) =>
      if cur.VSeq? && v.VSeq? then VSeq(OverlayAll(e, Resize(e, cur.items, |v.items|), v.items)) else v
    case Dict(_) =>
      if cur.VDict? && v.VDict? then VDict(cur.m + v.m) else v
  }

  function OverlayAll(ty: Ty, curs: seq<Val>, vs: seq<Val>): (r: seq<Val>)
    requires |curs| == |vs|
    ensures |r| == |vs|
    ensures forall i :: 0 <= i < |vs| ==> r[i] == Overlay(ty, curs[i], vs[i])
    decreases ty, 1 + |vs|
  {
    if vs == [] then [] else [Overlay(ty, curs[0], vs[0])] + OverlayAll(ty, curs[1..], vs[1..])
  }

  lemma {:induction false} DefaultHasType(ty: Ty)
    requires WellFormed(ty)
    ensures HasType(ty, Default(ty))
  {
    match ty
    case Prim(_) =>
    case Unit =>
    case Field(h, t) => DefaultHasType(h); DefaultHasType(t);
    case Array(_, e) => DefaultHasType(e);
    case Vec(_) =>
    case Dict(_) =>
  }

  /** With distinct keys every entry ends up in the map, and nothing else does. */
  lemma {:induction false} InsertedIsLookup(entries: seq<Val>, m: map<Val, Val>, k: Val, v: Val)
    requires DistinctKeys(entries) && forall e :: e in entries ==> e.VField?
    requires forall e :: e in entries ==> e.head !in m
    ensures k in Inserted(m, entries) && Inserted(m, entries)[k] == v <==>
      (k in m && m[k] == v) || VField(k, v) in entries
    decreases entries
  {
    if entries != [] {
      var e, rest := entries[0], entries[1..];
      forall i | 0 <= i < |rest| ensures rest[i].head != e.head { assert rest[i] == entries[i + 1]; }
      assert DistinctKeys(rest) by {
        forall i, j | 0 <= i < j < |rest| ensures rest[i].head != rest[j].head {
          assert entries[i + 1] == rest[i] && entries[j + 1] == rest[j];
        }
      }
      InsertedIsLookup(rest, m[e.head := e.tail], k, v);
      assert entries == [e] + rest;
    }
  }

  /** A hash map may be walked in any order: the same entries in another order are the same value. */
  lemma IterationOrderIrrelevant(a: seq<Val>, b: seq<Val>)
    requires DistinctKeys(a) && DistinctKeys(b)
    requires forall e :: e in a ==> e.VField?
    requires multiset(a) == multiset(b)
    ensures Inserted(map[], a) == Inserted(map[], b)
  {
    forall e ensures e in a <==> e in b { assert e in multiset(a) <==> e in multiset(b); }
    var ma, mb := Inserted(map[], a), Inserted(map[], b);
    forall k | k in ma ensures k in mb && mb[k] == ma[k] {
      InsertedIsLookup(a, map[], k, ma[k]);
      InsertedIsLookup(b, map[], k, ma[k]);
    }
    forall k | k in mb ensures k in ma {
      InsertedIsLookup(a, map[], k, mb[k]);
      InsertedIsLookup(b, map[], k, mb[k]);
    }
  }

  /** Inserting distinct entries over a map is the merge with the map they make by themselves. */
  lemma {:induction false} InsertedMerges(m: map<Val, Val>, n: map<Val, Val>, entries: seq<Val>)
    ensures Inserted(m + n, entries) == m + Inserted(n, entries)
    decreases entries
  {
    if entries != [] {
      if entries[0].VField? {
        var k, v := entries[0].head, entries[0].tail;
        assert (m + n)[k := v] == m + n[k := v];
        InsertedMerges(m, n[k := v], entries[1..]);
      } else {
        InsertedMerges(m, n, entries[1..]);
      }
    }
  }

  lemma {:induction false} InsertedValues(ty: Ty, m: map<Val, Val>, entries: seq<Val>)
    requires ty.Field? && WellFormed(ty)
    requires forall k :: k in m ==> HasType(ty.head, k) && HasType(ty.tail, m[k])
    requires forall i :: 0 <= i < |entries| ==> HasType(ty, entries[i])
    ensures forall k :: k in Inserted(m, entries) ==>
      HasType(ty.head, k) && HasType(ty.tail, Inserted(m, entries)[k])
    decreases entries
  {
    if entries != [] {
      InsertedValues(ty, m[entries[0].head := entries[0].tail], entries[1..]);
    }
  }

  lemma {:induction false} AbsHasType(ty: Ty, o: Obj)
    requires WellFormed(ty) && IsObj(ty, o)
    ensures HasType(ty, Abs(ty, o))
  {
    match ty
    case Prim(_) =>
    case Unit =>
    case Field(h, t) => AbsHasType(h, o.head); AbsHasType(t, o.tail);
    case Array(_, e) =>
      forall i | 0 <= i < |o.items| ensures HasType(e, Abs(e, o.items[i])) { AbsHasType(e, o.items[i]); }
    case Vec(e) =>
      forall i | 0 <= i < |o.items| ensures HasType(e, Abs(e, o.items[i])) { AbsHasType(e, o.items[i]); }
    case Dict(e) =>
      forall i | 0 <= i < |o.entries| ensures HasType(e, Abs(e, o.entries[i])) { AbsHasType(e, o.entries[i]); }
      InsertedValues(e, map[], AbsAll(e, o.entries));
  }

  /** Loading over a fresh object replaces it outright. */
  lemma {:induction false} OverlayDefault(ty: Ty, v: Val)
    requires WellFormed(ty) && HasType(ty, v)
    ensures Overlay(ty, Default(ty), v) == v
    decreases ty, 0
  {
    match ty
    case Prim(_) =>
    case Unit =>
    case Field(h, t) => OverlayDefault(h, v.head); OverlayDefault(t, v.tail);
    case Array(_, e) => OverlayDefaults(e, Resize(e, Default(ty).items, |v.items|), v.items);
    case Vec(e) => OverlayDefaults(e, Resize(e, [], |v.items|), v.items);
    case Dict(_) => assert map[] + v.m == v.m;
  }

  lemma {:induction false} OverlayDefaults(ty: Ty, curs: seq<Val>, vs: seq<Val>)
    requires WellFormed(ty) && |curs| == |vs|
    requires forall i :: 0 <= i < |vs| ==> curs[i] == Default(ty) && HasType(ty, vs[i])
    ensures OverlayAll(ty, curs, vs) == vs
    decreases ty, 1
  {
    forall i | 0 <= i < |vs| ensures Overlay(ty, curs[i], vs[i]) == vs[i] { OverlayDefault(ty, vs[i]); }
  }

  /**
   * Loading what was saved, with anything after it and into any object of the type,
   * succeeds, consumes exactly what was written and yields the overlay.
   */
  lemma {:induction false} LoadEncode(ty: Ty, cur: Val, o: Obj, rest: seq<byte>)
    requires WellFormed(ty) && IsObj(ty, o) && HasType(ty, cur)
    ensures LoadInto(ty, cur, Encode(ty, o) + rest) == Some((Overlay(ty, cur, Abs(ty, o)), rest))
    decreases ty, 0, 0
  {
    match ty
    case Prim(n) =>
      var b := o.bytes + rest;
      assert b[..n] == o.bytes && b[n..] == rest;
    case Unit =>
      assert [] + rest == rest;
    case Field(h, t) =>
      assert Encode(ty, o) + rest == Encode(h, o.head) + (Encode(t, o.tail) + rest);
      LoadEncode(h, cur.head, o.head, Encode(t, o.tail) + rest);
      LoadEncode(t, cur.tail, o.tail, rest);
    case Array(n, e) =>
      LoadEncodeAll(e, Resize(e, cur.items, n), o.items, rest);
    case Vec(e) =>
      PrefixedLength(|o.items|, EncodeAll(e, o.items), rest);
      DefaultHasType(e);
      LoadEncodeAll(e, Resize(e, cur.items, |o.items|), o.items, rest);
    case Dict(e) =>
      LoadEncodeDict(ty, cur, o, rest);
  }

  lemma {:induction false} LoadEncodeDict(ty: Ty, cur: Val, o: Obj, rest: seq<byte>)
    requires ty.Dict? && WellFormed(ty) && IsObj(ty, o) && HasType(ty, cur)
    ensures LoadInto(ty, cur, Encode(ty, o) + rest) == Some((Overlay(ty, cur, Abs(ty, o)), rest))
    decreases ty.elem, 2, 0
  {
    var e := ty.elem;
    PrefixedLength(|o.entries|, EncodeAll(e, o.entries), rest);
    LoadEncodeEntries(e, cur.m, o.entries, rest);
    InsertedMerges(cur.m, map[], AbsAll(e, o.entries));
    assert cur.m + map[] == cur.m;
  }

  lemma PrefixedLength(n: nat, body: seq<byte>, rest: seq<byte>)
    requires n < Pow256(SIZE_T)
    ensures var b := LittleEndian(n, SIZE_T) + body + rest;
      FromLittleEndian(b[..SIZE_T]) == n && b[SIZE_T..] == body + rest
  {
    var head := LittleEndian(n, SIZE_T);
    ConcatAssoc(head, body, rest);
    CutPrefix(head, body + rest);
    LittleEndianRoundTrip(n, SIZE_T);
  }

  lemma CutPrefix(a: seq<byte>, b: seq<byte>)
    ensures (a + b)[..|a|] == a && (a + b)[|a|..] == b
  {}

  lemma LoadAllCons(ty: Ty, curs: seq<Val>, b: seq<byte>, v: Val, b1: seq<byte>, vs: seq<Val>, b2: seq<byte>)
    requires curs != [] && LoadInto(ty, curs[0], b) == Some((v, b1))
    requires LoadAll(ty, curs[1..], b1) == Some((vs, b2))
    ensures LoadAll(ty, curs, b) == Some(([v] + vs, b2))
  {}

  lemma {:induction false} LoadEncodeAll(ty: Ty, curs: seq<Val>, items: seq<Obj>, rest: seq<byte>)
    requires WellFormed(ty) && AllObj(ty, items) && |curs| == |items|
    requires forall i :: 0 <= i < |curs| ==> HasType(ty, curs[i])
    ensures LoadAll(ty, curs, EncodeAll(ty, items) + rest)
         == Some((OverlayAll(ty, curs, AbsAll(ty, items)), rest))
    decreases ty, 1, |items|
  {
    if items == [] {
      assert EncodeAll(ty, items) + rest == rest;
    } else {
      var tail := EncodeAll(ty, items[1..]) + rest;
      ConcatAssoc(Encode(ty, items[0]), EncodeAll(ty, items[1..]), rest);
      LoadEncode(ty, curs[0], items[0], tail);
      LoadEncodeAll(ty, curs[1..], items[1..], rest);
      LoadAllCons(ty, curs, Encode(ty, items[0]) + tail, Overlay(ty, curs[0], Abs(ty, items[0])), tail,
        OverlayAll(ty, curs[1..], AbsAll(ty, items[1..])), rest);
      OverlayAllCons(ty, curs, items);
    }
  }

  lemma OverlayAllCons(ty: Ty, curs: seq<Val>, items: seq<Obj>)
    requires |curs| == |items| > 0
    ensures OverlayAll(ty, curs, AbsAll(ty, items))
         == [Overlay(ty, curs[0], Abs(ty, items[0]))] + OverlayAll(ty, curs[1..], AbsAll(ty, items[1..]))
  {
    assert AbsAll(ty, items)[1..] == AbsAll(ty, items[1..]);
  }

  lemma InsertedSplit(m: map<Val, Val>, v: Val, vs: seq<Val>)
    ensures Inserted(Inserted(m, [v]), vs) == Inserted(m, [v] + vs)
  {
    assert ([v] + vs)[0] == v && ([v] + vs)[1..] == vs && [v][1..] == [];
  }

  lemma {:induction false} LoadEncodeEntries(ty: Ty, m: map<Val, Val>, items: seq<Obj>, rest: seq<byte>)
    requires WellFormed(ty) && AllObj(ty, items)
    ensures LoadEntries(ty, m, |items|, EncodeAll(ty, items) + rest)
         == Some((Inserted(m, AbsAll(ty, items)), rest))
    decreases ty, 1, |items|
  {
    if items == [] {
      assert EncodeAll(ty, items) + rest == rest;
    } else {
      var tail := EncodeAll(ty, items[1..]) + rest;
      assert EncodeAll(ty, items) + rest == Encode(ty, items[0]) + tail;
      DefaultHasType(ty);
      LoadEncode(ty, Default(ty), items[0], tail);
      AbsHasType(ty, items[0]);
      var v := Abs(ty, items[0]);
      OverlayDefault(ty, v);
      var m1 := Inserted(m, [v]);
      LoadEncodeEntries(ty, m1, items[1..], rest);
      assert AbsAll(ty, items) == [v] + AbsAll(ty, items[1..]);
      InsertedSplit(m, v, AbsAll(ty, items[1..]));
    }
  }

  /** Whatever the bytes, a load that succeeds leaves an object of its type and a suffix of the input. */
  lemma {:induction false} LoadedHasType(ty: Ty, cur: Val, b: seq<byte>)
    requires WellFormed(ty) && HasType(ty, cur)
    ensures match LoadInto(ty, cur, b)
      case None => true
      case Some((v, rest)) => HasType(ty, v) && |rest| <= |b| && rest == b[|b| - |rest|..]
    decreases ty, 0, 0
  {
    match ty
    case Prim(_) =>
    case Unit =>
    case Field(h, t) =>
      LoadedHasType(h, cur.head, b);
      var first := LoadInto(h, cur.head, b);
      if first.Some? { LoadedHasType(t, cur.tail, first.value.1); }
    case Array(n, e) =>
      DefaultHasType(e);
      LoadedAllHaveType(e, Resize(e, cur.items, n), b);
    case Vec(e) =>
      DefaultHasType(e);
      if SIZE_T <= |b| {
        LoadedAllHaveType(e, Resize(e, cur.items, FromLittleEndian(b[..SIZE_T])), b[SIZE_T..]);
      }
    case Dict(e) =>
      if SIZE_T <= |b| { LoadedEntriesHaveType(e, cur.m, FromLittleEndian(b[..SIZE_T]), b[SIZE_T..]); }
  }

  lemma {:induction false} LoadedAllHaveType(ty: Ty, curs: seq<Val>, b: seq<byte>)
    requires WellFormed(ty) && forall i :: 0 <= i < |curs| ==> HasType(ty, curs[i])
    ensures match LoadAll(ty, curs, b)
      case None => true
      case Some((vs, rest)) =>
        && |vs| == |curs| && (forall i :: 0 <= i < |vs| ==> HasType(ty, vs[i]))
        && |rest| <= |b| && rest == b[|b| - |rest|..]
    decreases ty, 1, |curs|
  {
    if curs != [] {
      LoadedHasType(ty, curs[0], b);
      var first := LoadInto(ty, curs[0], b);
      if first.Some? { LoadedAllHaveType(ty, curs[1..], first.value.1); }
    }
  }

  ghost predicate EntriesTyped(ty: Ty, b: seq<byte>, r: Option<(map<Val, Val>, seq<byte>)>) {
    match r
    case None => true
    case Some((m, rest)) => HasType(Dict(ty), VDict(m)) && |rest| <= |b| && rest == b[|b| - |rest|..]
  }

  lemma EntryTyped(ty: Ty, m: map<Val, Val>, kv: Val)
    requires ty.Field? && WellFormed(ty) && HasType(Dict(ty), VDict(m)) && HasType(ty, kv)
    ensures HasType(Dict(ty), VDict(Inserted(m, [kv])))
  {
    InsertedValues(ty, m, [kv]);
  }

  lemma EntriesTypedBehind(ty: Ty, b: seq<byte>, b1: seq<byte>, r: Option<(map<Val, Val>, seq<byte>)>)
    requires |b1| <= |b| && b1 == b[|b| - |b1|..] && EntriesTyped(ty, b1, r)
    ensures EntriesTyped(ty, b, r)
  {
    if r.Some? {
      var rest := r.value.1;
      assert b[|b| - |b1|..][|b1| - |rest|..] == b[|b| - |rest|..];
    }
  }

  lemma {:induction false} LoadedEntriesHaveType(ty: Ty, m: map<Val, Val>, n: nat, b: seq<byte>)
    requires ty.Field? && WellFormed(ty) && HasType(Dict(ty), VDict(m))
    ensures EntriesTyped(ty, b, LoadEntries(ty, m, n, b))
    decreases ty, 1, n
  {
    if n > 0 {
      DefaultHasType(ty);
      LoadedHasType(ty, Default(ty), b);
      var first := LoadInto(ty, Default(ty), b);
      if first.Some? {
        var (kv, b1) := first.value;
        EntryTyped(ty, m, kv);
        LoadedEntriesHaveType(ty, Inserted(m, [kv]), n - 1, b1);
        EntriesTypedBehind(ty, b, b1, LoadEntries(ty, Inserted(m, [kv]), n - 1, b1));
      }
    }
  }

  /** Into a fresh object, the round trip is the identity whatever follows. */
  lemma RoundTrip(ty: Ty, o: Obj, rest: seq<byte>)
    requires WellFormed(ty) && IsObj(ty, o)
    ensures LoadInto(ty, Default(ty), Encode(ty, o) + rest) == Some((Abs(ty, o), rest))
  {
    DefaultHasType(ty);
    LoadEncode(ty, Default(ty), o, rest);
    AbsHasType(ty, o);
    OverlayDefault(ty, Abs(ty, o));
  }

  /** Loading a map into a map that already holds entries merges them, the loaded entry winning. */
  lemma MapLoadMerges(ty: Ty, m: map<Val, Val>, o: Obj, rest: seq<byte>)
    requires ty.Dict? && WellFormed(ty) && IsObj(ty, o) && HasType(ty, VDict(m))
    ensures Abs(ty, o).VDict?
    ensures LoadInto(ty, VDict(m), Encode(ty, o) + rest) == Some((VDict(m + Abs(ty, o).m), rest))
  {
    LoadEncode(ty, VDict(m), o, rest);
  }

  /**
   * Loading a vector loads each element over the one that was there at its place, and past the end of
   * the old vector into a fresh one.
   */
  lemma VecLoadsEach(ty: Ty, items: seq<Val>, o: Obj, rest: seq<byte>, i: nat)
    requires WellFormed(ty) && IsObj(Vec(ty), o) && HasType(Vec(ty), VSeq(items)) && i < |o.items|
    ensures var r := LoadInto(Vec(ty), VSeq(items), Encode(Vec(ty), o) + rest);
      && r.Some? && r.value.1 == rest && r.value.0.VSeq? && |r.value.0.items| == |o.items|
      && LoadInto(ty, if i < |items| then items[i] else Default(ty), Encode(ty, o.items[i])) == Some((r.value.0.items[i], []))
  {
    var cur := if i < |items| then items[i] else Default(ty);
    LoadEncode(Vec(ty), VSeq(items), o, rest);
    DefaultHasType(ty);
    LoadEncode(ty, cur, o.items[i], []);
    assert Encode(ty, o.items[i]) + [] == Encode(ty, o.items[i]);
  }

  /** Two objects are written to the same bytes only if they hold the same value. */
  lemma EncodeInjective(ty: Ty, a: Obj, b: Obj)
    requires WellFormed(ty) && IsObj(ty, a) && IsObj(ty, b)
    requires Encode(ty, a) == Encode(ty, b)
    ensures Abs(ty, a) == Abs(ty, b)
  {
    RoundTrip(ty, a, []);
    RoundTrip(ty, b, []);
  }

  // ----- the size calculator -----

  /** `real_size`, with the shortcuts it takes for spans of primitives and for fixed arrays. */
  function RealSize(ty: Ty, o: Obj): nat
    requires IsObj(ty, o)
    decreases ty, 0
  {
    match ty
    case Prim(n) => n
    case Unit => 0
    case Field(h, t) => RealSize(h, o.head) + RealSize(t, o.tail)
    case Array(n, e) => if e.Prim? then n * e.size else SpanSize(e, o.items) - SIZE_T
    case Vec(e) => SpanSize(e, o.items)
    case Dict(e) => SIZE_T + SumSizes(e, o.entries)
  }

  function SpanSize(ty: Ty, items: seq<Obj>): (r: nat)
    requires AllObj(ty, items)
    ensures r >= SIZE_T
    decreases ty, 2 + |items|
  {
    if ty.Prim? then ty.size * |items| + SIZE_T else SIZE_T + SumSizes(ty, items)
  }

  function SumSizes(ty: Ty, items: seq<Obj>): nat
    requires AllObj(ty, items)
    decreases ty, 1 + |items|
  {
    if items == [] then 0 else RealSize(ty, items[0]) + SumSizes(ty, items[1..])
  }

  lemma {:induction false} RealSizeExact(ty: Ty, o: Obj)
    requires IsObj(ty, o)
    ensures RealSize(ty, o) == |Encode(ty, o)|
    decreases ty, 0
  {
    match ty
    case Prim(_) =>
    case Unit =>
    case Field(h, t) => RealSizeExact(h, o.head); RealSizeExact(t, o.tail);
    case Array(n, e) => SizesExact(e, o.items); PrimSizes(e, o.items);
    case Vec(e) => SizesExact(e, o.items); PrimSizes(e, o.items);
    case Dict(e) => SizesExact(e, o.entries);
  }

  lemma {:induction false} SizesExact(ty: Ty, items: seq<Obj>)
    requires AllObj(ty, items)
    ensures SumSizes(ty, items) == |EncodeAll(ty, items)|
    decreases ty, 1 + |items|
  {
    if items != [] {
      RealSizeExact(ty, items[0]);
      SizesExact(ty, items[1..]);
    }
  }

  /** A span of primitives is its element size times its length. */
  lemma {:induction false} PrimSizes(ty: Ty, items: seq<Obj>)
    requires AllObj(ty, items)
    ensures ty.Prim? ==> SumSizes(ty, items) == ty.size * |items|
  {
    if items != [] && ty.Prim? {
      PrimSizes(ty, items[1..]);
      assert ty.size * |items| == ty.size + ty.size * (|items| - 1);
    }
  }
}
