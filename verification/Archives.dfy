/**
 * The archives themselves: the growing save archive, the exact-size save archive, and the load
 * archive. (StringLoadArchive and FixSizeBufferLoadingArchive keep the same cursor over an
 * immutable buffer, so one class stands for both.)
 */
module Archives {
  import opened Base
  import opened Serializer

  lemma {:induction false} EncodeAllSnoc(ty: Ty, items: seq<Obj>, i: nat)
    requires i < |items|
    ensures EncodeAll(ty, items[..i + 1]) == EncodeAll(ty, items[..i]) + Encode(ty, items[i])
  {
    if i > 0 {
      EncodeAllSnoc(ty, items[1..], i - 1);
      assert items[..i + 1][1..] == items[1..][..i] && items[..i][1..] == items[1..][..i - 1];
    } else {
      assert items[..1][1..] == [] && EncodeAll(ty, items[..0]) == [];
    }
  }

  const INITIAL_CAPACITY: nat := 64

  class StringSaveArchive {
    var capacity: nat
    var buf: array<byte>
    var cursor: nat
    // Bytes moved so far by reallocations.
    ghost var copied: nat

    /** The second line is the amortised bound: all copying together stays below the capacity,
        and the capacity below twice what was saved. */
    ghost predicate Valid()
      reads this
    {
      && buf.Length == capacity && cursor <= capacity
      && copied + INITIAL_CAPACITY <= capacity
      && (capacity == INITIAL_CAPACITY || capacity <= 2 * cursor)
    }

    ghost function Contents(): seq<byte>
      reads this, buf
      requires Valid()
    {
      buf[..cursor]
    }

    constructor ()
      ensures Valid() && fresh(buf) && Contents() == [] && copied == 0 && capacity == 64
    {
      capacity := INITIAL_CAPACITY;
      buf := new byte[INITIAL_CAPACITY];
      cursor := 0;
      copied := 0;
    }

    method GetSaveCursor(num: nat) returns (pos: nat)
      requires Valid()
      modifies this
      ensures Valid() && (buf == old(buf) || fresh(buf))
      ensures pos == old(cursor) && cursor == pos + num
      ensures buf[..pos] == old(Contents())
      ensures copied == old(copied) + if old(cursor) + num > old(capacity) then old(cursor) else 0
      ensures capacity == if cursor <= old(capacity) then old(capacity)
                          else if cursor > 2 * old(capacity) then cursor else 2 * old(capacity)
    {
      if cursor + num > capacity {
        var newCapacity := if cursor + num > capacity * 2 then cursor + num else capacity * 2;
        var newBuf := new byte[newCapacity];
        forall i | 0 <= i < cursor { newBuf[i] := buf[i]; }
        copied := copied + cursor;
        capacity := newCapacity;
        buf := newBuf;
      }
      pos := cursor;
      cursor := cursor + num;
    }

    method Save(bytes: seq<byte>)
      requires Valid()
      modifies this, buf
      ensures Valid() && (buf == old(buf) || fresh(buf))
      ensures Contents() == old(Contents()) + bytes
    {
      var pos := GetSaveCursor(|bytes|);
      var dst := buf;
      forall i | 0 <= i < |bytes| { dst[pos + i] := bytes[i]; }
      assert dst[..pos] == old(Contents());
      assert dst[pos..pos + |bytes|] == bytes;
    }

    method Build() returns (s: seq<byte>)
      requires Valid()
      ensures s == Contents()
    {
      s := buf[..cursor];
    }
  }

  /** Any sequence of saves: the result is the chunks one after the other, and all copying stays linear in it. */
  method SaveEach(chunks: seq<seq<byte>>) returns (s: seq<byte>, capacity: nat, ghost copied: nat)
    ensures s == Flatten(chunks)
    ensures copied + 64 <= capacity
    ensures capacity == 64 || capacity <= 2 * |s|
  {
    var a := new StringSaveArchive();
    for i := 0 to |chunks|
      invariant a.Valid() && fresh(a) && fresh(a.buf) && a.Contents() == Flatten(chunks[..i])
    {
      a.Save(chunks[i]);
      assert chunks[..i + 1] == chunks[..i] + [chunks[i]];
      FlattenAppend(chunks[..i], [chunks[i]]);
      FlattenOne(chunks[i]);
    }
    assert chunks[..|chunks|] == chunks;
    s := a.Build();
    capacity, copied := a.capacity, a.copied;
  }

  /** `a << o` on the growing archive. */
  method SaveGrowing(a: StringSaveArchive, ty: Ty, o: Obj)
    requires a.Valid() && IsObj(ty, o)
    modifies a, a.buf
    ensures a.Valid() && (a.buf == old(a.buf) || fresh(a.buf))
    ensures a.Contents() == old(a.Contents()) + Encode(ty, o)
    decreases ty, 0
  {
    ghost var start := a.Contents();
    match ty
    case Prim(_) => a.Save(o.bytes);
    case Unit => assert start + [] == start;
    case Field(h, t) =>
      SaveGrowing(a, h, o.head);
      SaveGrowing(a, t, o.tail);
      ConcatAssoc(start, Encode(h, o.head), Encode(t, o.tail));
    case Array(_, e) => SaveSpanGrowing(a, e, o.items);
    case Vec(e) => SaveCountedGrowing(a, e, o.items);
    case Dict(e) => SaveCountedGrowing(a, e, o.entries);
  }

  /** A length and then the elements, as vectors, strings and maps are written. */
  method SaveCountedGrowing(a: StringSaveArchive, ty: Ty, items: seq<Obj>)
    requires a.Valid() && AllObj(ty, items)
    modifies a, a.buf
    ensures a.Valid() && (a.buf == old(a.buf) || fresh(a.buf))
    ensures a.Contents() == old(a.Contents()) + (LittleEndian(|items|, SIZE_T) + EncodeAll(ty, items))
    decreases ty, 2
  {
    ghost var start := a.Contents();
    a.Save(LittleEndian(|items|, SIZE_T));
    SaveSpanGrowing(a, ty, items);
    ConcatAssoc(start, LittleEndian(|items|, SIZE_T), EncodeAll(ty, items));
  }

  /** A span of primitives is copied in one piece, any other span element by element. */
  method SaveSpanGrowing(a: StringSaveArchive, ty: Ty, items: seq<Obj>)
    requires a.Valid() && AllObj(ty, items)
    modifies a, a.buf
    ensures a.Valid() && (a.buf == old(a.buf) || fresh(a.buf))
    ensures a.Contents() == old(a.Contents()) + EncodeAll(ty, items)
    decreases ty, 1
  {
    if ty.Prim? {
      a.Save(EncodeAll(ty, items));
    } else {
      for i := 0 to |items|
        invariant a.Valid() && (a.buf == old(a.buf) || fresh(a.buf))
        invariant a.Contents() == old(a.Contents()) + EncodeAll(ty, items[..i])
      {
        SaveGrowing(a, ty, items[i]);
        EncodeAllSnoc(ty, items, i);
      }
      assert items[..|items|] == items;
    }
  }

  method CreateString(ty: Ty, o: Obj) returns (s: seq<byte>)
    requires IsObj(ty, o)
    ensures s == Encode(ty, o)
  {
    var a := new StringSaveArchive();
    SaveGrowing(a, ty, o);
    s := a.Build();
  }

  class FixSizeBufferSavingArchive {
    const buf: array<byte>
    var cursor: nat

    ghost predicate Valid()
      reads this
    {
      cursor <= buf.Length
    }

    ghost function Contents(): seq<byte>
      reads this, buf
      requires Valid()
    {
      buf[..cursor]
    }

    constructor (buf: array<byte>)
      ensures Valid() && this.buf == buf && cursor == 0
    {
      this.buf := buf;
      cursor := 0;
    }

    /** False is the exception thrown when the buffer is too small. */
    method Save(bytes: seq<byte>) returns (ok: bool)
      requires Valid()
      modifies this, buf
      ensures Valid() && ok == (old(cursor) + |bytes| <= buf.Length)
      ensures Contents() == old(Contents()) + if ok then bytes else []
      ensures buf[cursor..] == old(buf[..])[cursor..]
    {
      ok := cursor + |bytes| <= buf.Length;
      if ok {
        forall i | 0 <= i < |bytes| { buf[cursor + i] := bytes[i]; }
        assert buf[..cursor] == old(Contents()) && buf[cursor..cursor + |bytes|] == bytes;
        cursor := cursor + |bytes|;
      }
    }
  }

  /** `a << o` on the exact-size archive: it fails precisely when the encoding does not fit. */
  method SaveFixed(a: FixSizeBufferSavingArchive, ty: Ty, o: Obj) returns (ok: bool)
    requires a.Valid() && IsObj(ty, o)
    modifies a, a.buf
    ensures a.Valid() && ok == (old(a.cursor) + |Encode(ty, o)| <= a.buf.Length)
    ensures ok ==> a.Contents() == old(a.Contents()) + Encode(ty, o)
    decreases ty, 0
  {
    ghost var start := a.Contents();
    ok := true;
    match ty
    case Prim(_) => ok := a.Save(o.bytes);
    case Unit => assert start + [] == start;
    case Field(h, t) =>
      ok := SaveFixed(a, h, o.head);
      if ok { ok := SaveFixed(a, t, o.tail); }
      ConcatAssoc(start, Encode(h, o.head), Encode(t, o.tail));
    case Array(_, e) => ok := SaveSpanFixed(a, e, o.items);
    case Vec(e) => ok := SaveCountedFixed(a, e, o.items);
    case Dict(e) => ok := SaveCountedFixed(a, e, o.entries);
  }

  method SaveCountedFixed(a: FixSizeBufferSavingArchive, ty: Ty, items: seq<Obj>) returns (ok: bool)
    requires a.Valid() && AllObj(ty, items)
    modifies a, a.buf
    ensures a.Valid()
    ensures ok == (old(a.cursor) + |LittleEndian(|items|, SIZE_T) + EncodeAll(ty, items)| <= a.buf.Length)
    ensures ok ==> a.Contents() == old(a.Contents()) + (LittleEndian(|items|, SIZE_T) + EncodeAll(ty, items))
    decreases ty, 2
  {
    ghost var start := a.Contents();
    ok := a.Save(LittleEndian(|items|, SIZE_T));
    if ok { ok := SaveSpanFixed(a, ty, items); }
    ConcatAssoc(start, LittleEndian(|items|, SIZE_T), EncodeAll(ty, items));
  }

  method SaveSpanFixed(a: FixSizeBufferSavingArchive, ty: Ty, items: seq<Obj>) returns (ok: bool)
    requires a.Valid() && AllObj(ty, items)
    modifies a, a.buf
    ensures a.Valid() && ok == (old(a.cursor) + |EncodeAll(ty, items)| <= a.buf.Length)
    ensures ok ==> a.Contents() == old(a.Contents()) + EncodeAll(ty, items)
    decreases ty, 1
  {
    ok := true;
    if ty.Prim? {
      ok := a.Save(EncodeAll(ty, items));
    } else {
      var i := 0;
      EncodeAllSplit(ty, items, 0);
      while i < |items| && ok
        invariant 0 <= i <= |items| && a.Valid()
        invariant ok == (old(a.cursor) + |EncodeAll(ty, items[..i])| <= a.buf.Length)
        invariant ok ==> a.Contents() == old(a.Contents()) + EncodeAll(ty, items[..i])
        decreases |items| - i
      {
        ghost var before := EncodeAll(ty, items[..i]);
        ok := SaveFixed(a, ty, items[i]);
        EncodeAllSnoc(ty, items, i);
        ConcatAssoc(old(a.Contents()), before, Encode(ty, items[i]));
        i := i + 1;
      }
      EncodeAllSplit(ty, items, i);
    }
  }

  lemma {:induction false} EncodeAllSplit(ty: Ty, items: seq<Obj>, i: nat)
    requires i <= |items|
    ensures EncodeAll(ty, items) == EncodeAll(ty, items[..i]) + EncodeAll(ty, items[i..])
    decreases |items| - i
  {
    if i < |items| {
      EncodeAllSplit(ty, items, i + 1);
      EncodeAllSnoc(ty, items, i);
    } else {
      assert items[..i] == items && EncodeAll(ty, items[i..]) == [];
    }
  }

  /**
   * `build`: allocates what the size calculator says and saves every argument. The arguments are
   * the fields of `ty`. None would be an exception: no save can fail, and the buffer ends up full.
   */
  method Build(ty: Ty, o: Obj) returns (r: Option<seq<byte>>, unused: nat)
    requires IsObj(ty, o)
    ensures r == Some(Encode(ty, o)) && |Encode(ty, o)| == RealSize(ty, o)
    ensures unused == 0
  {
    RealSizeExact(ty, o);
    var buf := new byte[RealSize(ty, o)](_ => 0);
    var a := new FixSizeBufferSavingArchive(buf);
    var ok := SaveFixed(a, ty, o);
    unused := buf.Length - a.cursor;
    r := if ok then Some(buf[..]) else None;
    assert ok && buf[..] == a.Contents();
  }

  class LoadArchive {
    const buf: seq<byte>
    var cursor: nat

    ghost predicate Valid()
      reads this
    {
      cursor <= |buf|
    }

    ghost function Rest(): seq<byte>
      reads this
      requires Valid()
    {
      buf[cursor..]
    }

    constructor (buf: seq<byte>)
      ensures Valid() && this.buf == buf && cursor == 0
    {
      this.buf := buf;
      cursor := 0;
    }

    /** None is the overflow exception. */
    method Load(num: nat) returns (r: Option<seq<byte>>)
      requires Valid()
      modifies this
      ensures Valid()
      ensures r == if num > old(|Rest()|) then None else Some(old(Rest())[..num])
      ensures Rest() == if r.Some? then old(Rest())[num..] else old(Rest())
    {
      if cursor + num > |buf| { return None; }
      r := Some(buf[cursor..cursor + num]);
      assert buf[cursor..][..num] == buf[cursor..cursor + num];
      cursor := cursor + num;
    }
  }

  /** `a >> obj` on an object holding `cur`. */
  method LoadObject(a: LoadArchive, ty: Ty, cur: Val) returns (r: Option<Val>)
    requires a.Valid() && WellFormed(ty) && HasType(ty, cur)
    modifies a
    ensures a.Valid()
    ensures match LoadInto(ty, cur, old(a.Rest()))
      case None => r == None
      case Some((v, rest)) => r == Some(v) && a.Rest() == rest
    decreases ty, 0
  {
    match ty
    case Prim(n) =>
      var bytes := a.Load(n);
      r := if bytes.None? then None else Some(VPrim(bytes.value));
    case Unit => r := Some(VUnit);
    case Field(h, t) =>
      var vh := LoadObject(a, h, cur.head);
      if vh.None? { return None; }
      var vt := LoadObject(a, t, cur.tail);
      r := if vt.None? then None else Some(VField(vh.value, vt.value));
    case Array(n, e) =>
      DefaultHasType(e);
      var vs := LoadSpan(a, e, Resize(e, cur.items, n));
      r := if vs.None? then None else Some(VSeq(vs.value));
    case Vec(e) =>
      var len := a.Load(SIZE_T);
      if len.None? { return None; }
      DefaultHasType(e);
      var vs := LoadSpan(a, e, Resize(e, cur.items, FromLittleEndian(len.value)));
      r := if vs.None? then None else Some(VSeq(vs.value));
    case Dict(e) =>
      var len := a.Load(SIZE_T);
      if len.None? { return None; }
      DefaultHasType(e);
      var n := FromLittleEndian(len.value);
      var m := cur.m;
      var i := 0;
      ghost var start := a.Rest();
      while i < n
        invariant 0 <= i <= n && a.Valid()
        invariant LoadEntries(e, cur.m, n, start) == LoadEntries(e, m, n - i, a.Rest())
      {
        var kv := LoadObject(a, e, Default(e));
        if kv.None? { return None; }
        m := Inserted(m, [kv.value]);
        i := i + 1;
      }
      r := Some(VDict(m));
  }

  ghost function Prepend(vs: seq<Val>, r: Option<(seq<Val>, seq<byte>)>): Option<(seq<Val>, seq<byte>)> {
    match r
    case None => None
    case Some((ws, rest)) => Some((vs + ws, rest))
  }

  /** The elements of a span of primitives, from its bytes. */
  function Split(b: seq<byte>, size: nat, n: nat): (r: seq<Val>)
    requires |b| == n * size
    ensures |r| == n
  {
    if n == 0 then [] else SplitRoom(size, n); [VPrim(b[..size])] + Split(b[size..], size, n - 1)
  }

  lemma SplitRoom(size: nat, n: nat)
    requires n > 0
    ensures n * size == size + (n - 1) * size >= size
  {
    assert (n - 1) * size >= 0;
  }

  /** One copy of the whole span is a load of each element in turn. */
  lemma {:induction false} LoadAllPrims(size: nat, curs: seq<Val>, b: seq<byte>)
    ensures LoadAll(Prim(size), curs, b) ==
      if |curs| * size > |b| then None
      else Some((Split(b[..|curs| * size], size, |curs|), b[|curs| * size..]))
    decreases |curs|
  {
    var n := |curs|;
    if n > 0 {
      SplitRoom(size, n);
      if size <= |b| {
        LoadAllPrims(size, curs[1..], b[size..]);
        if n * size <= |b| {
          assert b[size..][..(n - 1) * size] == b[..n * size][size..];
          assert b[..n * size][..size] == b[..size];
          assert b[size..][(n - 1) * size..] == b[n * size..];
        }
      }
    } else {
      assert b[..0] == [] && b[0..] == b;
    }
  }

  /** A span of primitives is copied in one piece, any other span element by element. */
  method LoadSpan(a: LoadArchive, ty: Ty, curs: seq<Val>) returns (r: Option<seq<Val>>)
    requires a.Valid() && WellFormed(ty)
    requires forall i :: 0 <= i < |curs| ==> HasType(ty, curs[i])
    modifies a
    ensures a.Valid()
    ensures match LoadAll(ty, curs, old(a.Rest()))
      case None => r == None
      case Some((vs, rest)) => r == Some(vs) && a.Rest() == rest
    decreases ty, 2
  {
    if ty.Prim? {
      LoadAllPrims(ty.size, curs, a.Rest());
      var bytes := a.Load(|curs| * ty.size);
      r := if bytes.None? then None else Some(Split(bytes.value, ty.size, |curs|));
    } else {
      r := LoadEach(a, ty, curs);
    }
  }

  method LoadEach(a: LoadArchive, ty: Ty, curs: seq<Val>) returns (r: Option<seq<Val>>)
    requires a.Valid() && WellFormed(ty)
    requires forall i :: 0 <= i < |curs| ==> HasType(ty, curs[i])
    modifies a
    ensures a.Valid()
    ensures match LoadAll(ty, curs, old(a.Rest()))
      case None => r == None
      case Some((vs, rest)) => r == Some(vs) && a.Rest() == rest
    decreases ty, 1
  {
    var vs := [];
    PrependNothing(LoadAll(ty, curs, a.Rest()));
    assert curs[0..] == curs;
    for i := 0 to |curs|
      invariant a.Valid()
      invariant LoadAll(ty, curs, old(a.Rest())) == Prepend(vs, LoadAll(ty, curs[i..], a.Rest()))
    {
      ghost var was, before := vs, LoadAll(ty, curs[i..], a.Rest());
      var v := LoadObject(a, ty, curs[i]);
      if v.None? { return None; }
      vs := vs + [v.value];
      assert curs[i..][1..] == curs[i + 1..];
      PrependOne(was, v.value, LoadAll(ty, curs[i + 1..], a.Rest()));
      assert before == Prepend([v.value], LoadAll(ty, curs[i + 1..], a.Rest()));
    }
    assert vs + [] == vs;
    r := Some(vs);
  }

  lemma PrependOne(vs: seq<Val>, v: Val, r: Option<(seq<Val>, seq<byte>)>)
    ensures Prepend(vs, Prepend([v], r)) == Prepend(vs + [v], r)
  {
    if r.Some? { ConcatAssoc(vs, [v], r.value.0); }
  }

  lemma PrependNothing(r: Option<(seq<Val>, seq<byte>)>)
    ensures Prepend([], r) == r
  {
    if r.Some? { assert [] + r.value.0 == r.value.0; }
  }

  /** `cast`: loads every argument from the front of a buffer and returns the position reached. */
  method Cast(ty: Ty, cur: Val, b: seq<byte>) returns (r: Option<(Val, nat)>)
    requires WellFormed(ty) && HasType(ty, cur)
    ensures match LoadInto(ty, cur, b)
      case None => r == None
      case Some((v, rest)) => r.Some? && r.value.0 == v && r.value.1 <= |b| && rest == b[r.value.1..]
  {
    var a := new LoadArchive(b);
    assert a.Rest() == b;
    var v := LoadObject(a, ty, cur);
    r := if v.None? then None else Some((v.value, a.cursor));
  }

  /** What `build` or `create_string` wrote, `cast` reads back whole, at the position `build` sized. */
  method BuildThenCast(ty: Ty, o: Obj, rest: seq<byte>) returns (s: seq<byte>, r: Option<(Val, nat)>)
    requires WellFormed(ty) && IsObj(ty, o)
    ensures |s| == RealSize(ty, o)
    ensures r == Some((Abs(ty, o), RealSize(ty, o)))
  {
    var built, _ := Build(ty, o);
    s := built.value;
    RealSizeExact(ty, o);
    RoundTrip(ty, o, rest);
    DefaultHasType(ty);
    r := Cast(ty, Default(ty), s + rest);
    assert |(s + rest)[r.value.1..]| == |rest|;
  }

  /** None is the overflow exception; bytes left over are ignored. */
  method CreateFromString(ty: Ty, s: seq<byte>) returns (r: Option<Val>)
    requires WellFormed(ty)
    ensures match LoadInto(ty, Default(ty), s)
      case None => r == None
      case Some((v, _)) => r == Some(v)
  {
    DefaultHasType(ty);
    var a := new LoadArchive(s);
    assert a.Rest() == s;
    r := LoadObject(a, ty, Default(ty));
  }

  method CreateThenRead(ty: Ty, o: Obj) returns (r: Option<Val>)
    requires WellFormed(ty) && IsObj(ty, o)
    ensures r == Some(Abs(ty, o))
  {
    var s := CreateString(ty, o);
    RoundTrip(ty, o, []);
    assert s + [] == s;
    r := CreateFromString(ty, s);
  }
}
