/** The runtime messages, their wire form, and the printable form of the one-time cookie. */
module RuntimeProtocol {
  import opened Base
  import opened Serializer

  const COOKIE_LEN: nat := 16

  type Cookie = c: seq<byte> | |c| == COOKIE_LEN witness seq(16, _ => 0)

  type ConnId = nat

  /** The address of a worker's data server. */
  datatype WorkerInfo = WorkerInfo(port: nat, addr: seq<byte>)

  datatype Kind = FirstConnection | FirstConnectionOk | PeersInfo | PeersConnected | Fail

  datatype Message =
    | Hello(cookie: Cookie)
    | HelloOk
    | PeerMap(peers: map<ConnId, WorkerInfo>)

  function KindOf(m: Message): Kind {
    match m
    case Hello(_) => FirstConnection
    case HelloOk => FirstConnectionOk
    case PeerMap(_) => PeersInfo
  }

  function Code(k: Kind): byte {
    match k
    case FirstConnection => 0
    case FirstConnectionOk => 1
    case PeersInfo => 2
    case PeersConnected => 3
    case Fail => 4
  }

  // ----- the `serializable` members -----

  const HEADER_TY: Ty := Field(Prim(1), Unit)
  const COOKIE_TY: Ty := Field(Array(COOKIE_LEN, Prim(1)), Unit)
  const DATA_SERVER_TY: Ty := Field(Prim(2), Field(Vec(Prim(1)), Unit))
  const INFO_TY: Ty := Field(DATA_SERVER_TY, Unit)
  const PEER_TY: Ty := Field(Prim(4), INFO_TY)

  /** A hello writes its cookie only: the worker's own address stays behind. */
  function BodyTy(k: Kind): Ty {
    match k
    case FirstConnection => Field(COOKIE_TY, Unit)
    case PeersInfo => Field(Dict(PEER_TY), Unit)
    case _ => Unit
  }

  /** The argument list of `build(header, msg)` and `cast(buf, header, msg)`. */
  function MessageTy(k: Kind): Ty { Field(HEADER_TY, Field(BodyTy(k), Unit)) }

  function BytesObj(s: seq<byte>): Obj { OSeq(seq(|s|, i requires 0 <= i < |s| => OPrim([s[i]]))) }

  function HeaderObj(k: Kind): Obj { OField(OPrim([Code(k)]), OUnit) }

  function InfoObj(w: WorkerInfo): Obj {
    OField(OField(OPrim(LittleEndian(w.port, 2)), OField(BytesObj(w.addr), OUnit)), OUnit)
  }

  function PeerObj(c: ConnId, w: WorkerInfo): Obj { OField(OPrim(LittleEndian(c, 4)), InfoObj(w)) }

  function PeerObjs(peers: map<ConnId, WorkerInfo>, order: seq<ConnId>): seq<Obj>
    requires forall c :: c in order ==> c in peers
  {
    seq(|order|, i requires 0 <= i < |order| => PeerObj(order[i], peers[order[i]]))
  }

  /** `order` is a way the hash map may be walked. */
  ghost predicate IsOrder(order: seq<ConnId>, peers: map<ConnId, WorkerInfo>) {
    && (forall c :: c in order <==> c in peers)
    && (forall i, j :: 0 <= i < j < |order| ==> order[i] != order[j])
  }

  predicate FitsInfo(w: WorkerInfo) { w.port < 0x1_0000 && |w.addr| < Pow256(SIZE_T) }

  /** The values the C++ message objects can take, together with a walking order for the peer map. */
  ghost predicate Sendable(m: Message, order: seq<ConnId>) {
    match m
    case PeerMap(peers) =>
      && IsOrder(order, peers) && |order| < Pow256(SIZE_T)
      && forall c :: c in peers ==> c < 0x8000_0000 && FitsInfo(peers[c])
    case _ => true
  }

  function BodyObj(m: Message, order: seq<ConnId>): Obj
    requires m.PeerMap? ==> forall c :: c in order ==> c in m.peers
  {
    match m
    case Hello(c) => OField(OField(BytesObj(c), OUnit), OUnit)
    case HelloOk => OUnit
    case PeerMap(peers) => OField(ODict(PeerObjs(peers, order)), OUnit)
  }

  function MessageObj(m: Message, order: seq<ConnId>): Obj
    requires m.PeerMap? ==> forall c :: c in order ==> c in m.peers
  {
    OField(HeaderObj(KindOf(m)), OField(BodyObj(m, order), OUnit))
  }

  /** `to_buffer`. */
  function ToBuffer(m: Message, order: seq<ConnId>): seq<byte>
    requires m.PeerMap? ==> forall c :: c in order ==> c in m.peers
  {
    Encode(MessageTy(KindOf(m)), MessageObj(m, order))
  }

  // ----- reading -----

  predicate IsBytes(v: Val) {
    v.VSeq? && forall i :: 0 <= i < |v.items| ==> v.items[i].VPrim? && |v.items[i].bytes| == 1
  }

  function ReadBytes(v: Val): seq<byte>
    requires IsBytes(v)
  {
    seq(|v.items|, i requires 0 <= i < |v.items| => v.items[i].bytes[0])
  }

  predicate IsInfo(v: Val) {
    && v.VField? && v.head.VField? && v.head.head.VPrim?
    && v.head.tail.VField? && IsBytes(v.head.tail.head)
  }

  function ReadInfo(v: Val): WorkerInfo
    requires IsInfo(v)
  {
    WorkerInfo(FromLittleEndian(v.head.head.bytes), ReadBytes(v.head.tail.head))
  }

  predicate IsPeers(m: map<Val, Val>) {
    forall k :: k in m ==> k.VPrim? && |k.bytes| == 4 && IsInfo(m[k])
  }

  lemma KeyBytes(m: map<Val, Val>)
    requires IsPeers(m)
    ensures forall k :: k in m ==> k == VPrim(LittleEndian(FromLittleEndian(k.bytes), 4))
  {
    forall k | k in m ensures k == VPrim(LittleEndian(FromLittleEndian(k.bytes), 4)) {
      FromLittleEndianRoundTrip(k.bytes);
    }
  }

  function ReadPeers(m: map<Val, Val>): map<ConnId, WorkerInfo>
    requires IsPeers(m)
  {
    KeyBytes(m);
    map c | c in (set k | k in m :: FromLittleEndian(k.bytes)) :: ReadInfo(m[VPrim(LittleEndian(c, 4))])
  }

  predicate IsBody(k: Kind, v: Val) {
    match k
    case FirstConnection => v.VField? && v.head.VField? && IsBytes(v.head.head) && |v.head.head.items| == COOKIE_LEN
    case PeersInfo => v.VField? && v.head.VDict? && IsPeers(v.head.m)
    case _ => true
  }

  lemma BodyShape(k: Kind, v: Val)
    requires HasType(BodyTy(k), v)
    ensures IsBody(k, v)
  {
    match k
    case FirstConnection =>
      var data := v.head.head;
      assert HasType(COOKIE_TY, v.head) && HasType(Array(COOKIE_LEN, Prim(1)), data);
      forall i | 0 <= i < |data.items| ensures data.items[i].VPrim? && |data.items[i].bytes| == 1 {
        assert HasType(Prim(1), data.items[i]);
      }
    case PeersInfo =>
      assert HasType(Dict(PEER_TY), v.head);
      forall k | k in v.head.m ensures k.VPrim? && |k.bytes| == 4 && IsInfo(v.head.m[k]) {
        assert HasType(Prim(4), k) && HasType(INFO_TY, v.head.m[k]);
        InfoShape(v.head.m[k]);
      }
    case _ =>
  }

  lemma InfoShape(v: Val)
    requires HasType(INFO_TY, v)
    ensures IsInfo(v)
  {
    assert HasType(DATA_SERVER_TY, v.head) && HasType(Prim(2), v.head.head);
    var addr := v.head.tail.head;
    assert HasType(Field(Vec(Prim(1)), Unit), v.head.tail) && HasType(Vec(Prim(1)), addr);
    forall i | 0 <= i < |addr.items| ensures addr.items[i].VPrim? && |addr.items[i].bytes| == 1 {
      assert HasType(Prim(1), addr.items[i]);
    }
  }

  function ReadBody(k: Kind, v: Val): Option<Message>
    requires IsBody(k, v)
  {
    match k
    case FirstConnection => Some(Hello(ReadBytes(v.head.head)))
    case FirstConnectionOk => Some(HelloOk)
    case PeersInfo => Some(PeerMap(ReadPeers(v.head.m)))
    case _ => None
  }

  predicate IsMessage(k: Kind, v: Val) {
    && v.VField? && v.head.VField? && v.head.head.VPrim? && |v.head.head.bytes| == 1
    && v.tail.VField? && IsBody(k, v.tail.head)
  }

  lemma MessageShape(k: Kind, b: seq<byte>)
    ensures WellFormed(MessageTy(k)) && HasType(MessageTy(k), Default(MessageTy(k)))
    ensures match LoadInto(MessageTy(k), Default(MessageTy(k)), b)
      case None => true
      case Some((v, rest)) => IsMessage(k, v)
  {
    MessageTyWellFormed(k);
    DefaultHasType(MessageTy(k));
    LoadedHasType(MessageTy(k), Default(MessageTy(k)), b);
    var r := LoadInto(MessageTy(k), Default(MessageTy(k)), b);
    if r.Some? {
      var v := r.value.0;
      assert HasType(HEADER_TY, v.head) && HasType(Prim(1), v.head.head);
      assert HasType(Field(BodyTy(k), Unit), v.tail) && HasType(BodyTy(k), v.tail.head);
      BodyShape(k, v.tail.head);
    }
  }

  lemma MessageTyWellFormed(k: Kind)
    ensures WellFormed(MessageTy(k)) && WellFormed(PEER_TY)
  {
    assert WellFormed(Field(Vec(Prim(1)), Unit)) && WellFormed(DATA_SERVER_TY) && WellFormed(INFO_TY);
    assert WellFormed(Dict(PEER_TY)) && WellFormed(COOKIE_TY);
    assert WellFormed(BodyTy(k)) && WellFormed(Field(BodyTy(k), Unit));
  }

  /** `from_buffer<M>`: None is an exception, for a short buffer or for another message type. */
  function FromBuffer(k: Kind, b: seq<byte>): Option<Message> {
    match LoadInto(MessageTy(k), Default(MessageTy(k)), b)
    case None => None
    case Some((v, _)) =>
      MessageShape(k, b);
      if v.head.head.bytes != [Code(k)] then None else ReadBody(k, v.tail.head)
  }

  /** `read_header_messagetype`. */
  function ReadHeaderMessageType(b: seq<byte>): Option<byte> {
    if |b| == 0 then None else Some(b[0])
  }

  lemma BytesObjTyped(s: seq<byte>)
    requires |s| < Pow256(SIZE_T)
    ensures IsObj(Vec(Prim(1)), BytesObj(s)) && IsObj(Array(|s|, Prim(1)), BytesObj(s))
    ensures forall ty :: ty == Vec(Prim(1)) || ty == Array(|s|, Prim(1)) ==>
      IsBytes(Abs(ty, BytesObj(s))) && ReadBytes(Abs(ty, BytesObj(s))) == s
  {
    forall i | 0 <= i < |s| ensures IsObj(Prim(1), BytesObj(s).items[i]) {}
    var vs := AbsAll(Prim(1), BytesObj(s).items);
    forall i | 0 <= i < |s| ensures vs[i] == VPrim([s[i]]) {}
    assert ReadBytes(VSeq(vs)) == s;
  }

  lemma InfoObjTyped(w: WorkerInfo)
    requires FitsInfo(w)
    ensures IsObj(INFO_TY, InfoObj(w))
    ensures IsInfo(Abs(INFO_TY, InfoObj(w))) && ReadInfo(Abs(INFO_TY, InfoObj(w))) == w
  {
    var o := InfoObj(w).head;
    BytesObjTyped(w.addr);
    LittleEndianRoundTrip(w.port, 2);
    assert IsObj(Unit, o.tail.tail) && IsObj(Field(Vec(Prim(1)), Unit), o.tail);
    assert IsObj(DATA_SERVER_TY, o);
    var v := Abs(DATA_SERVER_TY, o);
    assert v == VField(VPrim(LittleEndian(w.port, 2)), Abs(Field(Vec(Prim(1)), Unit), o.tail));
    assert v.tail == VField(Abs(Vec(Prim(1)), BytesObj(w.addr)), VUnit);
  }

  lemma PeerObjTyped(c: ConnId, w: WorkerInfo)
    requires c < 0x8000_0000 && FitsInfo(w)
    ensures IsObj(PEER_TY, PeerObj(c, w))
    ensures Abs(PEER_TY, PeerObj(c, w)) == VField(VPrim(LittleEndian(c, 4)), Abs(INFO_TY, InfoObj(w)))
  {
    InfoObjTyped(w);
    assert IsObj(Prim(4), PeerObj(c, w).head);
  }

  lemma ConnIdBytesInjective(a: ConnId, b: ConnId)
    requires a < 0x8000_0000 && b < 0x8000_0000
    requires LittleEndian(a, 4) == LittleEndian(b, 4)
    ensures a == b
  {
    assert Pow256(4) == 0x1_0000_0000;
    LittleEndianRoundTrip(a, 4);
    LittleEndianRoundTrip(b, 4);
  }

  ghost predicate ReadsAs(infos: map<ConnId, Val>, peers: map<ConnId, WorkerInfo>) {
    infos.Keys == peers.Keys && forall c :: c in peers ==> IsInfo(infos[c]) && ReadInfo(infos[c]) == peers[c]
  }

  function KeyVal(c: ConnId): Val { VPrim(LittleEndian(c, 4)) }

  ghost predicate ListsPeers(es: seq<Val>, infos: map<ConnId, Val>, order: seq<ConnId>) {
    && |es| == |order|
    && (forall c :: c in order <==> c in infos)
    && (forall c :: c in order ==> c < 0x8000_0000)
    && (forall i, j :: 0 <= i < j < |order| ==> order[i] != order[j])
    && (forall i :: 0 <= i < |es| ==> es[i] == VField(KeyVal(order[i]), infos[order[i]]))
  }

  lemma ListedKeysDistinct(es: seq<Val>, infos: map<ConnId, Val>, order: seq<ConnId>)
    requires ListsPeers(es, infos, order)
    ensures DistinctKeys(es)
  {
    forall i, j | 0 <= i < j < |es| ensures es[i].head != es[j].head {
      assert order[i] in order && order[j] in order;
      if es[i].head == es[j].head { ConnIdBytesInjective(order[i], order[j]); }
    }
  }

  lemma ListedLookup(es: seq<Val>, infos: map<ConnId, Val>, order: seq<ConnId>, m: map<Val, Val>)
    requires ListsPeers(es, infos, order) && m == Inserted(map[], es)
    ensures forall c :: c in infos ==> KeyVal(c) in m && m[KeyVal(c)] == infos[c]
    ensures forall k :: k in m ==> exists c :: c in infos && k == KeyVal(c)
  {
    ListedKeysDistinct(es, infos, order);
    forall c | c in infos ensures KeyVal(c) in m && m[KeyVal(c)] == infos[c] {
      var i :| 0 <= i < |order| && order[i] == c;
      assert es[i] in es;
      InsertedIsLookup(es, map[], KeyVal(c), infos[c]);
    }
    forall k | k in m ensures exists c :: c in infos && k == KeyVal(c) {
      InsertedIsLookup(es, map[], k, m[k]);
      var i :| 0 <= i < |es| && es[i] == VField(k, m[k]);
      assert order[i] in infos && k == KeyVal(order[i]);
    }
  }

  lemma PeersReadBack(infos: map<ConnId, Val>, peers: map<ConnId, WorkerInfo>, m: map<Val, Val>)
    requires ReadsAs(infos, peers) && forall c :: c in peers ==> c < 0x8000_0000
    requires forall c :: c in infos ==> KeyVal(c) in m && m[KeyVal(c)] == infos[c]
    requires forall k :: k in m ==> exists c :: c in infos && k == KeyVal(c)
    ensures IsPeers(m) && ReadPeers(m) == peers
  {
    assert Pow256(4) == 0x1_0000_0000;
    forall c | c in infos ensures FromLittleEndian(KeyVal(c).bytes) == c { LittleEndianRoundTrip(c, 4); }
    forall k | k in m ensures k.VPrim? && |k.bytes| == 4 && IsInfo(m[k]) && FromLittleEndian(k.bytes) in infos {
      var c :| c in infos && k == KeyVal(c);
    }
    var r := ReadPeers(m);
    forall c | c in peers ensures c in r && r[c] == peers[c] {
      assert KeyVal(c) in m && FromLittleEndian(KeyVal(c).bytes) == c;
    }
  }

  lemma ListedReadBack(es: seq<Val>, infos: map<ConnId, Val>, peers: map<ConnId, WorkerInfo>, order: seq<ConnId>)
    requires ListsPeers(es, infos, order) && ReadsAs(infos, peers)
    ensures DistinctKeys(es)
    ensures IsPeers(Inserted(map[], es)) && ReadPeers(Inserted(map[], es)) == peers
  {
    ListedKeysDistinct(es, infos, order);
    ListedLookup(es, infos, order, Inserted(map[], es));
    PeersReadBack(infos, peers, Inserted(map[], es));
  }

  function InfoVals(peers: map<ConnId, WorkerInfo>): map<ConnId, Val> {
    map c | c in peers :: Abs(INFO_TY, InfoObj(peers[c]))
  }

  lemma InfoValsRead(peers: map<ConnId, WorkerInfo>)
    requires forall c :: c in peers ==> FitsInfo(peers[c])
    ensures ReadsAs(InfoVals(peers), peers)
  {
    forall c | c in peers ensures IsInfo(InfoVals(peers)[c]) && ReadInfo(InfoVals(peers)[c]) == peers[c] {
      InfoObjTyped(peers[c]);
    }
  }

  lemma PeerObjsListed(peers: map<ConnId, WorkerInfo>, order: seq<ConnId>)
    requires Sendable(PeerMap(peers), order)
    ensures AllObj(PEER_TY, PeerObjs(peers, order))
    ensures ListsPeers(AbsAll(PEER_TY, PeerObjs(peers, order)), InfoVals(peers), order)
  {
    var objs := PeerObjs(peers, order);
    var es := AbsAll(PEER_TY, objs);
    forall i | 0 <= i < |order|
      ensures IsObj(PEER_TY, objs[i]) && es[i] == VField(KeyVal(order[i]), InfoVals(peers)[order[i]])
    {
      assert order[i] in peers;
      PeerObjTyped(order[i], peers[order[i]]);
    }
  }

  /** The peer map survives the wire whatever order it is walked in. */
  lemma PeersTyped(peers: map<ConnId, WorkerInfo>, order: seq<ConnId>)
    requires Sendable(PeerMap(peers), order)
    ensures IsObj(Dict(PEER_TY), ODict(PeerObjs(peers, order)))
    ensures var m := Inserted(map[], AbsAll(PEER_TY, PeerObjs(peers, order)));
      IsPeers(m) && ReadPeers(m) == peers
  {
    InfoValsRead(peers);
    PeerObjsListed(peers, order);
    ListedReadBack(AbsAll(PEER_TY, PeerObjs(peers, order)), InfoVals(peers), peers, order);
  }

  ghost predicate ReadsBack(m: Message, order: seq<ConnId>)
    requires Sendable(m, order)
  {
    var k, o := KindOf(m), BodyObj(m, order);
    IsObj(BodyTy(k), o) && IsBody(k, Abs(BodyTy(k), o)) && ReadBody(k, Abs(BodyTy(k), o)) == Some(m)
  }

  lemma HelloReadsBack(c: Cookie, order: seq<ConnId>)
    ensures ReadsBack(Hello(c), order)
  {
    var o := BodyObj(Hello(c), order);
    assert Pow256(SIZE_T) > COOKIE_LEN by { assert Pow256(1) == 256; PowGrows(1, SIZE_T); }
    BytesObjTyped(c);
    assert IsObj(COOKIE_TY, o.head) && IsObj(Unit, o.tail);
    assert Abs(COOKIE_TY, o.head) == VField(Abs(Array(COOKIE_LEN, Prim(1)), BytesObj(c)), VUnit);
  }

  lemma PeerMapReadsBack(peers: map<ConnId, WorkerInfo>, order: seq<ConnId>)
    requires Sendable(PeerMap(peers), order)
    ensures ReadsBack(PeerMap(peers), order)
  {
    var o := BodyObj(PeerMap(peers), order);
    PeersTyped(peers, order);
    assert Abs(Dict(PEER_TY), o.head) == VDict(Inserted(map[], AbsAll(PEER_TY, PeerObjs(peers, order))));
    assert IsObj(Unit, o.tail);
  }

  lemma MessageObjTyped(m: Message, order: seq<ConnId>)
    requires Sendable(m, order)
    ensures IsObj(MessageTy(KindOf(m)), MessageObj(m, order))
    ensures ReadsBack(m, order)
  {
    var k, o := KindOf(m), BodyObj(m, order);
    match m {
      case Hello(c) => HelloReadsBack(c, order);
      case HelloOk =>
      case PeerMap(peers) => PeerMapReadsBack(peers, order);
    }
    assert IsObj(Prim(1), OPrim([Code(k)])) && IsObj(HEADER_TY, HeaderObj(k));
    assert IsObj(Field(BodyTy(k), Unit), OField(o, OUnit));
  }

  lemma {:induction false} PowGrows(a: nat, b: nat)
    requires a <= b
    ensures Pow256(a) <= Pow256(b)
  {
    if a < b { PowGrows(a, b - 1); }
  }

  /** The first byte of a buffer is the type code that both readers look at. */
  lemma HeaderByte(k: Kind, b: seq<byte>)
    ensures match LoadInto(HEADER_TY, Default(HEADER_TY), b)
      case None => ReadHeaderMessageType(b) == None
      case Some((v, rest)) => ReadHeaderMessageType(b).Some? && v == VField(VPrim([b[0]]), VUnit)
    ensures FromBuffer(k, b).Some? ==> ReadHeaderMessageType(b) == Some(Code(k))
  {
    var h := LoadInto(HEADER_TY, Default(HEADER_TY), b);
    if |b| > 0 {
      assert LoadInto(Prim(1), Default(HEADER_TY).head, b) == Some((VPrim(b[..1]), b[1..]));
      assert b[..1] == [b[0]];
      assert h == Some((VField(VPrim([b[0]]), VUnit), b[1..]));
    }
    var r := LoadInto(MessageTy(k), Default(MessageTy(k)), b);
    if r.Some? {
      assert Default(MessageTy(k)).head == Default(HEADER_TY);
      assert r.value.0.head == h.value.0;
    }
  }

  /**
   * Reading back what was sent, with any bytes after it: the matching reader returns the message,
   * every other reader throws, and the header reader sees the right type.
   */
  lemma MessageRoundTrip(m: Message, order: seq<ConnId>, rest: seq<byte>)
    requires Sendable(m, order)
    ensures FromBuffer(KindOf(m), ToBuffer(m, order) + rest) == Some(m)
    ensures forall k :: k != KindOf(m) ==> FromBuffer(k, ToBuffer(m, order) + rest) == None
    ensures ReadHeaderMessageType(ToBuffer(m, order) + rest) == Some(if m.Hello? then 0 else if m.HelloOk? then 1 else 2)
  {
    var ty, o, b := MessageTy(KindOf(m)), MessageObj(m, order), ToBuffer(m, order) + rest;
    MessageObjTyped(m, order);
    MessageShape(KindOf(m), b);
    RoundTrip(ty, o, rest);
    assert Abs(ty, o) == VField(Abs(HEADER_TY, o.head), Abs(Field(BodyTy(KindOf(m)), Unit), o.tail));
    assert Abs(HEADER_TY, o.head) == VField(VPrim([Code(KindOf(m))]), VUnit);
    assert Abs(Field(BodyTy(KindOf(m)), Unit), o.tail).head == Abs(BodyTy(KindOf(m)), BodyObj(m, order));
    HeaderByte(KindOf(m), b);
    forall k | k != KindOf(m) ensures FromBuffer(k, b) == None { HeaderByte(k, b); }
  }

  lemma {:induction false} EncodedBytes(s: seq<byte>)
    ensures EncodeAll(Prim(1), BytesObj(s).items) == s
  {
    if s != [] {
      assert BytesObj(s).items[1..] == BytesObj(s[1..]).items;
      EncodedBytes(s[1..]);
      assert s == [s[0]] + s[1..];
    }
  }

  /** One entry of a peer map: connection, port, and the address behind its length. */
  function EntryBytes(c: ConnId, w: WorkerInfo): seq<byte> {
    LittleEndian(c, 4) + (LittleEndian(w.port, 2) + (LittleEndian(|w.addr|, 8) + w.addr))
  }

  function EntriesBytes(peers: map<ConnId, WorkerInfo>, order: seq<ConnId>): seq<byte>
    requires forall c :: c in order ==> c in peers
  {
    if order == [] then [] else EntryBytes(order[0], peers[order[0]]) + EntriesBytes(peers, order[1..])
  }

  lemma FieldBytes(ty: Ty, o: Obj)
    ensures Encode(Field(ty, Unit), OField(o, OUnit)) == Encode(ty, o)
  {
    assert Encode(ty, o) + [] == Encode(ty, o);
  }

  lemma EntryEncodes(c: ConnId, w: WorkerInfo)
    ensures Encode(PEER_TY, PeerObj(c, w)) == EntryBytes(c, w)
  {
    var info := InfoObj(w);
    EncodedBytes(w.addr);
    FieldBytes(Vec(Prim(1)), BytesObj(w.addr));
    FieldBytes(DATA_SERVER_TY, info.head);
    assert Encode(Vec(Prim(1)), BytesObj(w.addr)) == LittleEndian(|w.addr|, SIZE_T) + w.addr;
    assert Encode(DATA_SERVER_TY, info.head) == LittleEndian(w.port, 2) + (LittleEndian(|w.addr|, 8) + w.addr);
  }

  lemma {:induction false} EntriesEncode(peers: map<ConnId, WorkerInfo>, order: seq<ConnId>)
    requires forall c :: c in order ==> c in peers
    ensures EncodeAll(PEER_TY, PeerObjs(peers, order)) == EntriesBytes(peers, order)
  {
    if order != [] {
      assert PeerObjs(peers, order)[1..] == PeerObjs(peers, order[1..]);
      EntryEncodes(order[0], peers[order[0]]);
      EntriesEncode(peers, order[1..]);
    }
  }

  lemma BufferIsHeaderAndBody(m: Message, order: seq<ConnId>)
    requires m.PeerMap? ==> forall c :: c in order ==> c in m.peers
    ensures ToBuffer(m, order) == [Code(KindOf(m))] + Encode(BodyTy(KindOf(m)), BodyObj(m, order))
  {
    var k, o := KindOf(m), BodyObj(m, order);
    FieldBytes(Prim(1), OPrim([Code(k)]));
    FieldBytes(BodyTy(k), o);
  }

  lemma HelloBytes(c: Cookie, order: seq<ConnId>)
    ensures ToBuffer(Hello(c), order) == [0] + c
  {
    BufferIsHeaderAndBody(Hello(c), order);
    EncodedBytes(c);
    FieldBytes(Array(COOKIE_LEN, Prim(1)), BytesObj(c));
    FieldBytes(COOKIE_TY, OField(BytesObj(c), OUnit));
  }

  lemma PeerMapBytes(peers: map<ConnId, WorkerInfo>, order: seq<ConnId>)
    requires forall c :: c in order ==> c in peers
    ensures ToBuffer(PeerMap(peers), order) == [2] + (LittleEndian(|order|, 8) + EntriesBytes(peers, order))
  {
    BufferIsHeaderAndBody(PeerMap(peers), order);
    EntriesEncode(peers, order);
    FieldBytes(Dict(PEER_TY), ODict(PeerObjs(peers, order)));
  }

  /**
   * The messages byte by byte. The first byte is the type: 0 for a hello, whose cookie follows, 1 for an
   * acknowledgement, 2 for a peer map, whose number of entries and entries follow, in the order walked.
   */
  lemma MessageBytes(m: Message, order: seq<ConnId>)
    requires m.PeerMap? ==> forall c :: c in order ==> c in m.peers
    ensures ToBuffer(m, order) ==
      if m.Hello? then [0] + m.cookie
      else if m.HelloOk? then [1]
      else [2] + (LittleEndian(|order|, 8) + EntriesBytes(m.peers, order))
    ensures ReadHeaderMessageType(ToBuffer(m, order)) == Some(if m.Hello? then 0 else if m.HelloOk? then 1 else 2)
  {
    match m {
      case Hello(c) => HelloBytes(c, order);
      case HelloOk => BufferIsHeaderAndBody(m, order);
      case PeerMap(peers) => PeerMapBytes(peers, order);
    }
  }

  lemma {:induction false} PeersSize(peers: map<ConnId, WorkerInfo>, order: seq<ConnId>)
    requires forall c :: c in order ==> c in peers && peers[c].addr == []
    ensures |EncodeAll(PEER_TY, PeerObjs(peers, order))| == 14 * |order|
  {
    if order != [] {
      assert PeerObjs(peers, order)[1..] == PeerObjs(peers, order[1..]);
      PeersSize(peers, order[1..]);
      var o := PeerObjs(peers, order)[0];
      var addr := o.tail.head.tail;
      assert EncodeAll(Prim(1), addr.head.items) == [];
      assert |Encode(Vec(Prim(1)), addr.head)| == SIZE_T;
      assert |Encode(Field(Vec(Prim(1)), Unit), addr)| == SIZE_T;
      assert |Encode(DATA_SERVER_TY, o.tail.head)| == 2 + SIZE_T;
      assert |Encode(INFO_TY, o.tail)| == 2 + SIZE_T;
    }
  }

  /** Sizes on the wire. Since no address is ever sent in, each entry of a peer map takes 14 bytes. */
  lemma MessageSizes(m: Message, order: seq<ConnId>)
    requires m.PeerMap? ==> IsOrder(order, m.peers) && forall c :: c in m.peers ==> m.peers[c].addr == []
    ensures m.Hello? ==> |ToBuffer(m, order)| == 17
    ensures m.HelloOk? ==> |ToBuffer(m, order)| == 1
    ensures m.PeerMap? ==> |ToBuffer(m, order)| == 9 + 14 * |m.peers|
  {
    var k, o := KindOf(m), BodyObj(m, order);
    assert Encode(HEADER_TY, HeaderObj(k)) == [Code(k)] + [];
    assert Encode(Field(BodyTy(k), Unit), OField(o, OUnit)) == Encode(BodyTy(k), o) + [];
    match m
    case Hello(c) =>
      EncodedBytes(c);
      assert Encode(COOKIE_TY, o.head) == EncodeAll(Prim(1), BytesObj(c).items) + [];
    case HelloOk =>
    case PeerMap(peers) =>
      PeersSize(peers, order);
      OrderLength(order, peers.Keys);
  }

  lemma {:induction false} OrderLength(order: seq<ConnId>, keys: set<ConnId>)
    requires forall c :: c in order <==> c in keys
    requires forall i, j :: 0 <= i < j < |order| ==> order[i] != order[j]
    ensures |order| == |keys|
  {
    if order != [] {
      var rest := order[1..];
      forall c ensures c in rest <==> c in keys - {order[0]} {
        if c in rest { var i :| 0 <= i < |rest| && rest[i] == c; assert order[i + 1] == c; }
      }
      OrderLength(rest, keys - {order[0]});
    }
  }

  // ----- which buffers are hellos -----

  lemma {:induction false} TooShortForAll(curs: seq<Val>, b: seq<byte>)
    requires |b| < |curs|
    ensures LoadAll(Prim(1), curs, b) == None
  {
    if b != [] { TooShortForAll(curs[1..], b[1..]); }
  }

  lemma ShortHelloFails(b: seq<byte>)
    requires |b| < 17
    ensures LoadInto(MessageTy(FirstConnection), Default(MessageTy(FirstConnection)), b) == None
  {
    if b != [] {
      var cur, rest := Default(BodyTy(FirstConnection)), b[1..];
      var cookie := cur.head.head;
      TooShortForAll(Resize(Prim(1), cookie.items, COOKIE_LEN), rest);
      assert LoadInto(Array(COOKIE_LEN, Prim(1)), cookie, rest) == None;
      assert LoadInto(COOKIE_TY, cur.head, rest) == None;
      assert LoadInto(BodyTy(FirstConnection), cur, rest) == None;
      assert LoadInto(Field(BodyTy(FirstConnection), Unit), Default(Field(BodyTy(FirstConnection), Unit)), rest) == None;
      assert LoadInto(Prim(1), Default(Prim(1)), b) == Some((VPrim(b[..1]), rest));
      assert LoadInto(HEADER_TY, Default(HEADER_TY), b) == Some((VField(VPrim(b[..1]), VUnit), rest));
    }
  }

  /** Of all buffers exactly those are hellos that start with 0 and have sixteen bytes more, whatever follows. */
  lemma HelloIffBytes(b: seq<byte>)
    ensures FromBuffer(FirstConnection, b) == if |b| >= 17 && b[0] == 0 then Some(Hello(b[1..17])) else None
  {
    if |b| < 17 {
      ShortHelloFails(b);
    } else if b[0] == 0 {
      MessageBytes(Hello(b[1..17]), []);
      MessageRoundTrip(Hello(b[1..17]), [], b[17..]);
      assert b == [0] + b[1..17] + b[17..];
    } else {
      HeaderByte(FirstConnection, b);
    }
  }

  // ----- the printable cookie -----

  predicate IsHexDigit(c: char) { '0' <= c <= '9' || 'A' <= c <= 'F' }

  function DigitOf(n: nat): (c: char)
    requires n < 16
    ensures IsHexDigit(c)
  {
    "0123456789ABCDEF"[n]
  }

  function ValueOf(c: char): (n: nat)
    requires IsHexDigit(c)
    ensures n < 16
  {
    if c <= '9' then c as int - '0' as int else c as int - 'A' as int + 10
  }

  lemma DigitsInverse(n: nat, c: char)
    ensures n < 16 ==> ValueOf(DigitOf(n)) == n
    ensures IsHexDigit(c) ==> DigitOf(ValueOf(c)) == c
  {}

  /** The digits are exactly these. */
  lemma HexDigits(c: char)
    ensures IsHexDigit(c) <==> c in "0123456789ABCDEF"
  {
    if IsHexDigit(c) {
      DigitsInverse(0, c);
      assert "0123456789ABCDEF"[ValueOf(c)] == c;
    }
  }

  /** Digit `i` of the printed cookie: two per byte, high half first. */
  function Nibble(c: Cookie, i: nat): (n: nat)
    requires i < 2 * COOKIE_LEN
    ensures n < 16
  {
    if i % 2 == 0 then c[i / 2] / 16 else c[i / 2] % 16
  }

  lemma NibbleStep(c: Cookie, k: nat, high: nat, low: nat)
    requires k < COOKIE_LEN && high < 16 && low < 16
    ensures var c' := c[k := high * 16 + low];
      && Nibble(c', 2 * k) == high && Nibble(c', 2 * k + 1) == low
      && forall i :: 0 <= i < 2 * k ==> Nibble(c', i) == Nibble(c, i)
  {
    assert (high * 16 + low) / 16 == high && (high * 16 + low) % 16 == low;
  }

  ghost predicate Spells(s: string, c: Cookie) {
    |s| == 2 * COOKIE_LEN && forall i :: 0 <= i < 2 * COOKIE_LEN ==> s[i] == DigitOf(Nibble(c, i))
  }

  /** Byte by byte, the digit of the high half before that of the low half. */
  lemma SpelledByte(s: string, c: Cookie, i: nat)
    requires Spells(s, c) && i < 16
    ensures s[2 * i] == "0123456789ABCDEF"[c[i] / 16] && s[2 * i + 1] == "0123456789ABCDEF"[c[i] % 16]
  {
    assert Nibble(c, 2 * i) == c[i] / 16 && Nibble(c, 2 * i + 1) == c[i] % 16;
  }

  method ToPrintable(c: Cookie) returns (s: string)
    ensures Spells(s, c) && |s| == 32
    ensures forall i :: 0 <= i < 16 ==>
      s[2 * i] == "0123456789ABCDEF"[c[i] / 16] && s[2 * i + 1] == "0123456789ABCDEF"[c[i] % 16]
  {
    var a := new char[2 * COOKIE_LEN](_ => '0');
    for i := 0 to COOKIE_LEN
      invariant forall j :: 0 <= j < 2 * i ==> a[j] == DigitOf(Nibble(c, j))
    {
      a[2 * i] := DigitOf(c[i] / 16);
      a[2 * i + 1] := DigitOf(c[i] % 16);
    }
    s := a[..];
    forall i | 0 <= i < 16
      ensures s[2 * i] == "0123456789ABCDEF"[c[i] / 16] && s[2 * i + 1] == "0123456789ABCDEF"[c[i] % 16]
    {
      SpelledByte(s, c, i);
    }
  }

  /** None is an exception: a wrong length or a character that is no upper-case hexadecimal digit. */
  method FromPrintable(s: string) returns (r: Option<Cookie>)
    ensures r.Some? <==> |s| == 32 && forall i :: 0 <= i < |s| ==> IsHexDigit(s[i])
    ensures r.Some? ==> Spells(s, r.value)
  {
    if |s| != 2 * COOKIE_LEN { return None; }
    var data := new byte[COOKIE_LEN](_ => 0);
    var i := 0;
    while i < 2 * COOKIE_LEN
      invariant 0 <= i <= 2 * COOKIE_LEN && i % 2 == 0
      invariant forall j :: 0 <= j < i ==> IsHexDigit(s[j])
      invariant forall j :: 0 <= j < i ==> s[j] == DigitOf(Nibble(data[..], j))
    {
      if !IsHexDigit(s[i]) || !IsHexDigit(s[i + 1]) { return None; }
      var high, low := ValueOf(s[i]), ValueOf(s[i + 1]);
      NibbleStep(data[..], i / 2, high, low);
      ghost var next := data[..][i / 2 := high * 16 + low];
      data[i / 2] := high * 16 + low;
      assert data[..] == next;
      DigitsInverse(0, s[i]);
      DigitsInverse(0, s[i + 1]);
      i := i + 2;
    }
    r := Some(data[..]);
  }

  /** `Spells` is a bijection, so printing and parsing undo each other in both directions. */
  lemma SpellsBijective(s: string, c: Cookie, s': string, c': Cookie)
    requires Spells(s, c) && Spells(s', c')
    ensures s == s' <==> c == c'
  {
    if s == s' {
      forall i | 0 <= i < COOKIE_LEN ensures c[i] == c'[i] {
        forall j | j == 2 * i || j == 2 * i + 1 ensures Nibble(c, j) == Nibble(c', j) {
          assert s[j] == s'[j];
          DigitsInverse(Nibble(c, j), '0');
          DigitsInverse(Nibble(c', j), '0');
        }
        assert Nibble(c, 2 * i) == c[i] / 16 && Nibble(c, 2 * i + 1) == c[i] % 16;
      }
    }
  }

  method PrintThenParse(c: Cookie) returns (r: Option<Cookie>)
    ensures r == Some(c)
  {
    var s := ToPrintable(c);
    r := FromPrintable(s);
    SpellsBijective(s, c, s, r.value);
  }

  method ParseThenPrint(s: string) returns (r: Option<string>)
    ensures r == if |s| == 2 * COOKIE_LEN && forall i :: 0 <= i < |s| ==> IsHexDigit(s[i]) then Some(s) else None
  {
    var c := FromPrintable(s);
    if c.None? { return None; }
    var p := ToPrintable(c.value);
    SpellsBijective(p, c.value, s, c.value);
    r := Some(p);
  }
}
