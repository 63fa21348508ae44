/**
 * The whole registration on the wire, as one system: the coordinator, and for each worker both
 * directions of its connection. Hellos, heartbeats, acknowledgements and the peer map all travel as
 * frames through pumps, bytes and receive loops. Hellos with wrong cookies reach the coordinator from
 * other connections at any time.
 */
module WireRegistration {
  import opened Base
  import opened RuntimeProtocol
  import opened WireHalf
  import C = Coordinator
  import E = EndToEnd
  import F = Framing
  import P = WritePump
  import R = Registration

  /**
   * A worker's connection. `hello` is the buffer its hello is made into, `sent` what the coordinator has
   * sent on it and `order` how the peer map was walked; `worker` is None once a handler of the worker
   * has thrown.
   */
  datatype Link = Link(
    cookie: Cookie,
    hello: seq<byte>,
    up: Half,
    down: Half,
    sent: seq<Message>,
    order: seq<ConnId>,
    worker: Option<C.Worker>)

  /** `workers` are the workers' connections and `issued` the cookies, both fixed. */
  datatype Net = Net(co: C.State, links: map<ConnId, Link>, crashed: bool, workers: set<ConnId>, issued: set<Cookie>)

  function NewLink(cookie: Cookie): Link {
    Link(cookie, ToBuffer(Hello(cookie), []), NEW_HALF, NEW_HALF, [], [], Some(C.NEW_WORKER))
  }

  /** The workers hold distinct issued cookies, and there is one place for each. */
  ghost predicate WellFormed(cookies: map<ConnId, Cookie>, issued: set<Cookie>) {
    && E.FitsHeader(cookies.Keys)
    && (forall c :: c in cookies ==> c < 0x8000_0000 && cookies[c] in issued)
    && (forall c, d :: c in cookies && d in cookies && c != d ==> cookies[c] != cookies[d])
  }

  function Start(cookies: map<ConnId, Cookie>, issued: set<Cookie>): Net {
    Net(C.Init(issued, |cookies.Keys|), map c | c in cookies :: NewLink(cookies[c]), false, cookies.Keys, issued)
  }

  // ----- sending -----

  predicate CanFrame(m: Message, order: seq<ConnId>) { m.PeerMap? ==> forall c :: c in order ==> c in m.peers }

  /** The frame of a message; only a peer map is walked in any order. */
  function FrameOf(m: Message, order: seq<ConnId>, pad: seq<byte>): F.Framed
    requires CanFrame(m, order)
  {
    F.Framed(F.Body(ToBuffer(m, if m.PeerMap? then order else [])), pad)
  }

  /** `do_send_message` for each message in turn. */
  function PostHalf(h: Half, ms: seq<Message>, order: seq<ConnId>, pad: seq<byte>): Half
    requires forall m :: m in ms ==> CanFrame(m, order)
    decreases |ms|
  {
    if ms == [] then h else PostHalf(Queue(h, FrameOf(ms[0], order, pad)), ms[1..], order, pad)
  }

  predicate HasMapIn(ms: seq<Message>) { exists k :: 0 <= k < |ms| && ms[k].PeerMap? }

  function Post(x: Link, ms: seq<Message>, order: seq<ConnId>, pad: seq<byte>): Link
    requires forall m :: m in ms ==> CanFrame(m, order)
  {
    x.(down := PostHalf(x.down, ms, order, pad), sent := x.sent + ms, order := if HasMapIn(ms) then order else x.order)
  }

  // ----- steps -----

  datatype Step =
    | SayHello(c: ConnId, pad: seq<byte>)
    | SendBeat(c: ConnId, pad: seq<byte>)
    | Up(c: ConnId, step: HalfStep)
    | Down(c: ConnId, step: HalfStep)
    | UpRead(c: ConnId, port: nat, order: seq<ConnId>, pads: ConnId -> seq<byte>)
    | DownRead(c: ConnId)
    | Stranger(conn: ConnId, cookie: Cookie, port: nat)

  /** The body a completed read passes up, if it does. */
  function NewBody(h: Half): Option<seq<byte>>
    requires F.CanComplete(h.loop)
  {
    var d := ReadNext(h, false).loop.delivered;
    if |d| > |h.loop.delivered| then Some(d[|d| - 1]) else None
  }

  function Hear(n: Net, c: ConnId, body: seq<byte>, port: nat): Option<(C.State, C.Effects)> {
    C.OnMessage(n.co, c, C.HelloIn(body), port)
  }

  /** `order` is a way to walk the peer map, should this read complete the registration. */
  ghost predicate CanHear(n: Net, c: ConnId, port: nat, order: seq<ConnId>)
    requires c in n.links && F.CanComplete(n.links[c].up.loop)
  {
    match NewBody(n.links[c].up)
    case None => true
    case Some(body) =>
      match Hear(n, c, body, port)
      case None => true
      case Some((co, e)) => e.broadcast.Some? ==> e.broadcast == Some(PeerMap(co.info)) && IsOrder(order, co.info)
  }

  ghost predicate Enabled(n: Net, step: Step) {
    && !n.crashed
    && match step
       case SayHello(c, pad) => c in n.links && |pad| == 3 && n.links[c].up.frames == []
       case SendBeat(c, pad) => c in n.links && |pad| == 3 && n.links[c].up.frames != []
       case Up(c, s) => c in n.links && HalfEnabled(n.links[c].up, s)
       case Down(c, s) => c in n.links && HalfEnabled(n.links[c].down, s)
       case UpRead(c, port, order, pads) =>
         && c in n.links && F.CanComplete(n.links[c].up.loop) && port < 0x1_0000
         && (forall j :: |pads(j)| == 3) && CanHear(n, c, port, order)
       case DownRead(c) => c in n.links && F.CanComplete(n.links[c].down.loop) && n.links[c].worker.Some?
       case Stranger(conn, cookie, port) => conn !in n.links && cookie !in n.issued && port < 0x1_0000
  }

  /** The worker disconnects while it is being called with the peer map. */
  function WorkerReads(x: Link): Link
    requires F.CanComplete(x.down.loop) && x.worker.Some?
  {
    match NewBody(x.down)
    case None => x.(down := ReadNext(x.down, false))
    case Some(body) =>
      var w := C.OnWorkerBuffer(x.worker.value, body);
      x.(down := ReadNext(x.down, w.Some? && w.value.received.Some?), worker := w)
  }

  lemma CanPost(e: C.Effects, j: ConnId, order: seq<ConnId>)
    requires e.broadcast.Some? ==> CanFrame(e.broadcast.value, order)
    ensures forall m :: m in C.SentTo(e, j) ==> CanFrame(m, order)
  {}

  /** What one connection becomes when the coordinator has handled a hello read on connection `c`. */
  function AfterHello(x: Link, j: ConnId, c: ConnId, e: C.Effects, order: seq<ConnId>, pad: seq<byte>): Link
    requires e.broadcast.Some? ==> CanFrame(e.broadcast.value, order)
    requires j == c ==> F.CanComplete(x.up.loop)
  {
    CanPost(e, j, order);
    Post(if j == c then x.(up := ReadNext(x.up, e.refused == Some(c))) else x, C.SentTo(e, j), order, pad)
  }

  ghost function Apply(n: Net, step: Step): Net
    requires Enabled(n, step)
  {
    match step
    case SayHello(c, pad) => var x := n.links[c]; n.(links := n.links[c := x.(up := Queue(x.up, F.Framed(F.Body(x.hello), pad)))])
    case SendBeat(c, pad) => var x := n.links[c]; n.(links := n.links[c := x.(up := Queue(x.up, F.Framed(F.Beat, pad)))])
    case Up(c, s) => var x := n.links[c]; n.(links := n.links[c := x.(up := HalfApply(x.up, s))])
    case Down(c, s) => var x := n.links[c]; n.(links := n.links[c := x.(down := HalfApply(x.down, s))])
    case DownRead(c) => n.(links := n.links[c := WorkerReads(n.links[c])])
    case Stranger(conn, cookie, port) => n.(co := C.OnMessage(n.co, conn, Some(cookie), port).value.0)
    case UpRead(c, port, order, pads) =>
      var x := n.links[c];
      match NewBody(x.up)
      case None => n.(links := n.links[c := x.(up := ReadNext(x.up, false))])
      case Some(body) =>
        match Hear(n, c, body, port)
        case None => n.(crashed := true)
        case Some((co, e)) =>
          n.(co := co, links := map j | j in n.links :: AfterHello(n.links[j], j, c, e, order, pads(j)))
  }

  ghost predicate Reaches(n: Net, steps: seq<Step>, m: Net)
    decreases |steps|
  {
    if |steps| == 0 then n == m else Enabled(n, steps[0]) && Reaches(Apply(n, steps[0]), steps[1..], m)
  }

  // ----- the invariant -----

  predicate IsFrameOf(x: F.Framed, m: Message, order: seq<ConnId>) {
    CanFrame(m, order) && x == FrameOf(m, order, x.pad)
  }

  /** What the worker has sent, what of it has been heard, and what the coordinator made of that. */
  ghost predicate UpInv(co: C.State, c: ConnId, x: Link) {
    && HalfInv(x.up) && HelloFirst(x.up.frames, x.hello)
    && (c in co.workers <==> x.up.loop.delivered != [])
    && (x.cookie in co.cookies <==> c !in co.workers)
  }

  predicate Matches(frames: seq<F.Framed>, sent: seq<Message>, order: seq<ConnId>) {
    |frames| == |sent| && forall k :: 0 <= k < |sent| ==> IsFrameOf(frames[k], sent[k], order)
  }

  /** What the coordinator has sent travels in the frames of this half. */
  ghost predicate Carries(h: Half, sent: seq<Message>, order: seq<ConnId>) {
    HalfInv(h) && Matches(h.frames, sent, order)
  }

  ghost predicate DownInv(co: C.State, c: ConnId, x: Link) {
    && Carries(x.down, x.sent, x.order) && x.sent == R.SentWhen(co, c)
    && (co.phase == C.AtPeersInfo && c in co.workers ==> IsOrder(x.order, co.info))
    && x.worker == Some(R.WorkerAfter(|x.down.loop.delivered|, co))
    && (|x.down.loop.delivered| >= 2 ==> !x.down.loop.open)
  }

  ghost predicate LinkInv(co: C.State, c: ConnId, x: Link) { UpInv(co, c, x) && DownInv(co, c, x) }

  /** The configuration of the message-level system whose lemmas about the coordinator are used. */
  function Cfg(workers: set<ConnId>, issued: set<Cookie>): R.Config { R.Config([], [], workers, issued) }

  ghost predicate Setting(links: map<ConnId, Link>, workers: set<ConnId>, issued: set<Cookie>) {
    && links.Keys == workers
    && (forall c :: c in links ==> links[c].cookie in issued && links[c].hello == ToBuffer(Hello(links[c].cookie), []))
    && (forall c, d :: c in links && d in links && c != d ==> links[c].cookie != links[d].cookie)
  }

  ghost predicate Sized(workers: set<ConnId>) { E.FitsHeader(workers) && forall c :: c in workers ==> c < 0x8000_0000 }

  ghost predicate Links(co: C.State, links: map<ConnId, Link>) { forall c :: c in links ==> LinkInv(co, c, links[c]) }

  ghost predicate NetInv(n: Net) {
    && !n.crashed && Sized(n.workers) && Setting(n.links, n.workers, n.issued)
    && R.CoInv(Cfg(n.workers, n.issued), n.co) && Links(n.co, n.links)
  }

  lemma NewLinkInv(co: C.State, c: ConnId, cookie: Cookie)
    requires co.workers == {} && cookie in co.cookies && co.phase == C.AtFirstConnection
    ensures LinkInv(co, c, NewLink(cookie))
  {
    NewHalfInv();
  }

  lemma StartLinks(co: C.State, cookies: map<ConnId, Cookie>)
    requires co.workers == {} && co.phase == C.AtFirstConnection && forall c :: c in cookies ==> cookies[c] in co.cookies
    ensures Links(co, map c | c in cookies :: NewLink(cookies[c]))
  {
    forall c | c in cookies ensures LinkInv(co, c, NewLink(cookies[c])) { NewLinkInv(co, c, cookies[c]); }
  }

  lemma StartSetting(cookies: map<ConnId, Cookie>, issued: set<Cookie>)
    requires WellFormed(cookies, issued)
    ensures Setting(map c | c in cookies :: NewLink(cookies[c]), cookies.Keys, issued)
  {
    var links := map c | c in cookies :: NewLink(cookies[c]);
    forall c | c in links ensures links[c].cookie == cookies[c] {}
  }

  lemma StartInv(cookies: map<ConnId, Cookie>, issued: set<Cookie>)
    requires WellFormed(cookies, issued)
    ensures NetInv(Start(cookies, issued))
  {
    StartLinks(C.Init(issued, |cookies.Keys|), cookies);
    StartSetting(cookies, issued);
  }

  lemma OneLinkStays(co: C.State, links: map<ConnId, Link>, c: ConnId, y: Link)
    requires Links(co, links) && c in links && LinkInv(co, c, y)
    ensures Links(co, links[c := y])
  {
    var m := links[c := y];
    forall d | d in m ensures LinkInv(co, d, m[d]) { OtherLink(co, links, c, y, d); }
  }

  lemma OtherLink(co: C.State, links: map<ConnId, Link>, c: ConnId, y: Link, d: ConnId)
    requires Links(co, links) && c in links && LinkInv(co, c, y) && d in links
    ensures LinkInv(co, d, links[c := y][d])
  {}

  lemma OneLinkSetting(links: map<ConnId, Link>, workers: set<ConnId>, issued: set<Cookie>, c: ConnId, y: Link)
    requires Setting(links, workers, issued) && c in links && y.cookie == links[c].cookie && y.hello == links[c].hello
    ensures Setting(links[c := y], workers, issued)
  {
    var m := links[c := y];
    assert m.Keys == links.Keys;
    forall d | d in m ensures m[d].cookie == links[d].cookie && m[d].hello == links[d].hello {}
  }

  /** A step that touches one connection only. */
  lemma OneLink(n: Net, c: ConnId, y: Link)
    requires NetInv(n) && c in n.links && y.cookie == n.links[c].cookie && y.hello == n.links[c].hello
    requires LinkInv(n.co, c, y)
    ensures NetInv(n.(links := n.links[c := y]))
  {
    OneLinkSetting(n.links, n.workers, n.issued, c, y);
    OneLinkStays(n.co, n.links, c, y);
  }

  // ----- reads -----

  lemma ReadGrows(h: Half)
    requires F.CanComplete(h.loop)
    ensures var d := ReadNext(h, false).loop.delivered;
            d == h.loop.delivered + if NewBody(h).Some? then [NewBody(h).value] else []
  {}

  lemma UpReadsHello(co: C.State, c: ConnId, x: Link)
    requires UpInv(co, c, x) && F.CanComplete(x.up.loop) && NewBody(x.up).Some?
    ensures x.up.loop.delivered == [] && NewBody(x.up) == Some(x.hello)
  {
    ReadKeeps(x.up, false);
    ReadGrows(x.up);
    UpDelivers(ReadNext(x.up, false), x.hello);
  }

  lemma UpReadsNothing(co: C.State, c: ConnId, x: Link)
    requires LinkInv(co, c, x) && F.CanComplete(x.up.loop) && NewBody(x.up).None?
    ensures LinkInv(co, c, x.(up := ReadNext(x.up, false)))
  {
    ReadKeeps(x.up, false);
    ReadGrows(x.up);
  }

  lemma {:induction false} BodiesAre(xs: seq<F.Framed>)
    requires forall k :: 0 <= k < |xs| ==> xs[k].f.Body?
    ensures |F.Bodies(xs)| == |xs| && forall k :: 0 <= k < |xs| ==> F.Bodies(xs)[k] == xs[k].f.bytes
  {
    if xs != [] { BodiesAre(xs[1..]); }
  }

  function BufferOf(m: Message, order: seq<ConnId>): seq<byte>
    requires CanFrame(m, order)
  {
    ToBuffer(m, if m.PeerMap? then order else [])
  }

  /** What has been delivered at the worker's end is a prefix of what was sent. */
  lemma DeliversSent(h: Half, sent: seq<Message>, order: seq<ConnId>)
    requires Carries(h, sent, order) && |sent| <= 2
    ensures |h.loop.delivered| <= |sent|
    ensures forall k :: 0 <= k < |h.loop.delivered| ==> CanFrame(sent[k], order) && h.loop.delivered[k] == BufferOf(sent[k], order)
  {
    forall k | 0 <= k < |h.frames| ensures h.frames[k].f.Body? { assert IsFrameOf(h.frames[k], sent[k], order); }
    DownDelivers(h);
    BodiesAre(h.frames);
    forall k | 0 <= k < |h.loop.delivered|
      ensures CanFrame(sent[k], order) && h.loop.delivered[k] == BufferOf(sent[k], order)
    {
      assert IsFrameOf(h.frames[k], sent[k], order);
    }
  }

  lemma MapSendable(workers: set<ConnId>, info: map<ConnId, WorkerInfo>, order: seq<ConnId>)
    requires E.Registered(workers, info) && E.FitsHeader(workers) && IsOrder(order, info)
    ensures Sendable(PeerMap(info), order)
  {
    assert |info| == |info.Keys|;
    OrderLength(order, info.Keys);
    assert Pow256(4) == 0x1_0000_0000;
    PowGrows(4, 8);
  }

  lemma InfoRegistered(workers: set<ConnId>, issued: set<Cookie>, co: C.State)
    requires Sized(workers) && R.CoInv(Cfg(workers, issued), co) && co.phase == C.AtPeersInfo
    ensures E.Registered(workers, co.info) && co.workers == workers
  {}

  /** A worker that has handled `k` messages accepts the next it was sent. */
  lemma HandlesNext(workers: set<ConnId>, issued: set<Cookie>, co: C.State, c: ConnId, order: seq<ConnId>, k: nat)
    requires Sized(workers) && R.CoInv(Cfg(workers, issued), co)
    requires k < |R.SentWhen(co, c)| && CanFrame(R.SentWhen(co, c)[k], order)
    requires co.phase == C.AtPeersInfo && c in co.workers ==> IsOrder(order, co.info)
    ensures C.OnWorkerBuffer(R.WorkerAfter(k, co), BufferOf(R.SentWhen(co, c)[k], order)) == Some(R.WorkerAfter(k + 1, co))
  {
    if k == 0 {
      C.WorkerReadsWhatIsSent(C.NEW_WORKER, HelloOk, []);
    } else {
      InfoRegistered(workers, issued, co);
      MapSendable(workers, co.info, order);
      C.WorkerReadsWhatIsSent(R.WorkerAfter(1, co), PeerMap(co.info), order);
    }
  }

  lemma DownReadsNothing(co: C.State, c: ConnId, x: Link)
    requires DownInv(co, c, x) && F.CanComplete(x.down.loop) && NewBody(x.down).None?
    ensures DownInv(co, c, x.(down := ReadNext(x.down, false)))
  {
    ReadKeeps(x.down, false);
    ReadGrows(x.down);
  }

  lemma WorkerReadKeeps(workers: set<ConnId>, issued: set<Cookie>, co: C.State, c: ConnId, x: Link)
    requires Sized(workers) && R.CoInv(Cfg(workers, issued), co)
    requires DownInv(co, c, x) && F.CanComplete(x.down.loop) && x.worker.Some?
    ensures DownInv(co, c, WorkerReads(x)) && WorkerReads(x).up == x.up
  {
    var k := |x.down.loop.delivered|;
    ReadGrows(x.down);
    ReadKeeps(x.down, false);
    if NewBody(x.down).None? {
      DownReadsNothing(co, c, x);
    } else {
      var b := NewBody(x.down).value;
      DeliversSent(ReadNext(x.down, false), x.sent, x.order);
      assert ReadNext(x.down, false).loop.delivered[k] == b;
      HandlesNext(workers, issued, co, c, x.order, k);
      var w := C.OnWorkerBuffer(x.worker.value, b);
      ReadKeeps(x.down, w.Some? && w.value.received.Some?);
    }
  }

  // ----- a hello is handled -----

  lemma {:induction false} PostKeeps(h: Half, ms: seq<Message>, order: seq<ConnId>, pad: seq<byte>)
    requires forall m :: m in ms ==> CanFrame(m, order) && F.Sendable(FrameOf(m, order, pad))
    requires HalfInv(h)
    ensures HalfInv(PostHalf(h, ms, order, pad)) && PostHalf(h, ms, order, pad).loop == h.loop
    decreases |ms|
  {
    if ms != [] {
      QueueKeeps(h, FrameOf(ms[0], order, pad));
      PostKeeps(Queue(h, FrameOf(ms[0], order, pad)), ms[1..], order, pad);
    }
  }

  lemma MatchesOne(frames: seq<F.Framed>, sent: seq<Message>, m: Message, order: seq<ConnId>, pad: seq<byte>)
    requires CanFrame(m, order) && Matches(frames, sent, order)
    ensures Matches(frames + [FrameOf(m, order, pad)], sent + [m], order)
  {}

  lemma TailCanFrame(ms: seq<Message>, order: seq<ConnId>)
    requires ms != [] && forall m :: m in ms ==> CanFrame(m, order)
    ensures CanFrame(ms[0], order) && forall m :: m in ms[1..] ==> CanFrame(m, order)
  {
    assert ms[0] in ms && forall m :: m in ms[1..] ==> m in ms;
  }

  lemma {:induction false} PostMatches(h: Half, sent: seq<Message>, ms: seq<Message>, order: seq<ConnId>, pad: seq<byte>)
    requires (forall m :: m in ms ==> CanFrame(m, order)) && Matches(h.frames, sent, order)
    ensures Matches(PostHalf(h, ms, order, pad).frames, sent + ms, order)
    decreases |ms|
  {
    if ms == [] {
      assert sent + ms == sent;
    } else {
      TailCanFrame(ms, order);
      var x := FrameOf(ms[0], order, pad);
      MatchesOne(h.frames, sent, ms[0], order, pad);
      assert Queue(h, x).frames == h.frames + [x];
      PostMatches(Queue(h, x), sent + [ms[0]], ms[1..], order, pad);
      assert sent + [ms[0]] + ms[1..] == sent + ms;
    }
  }

  lemma AckSendable(order: seq<ConnId>, pad: seq<byte>)
    requires |pad| == 3
    ensures CanFrame(HelloOk, order) && F.Sendable(FrameOf(HelloOk, order, pad))
  {
    MessageSizes(HelloOk, []);
  }

  lemma MapFits(info: map<ConnId, WorkerInfo>, order: seq<ConnId>, pad: seq<byte>)
    requires IsOrder(order, info) && E.FitsHeader(info.Keys) && |pad| == 3
    requires forall c :: c in info ==> info[c].addr == []
    ensures CanFrame(PeerMap(info), order) && F.Sendable(FrameOf(PeerMap(info), order, pad))
  {
    MessageSizes(PeerMap(info), order);
    assert |info| == |info.Keys|;
  }

  /** The coordinator registers connection `c`: how its state and what it sends are related. */
  ghost predicate Registering(co: C.State, c: ConnId, cookie: Cookie, t: C.State, e: C.Effects, order: seq<ConnId>) {
    && R.Registers(co, c, cookie, t, e)
    && (t.phase == C.AtPeersInfo ==>
          && IsOrder(order, t.info) && E.FitsHeader(t.info.Keys) && forall d :: d in t.info ==> t.info[d].addr == [])
  }

  lemma SentFits(co: C.State, c: ConnId, cookie: Cookie, t: C.State, e: C.Effects, order: seq<ConnId>, j: ConnId, pad: seq<byte>)
    requires Registering(co, c, cookie, t, e, order) && |pad| == 3
    ensures e.broadcast.Some? ==> CanFrame(e.broadcast.value, order)
    ensures forall m :: m in C.SentTo(e, j) ==> CanFrame(m, order) && F.Sendable(FrameOf(m, order, pad))
  {
    AckSendable(order, pad);
    if t.phase == C.AtPeersInfo { MapFits(t.info, order, pad); }
  }

  /** Before the broadcast a connection carries an acknowledgement at most, which any order frames alike. */
  lemma CarriesAnyOrder(co: C.State, c: ConnId, x: Link, order: seq<ConnId>)
    requires DownInv(co, c, x) && co.phase == C.AtFirstConnection
    ensures Carries(x.down, x.sent, order) && |x.down.loop.delivered| <= 1
  {
    DeliversSent(x.down, x.sent, x.order);
    forall k | 0 <= k < |x.sent| ensures IsFrameOf(x.down.frames[k], x.sent[k], order) {
      assert IsFrameOf(x.down.frames[k], x.sent[k], x.order) && x.sent[k] == HelloOk;
    }
  }

  /** Which messages those are. */
  lemma SentIs(co: C.State, c: ConnId, cookie: Cookie, t: C.State, e: C.Effects, j: ConnId)
    requires R.Registers(co, c, cookie, t, e) && (t.phase == C.AtPeersInfo ==> j in t.workers)
    ensures HasMapIn(C.SentTo(e, j)) <==> t.phase == C.AtPeersInfo
    ensures t.phase == C.AtFirstConnection ==> forall k :: 0 <= k < |R.SentWhen(t, j)| ==> R.SentWhen(t, j)[k] == HelloOk
  {
    var ms := C.SentTo(e, j);
    if t.phase == C.AtPeersInfo { assert ms[|ms| - 1] == PeerMap(t.info); }
  }

  lemma DownAfter(co: C.State, c: ConnId, cookie: Cookie, t: C.State, e: C.Effects, order: seq<ConnId>,
      j: ConnId, x: Link, pad: seq<byte>)
    requires Registering(co, c, cookie, t, e, order) && |pad| == 3
    requires DownInv(co, j, x) && (t.phase == C.AtPeersInfo ==> j in t.workers)
    requires forall m :: m in C.SentTo(e, j) ==> CanFrame(m, order)
    ensures DownInv(t, j, Post(x, C.SentTo(e, j), order, pad))
  {
    var ms := C.SentTo(e, j);
    var y := Post(x, ms, order, pad);
    SentFits(co, c, cookie, t, e, order, j, pad);
    CarriesAnyOrder(co, j, x, order);
    R.RegisteredSends(co, c, cookie, t, e, j);
    PostKeeps(x.down, ms, order, pad);
    PostMatches(x.down, x.sent, ms, order, pad);
    SentIs(co, c, cookie, t, e, j);
    assert y.sent == R.SentWhen(t, j);
    if t.phase == C.AtFirstConnection { CarriesOwnOrder(y.down, y.sent, order, y.order); }
  }

  lemma CarriesOwnOrder(h: Half, sent: seq<Message>, order: seq<ConnId>, other: seq<ConnId>)
    requires Carries(h, sent, order) && forall k :: 0 <= k < |sent| ==> sent[k] == HelloOk
    ensures Carries(h, sent, other)
  {
    forall k | 0 <= k < |sent| ensures IsFrameOf(h.frames[k], sent[k], other) {
      assert IsFrameOf(h.frames[k], sent[k], order);
    }
  }

  lemma UpAfter(co: C.State, c: ConnId, cookie: Cookie, t: C.State, e: C.Effects, j: ConnId, x: Link)
    requires R.Registers(co, c, cookie, t, e) && UpInv(co, j, x) && (x.cookie == cookie <==> j == c)
    requires j == c ==> F.CanComplete(x.up.loop) && NewBody(x.up).Some?
    ensures UpInv(t, j, if j == c then x.(up := ReadNext(x.up, false)) else x)
  {
    if j == c {
      ReadKeeps(x.up, false);
      ReadGrows(x.up);
    }
  }

  lemma LinkAfter(co: C.State, c: ConnId, cookie: Cookie, t: C.State, e: C.Effects, order: seq<ConnId>,
      j: ConnId, x: Link, pad: seq<byte>)
    requires Registering(co, c, cookie, t, e, order) && |pad| == 3
    requires LinkInv(co, j, x) && (t.phase == C.AtPeersInfo ==> j in t.workers)
    requires x.cookie == cookie <==> j == c
    requires j == c ==> F.CanComplete(x.up.loop) && NewBody(x.up).Some?
    requires e.broadcast.Some? ==> CanFrame(e.broadcast.value, order)
    ensures var y := AfterHello(x, j, c, e, order, pad);
            LinkInv(t, j, y) && y.cookie == x.cookie && y.hello == x.hello
  {
    var z := if j == c then x.(up := ReadNext(x.up, false)) else x;
    UpAfter(co, c, cookie, t, e, j, x);
    CanPost(e, j, order);
    DownAfter(co, c, cookie, t, e, order, j, z, pad);
    assert AfterHello(x, j, c, e, order, pad) == Post(z, C.SentTo(e, j), order, pad);
  }

  /** A body read on a worker's connection is its hello, and the coordinator registers it. */
  lemma HelloHeard(n: Net, c: ConnId, port: nat, order: seq<ConnId>)
    requires NetInv(n) && c in n.links && F.CanComplete(n.links[c].up.loop) && port < 0x1_0000
    requires NewBody(n.links[c].up).Some? && CanHear(n, c, port, order)
    ensures var (x, body) := (n.links[c], NewBody(n.links[c].up).value);
            var (co, e) := C.OnHello(n.co, c, x.cookie, port);
            && Hear(n, c, body, port) == Some((co, e))
            && R.CoInv(Cfg(n.workers, n.issued), co) && Registering(n.co, c, x.cookie, co, e, order)
  {
    var x := n.links[c];
    assert LinkInv(n.co, c, x);
    UpReadsHello(n.co, c, x);
    C.HelloIsRead(x.cookie);
    assert c !in n.co.workers && n.co.phase == C.AtFirstConnection;
    R.WorkerHelloKeepsCo(Cfg(n.workers, n.issued), n.co, c, x.cookie, port);
  }

  lemma LinkAfterIn(co: C.State, links: map<ConnId, Link>, c: ConnId, t: C.State, e: C.Effects, order: seq<ConnId>,
      j: ConnId, pad: seq<byte>)
    requires Links(co, links) && c in links && j in links && |pad| == 3
    requires Registering(co, c, links[c].cookie, t, e, order) && (t.phase == C.AtPeersInfo ==> j in t.workers)
    requires links[j].cookie == links[c].cookie <==> j == c
    requires F.CanComplete(links[c].up.loop) && NewBody(links[c].up).Some?
    requires e.broadcast.Some? ==> CanFrame(e.broadcast.value, order)
    ensures var y := AfterHello(links[j], j, c, e, order, pad);
            LinkInv(t, j, y) && y.cookie == links[j].cookie && y.hello == links[j].hello
  {
    LinkAfter(co, c, links[c].cookie, t, e, order, j, links[j], pad);
  }

  ghost predicate HeardBy(links: map<ConnId, Link>, c: ConnId, e: C.Effects, order: seq<ConnId>,
      pads: ConnId -> seq<byte>, after: map<ConnId, Link>)
    requires c in links && F.CanComplete(links[c].up.loop)
    requires e.broadcast.Some? ==> CanFrame(e.broadcast.value, order)
  {
    after.Keys == links.Keys && forall j :: j in links ==> after[j] == AfterHello(links[j], j, c, e, order, pads(j))
  }

  lemma LinksAfter(co: C.State, links: map<ConnId, Link>, c: ConnId, t: C.State, e: C.Effects, order: seq<ConnId>,
      pads: ConnId -> seq<byte>, after: map<ConnId, Link>)
    requires Links(co, links) && c in links && Registering(co, c, links[c].cookie, t, e, order)
    requires F.CanComplete(links[c].up.loop) && NewBody(links[c].up).Some?
    requires forall j :: j in links ==> (links[j].cookie == links[c].cookie <==> j == c)
    requires (t.phase == C.AtPeersInfo ==> links.Keys <= t.workers) && forall j :: |pads(j)| == 3
    requires e.broadcast.Some? ==> CanFrame(e.broadcast.value, order)
    requires HeardBy(links, c, e, order, pads, after)
    ensures Links(t, after) && SameCookies(links, after)
  {
    forall j | j in after
      ensures LinkInv(t, j, after[j]) && after[j].cookie == links[j].cookie && after[j].hello == links[j].hello
    {
      LinkAfterIn(co, links, c, t, e, order, j, pads(j));
    }
  }

  /** The connections keep their cookies. */
  ghost predicate SameCookies(a: map<ConnId, Link>, b: map<ConnId, Link>) {
    a.Keys == b.Keys && forall c :: c in a ==> a[c].cookie == b[c].cookie && a[c].hello == b[c].hello
  }

  lemma SettingStays(a: map<ConnId, Link>, b: map<ConnId, Link>, workers: set<ConnId>, issued: set<Cookie>)
    requires Setting(a, workers, issued) && SameCookies(a, b)
    ensures Setting(b, workers, issued)
  {
    forall c | c in b ensures b[c].cookie == a[c].cookie && b[c].hello == a[c].hello {}
  }

  // ----- every step -----

  lemma LinkOf(n: Net, c: ConnId)
    requires NetInv(n) && c in n.links
    ensures LinkInv(n.co, c, n.links[c])
  {}

  lemma CookiesDiffer(links: map<ConnId, Link>, workers: set<ConnId>, issued: set<Cookie>, c: ConnId)
    requires Setting(links, workers, issued) && c in links
    ensures forall j :: j in links ==> (links[j].cookie == links[c].cookie <==> j == c)
  {}

  lemma HeardIs(links: map<ConnId, Link>, c: ConnId, e: C.Effects, order: seq<ConnId>, pads: ConnId -> seq<byte>)
    requires c in links && F.CanComplete(links[c].up.loop)
    requires e.broadcast.Some? ==> CanFrame(e.broadcast.value, order)
    ensures HeardBy(links, c, e, order, pads, map j | j in links :: AfterHello(links[j], j, c, e, order, pads(j)))
  {}

  lemma HearParts(co: C.State, links: map<ConnId, Link>, workers: set<ConnId>, issued: set<Cookie>,
      c: ConnId, t: C.State, e: C.Effects, order: seq<ConnId>, pads: ConnId -> seq<byte>, after: map<ConnId, Link>)
    requires Links(co, links) && Setting(links, workers, issued)
    requires c in links && Registering(co, c, links[c].cookie, t, e, order)
    requires (t.phase == C.AtPeersInfo ==> t.workers == workers) && forall j :: |pads(j)| == 3
    requires F.CanComplete(links[c].up.loop) && NewBody(links[c].up).Some?
    requires e.broadcast.Some? ==> CanFrame(e.broadcast.value, order)
    requires HeardBy(links, c, e, order, pads, after)
    ensures Links(t, after) && Setting(after, workers, issued)
  {
    CookiesDiffer(links, workers, issued, c);
    LinksAfter(co, links, c, t, e, order, pads, after);
    SettingStays(links, after, workers, issued);
  }

  lemma HearKeeps(n: Net, c: ConnId, t: C.State, e: C.Effects, order: seq<ConnId>, pads: ConnId -> seq<byte>,
      after: map<ConnId, Link>)
    requires NetInv(n) && c in n.links && Registering(n.co, c, n.links[c].cookie, t, e, order)
    requires R.CoInv(Cfg(n.workers, n.issued), t) && (forall j :: |pads(j)| == 3)
    requires F.CanComplete(n.links[c].up.loop) && NewBody(n.links[c].up).Some?
    requires e.broadcast.Some? ==> CanFrame(e.broadcast.value, order)
    requires HeardBy(n.links, c, e, order, pads, after)
    ensures NetInv(n.(co := t, links := after))
  {
    HearParts(n.co, n.links, n.workers, n.issued, c, t, e, order, pads, after);
  }

  lemma SilentReadKeeps(n: Net, c: ConnId)
    requires NetInv(n) && c in n.links && F.CanComplete(n.links[c].up.loop) && NewBody(n.links[c].up).None?
    ensures NetInv(n.(links := n.links[c := n.links[c].(up := ReadNext(n.links[c].up, false))]))
  {
    var x := n.links[c];
    LinkOf(n, c);
    UpReadsNothing(n.co, c, x);
    OneLink(n, c, x.(up := ReadNext(x.up, false)));
  }

  lemma HelloReadKeeps(n: Net, c: ConnId, port: nat, order: seq<ConnId>, pads: ConnId -> seq<byte>)
    requires c in n.links && F.CanComplete(n.links[c].up.loop) && NewBody(n.links[c].up).Some?
    requires NetInv(n) && Enabled(n, UpRead(c, port, order, pads))
    ensures NetInv(Apply(n, UpRead(c, port, order, pads)))
  {
    HelloHeard(n, c, port, order);
    var (co, e) := C.OnHello(n.co, c, n.links[c].cookie, port);
    SentFits(n.co, c, n.links[c].cookie, co, e, order, c, pads(c));
    HeardIs(n.links, c, e, order, pads);
    HearKeeps(n, c, co, e, order, pads, Apply(n, UpRead(c, port, order, pads)).links);
  }

  lemma UpReadKeeps(n: Net, c: ConnId, port: nat, order: seq<ConnId>, pads: ConnId -> seq<byte>)
    requires NetInv(n) && Enabled(n, UpRead(c, port, order, pads))
    ensures NetInv(Apply(n, UpRead(c, port, order, pads)))
  {
    if NewBody(n.links[c].up).None? {
      SilentReadKeeps(n, c);
    } else {
      HelloReadKeeps(n, c, port, order, pads);
    }
  }

  lemma QueueUpKeeps(n: Net, c: ConnId, x: F.Framed)
    requires NetInv(n) && c in n.links && F.Sendable(x)
    requires HelloFirst(n.links[c].up.frames + [x], n.links[c].hello)
    ensures NetInv(n.(links := n.links[c := n.links[c].(up := Queue(n.links[c].up, x))]))
  {
    assert LinkInv(n.co, c, n.links[c]);
    QueueKeeps(n.links[c].up, x);
    OneLink(n, c, n.links[c].(up := Queue(n.links[c].up, x)));
  }

  lemma HalfStepKeepsNet(n: Net, c: ConnId, y: Link, step: HalfStep)
    requires NetInv(n) && c in n.links
    requires var x := n.links[c];
      || (HalfEnabled(x.up, step) && y == x.(up := HalfApply(x.up, step)))
      || (HalfEnabled(x.down, step) && y == x.(down := HalfApply(x.down, step)))
    ensures NetInv(n.(links := n.links[c := y]))
  {
    var x := n.links[c];
    assert LinkInv(n.co, c, x);
    if HalfEnabled(x.up, step) { HalfStepKeeps(x.up, step); }
    if HalfEnabled(x.down, step) { HalfStepKeeps(x.down, step); }
    OneLink(n, c, y);
  }

  lemma RefusalKeeps(workers: set<ConnId>, issued: set<Cookie>, co: C.State, links: map<ConnId, Link>,
      conn: ConnId, cookie: Cookie, port: nat)
    requires R.CoInv(Cfg(workers, issued), co) && links.Keys == workers && cookie !in issued
    ensures var (t, e) := C.OnMessage(co, conn, Some(cookie), port).value;
            && R.CoInv(Cfg(workers, issued), t) && (t == co || links == map[])
            && forall j :: C.SentTo(e, j) == []
  {
    R.StrangerHelloKeepsCo(Cfg(workers, issued), co, conn, cookie, port);
  }

  /** A refusal leaves everything as it was and sends nothing on any connection. */
  lemma StrangerKeeps(n: Net, conn: ConnId, cookie: Cookie, port: nat)
    requires NetInv(n) && conn !in n.links && cookie !in n.issued
    ensures var (t, e) := C.OnMessage(n.co, conn, Some(cookie), port).value;
            NetInv(n.(co := t)) && forall j :: C.SentTo(e, j) == []
  {
    RefusalKeeps(n.workers, n.issued, n.co, n.links, conn, cookie, port);
    var t := C.OnMessage(n.co, conn, Some(cookie), port).value.0;
    assert Links(t, n.links);
  }

  lemma DownReadKeeps(n: Net, c: ConnId)
    requires NetInv(n) && c in n.links && F.CanComplete(n.links[c].down.loop) && n.links[c].worker.Some?
    ensures NetInv(n.(links := n.links[c := WorkerReads(n.links[c])]))
  {
    LinkOf(n, c);
    WorkerReadLink(n.workers, n.issued, n.co, c, n.links[c]);
    OneLink(n, c, WorkerReads(n.links[c]));
  }

  lemma WorkerReadLink(workers: set<ConnId>, issued: set<Cookie>, co: C.State, c: ConnId, x: Link)
    requires Sized(workers) && R.CoInv(Cfg(workers, issued), co)
    requires LinkInv(co, c, x) && F.CanComplete(x.down.loop) && x.worker.Some?
    ensures var y := WorkerReads(x); LinkInv(co, c, y) && y.cookie == x.cookie && y.hello == x.hello
  {
    WorkerReadKeeps(workers, issued, co, c, x);
  }

  lemma HelloFitsFrame(links: map<ConnId, Link>, workers: set<ConnId>, issued: set<Cookie>, c: ConnId, pad: seq<byte>)
    requires Setting(links, workers, issued) && c in links && |pad| == 3
    ensures F.Sendable(F.Framed(F.Body(links[c].hello), pad))
  {
    MessageSizes(Hello(links[c].cookie), []);
  }

  lemma SayHelloKeeps(n: Net, c: ConnId, pad: seq<byte>)
    requires NetInv(n) && Enabled(n, SayHello(c, pad))
    ensures NetInv(Apply(n, SayHello(c, pad)))
  {
    HelloFitsFrame(n.links, n.workers, n.issued, c, pad);
    QueueUpKeeps(n, c, F.Framed(F.Body(n.links[c].hello), pad));
  }

  lemma HelloThenBeat(frames: seq<F.Framed>, hello: seq<byte>, pad: seq<byte>)
    requires HelloFirst(frames, hello) && frames != []
    ensures HelloFirst(frames + [F.Framed(F.Beat, pad)], hello)
  {}

  lemma SendBeatKeeps(n: Net, c: ConnId, pad: seq<byte>)
    requires NetInv(n) && c in n.links && |pad| == 3 && n.links[c].up.frames != []
    ensures NetInv(n.(links := n.links[c := n.links[c].(up := Queue(n.links[c].up, F.Framed(F.Beat, pad)))]))
  {
    LinkOf(n, c);
    HelloThenBeat(n.links[c].up.frames, n.links[c].hello, pad);
    QueueUpKeeps(n, c, F.Framed(F.Beat, pad));
  }

  lemma StepKeeps(n: Net, step: Step)
    requires NetInv(n) && Enabled(n, step)
    ensures NetInv(Apply(n, step)) && Apply(n, step).workers == n.workers
  {
    match step {
      case SayHello(c, pad) => SayHelloKeeps(n, c, pad);
      case SendBeat(c, pad) => SendBeatKeeps(n, c, pad);
      case Up(c, s) => HalfStepKeepsNet(n, c, n.links[c].(up := HalfApply(n.links[c].up, s)), s);
      case Down(c, s) => HalfStepKeepsNet(n, c, n.links[c].(down := HalfApply(n.links[c].down, s)), s);
      case UpRead(c, port, order, pads) => UpReadKeeps(n, c, port, order, pads);
      case DownRead(c) => DownReadKeeps(n, c);
      case Stranger(conn, cookie, port) => StrangerKeeps(n, conn, cookie, port);
    }
  }

  lemma {:induction false} RunKeeps(n: Net, steps: seq<Step>, m: Net)
    requires NetInv(n) && Reaches(n, steps, m)
    ensures NetInv(m) && m.workers == n.workers
    decreases |steps|
  {
    if |steps| > 0 {
      StepKeeps(n, steps[0]);
      RunKeeps(Apply(n, steps[0]), steps[1..], m);
    }
  }

  // ----- the results -----

  /** No handler has thrown, and a worker that has a map has the coordinator's, with exactly the workers in it, and has disconnected. */
  ghost predicate LinkSafe(workers: set<ConnId>, co: C.State, x: Link) {
    && x.worker.Some? && x.sent <= [HelloOk, PeerMap(co.info)]
    && (x.worker.value.received.Some? ==>
          x.worker.value.received.value == co.info && co.info.Keys == workers && !x.down.loop.open)
  }

  lemma DownIsSafe(workers: set<ConnId>, issued: set<Cookie>, co: C.State, c: ConnId, x: Link)
    requires R.CoInv(Cfg(workers, issued), co) && DownInv(co, c, x)
    ensures LinkSafe(workers, co, x)
  {
    DeliversSent(x.down, x.sent, x.order);
    assert |x.down.loop.delivered| <= |R.SentWhen(co, c)|;
  }

  lemma InvIsSafe(n: Net, c: ConnId)
    requires NetInv(n) && c in n.links
    ensures LinkSafe(n.workers, n.co, n.links[c])
  {
    LinkOf(n, c);
    DownIsSafe(n.workers, n.issued, n.co, c, n.links[c]);
  }

  lemma Reached(cookies: map<ConnId, Cookie>, issued: set<Cookie>, steps: seq<Step>, n: Net)
    requires WellFormed(cookies, issued) && Reaches(Start(cookies, issued), steps, n)
    ensures NetInv(n) && n.links.Keys == n.workers == cookies.Keys
  {
    StartInv(cookies, issued);
    RunKeeps(Start(cookies, issued), steps, n);
  }

  /**
   * In every state of every run of the whole system, whatever the timing of writes, arrivals, reads,
   * heartbeats, wrong cookies, errors and closes: nobody has thrown, and every worker that has finished
   * holds the coordinator's map.
   */
  lemma WireIsSafe(cookies: map<ConnId, Cookie>, issued: set<Cookie>, steps: seq<Step>, n: Net)
    requires WellFormed(cookies, issued) && Reaches(Start(cookies, issued), steps, n)
    ensures !n.crashed && n.links.Keys == cookies.Keys
    ensures forall c :: c in n.links ==> LinkSafe(cookies.Keys, n.co, n.links[c])
  {
    Reached(cookies, issued, steps, n);
    forall c | c in n.links ensures LinkSafe(cookies.Keys, n.co, n.links[c]) { InvIsSafe(n, c); }
  }

  /**
   * Nothing more happens in this direction by itself: no write is in flight, no byte is still to come, no
   * read can complete; and no write has failed or been cut off, and no read taken away, before that.
   */
  predicate AtRest(h: Half) {
    && Untroubled(h) && h.pump.inflight.None? && h.loop.stream == OnTheWire(h.pump) && !F.CanComplete(h.loop)
  }

  predicate Untroubled(h: Half) { !h.pump.failed && !P.Cut(h.pump) && !h.loop.cut }

  /** So many bodies were delivered, whatever happened after, or else nothing more happens. */
  predicate Done(h: Half, bodies: nat) { |h.loop.delivered| >= bodies || AtRest(h) }

  /** Everything queued in this direction has been written, has arrived and has been read. */
  predicate Drained(h: Half) {
    && h.pump.queue == [] && !P.Cut(h.pump) && h.loop.stream == Flatten(h.pump.wire)
    && !F.CanComplete(h.loop) && !h.loop.cut
  }

  lemma RestIsDrained(h: Half)
    requires HalfInv(h) && AtRest(h)
    ensures Drained(h)
  {
    PumpInv(h.pump);
    assert E.Carried(h.pump) == h.pump.wire;
  }

  predicate HasMap(co: C.State, x: Link) { x.worker == Some(C.Worker(C.AtRecvWorkerInfo, Some(co.info))) }

  lemma DrainedHello(co: C.State, c: ConnId, x: Link)
    requires UpInv(co, c, x) && x.hello == ToBuffer(Hello(x.cookie), []) && x.up.frames != [] && Drained(x.up)
    ensures c in co.workers
  {
    PumpInv(x.up.pump);
    var psteps :| P.Reaches(P.Init(), psteps, x.up.pump);
    var rsteps :| F.Reaches(F.Init([]), rsteps, x.up.loop);
    E.HelloArrives(x.cookie, x.up.frames, psteps, x.up.pump, rsteps, x.up.loop);
  }

  /** The two frames of a finished coordinator. */
  lemma CarriesDown(workers: set<ConnId>, info: map<ConnId, WorkerInfo>, h: Half, order: seq<ConnId>)
    requires IsOrder(order, info) && Carries(h, [HelloOk, PeerMap(info)], order)
    ensures E.IsDown(h.frames, info, order)
  {
    assert IsFrameOf(h.frames[0], HelloOk, order) && IsFrameOf(h.frames[1], PeerMap(info), order);
    assert h.frames[0] in h.frames && h.frames[1] in h.frames;
  }

  /** What a connection that has drained has delivered of them, and what any has. */
  lemma DrainedDown(workers: set<ConnId>, info: map<ConnId, WorkerInfo>, h: Half, order: seq<ConnId>)
    requires E.Registered(workers, info) && E.FitsHeader(workers) && IsOrder(order, info)
    requires Carries(h, [HelloOk, PeerMap(info)], order)
    ensures Drained(h) ==> |h.loop.delivered| == if |workers| <= E.MAX_WORKERS then 2 else 1
    ensures |h.loop.delivered| >= 2 ==> |workers| <= E.MAX_WORKERS
  {
    CarriesDown(workers, info, h, order);
    var psteps :| P.Reaches(P.Init(), psteps, h.pump);
    var rsteps :| F.Reaches(F.Init([]), rsteps, h.loop);
    E.WireIsPrefix(F.Frames(h.frames), psteps, h.pump, h.loop.stream);
    F.FlattenFrames(h.frames);
    E.DownFits(workers, info, order, h.frames, rsteps, h.loop);
    if Drained(h) {
      E.AllWritten(h.frames, psteps, h.pump);
      E.DownCount(workers, info, order, h.frames, rsteps, h.loop);
    }
  }

  lemma DoneMap(workers: set<ConnId>, issued: set<Cookie>, co: C.State, c: ConnId, x: Link)
    requires Sized(workers) && R.CoInv(Cfg(workers, issued), co) && co.phase == C.AtPeersInfo && c in workers
    requires DownInv(co, c, x)
    ensures Drained(x.down) || |x.down.loop.delivered| >= 2 ==>
      x.worker == Some(C.Worker(C.AtRecvWorkerInfo, if |workers| <= E.MAX_WORKERS then Some(co.info) else None))
    ensures HasMap(co, x) ==> |workers| <= E.MAX_WORKERS
  {
    InfoRegistered(workers, issued, co);
    assert R.SentWhen(co, c) == [HelloOk, PeerMap(co.info)];
    DrainedDown(workers, co.info, x.down, x.order);
    DeliversSent(x.down, x.sent, x.order);
  }

  /** Before the broadcast no worker has a map. */
  lemma NoMapYet(co: C.State, c: ConnId, x: Link)
    requires DownInv(co, c, x) && co.phase == C.AtFirstConnection
    ensures !HasMap(co, x) && |x.down.loop.delivered| <= 1
  {
    DeliversSent(x.down, x.sent, x.order);
  }

  lemma LinkCompletes(n: Net, c: ConnId)
    requires NetInv(n) && c in n.links
    ensures n.co.phase == C.AtPeersInfo && Done(n.links[c].down, 2) ==>
      n.links[c].worker == Some(C.Worker(C.AtRecvWorkerInfo, if |n.workers| <= E.MAX_WORKERS then Some(n.co.info) else None))
    ensures HasMap(n.co, n.links[c]) ==> |n.workers| <= E.MAX_WORKERS
    ensures HasMap(n.co, n.links[c]) ==> n.co.phase == C.AtPeersInfo
  {
    LinkOf(n, c);
    var x := n.links[c];
    if n.co.phase == C.AtPeersInfo {
      if AtRest(x.down) { RestIsDrained(x.down); }
      DoneMap(n.workers, n.issued, n.co, c, x);
    } else {
      NoMapYet(n.co, c, x);
    }
  }

  lemma LinkRegisters(n: Net, c: ConnId)
    requires NetInv(n) && c in n.links
    ensures c in n.co.workers <==> n.links[c].up.loop.delivered != []
    ensures n.links[c].up.frames != [] && Done(n.links[c].up, 1) ==> c in n.co.workers
  {
    LinkOf(n, c);
    var x := n.links[c];
    if x.up.frames != [] && AtRest(x.up) {
      RestIsDrained(x.up);
      DrainedHello(n.co, c, x);
    }
  }

  lemma AllRegistered(workers: set<ConnId>, issued: set<Cookie>, co: C.State)
    requires R.CoInv(Cfg(workers, issued), co) && workers != {}
    ensures co.phase == C.AtPeersInfo <==> workers <= co.workers
    ensures co.phase == C.AtPeersInfo ==> co.info.Keys == workers
  {}

  /** A hello that was said is heard, unless there is trouble, by the time nothing more happens on the way up. */
  predicate HeardIfDone(up: Half) { up.frames != [] && Done(up, 1) ==> up.loop.delivered != [] }

  lemma BroadcastAt(n: Net)
    requires NetInv(n) && n.workers != {}
    ensures n.co.phase == C.AtPeersInfo <==> forall c :: c in n.links ==> n.links[c].up.loop.delivered != []
    ensures n.co.phase == C.AtPeersInfo ==> n.co.info.Keys == n.workers
    ensures forall c :: c in n.links ==> HeardIfDone(n.links[c].up)
  {
    forall c | c in n.links ensures HeardIfDone(n.links[c].up) { LinkRegisters(n, c); }
    forall c | c in n.links ensures c in n.co.workers <==> n.links[c].up.loop.delivered != [] { LinkRegisters(n, c); }
    AllRegistered(n.workers, n.issued, n.co);
  }

  /**
   * When the coordinator broadcasts: in every state of every run it has done so exactly if every
   * worker's hello has been delivered, and every hello is in the end.
   */
  lemma WireBroadcastIff(cookies: map<ConnId, Cookie>, issued: set<Cookie>, steps: seq<Step>, n: Net)
    requires WellFormed(cookies, issued) && Reaches(Start(cookies, issued), steps, n) && cookies.Keys != {}
    ensures n.co.phase == C.AtPeersInfo <==> forall c :: c in n.links ==> n.links[c].up.loop.delivered != []
    ensures n.co.phase == C.AtPeersInfo ==> n.co.info.Keys == cookies.Keys
    ensures forall c :: c in n.links ==> HeardIfDone(n.links[c].up)
  {
    Reached(cookies, issued, steps, n);
    BroadcastAt(n);
  }

  /**
   * Registration completes on the wire if and only if there are at most 584 workers, connection by
   * connection. Once the coordinator has broadcast, a worker that has been delivered both messages,
   * whatever happens to its connection after that, or on whose connection nothing more happens on the
   * way down, holds the peer map if there are at most 584 workers and waits for it without end if there
   * are more. At no moment does any worker of more than 584 hold a map.
   */
  lemma WireCompletesIff(cookies: map<ConnId, Cookie>, issued: set<Cookie>, steps: seq<Step>, n: Net, c: ConnId)
    requires WellFormed(cookies, issued) && Reaches(Start(cookies, issued), steps, n) && c in n.links
    ensures n.co.phase == C.AtPeersInfo && Done(n.links[c].down, 2) ==>
      n.links[c].worker ==
        Some(C.Worker(C.AtRecvWorkerInfo, if |cookies.Keys| <= E.MAX_WORKERS then Some(n.co.info) else None))
    ensures HasMap(n.co, n.links[c]) ==> n.co.phase == C.AtPeersInfo && |cookies.Keys| <= E.MAX_WORKERS
  {
    Reached(cookies, issued, steps, n);
    LinkCompletes(n, c);
  }
}
