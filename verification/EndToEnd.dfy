/**
 * The registration protocol over the real layers: messages encoded to buffers, queued in the write
 * pump of a connection, cut into bytes, read back by the receive loop at the other end, decoded, and
 * handed to the handlers. On the coordinator's streams, which hold no heartbeats, a client's receive
 * loop takes the same branches as a server's.
 */
module EndToEnd {
  import opened Base
  import opened RuntimeProtocol
  import C = Coordinator
  import R = Registration
  import F = Framing
  import P = WritePump
  import S = Serializer

  // ----- up: the hello -----

  /** The frames a pump has written, when the k-th write took frame `starts[k]`. */
  lemma WrittenFrames(ys: seq<F.Framed>, steps: seq<P.Step<seq<byte>>>, p: P.State<seq<byte>>) returns (xs: seq<F.Framed>)
    requires P.Reaches(P.Init(), steps, p) && p.sends == F.Frames(ys) && F.AllSendable(ys)
    ensures p.wire == F.Frames(xs) && F.AllSendable(xs)
    ensures xs != [] ==> ys != [] && xs[0] == ys[0]
  {
    P.PumpAsWritten(steps, p);
    FirstStart(steps, p);
    xs := seq(|p.wire|, k requires 0 <= k < |p.wire| => ys[p.starts[k]]);
    forall k | 0 <= k < |p.wire| ensures p.wire[k] == F.Frames(xs)[k] && F.Sendable(xs[k]) {
      assert ys[p.starts[k]] in ys;
    }
    assert p.wire == F.Frames(xs);
    forall x | x in xs ensures F.Sendable(x) {
      var k :| 0 <= k < |xs| && xs[k] == x;
    }
  }

  lemma FirstStart(steps: seq<P.Step<seq<byte>>>, p: P.State<seq<byte>>)
    requires P.Reaches(P.Init(), steps, p)
    ensures p.starts != [] ==> p.starts[0] == 0
  {
    P.ReachedInv(steps, p);
  }

  lemma FirstIsDelivered(xs: seq<F.Framed>, b: seq<byte>)
    requires F.AllSendable(xs) && xs != [] && xs[0].f == F.Body(b) && |b| <= F.BUFFER_SIZE
    ensures F.Deliverable(xs, |F.Stream(xs)|) != [] && F.Deliverable(xs, |F.Stream(xs)|)[0] == b
  {
    F.StreamLength(xs);
  }

  /**
   * Whatever a worker queues after its hello, heartbeats or anything else, and however crowded its
   * queue gets, the first body the coordinator is called with is the hello, and it reads the cookie.
   */
  lemma HelloArrives(cookie: Cookie, ys: seq<F.Framed>, psteps: seq<P.Step<seq<byte>>>, p: P.State<seq<byte>>,
      rsteps: seq<F.Step>, r: F.State)
    requires ys != [] && ys[0].f == F.Body(ToBuffer(Hello(cookie), [])) && F.AllSendable(ys)
    requires P.Reaches(P.Init(), psteps, p) && p.sends == F.Frames(ys) && p.wire != []
    requires !P.Cut(p) && F.Reaches(F.Init([]), rsteps, r) && r.stream == Flatten(p.wire)
    requires !F.CanComplete(r) && (r.cut ==> r.delivered != [])
    ensures r.delivered != [] && C.HelloIn(r.delivered[0]) == Some(cookie)
  {
    var b := ToBuffer(Hello(cookie), []);
    var xs := WrittenFrames(ys, psteps, p);
    F.FlattenFrames(xs);
    F.FramingRoundTrip(xs, rsteps, r);
    MessageSizes(Hello(cookie), []);
    FirstIsDelivered(xs, b);
    assert r.delivered[0] == b;
    C.HelloIsRead(cookie);
  }

  // ----- down: the acknowledgement and the peer map -----

  /** The largest number of workers whose peer map fits a receive buffer. */
  const MAX_WORKERS: nat := 584

  /** What a finished coordinator holds. */
  ghost predicate Registered(workers: set<ConnId>, info: map<ConnId, WorkerInfo>) {
    && info.Keys == workers
    && forall c :: c in info ==> c < 0x8000_0000 && info[c].addr == [] && info[c].port < 0x1_0000
  }

  /** The length of the peer map fits the header. */
  predicate FitsHeader(workers: set<ConnId>) { 9 + 14 * |workers| < 0x1_0000_0000 }

  lemma BroadcastRegisters(cfg: R.Config, steps: seq<R.Step>, s: R.Sys)
    requires R.WellFormed(cfg) && R.Exec(R.Start(cfg), steps) == Some(s) && s.co.phase == C.AtPeersInfo
    requires |cfg.roles| <= 0x8000_0000
    ensures Registered(cfg.workers, s.co.info)
    ensures forall i :: i in cfg.workers ==> i < |s.ends| && s.ends[i].sent == [HelloOk, PeerMap(s.co.info)]
  {
    R.InitInv(cfg);
    R.RunKeepsInv(cfg, R.Start(cfg), steps);
    forall i | i in cfg.workers ensures i < |s.ends| && s.ends[i].sent == [HelloOk, PeerMap(s.co.info)] {
      assert s.ends[i].role == cfg.roles[i] && R.EndInv(s.co, i, s.ends[i]);
    }
  }

  /** The frames those two messages travel in. */
  ghost predicate IsDown(xs: seq<F.Framed>, info: map<ConnId, WorkerInfo>, order: seq<ConnId>)
    requires forall c :: c in order ==> c in info
  {
    && |xs| == 2 && |xs[0].pad| == 3 && |xs[1].pad| == 3
    && xs[0].f == F.Body(ToBuffer(HelloOk, []))
    && xs[1].f == F.Body(ToBuffer(PeerMap(info), order))
  }

  lemma DownSizes(workers: set<ConnId>, info: map<ConnId, WorkerInfo>, order: seq<ConnId>, xs: seq<F.Framed>)
    requires Registered(workers, info) && FitsHeader(workers) && IsOrder(order, info) && IsDown(xs, info, order)
    ensures Sendable(PeerMap(info), order) && F.AllSendable(xs)
    ensures !F.TooLong(xs[0].f)
    ensures F.TooLong(xs[1].f) <==> |workers| > MAX_WORKERS
    ensures F.Fits(xs) <==> |workers| <= MAX_WORKERS
  {
    MessageSizes(HelloOk, []);
    MessageSizes(PeerMap(info), order);
    assert |info| == |info.Keys|;
    OrderLength(order, info.Keys);
    assert Pow256(S.SIZE_T) >= 0x1_0000_0000 by { assert Pow256(4) == 0x1_0000_0000; PowGrows(4, S.SIZE_T); }
    assert xs == [xs[0], xs[1]];
  }

  /** A worker handed buffers one after the other; None once a handler has thrown. */
  function Feed(w: C.Worker, bufs: seq<seq<byte>>): Option<C.Worker>
    decreases bufs
  {
    if bufs == [] then Some(w)
    else match C.OnWorkerBuffer(w, bufs[0])
      case None => None
      case Some(v) => Feed(v, bufs[1..])
  }

  lemma FeedPrefix(info: map<ConnId, WorkerInfo>, order: seq<ConnId>, bufs: seq<seq<byte>>)
    requires Sendable(PeerMap(info), order)
    requires bufs <= [ToBuffer(HelloOk, []), ToBuffer(PeerMap(info), order)]
    ensures Feed(C.NEW_WORKER, bufs) == Some(
      if bufs == [] then C.NEW_WORKER
      else C.Worker(C.AtRecvWorkerInfo, if |bufs| == 1 then None else Some(info)))
  {
    var w := C.Worker(C.AtRecvWorkerInfo, None);
    C.WorkerReadsWhatIsSent(C.NEW_WORKER, HelloOk, []);
    C.WorkerReadsWhatIsSent(w, PeerMap(info), order);
    if bufs != [] {
      assert C.OnWorkerBuffer(C.NEW_WORKER, bufs[0]) == Some(w);
      var rest := bufs[1..];
      if |bufs| == 2 {
        assert rest[0] == ToBuffer(PeerMap(info), order) && rest[1..] == [];
        assert Feed(w, rest) == Some(C.Worker(C.AtRecvWorkerInfo, Some(info)));
      }
    }
  }

  lemma DownBodies(xs: seq<F.Framed>)
    requires |xs| == 2 && xs[0].f.Body? && xs[1].f.Body? && !F.TooLong(xs[0].f) && F.AllSendable(xs)
    ensures F.Bodies(xs) == [xs[0].f.bytes, xs[1].f.bytes]
    ensures forall n: nat :: F.Deliverable(xs, n) <= F.Bodies(xs)
    ensures F.TooLong(xs[1].f) ==> forall n: nat :: |F.Deliverable(xs, n)| <= 1
    ensures F.TooLong(xs[1].f) ==> F.Deliverable(xs, |F.Stream(xs)|) == [xs[0].f.bytes]
    ensures !F.TooLong(xs[1].f) ==> F.Deliverable(xs, |F.Stream(xs)|) == F.Bodies(xs)
  {
    assert xs[1..] == [xs[1]] && xs[1..][1..] == [];
    assert F.Bodies(xs[1..]) == [xs[1].f.bytes];
    F.StreamLength(xs);
    F.StreamLength(xs[1..]);
    forall n: nat ensures F.Deliverable(xs, n) <= F.Bodies(xs) {
      if |F.Wire(xs[0])| <= n {
        var m := n - |F.Wire(xs[0])|;
        assert F.Deliverable(xs[1..], m) <= [xs[1].f.bytes];
        assert F.Deliverable(xs, n) == [xs[0].f.bytes] + F.Deliverable(xs[1..], m);
      }
    }
  }

  /** The write in flight, or the one that failed. */
  function LastStarted(p: P.State<seq<byte>>): seq<seq<byte>> {
    if |p.starts| > |p.wire| && p.starts[|p.wire|] < |p.sends| then [p.sends[p.starts[|p.wire|]]] else []
  }

  /** The writes whose bytes may be on the wire: nothing started after one was cut off gets out. */
  function Carried(p: P.State<seq<byte>>): seq<seq<byte>> { if P.Cut(p) then p.wire else p.wire + LastStarted(p) }

  /** Bytes that may be on the wire: what was written and whatever part of the last of these writes. */
  ghost predicate OnWire(p: P.State<seq<byte>>, stream: seq<byte>) { stream <= Flatten(Carried(p)) }

  lemma {:induction false} FlattenPrefix(a: seq<seq<byte>>, b: seq<seq<byte>>)
    requires a <= b
    ensures Flatten(a) <= Flatten(b)
  {
    assert b == a + b[|a|..];
    FlattenAppend(a, b[|a|..]);
  }

  lemma WireIsPrefix(frames: seq<seq<byte>>, psteps: seq<P.Step<seq<byte>>>, p: P.State<seq<byte>>, stream: seq<byte>)
    requires P.Reaches(P.Init(), psteps, p) && p.sends <= frames && |p.sends| <= 2 && OnWire(p, stream)
    ensures stream <= Flatten(frames)
  {
    P.ReachedInv(psteps, p);
    P.TwoSendsInOrder(psteps, p);
    assert !P.Crowded(p);
    P.InOrderIffShallow(p);
    var out := Carried(p);
    if LastStarted(p) != [] { assert p.starts[|p.wire|] == |p.wire|; }
    assert out <= frames;
    FlattenPrefix(out, frames);
  }

  /**
   * At every moment, for any number of workers: whatever has been handed to a worker, in whatever
   * pieces it came and however far the coordinator's writes have got, its handlers accepted it.
   */
  lemma WorkerNeverConfused(workers: set<ConnId>, info: map<ConnId, WorkerInfo>, order: seq<ConnId>, xs: seq<F.Framed>,
      psteps: seq<P.Step<seq<byte>>>, p: P.State<seq<byte>>, rsteps: seq<F.Step>, r: F.State)
    requires Registered(workers, info) && FitsHeader(workers) && IsOrder(order, info) && IsDown(xs, info, order)
    requires P.Reaches(P.Init(), psteps, p) && p.sends <= F.Frames(xs)
    requires F.Reaches(F.Init([]), rsteps, r) && OnWire(p, r.stream)
    ensures r.delivered <= [ToBuffer(HelloOk, []), ToBuffer(PeerMap(info), order)]
    ensures Feed(C.NEW_WORKER, r.delivered).Some?
    ensures Feed(C.NEW_WORKER, r.delivered).value.received in {None, Some(info)}
  {
    DownSizes(workers, info, order, xs);
    WireIsPrefix(F.Frames(xs), psteps, p, r.stream);
    F.FlattenFrames(xs);
    F.FramingRoundTrip(xs, rsteps, r);
    DownBodies(xs);
    assert F.Deliverable(xs, |r.stream|) <= F.Bodies(xs);
    FeedPrefix(info, order, r.delivered);
  }

  /**
   * Exactly when registration completes over the real layers. Take any run in which the coordinator
   * broadcasts, and any worker: once that worker's connection has drained, everything has arrived and
   * the receive loop is at rest, nobody having closed it before the map came, the worker holds the
   * peer map if and only if there are at most 584 workers. With more, the map is longer than the
   * receive buffer: the connection closes and the worker waits for good.
   */
  lemma PeerMapArrivesIff(cfg: R.Config, steps: seq<R.Step>, s: R.Sys, i: ConnId, order: seq<ConnId>,
      xs: seq<F.Framed>, psteps: seq<P.Step<seq<byte>>>, p: P.State<seq<byte>>, rsteps: seq<F.Step>, r: F.State)
    requires R.WellFormed(cfg) && R.Exec(R.Start(cfg), steps) == Some(s)
    requires s.co.phase == C.AtPeersInfo && i in cfg.workers
    requires |cfg.roles| <= 0x8000_0000 && FitsHeader(cfg.workers)
    requires IsOrder(order, s.co.info) && IsDown(xs, s.co.info, order)
    requires P.Reaches(P.Init(), psteps, p) && p.sends == F.Frames(xs) && p.queue == []
    requires !P.Cut(p) && F.Reaches(F.Init([]), rsteps, r) && r.stream == Flatten(p.wire)
    requires !F.CanComplete(r) && (r.cut ==> |r.delivered| >= 2)
    ensures i < |s.ends| && s.ends[i].sent == [HelloOk, PeerMap(s.co.info)]
    ensures Feed(C.NEW_WORKER, r.delivered) == Some(C.Worker(C.AtRecvWorkerInfo, Some(s.co.info)))
            <==> |cfg.workers| <= MAX_WORKERS
    ensures |cfg.workers| > MAX_WORKERS ==>
      !r.open && Feed(C.NEW_WORKER, r.delivered) == Some(C.Worker(C.AtRecvWorkerInfo, None))
  {
    BroadcastRegisters(cfg, steps, s);
    AllWritten(xs, psteps, p);
    DrainedDown(cfg.workers, s.co.info, order, xs, rsteps, r);
  }

  lemma AllWritten(xs: seq<F.Framed>, psteps: seq<P.Step<seq<byte>>>, p: P.State<seq<byte>>)
    requires P.Reaches(P.Init(), psteps, p) && p.sends == F.Frames(xs) && |xs| == 2 && p.queue == []
    ensures p.wire == F.Frames(xs)
  {
    P.TwoSendsInOrder(psteps, p);
  }

  lemma DrainedDown(workers: set<ConnId>, info: map<ConnId, WorkerInfo>, order: seq<ConnId>, xs: seq<F.Framed>, rsteps: seq<F.Step>, r: F.State)
    requires Registered(workers, info) && FitsHeader(workers) && IsOrder(order, info) && IsDown(xs, info, order)
    requires F.Reaches(F.Init([]), rsteps, r) && r.stream == Flatten(F.Frames(xs))
    requires !F.CanComplete(r) && (r.cut ==> |r.delivered| >= 2)
    ensures |workers| <= MAX_WORKERS ==>
      Feed(C.NEW_WORKER, r.delivered) == Some(C.Worker(C.AtRecvWorkerInfo, Some(info)))
    ensures |workers| > MAX_WORKERS ==>
      !r.open && Feed(C.NEW_WORKER, r.delivered) == Some(C.Worker(C.AtRecvWorkerInfo, None))
  {
    DownSizes(workers, info, order, xs);
    F.FlattenFrames(xs);
    F.FramingRoundTrip(xs, rsteps, r);
    DownBodies(xs);
    assert r.delivered == F.Deliverable(xs, |F.Stream(xs)|);
    FeedPrefix(info, order, r.delivered);
  }

  /** At no moment have both bodies been delivered unless the map fits. */
  lemma DownFits(workers: set<ConnId>, info: map<ConnId, WorkerInfo>, order: seq<ConnId>, xs: seq<F.Framed>,
      rsteps: seq<F.Step>, r: F.State)
    requires Registered(workers, info) && FitsHeader(workers) && IsOrder(order, info) && IsDown(xs, info, order)
    requires F.Reaches(F.Init([]), rsteps, r) && r.stream <= F.Stream(xs)
    ensures |r.delivered| >= 2 ==> |workers| <= MAX_WORKERS
  {
    DownSizes(workers, info, order, xs);
    F.FramingRoundTrip(xs, rsteps, r);
    DownBodies(xs);
  }

  /** In the end both bodies are delivered if the map fits, and the first alone if not. */
  lemma DownCount(workers: set<ConnId>, info: map<ConnId, WorkerInfo>, order: seq<ConnId>, xs: seq<F.Framed>,
      rsteps: seq<F.Step>, r: F.State)
    requires Registered(workers, info) && FitsHeader(workers) && IsOrder(order, info) && IsDown(xs, info, order)
    requires F.Reaches(F.Init([]), rsteps, r) && r.stream == Flatten(F.Frames(xs))
    requires !F.CanComplete(r) && (r.cut ==> |r.delivered| >= 2)
    ensures |r.delivered| == if |workers| <= MAX_WORKERS then 2 else 1
  {
    DownSizes(workers, info, order, xs);
    F.FlattenFrames(xs);
    F.FramingRoundTrip(xs, rsteps, r);
    DownBodies(xs);
  }
}
