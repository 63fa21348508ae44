/**
 * The wire system does not run on by itself, and does not stop short: the writes, arrivals and reads of a
 * run are bounded by the frames queued, and as long as a connection is in no trouble and not at rest, one
 * of them can happen.
 */
module WireProgress {
  import opened Base
  import opened RuntimeProtocol
  import opened WireHalf
  import opened WireRegistration
  import C = Coordinator
  import E = EndToEnd
  import F = Framing
  import P = WritePump
  import R = Registration

  // ----- one direction -----

  /** A write ends, or bytes arrive. */
  predicate HalfMove(step: HalfStep) { step.Write? || (step.Bytes? && step.chunk != []) }

  predicate Frugal(frames: seq<F.Framed>, most: nat) { forall x :: x in frames ==> |F.Wire(x)| <= most }

  /** The bytes that so many frames can put on the wire. */
  function Room(h: Half, most: nat): nat { most * |h.frames| }

  /** What can still happen in a direction whose frames take at most `most` bytes each. */
  function Left(h: Half, most: nat): int {
    |h.frames| - |h.pump.wire| + (if h.pump.failed then 0 else 1)
    + (Room(h, most) - |h.loop.stream|) + (Room(h, most) - h.loop.pos) + (if h.loop.pending.BodyRead? then 1 else 0)
  }

  lemma FramesCount(h: Half)
    requires HalfInv(h)
    ensures |h.pump.sends| == |h.frames|
  {}

  lemma WriteFalls(h: Half, end: WriteEnd, most: nat)
    requires P.Inv(h.pump) && HalfEnabled(h, Write(end))
    ensures Left(HalfApply(h, Write(end)), most) + 1 <= Left(h, most)
  {
    var p, q := h.pump, P.Apply(h.pump, PumpStepOf(end));
    assert !p.failed;
    if end.Failed? { assert q.failed && q.wire == p.wire; } else { assert |q.wire| == |p.wire| + 1 && q.failed == p.failed; }
  }

  lemma BytesFall(h: Half, chunk: seq<byte>, most: nat)
    requires HalfEnabled(h, Bytes(chunk))
    ensures Left(HalfApply(h, Bytes(chunk)), most) + |chunk| == Left(h, most)
  {}

  lemma TroubleFalls(h: Half, step: F.Step, most: nat)
    requires HalfEnabled(h, Trouble(step))
    ensures Left(HalfApply(h, Trouble(step)), most) <= Left(h, most)
  {}

  lemma HalfMoveFalls(h: Half, step: HalfStep, most: nat)
    requires HalfInv(h) && HalfEnabled(h, step)
    ensures Left(HalfApply(h, step), most) + (if HalfMove(step) then 1 else 0) <= Left(h, most)
  {
    PumpInv(h.pump);
    match step {
      case Write(end) => WriteFalls(h, end, most);
      case Bytes(chunk) => BytesFall(h, chunk, most);
      case Trouble(s) => TroubleFalls(h, s, most);
    }
  }

  lemma ReadFalls(h: Half, closes: bool, most: nat)
    requires F.CanComplete(h.loop)
    ensures Left(ReadNext(h, closes), most) + 1 <= Left(h, most)
  {
    var r, t := h.loop, F.Complete(h.loop, closes);
    F.CompleteProgress(r, closes);
    assert t.stream == r.stream && t.pos == r.pos + F.Need(r.pending);
  }

  /** Queueing a frame makes room for two moves a byte, and one for its write. */
  lemma QueueRaises(h: Half, x: F.Framed, most: nat)
    ensures Left(Queue(h, x), most) == Left(h, most) + 1 + 2 * most
  {
    assert most * (|h.frames| + 1) == most * |h.frames| + most;
  }

  lemma {:induction false} FlattenAtMost(parts: seq<seq<byte>>, most: nat)
    requires forall p :: p in parts ==> |p| <= most
    ensures |Flatten(parts)| <= most * |parts|
  {
    if parts != [] {
      FlattenAtMost(parts[1..], most);
      assert most * |parts| == most + most * (|parts| - 1);
    }
  }

  lemma MoreRoom(most: nat, a: nat, b: nat)
    requires a <= b
    ensures most * a <= most * b
  {}

  lemma CarriedAtMost(p: P.State<seq<byte>>, frames: seq<F.Framed>, most: nat)
    requires P.Inv(p) && p.sends == F.Frames(frames) && Frugal(frames, most)
    ensures |E.Carried(p)| <= |frames| && forall w :: w in E.Carried(p) ==> |w| <= most
  {
    StartedAre(p);
    forall w | w in Started(p) ensures |w| <= most {
      var k :| 0 <= k < |Started(p)| && Started(p)[k] == w;
      assert frames[p.starts[k]] in frames;
    }
    assert E.Carried(p) <= Started(p);
    forall w | w in E.Carried(p) ensures w in Started(p) {}
  }

  lemma StreamFits(h: Half, most: nat)
    requires HalfInv(h) && Frugal(h.frames, most)
    ensures |h.loop.stream| <= Room(h, most) && h.loop.pos <= |h.loop.stream|
  {
    PumpInv(h.pump);
    CarriedAtMost(h.pump, h.frames, most);
    FlattenAtMost(E.Carried(h.pump), most);
    MoreRoom(most, |E.Carried(h.pump)|, |h.frames|);
    var steps :| F.Reaches(F.Init([]), steps, h.loop);
    F.ReadsStayInside(F.Init([]), steps, h.loop);
  }

  lemma LeftIsNat(h: Half, most: nat)
    requires HalfInv(h) && Frugal(h.frames, most)
    ensures Left(h, most) >= 0
  {
    PumpInv(h.pump);
    FramesCount(h);
    StreamFits(h, most);
  }

  /** Until it is at rest, or in trouble, one of its moves can be made. */
  lemma HalfProgress(h: Half)
    requires HalfInv(h) && Untroubled(h) && !h.loop.ended && !AtRest(h)
    ensures F.CanComplete(h.loop) || exists step :: HalfEnabled(h, step) && HalfMove(step)
  {
    PumpInv(h.pump);
    if h.pump.inflight.Some? {
      assert h.pump.queue != [] && h.pump.sends != [];
      assert HalfEnabled(h, Write(Whole)) && HalfMove(Write(Whole));
    } else if h.loop.stream != OnTheWire(h.pump) {
      var chunk := OnTheWire(h.pump)[|h.loop.stream|..];
      assert h.loop.stream + chunk == OnTheWire(h.pump) && chunk != [];
      assert HalfEnabled(h, Bytes(chunk)) && HalfMove(Bytes(chunk));
    }
  }

  // ----- the system -----

  /** A write, an arrival or a read on the way up of connection `c`, and on the way down. */
  predicate UpMove(step: Step, c: ConnId) {
    match step
    case Up(d, s) => d == c && HalfMove(s)
    case UpRead(d, _, _, _) => d == c
    case _ => false
  }

  predicate DownMove(step: Step, c: ConnId) {
    match step
    case Down(d, s) => d == c && HalfMove(s)
    case DownRead(d) => d == c
    case _ => false
  }

  /** The worker queues a frame. */
  predicate Queues(step: Step, c: ConnId) {
    match step
    case SayHello(d, _) => d == c
    case SendBeat(d, _) => d == c
    case _ => false
  }

  ghost function Count(steps: seq<Step>, p: Step -> bool): nat {
    if |steps| == 0 then 0 else (if p(steps[0]) then 1 else 0) + Count(steps[1..], p)
  }

  /** What queueing so many frames of at most `most` bytes adds to what can happen. */
  function Price(most: nat, frames: int): int { (1 + 2 * most) * frames }

  lemma PriceAdds(most: nat, a: int, b: int)
    ensures Price(most, a) + Price(most, b) == Price(most, a + b)
    ensures Price(most, 0) == 0 && Price(most, 1) == 1 + 2 * most
  {}

  /** After the step the half holds `added` frames more, and can make at least one move less if it made one. */
  ghost predicate Paid(h: Half, k: Half, most: nat, added: nat, moved: bool) {
    |k.frames| == |h.frames| + added && Left(k, most) + (if moved then 1 else 0) <= Left(h, most) + Price(most, added)
  }

  lemma UnchangedPaid(h: Half, most: nat)
    ensures Paid(h, h, most, 0, false)
  {
    PriceAdds(most, 0, 0);
  }

  lemma QueuePaid(h: Half, x: F.Framed, most: nat)
    ensures Paid(h, Queue(h, x), most, 1, false)
  {
    QueueRaises(h, x, most);
    PriceAdds(most, 0, 0);
  }

  lemma HalfStepPaid(h: Half, step: HalfStep, most: nat)
    requires HalfInv(h) && HalfEnabled(h, step)
    ensures Paid(h, HalfApply(h, step), most, 0, HalfMove(step))
  {
    HalfMoveFalls(h, step, most);
    PriceAdds(most, 0, 0);
  }

  lemma ReadPaid(h: Half, closes: bool, most: nat)
    requires F.CanComplete(h.loop)
    ensures Paid(h, ReadNext(h, closes), most, 0, true)
  {
    ReadFalls(h, closes, most);
    PriceAdds(most, 0, 0);
  }

  lemma {:induction false} PostPaid(h: Half, ms: seq<Message>, order: seq<ConnId>, pad: seq<byte>, most: nat)
    requires forall m :: m in ms ==> CanFrame(m, order)
    ensures Paid(h, PostHalf(h, ms, order, pad), most, |ms|, false)
    decreases |ms|
  {
    if ms == [] {
      UnchangedPaid(h, most);
    } else {
      var k := Queue(h, FrameOf(ms[0], order, pad));
      QueuePaid(h, FrameOf(ms[0], order, pad), most);
      PostPaid(k, ms[1..], order, pad, most);
      PriceAdds(most, 1, |ms| - 1);
    }
  }

  /** What a step does to a half. */
  datatype Change = Same | Queued(x: F.Framed) | Stepped(step: HalfStep) | Heard(closes: bool)
    | Posted(ms: seq<Message>, order: seq<ConnId>, pad: seq<byte>)

  predicate CanChange(h: Half, ch: Change) {
    match ch
    case Stepped(step) => HalfEnabled(h, step)
    case Heard(_) => F.CanComplete(h.loop)
    case Posted(ms, order, _) => forall m :: m in ms ==> CanFrame(m, order)
    case _ => true
  }

  function Changed(h: Half, ch: Change): Half
    requires CanChange(h, ch)
  {
    match ch
    case Same => h
    case Queued(x) => Queue(h, x)
    case Stepped(step) => HalfApply(h, step)
    case Heard(closes) => ReadNext(h, closes)
    case Posted(ms, order, pad) => PostHalf(h, ms, order, pad)
  }

  function Added(ch: Change): nat { if ch.Queued? then 1 else if ch.Posted? then |ch.ms| else 0 }

  predicate Moved(ch: Change) { ch.Heard? || (ch.Stepped? && HalfMove(ch.step)) }

  lemma ChangePaid(h: Half, ch: Change, most: nat)
    requires HalfInv(h) && CanChange(h, ch)
    ensures Paid(h, Changed(h, ch), most, Added(ch), Moved(ch))
  {
    match ch {
      case Same => UnchangedPaid(h, most);
      case Queued(x) => QueuePaid(h, x, most);
      case Stepped(step) => HalfStepPaid(h, step, most);
      case Heard(closes) => ReadPaid(h, closes, most);
      case Posted(ms, order, pad) => PostPaid(h, ms, order, pad, most);
    }
  }

  /** What reading a hello does to every connection. */
  lemma HelloLinks(n: Net, d: ConnId, port: nat, order: seq<ConnId>, pads: ConnId -> seq<byte>, co: C.State, e: C.Effects)
    requires Enabled(n, UpRead(d, port, order, pads)) && NewBody(n.links[d].up).Some?
    requires Hear(n, d, NewBody(n.links[d].up).value, port) == Some((co, e))
    requires e.broadcast.Some? ==> CanFrame(e.broadcast.value, order)
    ensures HeardBy(n.links, d, e, order, pads, Apply(n, UpRead(d, port, order, pads)).links)
  {
    HeardIs(n.links, d, e, order, pads);
  }

  /** If a body is passed up, the coordinator accepts it, and what it broadcasts then can be framed. */
  ghost predicate HeardFits(n: Net, d: ConnId, port: nat, order: seq<ConnId>)
    requires d in n.links && F.CanComplete(n.links[d].up.loop)
  {
    match NewBody(n.links[d].up)
    case None => true
    case Some(body) =>
      match Hear(n, d, body, port)
      case None => false
      case Some((_, e)) => e.broadcast.Some? ==> CanFrame(e.broadcast.value, order)
  }

  lemma HelloFits(n: Net, d: ConnId, port: nat, order: seq<ConnId>)
    requires NetInv(n) && d in n.links && F.CanComplete(n.links[d].up.loop) && port < 0x1_0000
    requires CanHear(n, d, port, order)
    ensures HeardFits(n, d, port, order)
  {
    if NewBody(n.links[d].up).Some? {
      HelloHeard(n, d, port, order);
      var (co, e) := C.OnHello(n.co, d, n.links[d].cookie, port);
      SentFits(n.co, d, n.links[d].cookie, co, e, order, d, [0, 0, 0]);
    }
  }

  ghost predicate Becomes(h: Half, ch: Change, k: Half) { CanChange(h, ch) && k == Changed(h, ch) }

  lemma HelloChange(links: map<ConnId, Link>, d: ConnId, e: C.Effects, order: seq<ConnId>, pads: ConnId -> seq<byte>,
      after: map<ConnId, Link>, c: ConnId) returns (up: Change, down: Change)
    requires d in links && F.CanComplete(links[d].up.loop) && c in links
    requires e.broadcast.Some? ==> CanFrame(e.broadcast.value, order)
    requires HeardBy(links, d, e, order, pads, after)
    ensures c in after && Becomes(links[c].up, up, after[c].up) && Becomes(links[c].down, down, after[c].down)
    ensures Added(up) == 0 && (Moved(up) <==> d == c) && !Moved(down)
  {
    CanPost(e, c, order);
    up := if c == d then Heard(e.refused == Some(d)) else Same;
    down := Posted(C.SentTo(e, c), order, pads(c));
  }

  lemma SilentLinks(n: Net, d: ConnId, port: nat, order: seq<ConnId>, pads: ConnId -> seq<byte>)
    requires Enabled(n, UpRead(d, port, order, pads)) && NewBody(n.links[d].up).None?
    ensures var x := n.links[d];
            Apply(n, UpRead(d, port, order, pads)).links == n.links[d := x.(up := ReadNext(x.up, false))]
  {}

  /** When one connection becomes `y`, this is what any connection becomes. */
  lemma OneChange(links: map<ConnId, Link>, d: ConnId, y: Link, up: Change, down: Change, c: ConnId)
    requires d in links && c in links && Becomes(links[d].up, up, y.up) && Becomes(links[d].down, down, y.down)
    ensures var (after, u, v) := (links[d := y], if c == d then up else Same, if c == d then down else Same);
            Becomes(links[c].up, u, after[c].up) && Becomes(links[c].down, v, after[c].down)
  {}

  lemma SilentChange(n: Net, d: ConnId, port: nat, order: seq<ConnId>, pads: ConnId -> seq<byte>, c: ConnId)
      returns (up: Change)
    requires Enabled(n, UpRead(d, port, order, pads)) && NewBody(n.links[d].up).None? && c in n.links
    ensures var after := Apply(n, UpRead(d, port, order, pads)).links;
            c in after && Becomes(n.links[c].up, up, after[c].up) && Becomes(n.links[c].down, Same, after[c].down)
    ensures Added(up) == 0 && (Moved(up) <==> d == c)
  {
    var x := n.links[d];
    SilentLinks(n, d, port, order, pads);
    OneChange(n.links, d, x.(up := ReadNext(x.up, false)), Heard(false), Same, c);
    up := if c == d then Heard(false) else Same;
  }

  lemma HeardChange(n: Net, d: ConnId, port: nat, order: seq<ConnId>, pads: ConnId -> seq<byte>, c: ConnId)
      returns (up: Change, down: Change)
    requires Enabled(n, UpRead(d, port, order, pads)) && HeardFits(n, d, port, order) && c in n.links
    ensures var after := Apply(n, UpRead(d, port, order, pads)).links;
            c in after && Becomes(n.links[c].up, up, after[c].up) && Becomes(n.links[c].down, down, after[c].down)
    ensures Added(up) == 0 && (Moved(up) <==> d == c) && !Moved(down)
  {
    var after := Apply(n, UpRead(d, port, order, pads)).links;
    match NewBody(n.links[d].up) {
      case None =>
        up := SilentChange(n, d, port, order, pads, c);
        down := Same;
      case Some(body) =>
        var (co, e) := Hear(n, d, body, port).value;
        HelloLinks(n, d, port, order, pads, co, e);
        up, down := HelloChange(n.links, d, e, order, pads, after, c);
    }
  }

  lemma UpReadChange(n: Net, d: ConnId, port: nat, order: seq<ConnId>, pads: ConnId -> seq<byte>, c: ConnId)
      returns (up: Change, down: Change)
    requires NetInv(n) && Enabled(n, UpRead(d, port, order, pads)) && c in n.links
    ensures var after := Apply(n, UpRead(d, port, order, pads)).links;
            c in after && Becomes(n.links[c].up, up, after[c].up) && Becomes(n.links[c].down, down, after[c].down)
    ensures Added(up) == 0 && (Moved(up) <==> d == c) && !Moved(down)
  {
    HelloFits(n, d, port, order);
    up, down := HeardChange(n, d, port, order, pads, c);
  }

  predicate WorkerCloses(x: Link)
    requires F.CanComplete(x.down.loop) && x.worker.Some?
  {
    && NewBody(x.down).Some?
    && var w := C.OnWorkerBuffer(x.worker.value, NewBody(x.down).value); w.Some? && w.value.received.Some?
  }

  /** A step of one connection other than reading at the coordinator. */
  lemma LinkStepChange(n: Net, step: Step, c: ConnId) returns (up: Change, down: Change)
    requires Enabled(n, step) && c in n.links && !step.UpRead?
    ensures var after := Apply(n, step).links;
            c in after && Becomes(n.links[c].up, up, after[c].up) && Becomes(n.links[c].down, down, after[c].down)
    ensures Added(up) == (if Queues(step, c) then 1 else 0) && (Moved(up) <==> UpMove(step, c))
    ensures Moved(down) <==> DownMove(step, c)
  {
    up, down := Same, Same;
    match step {
      case SayHello(d, pad) => if d == c { up := Queued(F.Framed(F.Body(n.links[c].hello), pad)); }
      case SendBeat(d, pad) => if d == c { up := Queued(F.Framed(F.Beat, pad)); }
      case Up(d, s) => if d == c { up := Stepped(s); }
      case Down(d, s) => if d == c { down := Stepped(s); }
      case DownRead(d) => if d == c { down := Heard(WorkerCloses(n.links[c])); }
      case Stranger(_, _, _) =>
    }
  }

  lemma StepChange(n: Net, step: Step, c: ConnId) returns (up: Change, down: Change)
    requires NetInv(n) && Enabled(n, step) && c in n.links
    ensures var after := Apply(n, step).links;
            c in after && Becomes(n.links[c].up, up, after[c].up) && Becomes(n.links[c].down, down, after[c].down)
    ensures Added(up) == (if Queues(step, c) then 1 else 0) && (Moved(up) <==> UpMove(step, c))
    ensures Moved(down) <==> DownMove(step, c)
  {
    if step.UpRead? {
      up, down := UpReadChange(n, step.c, step.port, step.order, step.pads, c);
    } else {
      up, down := LinkStepChange(n, step, c);
    }
  }

  lemma HalvesInv(n: Net, c: ConnId)
    requires NetInv(n) && c in n.links
    ensures HalfInv(n.links[c].up) && HalfInv(n.links[c].down)
  {
    LinkOf(n, c);
  }

  lemma StepPaid(n: Net, step: Step, c: ConnId, upMost: nat, downMost: nat) returns (posted: nat)
    requires NetInv(n) && Enabled(n, step) && c in n.links
    ensures var (x, after) := (n.links[c], Apply(n, step).links);
            && c in after
            && Paid(x.up, after[c].up, upMost, if Queues(step, c) then 1 else 0, UpMove(step, c))
            && Paid(x.down, after[c].down, downMost, posted, DownMove(step, c))
  {
    var up, down := StepChange(n, step, c);
    HalvesInv(n, c);
    ChangePaid(n.links[c].up, up, upMost);
    ChangePaid(n.links[c].down, down, downMost);
    posted := Added(down);
  }

  /** What a whole run does to one half. */
  ghost predicate PaidRun(h: Half, k: Half, most: nat, moves: nat) {
    |k.frames| >= |h.frames| && moves + Left(k, most) <= Left(h, most) + Price(most, |k.frames| - |h.frames|)
  }

  lemma PaidThenRun(h: Half, k: Half, l: Half, most: nat, added: nat, moved: bool, moves: nat)
    requires Paid(h, k, most, added, moved) && PaidRun(k, l, most, moves)
    ensures PaidRun(h, l, most, moves + if moved then 1 else 0)
  {
    PriceAdds(most, added, |l.frames| - |k.frames|);
  }

  lemma {:induction false} UpRun(n: Net, steps: seq<Step>, m: Net, c: ConnId, most: nat)
    requires NetInv(n) && Reaches(n, steps, m) && c in n.links
    ensures c in m.links && PaidRun(n.links[c].up, m.links[c].up, most, Count(steps, step => UpMove(step, c)))
    ensures |m.links[c].up.frames| == |n.links[c].up.frames| + Count(steps, step => Queues(step, c))
    decreases |steps|
  {
    if |steps| == 0 {
      PriceAdds(most, 0, 0);
    } else {
      var k := Apply(n, steps[0]);
      StepKeeps(n, steps[0]);
      var _ := StepPaid(n, steps[0], c, most, 0);
      UpRun(k, steps[1..], m, c, most);
      PaidThenRun(n.links[c].up, k.links[c].up, m.links[c].up, most,
        if Queues(steps[0], c) then 1 else 0, UpMove(steps[0], c), Count(steps[1..], step => UpMove(step, c)));
    }
  }

  lemma {:induction false} DownRun(n: Net, steps: seq<Step>, m: Net, c: ConnId, most: nat)
    requires NetInv(n) && Reaches(n, steps, m) && c in n.links
    ensures c in m.links && PaidRun(n.links[c].down, m.links[c].down, most, Count(steps, step => DownMove(step, c)))
    decreases |steps|
  {
    if |steps| == 0 {
      PriceAdds(most, 0, 0);
    } else {
      var k := Apply(n, steps[0]);
      StepKeeps(n, steps[0]);
      var added := StepPaid(n, steps[0], c, 0, most);
      DownRun(k, steps[1..], m, c, most);
      PaidThenRun(n.links[c].down, k.links[c].down, m.links[c].down, most, added, DownMove(steps[0], c),
        Count(steps[1..], step => DownMove(step, c)));
    }
  }

  // ----- how large the frames are -----

  lemma UpFramesFrugal(n: Net, c: ConnId)
    requires NetInv(n) && c in n.links
    ensures Frugal(n.links[c].up.frames, 25)
  {
    LinkOf(n, c);
    MessageSizes(Hello(n.links[c].cookie), []);
    UpFrugal(n.links[c].up, n.links[c].hello);
  }

  lemma UpFrugal(h: Half, hello: seq<byte>)
    requires F.AllSendable(h.frames) && HelloFirst(h.frames, hello) && |hello| <= 17
    ensures Frugal(h.frames, 25)
  {
    forall f | f in h.frames ensures |F.Wire(f)| <= 25 {
      var k :| 0 <= k < |h.frames| && h.frames[k] == f;
      F.WireLength(f);
    }
  }

  /** The bytes of the longest frame on the way down, the peer map's. */
  function MapFrame(workers: nat): nat { 17 + 14 * workers }

  lemma DownFramesFrugal(n: Net, c: ConnId)
    requires NetInv(n) && c in n.links
    ensures Frugal(n.links[c].down.frames, MapFrame(|n.workers|)) && |n.links[c].down.frames| <= 2
  {
    LinkOf(n, c);
    DownFrugal(n.workers, n.issued, n.co, c, n.links[c]);
  }

  lemma DownFrugal(workers: set<ConnId>, issued: set<Cookie>, co: C.State, c: ConnId, x: Link)
    requires Sized(workers) && R.CoInv(Cfg(workers, issued), co) && DownInv(co, c, x)
    ensures Frugal(x.down.frames, MapFrame(|workers|)) && |x.down.frames| <= 2
  {
    forall f | f in x.down.frames ensures |F.Wire(f)| <= MapFrame(|workers|) {
      var k :| 0 <= k < |x.down.frames| && x.down.frames[k] == f;
      assert IsFrameOf(f, x.sent[k], x.order);
      F.WireLength(f);
      if k == 0 {
        MessageSizes(HelloOk, []);
      } else {
        InfoRegistered(workers, issued, co);
        MessageSizes(PeerMap(co.info), x.order);
        assert |co.info| == |co.info.Keys|;
      }
    }
  }

  /** What a new half has been through by the time it holds these frames. */
  lemma PaidInAll(k: Half, most: nat, moves: nat)
    requires HalfInv(k) && Frugal(k.frames, most) && PaidRun(NEW_HALF, k, most, moves)
    ensures moves <= 1 + Price(most, |k.frames|)
  {
    LeftIsNat(k, most);
    assert Left(NEW_HALF, most) == 1;
  }

  lemma UpInAll(k: Half, moves: nat)
    requires HalfInv(k) && Frugal(k.frames, 25) && PaidRun(NEW_HALF, k, 25, moves)
    ensures moves <= 1 + 51 * |k.frames|
  {
    PaidInAll(k, 25, moves);
  }

  lemma DownInAll(k: Half, workers: nat, moves: nat)
    requires HalfInv(k) && |k.frames| <= 2
    requires Frugal(k.frames, MapFrame(workers)) && PaidRun(NEW_HALF, k, MapFrame(workers), moves)
    ensures moves <= 71 + 56 * workers
  {
    PaidInAll(k, MapFrame(workers), moves);
    MoreRoom(1 + 2 * MapFrame(workers), |k.frames|, 2);
  }

  lemma UpBounded(s: Net, steps: seq<Step>, n: Net, c: ConnId)
    requires NetInv(s) && Reaches(s, steps, n) && c in s.links && s.links[c].up == NEW_HALF
    ensures Count(steps, step => UpMove(step, c)) <= 1 + 51 * Count(steps, step => Queues(step, c))
  {
    RunKeeps(s, steps, n);
    UpRun(s, steps, n, c, 25);
    UpFramesFrugal(n, c);
    HalvesInv(n, c);
    UpInAll(n.links[c].up, Count(steps, step => UpMove(step, c)));
  }

  lemma DownBounded(s: Net, steps: seq<Step>, n: Net, c: ConnId)
    requires NetInv(s) && Reaches(s, steps, n) && c in s.links && s.links[c].down == NEW_HALF
    ensures Count(steps, step => DownMove(step, c)) <= 71 + 56 * |s.workers|
  {
    RunKeeps(s, steps, n);
    DownRun(s, steps, n, c, MapFrame(|s.workers|));
    DownFramesFrugal(n, c);
    HalvesInv(n, c);
    DownInAll(n.links[c].down, |s.workers|, Count(steps, step => DownMove(step, c)));
  }

  lemma StartsNew(cookies: map<ConnId, Cookie>, issued: set<Cookie>, c: ConnId)
    requires c in cookies
    ensures var s := Start(cookies, issued);
            && c in s.links && s.links[c].up == NEW_HALF && s.links[c].down == NEW_HALF && s.workers == cookies.Keys
  {}

  /**
   * No run goes on by itself. With N workers, on each connection the writes, arrivals and reads on the
   * way up are at most 51 for each frame the worker queues, and one; those on the way down are at most
   * 71 + 56 N in all. What else can happen is a worker's next heartbeat, trouble, or a stranger.
   */
  lemma WireRunsAreBounded(cookies: map<ConnId, Cookie>, issued: set<Cookie>, steps: seq<Step>, n: Net, c: ConnId)
    requires WellFormed(cookies, issued) && Reaches(Start(cookies, issued), steps, n) && c in cookies
    ensures Count(steps, step => UpMove(step, c)) <= 1 + 51 * Count(steps, step => Queues(step, c))
    ensures Count(steps, step => DownMove(step, c)) <= 71 + 56 * |cookies.Keys|
  {
    StartInv(cookies, issued);
    StartsNew(cookies, issued, c);
    UpBounded(Start(cookies, issued), steps, n, c);
    DownBounded(Start(cookies, issued), steps, n, c);
  }

  // ----- progress -----

  lemma {:induction false} AnOrder(keys: set<ConnId>) returns (order: seq<ConnId>)
    ensures forall c :: c in order <==> c in keys
    ensures forall i, j :: 0 <= i < j < |order| ==> order[i] != order[j]
    decreases |keys|
  {
    if keys == {} {
      order := [];
    } else {
      var c :| c in keys;
      var rest := AnOrder(keys - {c});
      order := [c] + rest;
    }
  }

  lemma BroadcastsMap(s: C.State, conn: ConnId, hello: Option<Cookie>, port: nat)
    requires C.OnMessage(s, conn, hello, port).Some?
    ensures var (t, e) := C.OnMessage(s, conn, hello, port).value;
            e.broadcast.Some? ==> e.broadcast == Some(PeerMap(t.info))
  {}

  lemma SomeOrder(n: Net, c: ConnId) returns (order: seq<ConnId>)
    requires c in n.links && F.CanComplete(n.links[c].up.loop)
    ensures CanHear(n, c, 0, order)
  {
    order := [];
    if NewBody(n.links[c].up).Some? {
      var hello := C.HelloIn(NewBody(n.links[c].up).value);
      var r := C.OnMessage(n.co, c, hello, 0);
      if r.Some? {
        BroadcastsMap(n.co, c, hello, 0);
        order := AnOrder(r.value.0.info.Keys);
      }
    }
  }

  /** Bytes a read is waiting for can be handled, whatever they say. */
  lemma CanAlwaysHear(n: Net, c: ConnId) returns (step: Step)
    requires !n.crashed && c in n.links && F.CanComplete(n.links[c].up.loop)
    ensures Enabled(n, step) && UpMove(step, c)
  {
    var order := SomeOrder(n, c);
    step := UpRead(c, 0, order, _ => [0, 0, 0]);
  }

  /**
   * Nothing stops short. In every state of every run a worker that has not said its hello can; and as
   * long as a direction of a connection is in no trouble and not at rest, a write, an arrival or a read
   * can happen in it.
   */
  lemma WireNeverStopsShort(cookies: map<ConnId, Cookie>, issued: set<Cookie>, steps: seq<Step>, n: Net, c: ConnId)
    requires WellFormed(cookies, issued) && Reaches(Start(cookies, issued), steps, n) && c in n.links
    ensures n.links[c].up.frames == [] ==> Enabled(n, SayHello(c, [0, 0, 0]))
    ensures Untroubled(n.links[c].up) && !n.links[c].up.loop.ended ==>
      AtRest(n.links[c].up) || exists step :: Enabled(n, step) && UpMove(step, c)
    ensures Untroubled(n.links[c].down) && !n.links[c].down.loop.ended ==>
      AtRest(n.links[c].down) || exists step :: Enabled(n, step) && DownMove(step, c)
  {
    Reached(cookies, issued, steps, n);
    UpProgress(n, c);
    DownProgress(n, c);
  }

  lemma UpProgress(n: Net, c: ConnId)
    requires NetInv(n) && c in n.links
    ensures Untroubled(n.links[c].up) && !n.links[c].up.loop.ended ==>
      AtRest(n.links[c].up) || exists step :: Enabled(n, step) && UpMove(step, c)
  {
    LinkOf(n, c);
    var h := n.links[c].up;
    if Untroubled(h) && !h.loop.ended && !AtRest(h) {
      HalfProgress(h);
      if F.CanComplete(h.loop) {
        var step := CanAlwaysHear(n, c);
      } else {
        var s :| HalfEnabled(h, s) && HalfMove(s);
        assert Enabled(n, Up(c, s)) && UpMove(Up(c, s), c);
      }
    }
  }

  lemma DownProgress(n: Net, c: ConnId)
    requires NetInv(n) && c in n.links
    ensures Untroubled(n.links[c].down) && !n.links[c].down.loop.ended ==>
      AtRest(n.links[c].down) || exists step :: Enabled(n, step) && DownMove(step, c)
  {
    LinkOf(n, c);
    InvIsSafe(n, c);
    var h := n.links[c].down;
    if Untroubled(h) && !h.loop.ended && !AtRest(h) {
      HalfProgress(h);
      if F.CanComplete(h.loop) {
        assert Enabled(n, DownRead(c)) && DownMove(DownRead(c), c);
      } else {
        var s :| HalfEnabled(h, s) && HalfMove(s);
        assert Enabled(n, Down(c, s)) && DownMove(Down(c, s), c);
      }
    }
  }

  // ----- the end -----

  /** What the system does by itself: everything but trouble, strangers and heartbeats. */
  predicate Moves(step: Step) {
    match step
    case SayHello(_, _) => true
    case SendBeat(_, _) => false
    case Up(_, s) => HalfMove(s)
    case Down(_, s) => HalfMove(s)
    case UpRead(_, _, _, _) => true
    case DownRead(_) => true
    case Stranger(_, _, _) => false
  }

  /** There was no trouble in this direction before it had delivered so many bodies. */
  predicate Sound(h: Half, bodies: nat) { |h.loop.delivered| >= bodies || (Untroubled(h) && !h.loop.ended) }

  ghost predicate Still(n: Net) { forall step :: Enabled(n, step) ==> !Moves(step) }

  lemma StillUp(n: Net, c: ConnId)
    requires NetInv(n) && c in n.links && Still(n) && Sound(n.links[c].up, 1)
    ensures Done(n.links[c].up, 1)
  {
    UpProgress(n, c);
    if exists step :: Enabled(n, step) && UpMove(step, c) {
      var step :| Enabled(n, step) && UpMove(step, c);
      assert Moves(step);
    }
  }

  lemma StillDown(n: Net, c: ConnId)
    requires NetInv(n) && c in n.links && Still(n) && Sound(n.links[c].down, 2)
    ensures Done(n.links[c].down, 2)
  {
    DownProgress(n, c);
    if exists step :: Enabled(n, step) && DownMove(step, c) {
      var step :| Enabled(n, step) && DownMove(step, c);
      assert Moves(step);
    }
  }

  lemma StillSaid(n: Net, c: ConnId)
    requires !n.crashed && c in n.links && Still(n)
    ensures n.links[c].up.frames != []
  {
    assert !Enabled(n, SayHello(c, [0, 0, 0])) by { assert Moves(SayHello(c, [0, 0, 0])); }
  }

  lemma StillHeard(n: Net, c: ConnId)
    requires NetInv(n) && c in n.links && Still(n) && Sound(n.links[c].up, 1)
    ensures n.links[c].up.loop.delivered != []
  {
    StillUp(n, c);
    StillSaid(n, c);
    LinkRegisters(n, c);
  }

  lemma StillEnds(n: Net, c: ConnId)
    requires NetInv(n) && c in n.links && Still(n) && Sound(n.links[c].down, 2) && n.co.phase == C.AtPeersInfo
    ensures n.links[c].worker ==
      Some(C.Worker(C.AtRecvWorkerInfo, if |n.workers| <= E.MAX_WORKERS then Some(n.co.info) else None))
  {
    StillDown(n, c);
    LinkCompletes(n, c);
  }

  lemma StillBroadcast(n: Net)
    requires NetInv(n) && n.workers != {} && Still(n) && forall c :: c in n.links ==> Sound(n.links[c].up, 1)
    ensures n.co.phase == C.AtPeersInfo
  {
    forall c | c in n.links ensures n.links[c].up.loop.delivered != [] { StillHeard(n, c); }
    BroadcastAt(n);
  }

  /**
   * A run without trouble that can go no further has finished: the coordinator has broadcast, and every
   * worker holds the peer map if there are at most 584 workers, and none does if there are more. Trouble
   * on a connection after its worker has both messages does not count.
   */
  lemma WireNeverDeadlocks(cookies: map<ConnId, Cookie>, issued: set<Cookie>, steps: seq<Step>, n: Net)
    requires WellFormed(cookies, issued) && Reaches(Start(cookies, issued), steps, n) && cookies.Keys != {}
    requires forall c :: c in n.links ==> Sound(n.links[c].up, 1) && Sound(n.links[c].down, 2)
    requires Still(n)
    ensures n.co.phase == C.AtPeersInfo
    ensures forall c :: c in n.links ==>
      n.links[c].worker ==
        Some(C.Worker(C.AtRecvWorkerInfo, if |cookies.Keys| <= E.MAX_WORKERS then Some(n.co.info) else None))
  {
    Reached(cookies, issued, steps, n);
    StillBroadcast(n);
    forall c | c in n.links
      ensures n.links[c].worker ==
        Some(C.Worker(C.AtRecvWorkerInfo, if |cookies.Keys| <= E.MAX_WORKERS then Some(n.co.info) else None))
    {
      StillEnds(n, c);
    }
  }
}
