/**
 * One direction of a connection: the sender's write pump, the bytes on their way and the receiver's
 * loop, each taking its own steps.
 */
module WireHalf {
  import opened Base
  import E = EndToEnd
  import F = Framing
  import P = WritePump

  /** `frames` have been queued at the sender. */
  datatype Half = Half(frames: seq<F.Framed>, pump: P.State<seq<byte>>, loop: F.State)

  const NEW_HALF: Half := Half([], P.Init(), F.Init([]))

  datatype WriteEnd = Whole | Partly | Failed

  /**
   * A write ends; bytes arrive; the connection is closed or a read fails. A write is cancelled only when
   * its socket is closed, after which no other can get anything out.
   */
  datatype HalfStep = Write(end: WriteEnd) | Bytes(chunk: seq<byte>) | Trouble(step: F.Step)

  /** The writes that have started, and the bytes that may be on the wire. */
  function Started(p: P.State<seq<byte>>): seq<seq<byte>> { p.wire + E.LastStarted(p) }

  function OnTheWire(p: P.State<seq<byte>>): seq<byte> { Flatten(E.Carried(p)) }

  function PumpStepOf(end: WriteEnd): P.Step<seq<byte>> {
    match end
    case Whole => P.Complete(true)
    case Partly => P.Complete(false)
    case Failed => P.Fail
  }

  predicate HalfEnabled(h: Half, step: HalfStep) {
    match step
    case Write(end) =>
      h.pump.inflight.Some? && h.pump.queue != [] && h.pump.sends != [] && (end.Failed? || !P.Cut(h.pump))
    case Bytes(chunk) => !h.loop.ended && h.loop.stream + chunk <= OnTheWire(h.pump)
    case Trouble(step) => (step.Close? || step.ReadFails?) && F.Enabled(h.loop, step)
  }

  function HalfApply(h: Half, step: HalfStep): Half
    requires HalfEnabled(h, step)
  {
    match step
    case Write(end) => h.(pump := P.Apply(h.pump, PumpStepOf(end)))
    case Bytes(chunk) => h.(loop := F.Apply(h.loop, F.Arrive(chunk)))
    case Trouble(step) => h.(loop := F.Apply(h.loop, step))
  }

  function Queue(h: Half, x: F.Framed): Half {
    h.(frames := h.frames + [x], pump := P.OnSend(h.pump, F.Wire(x)))
  }

  function ReadNext(h: Half, closes: bool): Half
    requires F.CanComplete(h.loop)
  {
    h.(loop := F.Complete(h.loop, closes))
  }

  ghost predicate Pumped(p: P.State<seq<byte>>) { exists steps :: P.Reaches(P.Init(), steps, p) }

  ghost predicate Looped(r: F.State) { exists steps :: F.Reaches(F.Init([]), steps, r) }

  ghost predicate HalfInv(h: Half) {
    && F.AllSendable(h.frames) && h.pump.sends == F.Frames(h.frames)
    && Pumped(h.pump) && Looped(h.loop)
    && E.OnWire(h.pump, h.loop.stream)
  }

  lemma NewHalfInv()
    ensures HalfInv(NEW_HALF)
  {
    assert P.Reaches(P.Init<seq<byte>>(), [], P.Init<seq<byte>>());
    assert F.Reaches(F.Init([]), [], F.Init([]));
    assert F.Frames([]) == [];
  }

  lemma PumpStep(p: P.State<seq<byte>>, step: P.Step<seq<byte>>)
    requires Pumped(p) && P.Enabled(p, step) && (step.Complete? ==> p.queue != [] && p.sends != [])
    ensures Pumped(P.Apply(p, step))
  {
    var steps :| P.Reaches(P.Init(), steps, p);
    P.ReachesSnoc(P.Init(), steps, p, step);
  }

  lemma PumpInv(p: P.State<seq<byte>>)
    requires Pumped(p)
    ensures P.Inv(p)
  {
    var steps :| P.Reaches(P.Init(), steps, p);
    P.ReachedInv(steps, p);
  }

  lemma LoopStep(r: F.State, step: F.Step)
    requires Looped(r) && F.Enabled(r, step)
    ensures Looped(F.Apply(r, step))
  {
    var steps :| F.Reaches(F.Init([]), steps, r);
    F.ReachesSnoc(F.Init([]), steps, r, step);
  }

  lemma SendStartsMore(p: P.State<seq<byte>>, x: seq<byte>)
    requires P.Inv(p)
    ensures Started(p) <= Started(P.OnSend(p, x))
  {
    var q := P.OnSend(p, x);
    assert q.wire == p.wire;
    if E.LastStarted(p) != [] {
      assert q.starts == p.starts && E.LastStarted(q) == E.LastStarted(p);
    } else {
      assert Started(p) == p.wire;
    }
  }

  lemma CompleteStartsMore(p: P.State<seq<byte>>)
    requires P.Inv(p) && p.inflight.Some?
    ensures Started(p) == P.OnComplete(p, true).wire == P.OnComplete(p, false).wire
  {
    assert E.LastStarted(p) == [p.inflight.value];
  }

  lemma CarriesMore(p: P.State<seq<byte>>, step: P.Step<seq<byte>>)
    requires P.Inv(p) && P.Enabled(p, step) && (step.Complete? ==> !P.Cut(p) && p.queue != [] && p.sends != [])
    ensures E.Carried(p) <= E.Carried(P.Apply(p, step))
  {
    match step {
      case Send(x) => SendStartsMore(p, x);
      case Complete(whole) =>
        CompleteStartsMore(p);
        assert P.Cut(P.Apply(p, step)) <==> !whole;
      case Fail => assert E.Carried(P.Apply(p, step)) == E.Carried(p);
    }
  }

  /** What may be on the wire only grows. */
  lemma WireGrows(p: P.State<seq<byte>>, step: P.Step<seq<byte>>)
    requires Pumped(p) && P.Enabled(p, step) && (step.Complete? ==> !P.Cut(p) && p.queue != [] && p.sends != [])
    ensures OnTheWire(p) <= OnTheWire(P.Apply(p, step))
  {
    PumpInv(p);
    CarriesMore(p, step);
    E.FlattenPrefix(E.Carried(p), E.Carried(P.Apply(p, step)));
  }

  lemma FramesSnoc(frames: seq<F.Framed>, x: F.Framed)
    requires F.AllSendable(frames) && F.Sendable(x)
    ensures F.Frames(frames + [x]) == F.Frames(frames) + [F.Wire(x)] && F.AllSendable(frames + [x])
  {}

  lemma QueueKeeps(h: Half, x: F.Framed)
    requires HalfInv(h) && F.Sendable(x)
    ensures HalfInv(Queue(h, x))
  {
    PumpStep(h.pump, P.Send(F.Wire(x)));
    WireGrows(h.pump, P.Send(F.Wire(x)));
    FramesSnoc(h.frames, x);
    var q := P.Apply(h.pump, P.Send(F.Wire(x)));
    assert q == P.OnSend(h.pump, F.Wire(x)) && q.sends == h.pump.sends + [F.Wire(x)];
  }

  lemma PumpMoves(h: Half, q: P.State<seq<byte>>)
    requires HalfInv(h) && Pumped(q) && q.sends == h.pump.sends && OnTheWire(h.pump) <= OnTheWire(q)
    ensures HalfInv(h.(pump := q))
  {}

  lemma CompleteKeeps(h: Half, whole: bool)
    requires HalfInv(h) && h.pump.inflight.Some? && h.pump.queue != [] && h.pump.sends != [] && !P.Cut(h.pump)
    ensures HalfInv(h.(pump := P.OnComplete(h.pump, whole)))
  {
    var step: P.Step<seq<byte>> := P.Complete(whole);
    PumpStep(h.pump, step);
    WireGrows(h.pump, step);
    PumpMoves(h, P.OnComplete(h.pump, whole));
  }

  lemma FailKeeps(h: Half)
    requires HalfInv(h) && h.pump.inflight.Some?
    ensures HalfInv(h.(pump := P.OnFail(h.pump)))
  {
    var step: P.Step<seq<byte>> := P.Fail;
    PumpStep(h.pump, step);
    WireGrows(h.pump, step);
    PumpMoves(h, P.OnFail(h.pump));
  }

  lemma HalfStepKeeps(h: Half, step: HalfStep)
    requires HalfInv(h) && HalfEnabled(h, step)
    ensures HalfInv(HalfApply(h, step)) && HalfApply(h, step).frames == h.frames
    ensures HalfApply(h, step).loop.delivered == h.loop.delivered
    ensures !h.loop.open ==> !HalfApply(h, step).loop.open
  {
    match step {
      case Write(end) => if end.Failed? { FailKeeps(h); } else { CompleteKeeps(h, end.Whole?); }
      case Bytes(chunk) => LoopStep(h.loop, F.Arrive(chunk));
      case Trouble(s) => LoopStep(h.loop, s);
    }
  }

  lemma ReadKeeps(h: Half, closes: bool)
    requires HalfInv(h) && F.CanComplete(h.loop)
    ensures HalfInv(ReadNext(h, closes))
    ensures ReadNext(h, closes).loop.delivered == ReadNext(h, false).loop.delivered
    ensures !h.loop.open || (closes && |ReadNext(h, closes).loop.delivered| > |h.loop.delivered|) ==>
      !ReadNext(h, closes).loop.open
  {
    LoopStep(h.loop, F.Read(closes));
    F.CompleteProgress(h.loop, closes);
    F.CompleteAside(h.loop, closes);
  }

  // ----- what the hello half delivers -----

  predicate HelloFirst(frames: seq<F.Framed>, b: seq<byte>) {
    frames != [] ==> frames[0].f == F.Body(b) && forall k :: 0 < k < |frames| ==> frames[k].f.Beat?
  }

  /** The frames the writes took. */
  function Taken(frames: seq<F.Framed>, starts: seq<nat>): seq<F.Framed>
    requires forall k :: 0 <= k < |starts| ==> starts[k] < |frames|
  {
    seq(|starts|, k requires 0 <= k < |starts| => frames[starts[k]])
  }

  lemma StartedAre(p: P.State<seq<byte>>)
    requires P.Inv(p)
    ensures |Started(p)| == |p.starts|
    ensures forall k :: 0 <= k < |p.starts| ==> Started(p)[k] == p.sends[p.starts[k]]
  {}

  lemma StartedFrames(p: P.State<seq<byte>>, frames: seq<F.Framed>)
    requires P.Inv(p) && p.sends == F.Frames(frames)
    ensures Started(p) == F.Frames(Taken(frames, p.starts))
  {
    StartedAre(p);
  }

  lemma {:induction false} OnlyBeats(xs: seq<F.Framed>)
    requires forall k :: 0 <= k < |xs| ==> xs[k].f.Beat?
    ensures F.Bodies(xs) == []
  {
    if xs != [] { OnlyBeats(xs[1..]); }
  }

  lemma TakenSendable(frames: seq<F.Framed>, starts: seq<nat>)
    requires F.AllSendable(frames) && forall k :: 0 <= k < |starts| ==> starts[k] < |frames|
    ensures F.AllSendable(Taken(frames, starts))
  {
    forall x | x in Taken(frames, starts) ensures F.Sendable(x) { assert x in frames; }
  }

  lemma TakenHello(frames: seq<F.Framed>, starts: seq<nat>, b: seq<byte>)
    requires forall k :: 0 <= k < |starts| ==> k <= starts[k] < |frames|
    requires HelloFirst(frames, b) && (starts != [] ==> starts[0] == 0)
    ensures F.Bodies(Taken(frames, starts)) <= [b]
  {
    var zs := Taken(frames, starts);
    if zs != [] {
      OnlyBeats(zs[1..]);
      assert zs[0] == frames[0];
    }
  }

  lemma LoopDelivers(r: F.State, zs: seq<F.Framed>)
    requires Looped(r) && F.AllSendable(zs) && r.stream <= F.Stream(zs)
    ensures r.delivered <= F.Bodies(zs)
  {
    var steps :| F.Reaches(F.Init([]), steps, r);
    F.FramingRoundTrip(zs, steps, r);
    F.DeliverablePrefix(zs, |r.stream|);
  }

  lemma HelloOnWire(p: P.State<seq<byte>>, frames: seq<F.Framed>, b: seq<byte>) returns (zs: seq<F.Framed>)
    requires P.Inv(p) && p.sends == F.Frames(frames) && F.AllSendable(frames) && HelloFirst(frames, b)
    ensures F.AllSendable(zs) && OnTheWire(p) <= F.Stream(zs) && F.Bodies(zs) <= [b]
    ensures frames == [] ==> zs == []
  {
    zs := Taken(frames, p.starts);
    StartedFrames(p, frames);
    E.FlattenPrefix(E.Carried(p), Started(p));
    F.FlattenFrames(zs);
    TakenSendable(frames, p.starts);
    TakenHello(frames, p.starts, b);
  }

  /** Whatever the timing, no body but the hello is ever delivered, and that once. */
  lemma UpDelivers(h: Half, b: seq<byte>)
    requires HalfInv(h) && HelloFirst(h.frames, b)
    ensures h.loop.delivered <= [b]
    ensures h.frames == [] ==> h.loop.delivered == []
  {
    PumpInv(h.pump);
    var zs := HelloOnWire(h.pump, h.frames, b);
    LoopDelivers(h.loop, zs);
  }

  // ----- what the coordinator's half delivers -----

  lemma DownDelivers(h: Half)
    requires HalfInv(h) && |h.frames| <= 2
    ensures h.loop.delivered <= F.Bodies(h.frames)
  {
    var psteps :| P.Reaches(P.Init(), psteps, h.pump);
    E.WireIsPrefix(F.Frames(h.frames), psteps, h.pump, h.loop.stream);
    F.FlattenFrames(h.frames);
    LoopDelivers(h.loop, h.frames);
  }
}
