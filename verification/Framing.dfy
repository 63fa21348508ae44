/**
 * The wire format of frames and the receive half of a heartbeat server connection: read a header,
 * read the body it announces, call up, read the next header. A read completes when all the bytes it
 * wants have arrived, in whatever pieces.
 */
module Framing {
  import opened Base

  const HEADER_SIZE: nat := 8

  /** The receive buffer never grows: resizing it to its own capacity leaves it as it was. */
  const BUFFER_SIZE: nat := 8192

  const HEARTBEAT: byte := 0
  const NORMAL: byte := 1

  datatype Frame = Beat | Body(bytes: seq<byte>)

  /** A frame and what the three padding bytes of its header happen to hold. */
  datatype Framed = Framed(f: Frame, pad: seq<byte>)

  predicate Sendable(x: Framed) {
    |x.pad| == 3 && (x.f.Body? ==> |x.f.bytes| < 0x1_0000_0000)
  }

  /** `header_to_string`: the struct as it lies in memory. */
  function HeaderBytes(kind: byte, length: nat, pad: seq<byte>): seq<byte> {
    [kind] + pad + LittleEndian(length, 4)
  }

  /** `string_to_header`. */
  function ParseHeader(b: seq<byte>): (byte, nat)
    requires |b| == HEADER_SIZE
  {
    (b[0], FromLittleEndian(b[4..]))
  }

  lemma HeaderRoundTrip(kind: byte, length: nat, pad: seq<byte>)
    requires |pad| == 3 && length < 0x1_0000_0000
    ensures |HeaderBytes(kind, length, pad)| == HEADER_SIZE
    ensures ParseHeader(HeaderBytes(kind, length, pad)) == (kind, length)
  {
    assert Pow256(4) == 0x1_0000_0000;
    LittleEndianRoundTrip(length, 4);
    assert HeaderBytes(kind, length, pad)[4..] == LittleEndian(length, 4);
  }

  /** The bytes of one frame: what `do_send_header` and `do_send_message` hand to one write. */
  function Wire(x: Framed): seq<byte> {
    match x.f
    case Beat => HeaderBytes(HEARTBEAT, 0, x.pad)
    case Body(b) => HeaderBytes(NORMAL, |b|, x.pad) + b
  }

  /**
   * What goes over the wire, byte by byte: the type, 0 for a heartbeat and 1 for a message, three bytes
   * of padding, the length of the body, low byte first and cut to 32 bits, and the body.
   */
  lemma WireBytes(x: Framed)
    ensures x.f.Beat? ==> Wire(x) == [0] + x.pad + [0, 0, 0, 0]
    ensures x.f.Body? ==>
      var n := |x.f.bytes|;
      Wire(x) == [1] + x.pad + [n % 256, n / 0x100 % 256, n / 0x1_0000 % 256, n / 0x100_0000 % 256] + x.f.bytes
  {
    FourBytes(if x.f.Body? then |x.f.bytes| else 0);
  }

  function Stream(xs: seq<Framed>): seq<byte> {
    if xs == [] then [] else Wire(xs[0]) + Stream(xs[1..])
  }

  // ----- the receive loop -----

  datatype Pending = NoRead | HeaderRead | BodyRead(length: nat)

  /**
   * `stream` is everything that has arrived and `pos` how much of it has been read. `outstanding` counts
   * the reads outstanding, `started` those ever started, `beats` the heartbeats passed to the timer.
   * `ended` tells that the peer's stream ended in the middle of a read, and `cut` that someone other
   * than the loop closed the connection or took a read away from it.
   */
  datatype State = State(
    open: bool,
    cut: bool,
    ended: bool,
    crashed: bool,
    pending: Pending,
    outstanding: int,
    started: nat,
    stream: seq<byte>,
    pos: nat,
    delivered: seq<seq<byte>>,
    beats: nat)

  /** How many bytes the outstanding read wants: a body read is limited by the buffer. */
  function Need(p: Pending): nat {
    match p
    case NoRead => 0
    case HeaderRead => HEADER_SIZE
    case BodyRead(length) => if length > BUFFER_SIZE then BUFFER_SIZE else length
  }

  function StartRead(s: State, p: Pending): State {
    s.(pending := p, outstanding := s.outstanding + 1, started := s.started + 1)
  }

  /** `do_receive_message`. */
  function ReceiveMessage(s: State): State { if s.open then StartRead(s, HeaderRead) else s }

  /** `header_parser`: an unknown type throws. */
  function OnHeader(s: State, header: seq<byte>): State
    requires |header| == HEADER_SIZE
  {
    Dispatch(s, ParseHeader(header).0, ParseHeader(header).1)
  }

  function Dispatch(s: State, kind: byte, length: nat): State {
    if kind == HEARTBEAT then ReceiveMessage(s.(beats := s.beats + 1))
    else if kind == NORMAL then StartRead(s, BodyRead(length))
    else s.(crashed := true)
  }

  /** `when_payload_received`; `closes` says whether the callback into the upper layer disconnects. */
  function OnBody(s: State, body: seq<byte>, length: nat, closes: bool): State {
    if |body| < length then s.(open := false)
    else if !s.open then ReceiveMessage(s)
    else ReceiveMessage(s.(delivered := s.delivered + [body], open := !closes, cut := s.cut || closes))
  }

  predicate CanComplete(s: State) {
    s.pending != NoRead && s.pos + Need(s.pending) <= |s.stream|
  }

  /** The callback of a read that wanted `p` and got `data`. */
  function CallBack(s: State, p: Pending, data: seq<byte>, closes: bool): State
    requires p != NoRead && |data| == Need(p)
  {
    match p
    case HeaderRead => if s.open then OnHeader(s, data) else s
    case BodyRead(length) => OnBody(s, data, length, closes)
  }

  function Consumed(s: State): State {
    s.(pending := NoRead, outstanding := s.outstanding - 1, pos := s.pos + Need(s.pending))
  }

  function Complete(s: State, closes: bool): State
    requires CanComplete(s)
  {
    CallBack(Consumed(s), s.pending, s.stream[s.pos..s.pos + Need(s.pending)], closes)
  }

  /** The peer closed; the read was cancelled; anything else went wrong. */
  datatype ReadError = AtEnd | Cancelled | Broken

  /** Bytes arrive; a read completes or fails; the timer or the upper layer closes. */
  datatype Step = Arrive(chunk: seq<byte>) | Read(closes: bool) | ReadFails(error: ReadError) | Close

  predicate CanFail(s: State, error: ReadError) {
    && s.pending != NoRead
    && match error
       case AtEnd => s.open && !CanComplete(s)
       case Cancelled => Need(s.pending) > 0
       case Broken => true
  }

  /** A cancelled header read is only logged; every other failure closes. */
  function FailRead(s: State, error: ReadError): State
    requires CanFail(s, error)
  {
    var t := s.(pending := NoRead, outstanding := s.outstanding - 1);
    match error
    case AtEnd => t.(open := false, ended := true)
    case Cancelled => t.(open := s.open && s.pending.HeaderRead?, cut := true)
    case Broken => t.(open := false, cut := true)
  }

  predicate Enabled(s: State, step: Step) {
    match step
    case Arrive(_) => !s.ended
    case Read(_) => CanComplete(s)
    case ReadFails(error) => CanFail(s, error)
    case Close => s.open
  }

  function Apply(s: State, step: Step): State
    requires Enabled(s, step)
  {
    match step
    case Arrive(chunk) => s.(stream := s.stream + chunk)
    case Read(closes) => Complete(s, closes)
    case ReadFails(error) => FailRead(s, error)
    case Close => s.(open := false, cut := true)
  }

  /** A new connection, before and after the first header read is started. */
  function Accepted(stream: seq<byte>): State {
    State(true, false, false, false, NoRead, 0, 0, stream, 0, [], 0)
  }

  function Init(stream: seq<byte>): State { ReceiveMessage(Accepted(stream)) }

  ghost predicate Reaches(s: State, steps: seq<Step>, t: State)
    decreases steps
  {
    if steps == [] then s == t else Enabled(s, steps[0]) && Reaches(Apply(s, steps[0]), steps[1..], t)
  }

  lemma {:induction false} ReachesSnoc(s: State, steps: seq<Step>, t: State, step: Step)
    requires Reaches(s, steps, t) && Enabled(t, step)
    ensures Reaches(s, steps + [step], Apply(t, step))
    decreases steps
  {
    var more := steps + [step];
    if steps == [] {
      assert more[1..] == [] && Reaches(Apply(s, step), more[1..], Apply(t, step));
    } else {
      ReachesSnoc(Apply(s, steps[0]), steps[1..], t, step);
      assert more[1..] == steps[1..] + [step];
    }
  }

  lemma {:induction false} ReadsStayInside(s: State, steps: seq<Step>, t: State)
    requires s.pos <= |s.stream| && Reaches(s, steps, t)
    ensures t.pos <= |t.stream|
    decreases steps
  {
    if steps != [] {
      if steps[0].Read? { CompleteProgress(s, steps[0].closes); }
      ReadsStayInside(Apply(s, steps[0]), steps[1..], t);
    }
  }

  // ----- reads -----

  ghost predicate ReadInv(s: State) { s.outstanding == if s.pending == NoRead then 0 else 1 }

  /** Closed for good: no read is started and nothing is delivered. */
  ghost predicate StaysShut(s: State, t: State) {
    !s.open ==> !t.open && t.started == s.started && t.delivered == s.delivered
  }

  lemma ReadIsOneOfOne(s: State, closes: bool)
    requires ReadInv(s) && CanComplete(s)
    ensures ReadInv(Complete(s, closes)) && StaysShut(s, Complete(s, closes))
  {}

  lemma StepIsOneOfOne(s: State, step: Step)
    requires ReadInv(s) && Enabled(s, step)
    ensures ReadInv(Apply(s, step)) && StaysShut(s, Apply(s, step))
  {
    if step.Read? { ReadIsOneOfOne(s, step.closes); }
  }

  /**
   * On every run at most one read is outstanding, and once the connection is closed no read is ever
   * started and nothing is delivered any more.
   */
  lemma {:induction false} OneReadAtATime(s: State, steps: seq<Step>, t: State)
    requires ReadInv(s) && Reaches(s, steps, t)
    ensures ReadInv(t) && t.outstanding <= 1 && StaysShut(s, t)
    decreases steps
  {
    if steps != [] {
      StepIsOneOfOne(s, steps[0]);
      OneReadAtATime(Apply(s, steps[0]), steps[1..], t);
    }
  }

  // ----- chunk independence -----

  /** Completing every read that can complete, the upper layer never closing. */
  function Drain(s: State): State
    decreases |s.stream| - s.pos, if s.pending.BodyRead? then 1 else 0
  {
    if !CanComplete(s) then s else Drain(Complete(s, false))
  }

  lemma ReceiveLocal(s: State, stream: seq<byte>)
    ensures ReceiveMessage(s.(stream := stream)) == ReceiveMessage(s).(stream := stream)
  {}

  lemma DispatchLocal(s: State, kind: byte, length: nat, stream: seq<byte>)
    ensures Dispatch(s.(stream := stream), kind, length) == Dispatch(s, kind, length).(stream := stream)
  {
    if kind == HEARTBEAT { ReceiveLocal(s.(beats := s.beats + 1), stream); }
  }

  lemma BodyLocal(s: State, body: seq<byte>, length: nat, stream: seq<byte>)
    ensures OnBody(s.(stream := stream), body, length, false) == OnBody(s, body, length, false).(stream := stream)
  {}

  lemma CallBackLocal(s: State, p: Pending, data: seq<byte>, stream: seq<byte>)
    requires p != NoRead && |data| == Need(p)
    ensures CallBack(s.(stream := stream), p, data, false) == CallBack(s, p, data, false).(stream := stream)
  {
    if p.HeaderRead? {
      DispatchLocal(s, ParseHeader(data).0, ParseHeader(data).1, stream);
    } else {
      BodyLocal(s, data, p.length, stream);
    }
  }

  /** A read that can complete takes no notice of bytes behind those it wants. */
  lemma CompleteLocal(s: State, chunk: seq<byte>)
    requires CanComplete(s)
    ensures CanComplete(s.(stream := s.stream + chunk))
    ensures Complete(s.(stream := s.stream + chunk), false)
         == Complete(s, false).(stream := s.stream + chunk)
  {
    var u, longer := s.(stream := s.stream + chunk), s.stream + chunk;
    var data := s.stream[s.pos..s.pos + Need(s.pending)];
    assert longer[s.pos..s.pos + Need(s.pending)] == data;
    assert Consumed(u) == Consumed(s).(stream := longer);
    CallBackLocal(Consumed(s), s.pending, data, longer);
  }

  lemma CompleteProgress(s: State, closes: bool)
    requires CanComplete(s)
    ensures Complete(s, closes).stream == s.stream
    ensures s.pos <= Complete(s, closes).pos <= |s.stream|
    ensures Complete(s, closes).pos == s.pos ==> s.pending.BodyRead? && !Complete(s, closes).pending.BodyRead?
  {}

  lemma DrainOnce(s: State)
    requires CanComplete(s)
    ensures Drain(s) == Drain(Complete(s, false))
  {}

  /** Draining, then more bytes and draining again, is draining all at once. */
  lemma {:induction false} DrainAppend(s: State, chunk: seq<byte>)
    ensures Drain(s.(stream := s.stream + chunk)) == Drain(Drain(s).(stream := s.stream + chunk))
    ensures Drain(s).stream == s.stream
    decreases |s.stream| - s.pos, if s.pending.BodyRead? then 1 else 0
  {
    if CanComplete(s) {
      var t := Complete(s, false);
      CompleteProgress(s, false);
      CompleteLocal(s, chunk);
      DrainAppend(t, chunk);
      DrainOnce(s);
      DrainOnce(s.(stream := s.stream + chunk));
    }
  }

  lemma {:induction false} DrainExtends(s: State)
    ensures s.delivered <= Drain(s).delivered
    decreases |s.stream| - s.pos, if s.pending.BodyRead? then 1 else 0
  {
    if CanComplete(s) { DrainExtends(Complete(s, false)); }
  }

  /** Where the input takes a connection nobody interferes with, and how it looks when the input ends there. */
  function Settled(stream: seq<byte>): State { Drain(Init(stream)) }

  function AtEndOf(d: State): State {
    d.(pending := NoRead, outstanding := d.outstanding - 1, open := false, ended := true)
  }

  /** Left alone the connection is on its way to the state its input determines; cut off, it is behind. */
  ghost predicate ChunkInv(s: State) {
    if s.cut then !s.ended && (s.open ==> s.pending == NoRead) && s.delivered <= Settled(s.stream).delivered
    else if s.ended then s == AtEndOf(Settled(s.stream))
    else Drain(s) == Settled(s.stream)
  }

  lemma ArrivalKeepsChunkInv(s: State, chunk: seq<byte>)
    requires ChunkInv(s) && !s.ended
    ensures ChunkInv(s.(stream := s.stream + chunk))
  {
    var t := s.(stream := s.stream + chunk);
    var whole := Init(s.stream);
    assert whole.(stream := s.stream + chunk) == Init(t.stream);
    DrainAppend(whole, chunk);
    if s.cut { DrainExtends(Drain(whole).(stream := t.stream)); } else { DrainAppend(s, chunk); }
  }

  lemma ReadKeepsChunkInv(s: State, closes: bool)
    requires ChunkInv(s) && CanComplete(s)
    ensures ChunkInv(Complete(s, closes))
  {
    if !s.cut {
      assert Drain(s) == Drain(Complete(s, false));
      DrainExtends(Complete(s, false));
      CompleteAside(s, closes);
    }
  }

  /** Closing while being called changes what happens after, not what is delivered. */
  lemma CompleteAside(s: State, closes: bool)
    requires CanComplete(s)
    ensures var t, u := Complete(s, closes), Complete(s, false);
      && t.delivered == u.delivered && t.stream == u.stream == s.stream && t.ended == u.ended == s.ended
      && (t.cut && !s.cut ==> !t.open) && (!t.cut ==> t == u) && (s.cut ==> t.cut)
  {}

  lemma FailureKeepsChunkInv(s: State, error: ReadError)
    requires ChunkInv(s) && CanFail(s, error)
    ensures ChunkInv(FailRead(s, error))
  {
    DrainExtends(s);
    if error.AtEnd? { assert Drain(s) == s; }
  }

  lemma StepKeepsChunkInv(s: State, step: Step)
    requires ChunkInv(s) && Enabled(s, step)
    ensures ChunkInv(Apply(s, step))
  {
    match step {
      case Arrive(chunk) => ArrivalKeepsChunkInv(s, chunk);
      case Read(closes) => ReadKeepsChunkInv(s, closes);
      case ReadFails(error) => FailureKeepsChunkInv(s, error);
      case Close => DrainExtends(s);
    }
  }

  lemma {:induction false} RunKeepsChunkInv(s: State, steps: seq<Step>, t: State)
    requires ChunkInv(s) && Reaches(s, steps, t)
    ensures ChunkInv(t)
    decreases steps
  {
    if steps != [] {
      StepKeepsChunkInv(s, steps[0]);
      RunKeepsChunkInv(Apply(s, steps[0]), steps[1..], t);
    }
  }

  /**
   * However the bytes are cut into arrivals and however reads, failures and closes interleave with them,
   * what has been delivered is a prefix of what the whole input determines; and unless somebody cut
   * the connection off it is all of it once the loop is at rest, or has met the end of the stream.
   */
  lemma ChunksDoNotMatter(steps: seq<Step>, s: State)
    requires Reaches(Init([]), steps, s)
    ensures s.delivered <= Settled(s.stream).delivered
    ensures !s.cut && !s.ended && !CanComplete(s) ==> s == Settled(s.stream)
    ensures s.ended ==> !s.cut && s == AtEndOf(Settled(s.stream))
  {
    RunKeepsChunkInv(Init([]), steps, s);
    DrainExtends(s);
  }

  // ----- framing -----

  predicate TooLong(f: Frame) { f.Body? && |f.bytes| > BUFFER_SIZE }

  predicate Fits(xs: seq<Framed>) { forall x :: x in xs ==> !TooLong(x.f) }

  predicate AllSendable(xs: seq<Framed>) { forall x :: x in xs ==> Sendable(x) }

  function BodyOf(f: Frame): seq<seq<byte>> { if f.Body? then [f.bytes] else [] }

  /** The bodies that lie wholly within the first `n` bytes of a stream, before any body too long for the buffer. */
  function Deliverable(xs: seq<Framed>, n: nat): seq<seq<byte>> {
    if xs == [] || TooLong(xs[0].f) || |Wire(xs[0])| > n then []
    else BodyOf(xs[0].f) + Deliverable(xs[1..], n - |Wire(xs[0])|)
  }

  function Bodies(xs: seq<Framed>): seq<seq<byte>> {
    if xs == [] then [] else BodyOf(xs[0].f) + Bodies(xs[1..])
  }

  function Beats(xs: seq<Framed>): nat {
    if xs == [] then 0 else (if xs[0].f.Beat? then 1 else 0) + Beats(xs[1..])
  }

  /** Waiting for a header, `rest` being the bytes not yet read. */
  ghost predicate AtHeader(s: State, rest: seq<byte>) {
    s.open && s.pending == HeaderRead && s.pos <= |s.stream| && s.stream[s.pos..] == rest
  }

  /** Waiting for a body of a given length, `rest` being the bytes not yet read. */
  ghost predicate AtBody(s: State, length: nat, rest: seq<byte>) {
    s.open && s.pending == BodyRead(length) && s.pos <= |s.stream| && s.stream[s.pos..] == rest
  }

  lemma WireLength(x: Framed)
    requires Sendable(x)
    ensures |Wire(x)| == HEADER_SIZE + if x.f.Body? then |x.f.bytes| else 0
  {}

  lemma HeaderArrived(s: State, x: Framed, rest: seq<byte>)
    requires Sendable(x) && AtHeader(s, rest) && HEADER_SIZE <= |rest|
    requires rest[..HEADER_SIZE] == Wire(x)[..HEADER_SIZE]
    ensures CanComplete(s) && Complete(s, false).delivered == s.delivered && Complete(s, false).crashed == s.crashed
    ensures x.f.Beat? ==> AtHeader(Complete(s, false), rest[HEADER_SIZE..]) && Complete(s, false).beats == s.beats + 1
    ensures x.f.Body? ==> AtBody(Complete(s, false), |x.f.bytes|, rest[HEADER_SIZE..]) && Complete(s, false).beats == s.beats
  {
    var length := if x.f.Body? then |x.f.bytes| else 0;
    HeaderRoundTrip(if x.f.Body? then NORMAL else HEARTBEAT, length, x.pad);
    assert s.stream[s.pos..s.pos + HEADER_SIZE] == rest[..HEADER_SIZE];
    assert Wire(x)[..HEADER_SIZE] == HeaderBytes(if x.f.Body? then NORMAL else HEARTBEAT, length, x.pad);
    assert s.stream[s.pos + HEADER_SIZE..] == rest[HEADER_SIZE..];
  }

  lemma BodyArrived(s: State, b: seq<byte>, rest: seq<byte>)
    requires AtBody(s, |b|, rest) && |b| <= BUFFER_SIZE && b <= rest
    ensures CanComplete(s) && AtHeader(Complete(s, false), rest[|b|..])
    ensures Complete(s, false) == Complete(s, false).(delivered := s.delivered + [b], beats := s.beats, crashed := s.crashed)
  {
    assert s.stream[s.pos..s.pos + |b|] == rest[..|b|] == b;
    assert s.stream[s.pos + |b|..] == rest[|b|..];
  }

  /** A body too long for the buffer closes the connection as soon as the buffer is full, undelivered. */
  lemma LongBodyCloses(s: State, length: nat)
    requires s.open && s.pending == BodyRead(length) && length > BUFFER_SIZE
    ensures Drain(s).delivered == s.delivered && Drain(s).crashed == s.crashed
    ensures CanComplete(s) ==> !Drain(s).open
  {
    if CanComplete(s) {
      var t := Complete(s, false);
      assert !t.open && t.pending == NoRead && Drain(s) == Drain(t) == t;
    }
  }

  /** What the loop has made, in going from `s` to `r`, of the first `n` bytes of a stream of frames. */
  ghost predicate Outcome(s: State, r: State, xs: seq<Framed>, n: nat) {
    && r.delivered == s.delivered + Deliverable(xs, n) && r.crashed == s.crashed
    && (Fits(xs) && n == |Stream(xs)| ==> AtHeader(r, []) && r.beats == s.beats + Beats(xs))
    && (!Fits(xs) && n == |Stream(xs)| ==> !r.open)
  }

  lemma OutcomeOfMore(s: State, t: State, r: State, xs: seq<Framed>, n: nat)
    requires xs != [] && !TooLong(xs[0].f) && |Wire(xs[0])| <= n
    requires t.delivered == s.delivered + BodyOf(xs[0].f) && t.crashed == s.crashed
    requires t.beats == s.beats + if xs[0].f.Beat? then 1 else 0
    requires Outcome(t, r, xs[1..], n - |Wire(xs[0])|)
    ensures Outcome(s, r, xs, n)
  {
    ConcatAssoc(s.delivered, BodyOf(xs[0].f), Deliverable(xs[1..], n - |Wire(xs[0])|));
    StreamLength(xs);
    FitsTail(xs);
  }

  lemma FitsTail(xs: seq<Framed>)
    requires xs != []
    ensures Fits(xs) <==> !TooLong(xs[0].f) && Fits(xs[1..])
  {
    assert xs == [xs[0]] + xs[1..];
  }

  lemma StreamLength(xs: seq<Framed>)
    requires xs != []
    ensures |Stream(xs)| == |Wire(xs[0])| + |Stream(xs[1..])|
  {}

  lemma StreamPrefix(xs: seq<Framed>, rest: seq<byte>)
    requires xs != [] && AllSendable(xs) && rest <= Stream(xs)
    ensures |Wire(xs[0])| >= HEADER_SIZE
    ensures HEADER_SIZE <= |rest| ==> rest[..HEADER_SIZE] == Wire(xs[0])[..HEADER_SIZE]
    ensures |Wire(xs[0])| <= |rest| ==> rest[|Wire(xs[0])|..] <= Stream(xs[1..])
    ensures xs[0].f.Body? && |Wire(xs[0])| <= |rest| ==> xs[0].f.bytes <= rest[HEADER_SIZE..]
  {
    var w := Wire(xs[0]);
    WireLength(xs[0]);
    assert Stream(xs) == w + Stream(xs[1..]);
    if |w| <= |rest| {
      assert w == rest[..|w|];
      assert Stream(xs)[|w|..] == Stream(xs[1..]);
    }
  }

  /** The loop on any prefix of a stream of frames. */
  lemma {:induction false} DrainFrames(s: State, xs: seq<Framed>, rest: seq<byte>)
    requires AllSendable(xs) && rest <= Stream(xs) && AtHeader(s, rest)
    ensures Outcome(s, Drain(s), xs, |rest|)
    decreases xs, 1
  {
    if xs == [] {
      assert rest == [] && !CanComplete(s);
    } else {
      WireLength(xs[0]);
      StreamLength(xs);
      StreamPrefix(xs, rest);
      if HEADER_SIZE <= |rest| {
        HeaderArrived(s, xs[0], rest);
        DrainOnce(s);
        DrainRest(s, Complete(s, false), xs, rest);
      }
    }
  }

  /** A body that is too long, or not all there, ends it. */
  lemma NotDelivered(s: State, t: State, xs: seq<Framed>, rest: seq<byte>)
    requires xs != [] && AllSendable(xs) && rest <= Stream(xs) && HEADER_SIZE <= |rest| && xs[0].f.Body?
    requires t.delivered == s.delivered && t.crashed == s.crashed && t.beats == s.beats
    requires AtBody(t, |xs[0].f.bytes|, rest[HEADER_SIZE..])
    requires TooLong(xs[0].f) || |Wire(xs[0])| > |rest|
    ensures Outcome(s, Drain(t), xs, |rest|)
  {
    WireLength(xs[0]);
    StreamLength(xs);
    FitsTail(xs);
    assert s.delivered + [] == s.delivered;
    if TooLong(xs[0].f) { LongBodyCloses(t, |xs[0].f.bytes|); }
  }

  lemma {:induction false} DrainRest(s: State, t: State, xs: seq<Framed>, rest: seq<byte>)
    requires xs != [] && AllSendable(xs) && rest <= Stream(xs) && HEADER_SIZE <= |rest|
    requires t.delivered == s.delivered && t.crashed == s.crashed
    requires t.beats == s.beats + if xs[0].f.Beat? then 1 else 0
    requires xs[0].f.Beat? ==> AtHeader(t, rest[HEADER_SIZE..])
    requires xs[0].f.Body? ==> AtBody(t, |xs[0].f.bytes|, rest[HEADER_SIZE..])
    ensures Outcome(s, Drain(t), xs, |rest|)
    decreases xs, 0
  {
    var x, tail := xs[0], xs[1..];
    WireLength(x);
    StreamLength(xs);
    StreamPrefix(xs, rest);
    if x.f.Beat? {
      DrainFrames(t, tail, rest[HEADER_SIZE..]);
      OutcomeOfMore(s, t, Drain(t), xs, |rest|);
    } else if TooLong(x.f) || |Wire(x)| > |rest| {
      NotDelivered(s, t, xs, rest);
    } else {
      BodyArrived(t, x.f.bytes, rest[HEADER_SIZE..]);
      DrainOnce(t);
      var u := Complete(t, false);
      assert rest[HEADER_SIZE..][|x.f.bytes|..] == rest[|Wire(x)|..];
      DrainFrames(u, tail, rest[|Wire(x)|..]);
      OutcomeOfMore(s, u, Drain(t), xs, |rest|);
    }
  }

  /** A stream of frames is what writing them one after the other puts on the wire. */
  function Frames(xs: seq<Framed>): seq<seq<byte>> {
    seq(|xs|, i requires 0 <= i < |xs| => Wire(xs[i]))
  }

  lemma {:induction false} FlattenFrames(xs: seq<Framed>)
    ensures Flatten(Frames(xs)) == Stream(xs)
  {
    if xs != [] {
      assert Frames(xs)[1..] == Frames(xs[1..]);
      FlattenFrames(xs[1..]);
    }
  }

  /** However much of a stream has arrived, what can be delivered is a prefix of its bodies. */
  lemma {:induction false} DeliverablePrefix(xs: seq<Framed>, n: nat)
    ensures Deliverable(xs, n) <= Bodies(xs)
  {
    if xs != [] && !TooLong(xs[0].f) && |Wire(xs[0])| <= n {
      DeliverablePrefix(xs[1..], n - |Wire(xs[0])|);
    }
  }

  /** Everything that was sent arrives exactly when no body is too long; otherwise the bodies before the first that is. */
  lemma {:induction false} AllDeliverableIff(xs: seq<Framed>)
    requires AllSendable(xs)
    ensures Deliverable(xs, |Stream(xs)|) <= Bodies(xs)
    ensures Deliverable(xs, |Stream(xs)|) == Bodies(xs) <==> Fits(xs)
  {
    if xs != [] {
      var tail := xs[1..];
      AllDeliverableIff(tail);
      StreamLength(xs);
      FitsTail(xs);
      if TooLong(xs[0].f) {
        assert Bodies(xs)[0] == xs[0].f.bytes;
      } else {
        var d := Deliverable(tail, |Stream(tail)|);
        assert Deliverable(xs, |Stream(xs)|) == BodyOf(xs[0].f) + d;
        assert BodyOf(xs[0].f) + d == BodyOf(xs[0].f) + Bodies(tail) ==> d == Bodies(tail) by {
          assert (BodyOf(xs[0].f) + d)[|BodyOf(xs[0].f)|..] == d;
          assert (BodyOf(xs[0].f) + Bodies(tail))[|BodyOf(xs[0].f)|..] == Bodies(tail);
        }
      }
    }
  }

  /**
   * The framing round trip. Feed any list of heartbeats and bodies to a fresh connection, cut into
   * arrivals anyhow and perhaps short: when the loop comes to rest, or meets the end of the stream, it
   * has called up with exactly the bodies that arrived whole and fit the buffer, in order. Heartbeats
   * never show.
   */
  lemma FramingRoundTrip(xs: seq<Framed>, steps: seq<Step>, s: State)
    requires AllSendable(xs)
    requires Reaches(Init([]), steps, s) && s.stream <= Stream(xs)
    ensures s.delivered <= Deliverable(xs, |s.stream|)
    ensures s.ended || (!s.cut && !CanComplete(s)) ==> s.delivered == Deliverable(xs, |s.stream|) && !s.crashed
    ensures s.ended ==> !s.open && !s.cut
    ensures (s.ended || (!s.cut && !CanComplete(s))) && s.stream == Stream(xs) ==> (s.delivered == Bodies(xs) <==> Fits(xs))
    ensures !s.cut && !s.ended && !CanComplete(s) && s.stream == Stream(xs) ==> (s.open <==> Fits(xs))
    ensures (s.ended || (!s.cut && !CanComplete(s))) && s.stream == Stream(xs) && Fits(xs) ==> s.beats == Beats(xs)
  {
    ChunksDoNotMatter(steps, s);
    SettledOn(xs, s.stream);
    AllDeliverableIff(xs);
  }

  lemma SettledOn(xs: seq<Framed>, stream: seq<byte>)
    requires AllSendable(xs) && stream <= Stream(xs)
    ensures var d := Settled(stream);
      && d.delivered == Deliverable(xs, |stream|) && !d.crashed
      && (stream == Stream(xs) ==> (d.open <==> Fits(xs)) && (Fits(xs) ==> d.beats == Beats(xs)))
  {
    assert Init(stream).stream[0..] == stream;
    DrainFrames(Init(stream), xs, stream);
    assert Init(stream).delivered + Deliverable(xs, |stream|) == Deliverable(xs, |stream|);
  }

  /** The longest body that is delivered has 8192 bytes; a longer one closes the connection instead. */
  lemma LongestBody(b: seq<byte>, pad: seq<byte>, steps: seq<Step>, s: State)
    requires |b| < 0x1_0000_0000 && |pad| == 3
    requires Reaches(Init([]), steps, s) && s.stream == Wire(Framed(Body(b), pad))
    requires !s.cut && !s.ended && !CanComplete(s)
    ensures s.delivered == if |b| <= 8192 then [b] else []
    ensures s.open <==> |b| <= 8192
  {
    var x := Framed(Body(b), pad);
    assert [x][1..] == [] && Stream([]) == [];
    assert Stream([x]) == Wire(x) + [] == Wire(x);
    WireLength(x);
    assert Deliverable([x], |Wire(x)|) == if TooLong(x.f) then [] else [b] + Deliverable([], 0);
    FramingRoundTrip([x], steps, s);
  }
}
