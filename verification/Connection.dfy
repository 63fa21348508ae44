/**
 * The connection object itself: its callbacks update the write queue, the two receive buffers and the
 * socket step by step. Each is proved to take one step of the write pump or of the receive loop, and
 * the object keeps the trace of those steps, so that what the two machines guarantee over whole runs
 * is proved of the object at the end. The virtual members are those of a server connection with
 * heartbeats.
 */
module Connections {
  import opened Base
  import F = Framing
  import P = WritePump

  /** How an asynchronous operation ended. */
  datatype IoResult = Success | Aborted | Eof | OtherError

  datatype Event = Timeout | Closed | Pipe

  /** The header and the body of a message are queued as separate buffers. */
  type Buffers = seq<seq<byte>>

  function Frames(queue: seq<Buffers>): (r: seq<seq<byte>>)
    ensures |r| == |queue|
    ensures forall i :: 0 <= i < |queue| ==> r[i] == Flatten(queue[i])
  {
    if queue == [] then [] else [Flatten(queue[0])] + Frames(queue[1..])
  }

  lemma FlattenPair(a: seq<byte>, b: seq<byte>)
    ensures Flatten([a]) == a && Flatten([a, b]) == a + b
  {
    assert [a, b][1..] == [b] && [b][1..] == [] && [a][1..] == [];
    assert Flatten([b]) == b && Flatten([a]) == a;
  }

  method Fill(buffer: array<byte>, data: seq<byte>)
    requires |data| <= buffer.Length
    modifies buffer
    ensures buffer[..|data|] == data
  {
    for i := 0 to |data|
      invariant buffer[..i] == data[..i]
    {
      buffer[i] := data[i];
    }
  }

  class Connection {
    var open: bool
    var writeQueue: seq<Buffers>
    /** What the outstanding write was handed, and what the outstanding read is for. */
    var writing: Option<seq<byte>>
    var reading: F.Pending
    const headerBuffer: array<byte>
    const receiveBuffer: array<byte>
    /** What the upper layer has been called with, and how often the timer was restarted. */
    var up: seq<seq<byte>>
    var events: seq<Event>
    var beats: nat
    var threw: bool

    ghost var pump: P.State<seq<byte>>
    ghost var pumpTrace: seq<P.Step<seq<byte>>>
    ghost var loop: F.State
    ghost var loopTrace: seq<F.Step>

    /** The fields are what the two machines say. */
    ghost predicate Consistent()
      reads this
    {
      && headerBuffer.Length == F.HEADER_SIZE && receiveBuffer.Length == F.BUFFER_SIZE && headerBuffer != receiveBuffer
      && pump.queue == Frames(writeQueue) && pump.inflight == writing
      && (writeQueue != [] ==> pump.sends != []) && (writing.Some? ==> writeQueue != [])
      && loop.open == open && loop.pending == reading && loop.delivered == up && loop.beats == beats
      && loop.crashed == threw && loop.pos <= |loop.stream|
    }

    /** And, the first read having been started, the machines are where their traces lead. */
    ghost predicate Valid()
      reads this
    {
      && Consistent()
      && F.Reaches(F.Init([]), loopTrace, loop)
      && P.Reaches(P.Init(), pumpTrace, pump)
    }

    /** An accepted socket: nothing queued, nothing read, no read started yet. */
    constructor ()
      ensures Consistent() && open && events == []
      ensures pump == P.Init() && loop == F.Accepted([])
      ensures fresh(headerBuffer) && fresh(receiveBuffer)
    {
      open, writeQueue, writing, reading := true, [], None, F.NoRead;
      headerBuffer := new byte[F.HEADER_SIZE](_ => 0);
      receiveBuffer := new byte[F.BUFFER_SIZE](_ => 0);
      up, events, beats, threw := [], [], 0, false;
      pump, pumpTrace := P.Init(), [];
      loop, loopTrace := F.Accepted([]), [];
    }

    ghost method RecordPump(step: P.Step<seq<byte>>, was: P.State<seq<byte>>)
      requires P.Reaches(P.Init(), pumpTrace, was) && P.Enabled(was, step)
      requires step.Complete? ==> was.queue != [] && was.sends != []
      modifies `pumpTrace
      ensures P.Reaches(P.Init(), pumpTrace, P.Apply(was, step))
    {
      P.ReachesSnoc(P.Init(), pumpTrace, was, step);
      pumpTrace := pumpTrace + [step];
    }

    ghost method RecordLoop(step: F.Step, was: F.State)
      requires F.Reaches(F.Init([]), loopTrace, was) && F.Enabled(was, step)
      modifies `loopTrace
      ensures F.Reaches(F.Init([]), loopTrace, F.Apply(was, step))
    {
      F.ReachesSnoc(F.Init([]), loopTrace, was, step);
      loopTrace := loopTrace + [step];
    }

    // ----- the write half -----

    /** Hands the buffers at the back of the queue to one write. */
    method DoWrite()
      requires writeQueue != []
      modifies `writing
      ensures writing == Some(Flatten(writeQueue[|writeQueue| - 1]))
    {
      var buffers := writeQueue[|writeQueue| - 1];
      var totalSize, toWrite: seq<byte> := 0, [];
      for i := 0 to |buffers|
        invariant toWrite == Flatten(buffers[..i]) && totalSize == |toWrite|
      {
        totalSize := totalSize + |buffers[i]|;
        toWrite := toWrite + buffers[i];
        FlattenAppend(buffers[..i], [buffers[i]]);
        FlattenPair(buffers[i], []);
        assert buffers[..i + 1] == buffers[..i] + [buffers[i]];
      }
      assert buffers[..|buffers|] == buffers;
      writing := Some(toWrite);
    }

    /** Queues buffers; only a send that finds the queue empty starts a write. */
    method Enqueue(buffers: Buffers)
      requires Consistent()
      modifies `writeQueue, `writing, `pump
      ensures Consistent() && pump == P.OnSend(old(pump), Flatten(buffers))
      ensures writeQueue == old(writeQueue) + [buffers]
      ensures writing == if old(writeQueue) == [] then Some(Flatten(buffers)) else old(writing)
    {
      writeQueue := writeQueue + [buffers];
      pump := P.OnSend(pump, Flatten(buffers));
      if |writeQueue| == 1 { DoWrite(); }
      assert Frames(writeQueue) == Frames(old(writeQueue)) + [Flatten(buffers)];
      assert pump.queue == Frames(writeQueue);
    }

    /** `pad` is what the padding of the header struct holds; the length goes low byte first, cut to 32 bits. */
    method DoSendMessage(msg: seq<byte>, pad: seq<byte>)
      requires Valid()
      modifies `writeQueue, `writing, `pump, `pumpTrace
      ensures Valid() && pump == P.OnSend(old(pump), F.Wire(F.Framed(F.Body(msg), pad)))
      ensures var n := |msg|;
        writeQueue == old(writeQueue)
          + [[[1] + pad + [n % 256, n / 0x100 % 256, n / 0x1_0000 % 256, n / 0x100_0000 % 256], msg]]
      ensures old(writeQueue) != [] ==> writing == old(writing)
    {
      FourBytes(|msg|);
      var header := F.HeaderBytes(F.NORMAL, |msg|, pad);
      FlattenPair(header, msg);
      Enqueue([header, msg]);
      RecordPump(P.Send(header + msg), old(pump));
    }

    /** A heartbeat is a frame of its own, a header without a body. */
    method SendHeartbeat(pad: seq<byte>)
      requires Valid()
      modifies `writeQueue, `writing, `pump, `pumpTrace
      ensures Valid() && pump == P.OnSend(old(pump), F.Wire(F.Framed(F.Beat, pad)))
      ensures writeQueue == old(writeQueue) + [[[0] + pad + [0, 0, 0, 0]]]
      ensures old(writeQueue) != [] ==> writing == old(writing)
    {
      FourBytes(0);
      var header := F.HeaderBytes(F.HEARTBEAT, 0, pad);
      FlattenPair(header, []);
      Enqueue([header]);
      RecordPump(P.Send(header), old(pump));
    }

    /** Drops the front of the queue and, if anything is left, starts a write with the back. */
    method PopAndWrite(ghost whole: bool)
      requires Consistent() && writing.Some? && pump.inflight.Some?
      modifies `writeQueue, `writing, `pump
      ensures Consistent() && pump == P.OnComplete(old(pump), whole)
      ensures writeQueue == old(writeQueue)[1..]
      ensures writing == if writeQueue == [] then None else Some(Flatten(writeQueue[|writeQueue| - 1]))
    {
      assert Frames(writeQueue)[1..] == Frames(writeQueue[1..]);
      pump := P.OnComplete(pump, whole);
      writing, writeQueue := None, writeQueue[1..];
      if |writeQueue| > 0 { DoWrite(); }
    }

    ghost predicate Finishes(ec: IoResult, bytesWritten: nat) { (ec.Success? || ec.Aborted?) && bytesWritten > 0 }

    /**
     * A write ended. An error, or a write of nothing, closes and writes no more, the queue staying as it
     * is; otherwise, also if it was cancelled half way, the front of the queue is dropped and the back
     * written next.
     */
    method WhenMessageSent(length: nat, ec: IoResult, bytesWritten: nat)
      requires Valid() && writing.Some? && bytesWritten <= length == |writing.value|
      requires ec.Success? ==> bytesWritten == length
      modifies this
      ensures Valid()
      ensures ec.Eof? || ec.OtherError? || bytesWritten == 0 ==>
        !open && writing == None && writeQueue == old(writeQueue)
      ensures (ec.Success? || ec.Aborted?) && bytesWritten > 0 ==>
        && open == old(open) && writeQueue == old(writeQueue)[1..]
        && writing == if writeQueue == [] then None else Some(Flatten(writeQueue[|writeQueue| - 1]))
      ensures pump == if Finishes(ec, bytesWritten) then P.OnComplete(old(pump), bytesWritten == length) else P.OnFail(old(pump))
      ensures loop == if Finishes(ec, bytesWritten) || !old(open) then old(loop) else F.Apply(old(loop), F.Close)
      ensures events == old(events) + if ec.Eof? || ec.OtherError? then [Pipe] else []
    {
      RecordPump(if Finishes(ec, bytesWritten) then P.Complete(bytesWritten == length) else P.Fail, pump);
      HandleWriteEnd(length, ec, bytesWritten);
    }

    method HandleWriteEnd(length: nat, ec: IoResult, bytesWritten: nat)
      requires Consistent() && F.Reaches(F.Init([]), loopTrace, loop)
      requires writing.Some? && bytesWritten <= length
      modifies `writing, `writeQueue, `pump, `open, `loop, `loopTrace, `events
      ensures Consistent() && F.Reaches(F.Init([]), loopTrace, loop)
      ensures ec.Eof? || ec.OtherError? || bytesWritten == 0 ==>
        !open && writing == None && writeQueue == old(writeQueue)
      ensures (ec.Success? || ec.Aborted?) && bytesWritten > 0 ==>
        && open == old(open) && writeQueue == old(writeQueue)[1..]
        && writing == if writeQueue == [] then None else Some(Flatten(writeQueue[|writeQueue| - 1]))
      ensures pump == if Finishes(ec, bytesWritten) then P.OnComplete(old(pump), bytesWritten == length) else P.OnFail(old(pump))
      ensures loop == if Finishes(ec, bytesWritten) || !old(open) then old(loop) else F.Apply(old(loop), F.Close)
      ensures events == old(events) + if ec.Eof? || ec.OtherError? then [Pipe] else []
    {
      if ec.Eof? || ec.OtherError? {
        GiveUp();
        events := events + [Pipe];
        return;
      }
      if bytesWritten <= length && bytesWritten == 0 {
        GiveUp();
        return;
      }
      PopAndWrite(bytesWritten == length);
    }

    /** The queue is left as it is. */
    method GiveUp()
      requires Consistent() && F.Reaches(F.Init([]), loopTrace, loop)
      modifies `writing, `pump, `open, `loop, `loopTrace
      ensures Consistent() && F.Reaches(F.Init([]), loopTrace, loop)
      ensures !open && writing == None && pump == P.OnFail(old(pump))
      ensures loop == if old(open) then F.Apply(old(loop), F.Close) else old(loop)
    {
      writing, pump := None, P.OnFail(pump);
      ConnectionClose();
    }

    // ----- the receive half -----

    /** Closing twice is closing once. */
    method ConnectionClose()
      requires loop.open == open && F.Reaches(F.Init([]), loopTrace, loop)
      modifies `open, `loop, `loopTrace
      ensures !open && loop == if old(open) then F.Apply(old(loop), F.Close) else old(loop)
      ensures F.Reaches(F.Init([]), loopTrace, loop)
    {
      if open {
        RecordLoop(F.Close, loop);
        open := false;
        loop := F.Apply(loop, F.Close);
      }
    }

    /** The upper layer disconnects of its own accord. */
    method Disconnect()
      requires Valid()
      modifies `open, `loop, `loopTrace
      ensures Valid() && !open && loop == if old(open) then F.Apply(old(loop), F.Close) else old(loop)
    {
      ConnectionClose();
    }

    method DoReceiveMessage()
      requires Consistent() && reading == F.NoRead
      modifies `reading, `loop
      ensures Consistent() && loop == F.ReceiveMessage(old(loop))
      ensures reading == if open then F.HeaderRead else F.NoRead
    {
      if !open { return; }
      reading := F.HeaderRead;
      loop := F.ReceiveMessage(loop);
    }

    /** The connection table starts the first read of a new connection. */
    method Start()
      requires Consistent() && open && pump == P.Init() && loop == F.Accepted([])
      modifies this
      ensures Valid() && loop == F.Init([]) && pump == P.Init() && open && reading == F.HeaderRead
    {
      DoReceiveMessage();
      loopTrace, pumpTrace := [], [];
    }

    /** A body longer than the buffer resizes the buffer to the capacity it has, which changes nothing. */
    method DoReceivePayload(length: nat)
      requires Consistent() && reading == F.NoRead && open
      modifies `reading, `loop
      ensures Consistent() && loop == F.StartRead(old(loop), F.BodyRead(length)) && reading == F.BodyRead(length)
    {
      reading := F.BodyRead(length);
      loop := F.StartRead(loop, F.BodyRead(length));
    }

    /** Type 0 is a heartbeat, type 1 announces a body of the length that follows the padding, any other throws. */
    method HeaderParser()
      requires Consistent() && reading == F.NoRead && open
      modifies `reading, `beats, `threw, `loop
      ensures Consistent() && loop == F.OnHeader(old(loop), headerBuffer[..])
      ensures beats == old(beats) + if headerBuffer[0] == 0 then 1 else 0
      ensures threw == (old(threw) || headerBuffer[0] > 1)
      ensures var a: nat, b: nat, c: nat, d: nat := headerBuffer[4], headerBuffer[5], headerBuffer[6], headerBuffer[7];
        reading == if headerBuffer[0] == 0 then F.HeaderRead
                   else if headerBuffer[0] == 1 then F.BodyRead(a + 0x100 * b + 0x1_0000 * c + 0x100_0000 * d)
                   else F.NoRead
    {
      FromFourBytes(headerBuffer[4..]);
      var kind, length := headerBuffer[0], FromLittleEndian(headerBuffer[4..]);
      assert headerBuffer[..][4..] == headerBuffer[4..];
      if kind == F.HEARTBEAT {
        beats := beats + 1;
        loop := loop.(beats := loop.beats + 1);
        DoReceiveMessage();
      } else if kind == F.NORMAL {
        DoReceivePayload(length);
      } else {
        threw := true;
        loop := loop.(crashed := true);
      }
    }

    /** The header read ended well and `headerBuffer` holds its eight bytes. */
    method WhenHeaderReceived()
      requires Consistent() && reading == F.NoRead
      modifies `reading, `beats, `threw, `loop
      ensures Consistent() && loop == F.CallBack(old(loop), F.HeaderRead, headerBuffer[..], false)
    {
      if open { HeaderParser(); }
    }

    /**
     * The body read ended well, having filled `bytesRead` bytes of `receiveBuffer`. `closes` tells
     * whether the upper layer disconnects while it is being called.
     */
    method WhenPayloadReceived(length: nat, bytesRead: nat, closes: bool)
      requires Consistent() && reading == F.NoRead && bytesRead <= receiveBuffer.Length && bytesRead <= length
      modifies `reading, `open, `up, `loop
      ensures Consistent() && loop == F.OnBody(old(loop), receiveBuffer[..bytesRead], length, closes)
      ensures up == old(up) + if old(open) && bytesRead == length then [receiveBuffer[..length]] else []
      ensures open == (old(open) && bytesRead == length && !closes)
      ensures reading == if open then F.HeaderRead else F.NoRead
    {
      if bytesRead < length {
        // the buffer was too small for the body
        open := false;
        loop := loop.(open := false);
        return;
      }
      if open {
        up := up + [receiveBuffer[..length]];
        open := !closes;
        loop := loop.(delivered := up, open := !closes, cut := loop.cut || closes);
      }
      DoReceiveMessage();
    }

    /** Bytes come in from the peer; nothing in the object changes until a read completes. */
    ghost method BytesArrive(chunk: seq<byte>)
      requires Valid() && !loop.ended
      modifies `loop, `loopTrace
      ensures Valid() && loop == F.Apply(old(loop), F.Arrive(chunk))
    {
      RecordLoop(F.Arrive(chunk), loop);
      loop := F.Apply(loop, F.Arrive(chunk));
    }

    /** What the library does when the bytes a read wants are all there: fill the buffer, call back. */
    method ReadCompletes(data: seq<byte>, closes: bool)
      requires Valid() && F.CanComplete(loop)
      requires data == loop.stream[loop.pos..loop.pos + F.Need(reading)]
      modifies this, headerBuffer, receiveBuffer
      ensures Valid() && loop == F.Complete(old(loop), closes)
      ensures pump == old(pump) && events == old(events)
    {
      RecordLoop(F.Read(closes), loop);
      TakeData(data, closes);
    }

    method TakeData(data: seq<byte>, closes: bool)
      requires Consistent() && F.CanComplete(loop)
      requires data == loop.stream[loop.pos..loop.pos + F.Need(reading)]
      modifies `reading, `open, `up, `beats, `threw, `loop, headerBuffer, receiveBuffer
      ensures Consistent() && loop == F.Complete(old(loop), closes)
    {
      var wanted := reading;
      reading := F.NoRead;
      loop := F.Consumed(loop);
      if wanted.HeaderRead? { TakeHeader(data); } else { TakeBody(data, wanted.length, closes); }
    }

    method TakeHeader(data: seq<byte>)
      requires Consistent() && reading == F.NoRead && |data| == F.HEADER_SIZE
      modifies `reading, `beats, `threw, `loop, headerBuffer
      ensures Consistent() && loop == F.CallBack(old(loop), F.HeaderRead, data, false)
    {
      Fill(headerBuffer, data);
      assert headerBuffer[..] == data;
      WhenHeaderReceived();
    }

    method TakeBody(data: seq<byte>, length: nat, closes: bool)
      requires Consistent() && reading == F.NoRead && |data| <= F.BUFFER_SIZE && |data| <= length
      modifies `reading, `open, `up, `loop, receiveBuffer
      ensures Consistent() && loop == F.OnBody(old(loop), data, length, closes)
    {
      Fill(receiveBuffer, data);
      WhenPayloadReceived(length, |data|, closes);
    }

    function ErrorOf(ec: IoResult): F.ReadError
      requires !ec.Success?
    {
      match ec
      case Eof => F.AtEnd
      case Aborted => F.Cancelled
      case OtherError => F.Broken
    }

    /** A read that ends in an error: a cancelled header read is only logged, anything else closes. */
    method ReadFails(ec: IoResult)
      requires Valid() && !ec.Success? && reading != F.NoRead
      requires (ec.Eof? ==> open && !F.CanComplete(loop)) && (ec.Aborted? ==> F.Need(reading) > 0)
      modifies this
      ensures Valid() && loop == F.FailRead(old(loop), ErrorOf(ec))
      ensures pump == old(pump) && up == old(up) && reading == F.NoRead
      ensures open == (old(open) && ec.Aborted? && old(reading).HeaderRead?)
      ensures events == old(events) + if ec.Eof? && old(reading).HeaderRead? then [Closed] else []
    {
      RecordLoop(F.ReadFails(ErrorOf(ec)), loop);
      HandleReadError(ec);
    }

    method HandleReadError(ec: IoResult)
      requires Consistent() && !ec.Success? && F.CanFail(loop, ErrorOf(ec))
      modifies `open, `events, `reading, `loop
      ensures Consistent() && loop == F.FailRead(old(loop), ErrorOf(ec)) && reading == F.NoRead
      ensures open == (old(open) && ec.Aborted? && old(reading).HeaderRead?)
      ensures events == old(events) + if ec.Eof? && old(reading).HeaderRead? then [Closed] else []
    {
      loop := F.FailRead(loop, ErrorOf(ec));
      if reading.HeaderRead? {
        if ec.Eof? {
          open := false;
          events := events + [Closed];
        } else if ec.OtherError? {
          open := false;
        }
      } else {
        open := false;
      }
      reading := F.NoRead;
    }

    /** The heartbeat timer fired, or its wait was cancelled by a restart. */
    method WhenTimeout(ec: IoResult)
      requires Valid()
      modifies `open, `events, `loop, `loopTrace
      ensures Valid() && open == (old(open) && !ec.Success?)
      ensures loop == if ec.Success? && old(open) then F.Apply(old(loop), F.Close) else old(loop)
      ensures events == old(events) + if ec.Success? then [Timeout] else []
    {
      if ec.Success? {
        ConnectionClose();
        events := events + [Timeout];
      }
    }

    // ----- what holds of the object over its whole life -----

    /** At every moment one read is outstanding or none, and what was passed up is what the frames received say. */
    lemma DeliversInOrder(xs: seq<F.Framed>)
      requires Valid() && F.AllSendable(xs) && loop.stream <= F.Stream(xs)
      ensures loop.outstanding == if reading == F.NoRead then 0 else 1
      ensures up <= F.Deliverable(xs, |loop.stream|)
      ensures loop.ended || (!loop.cut && !F.CanComplete(loop)) ==> up == F.Deliverable(xs, |loop.stream|) && !threw
      ensures !loop.cut && !loop.ended && !F.CanComplete(loop) && loop.stream == F.Stream(xs) ==> (open <==> F.Fits(xs))
      ensures !loop.cut && !F.CanComplete(loop) && loop.stream == F.Stream(xs) && F.Fits(xs) ==>
        up == F.Bodies(xs) && beats == F.Beats(xs)
    {
      F.OneReadAtATime(F.Init([]), loopTrace, loop);
      F.FramingRoundTrip(xs, loopTrace, loop);
    }

    /** A write is in flight exactly while something is queued and none has failed, and the k-th write took the youngest frame of its time. */
    lemma WritesYoungest()
      requires Valid()
      ensures writing.Some? <==> writeQueue != [] && !pump.failed
      ensures writing.Some? ==> writing.value in Frames(writeQueue)
      ensures |pump.wire| + |writeQueue| == |pump.sends| && |pump.wire| <= |pump.starts|
      ensures forall k :: 0 <= k < |pump.wire| ==>
        k <= pump.starts[k] < |pump.sends| && pump.wire[k] == pump.sends[pump.starts[k]]
      ensures forall j, k :: 0 <= j <= k < |pump.starts| ==> pump.starts[j] <= pump.starts[k]
    {
      P.PumpAsWritten(pumpTrace, pump);
      P.ReachedInv(pumpTrace, pump);
    }

    /**
     * Everything the object was given to send is written, whole and in order, exactly when no send found
     * two frames queued and no write was cancelled part-way.
     */
    lemma DrainsInOrderIff()
      requires Valid() && writeQueue == []
      ensures |pump.wire| == |pump.sends|
      ensures P.WholeInTurn(pump) <==> !P.Crowded(pump) && P.Complete(false) !in pumpTrace
      ensures P.WholeInTurn(pump) ==> pump.wire == pump.sends
    {
      P.PumpAsWritten(pumpTrace, pump);
      P.DrainedInOrderIff(pumpTrace, pump);
    }
  }
}
