/**
 * The single-producer single-consumer ring. Each load, store and slot access of `try_send` and
 * `try_receive` is one step, and the steps of the two threads interleave at will, under sequential
 * consistency.
 */
module LockFreeChannel {
  import opened Base

  /** `full` records what was true of the queue when the producer loaded the tail. */
  datatype ProducerPc<T> =
    | PIdle
    | PCalled(x: T)
    | PGotHead(x: T, head: nat)
    | PGotTail(x: T, head: nat, tail: nat, full: bool)
    | PWriting(x: T, head: nat)
    | PWrote(x: T, head: nat)

  /** `empty` records what was true of the queue when the consumer loaded the head. */
  datatype ConsumerPc<T> =
    | CIdle
    | CCalled
    | CGotHead(head: nat, empty: bool)
    | CGotTail(head: nat, tail: nat, empty: bool)
    | CReading(tail: nat)
    | CRead(v: T, tail: nat)

  /**
   * `head`, `tail` and `ring` are the object. `sent` grows when the producer publishes a slot,
   * `received` when the consumer frees one. `seenTail` and `seenHead` are the lengths those had
   * when the stale local copies were loaded.
   */
  datatype State<T> = State(
    size: nat,
    head: nat,
    tail: nat,
    ring: seq<T>,
    producer: ProducerPc<T>,
    consumer: ConsumerPc<T>,
    sent: seq<T>,
    received: seq<T>,
    seenTail: nat,
    seenHead: nat)

  function Next(size: nat, pos: nat): nat
    requires size > 0
  {
    (pos + 1) % size
  }

  /** How many items are in the channel. */
  function Count<T>(s: State<T>): int { |s.sent| - |s.received| }

  datatype Step<T> =
    | CallSend(x: T) | PLoadHead | PLoadTail | PTest | Scribble(junk: T) | Write | StoreHead
    | CallReceive | CLoadHead | CLoadTail | CTest | Read(junk: T) | StoreTail

  predicate Enabled<T>(s: State<T>, step: Step<T>) {
    match step
    case CallSend(_) => s.producer.PIdle?
    case PLoadHead => s.producer.PCalled?
    case PLoadTail => s.producer.PGotHead?
    case PTest => s.producer.PGotTail?
    case Scribble(_) => s.producer.PWriting?
    case Write => s.producer.PWriting?
    case StoreHead => s.producer.PWrote?
    case CallReceive => s.consumer.CIdle?
    case CLoadHead => s.consumer.CCalled?
    case CLoadTail => s.consumer.CGotHead?
    case CTest => s.consumer.CGotTail?
    case Read(_) => s.consumer.CReading?
    case StoreTail => s.consumer.CRead?
  }

  /** While a slot is written it may hold anything, and a slot that was moved from holds anything. */
  function Apply<T>(s: State<T>, step: Step<T>): State<T>
    requires s.size > 0 && |s.ring| == s.size && Enabled(s, step) && InBounds(s)
  {
    var p, c := s.producer, s.consumer;
    match step
    case CallSend(x) => s.(producer := PCalled(x))
    case PLoadHead => s.(producer := PGotHead(p.x, s.head))
    case PLoadTail => s.(producer := PGotTail(p.x, p.head, s.tail, Count(s) == s.size - 1), seenTail := |s.received|)
    case PTest => s.(producer := if Next(s.size, p.head) == p.tail then PIdle else PWriting(p.x, p.head))
    case Scribble(junk) => s.(ring := s.ring[p.head := junk])
    case Write => s.(ring := s.ring[p.head := p.x], producer := PWrote(p.x, p.head))
    case StoreHead => s.(head := Next(s.size, p.head), sent := s.sent + [p.x], producer := PIdle)
    case CallReceive => s.(consumer := CCalled)
    case CLoadHead => s.(consumer := CGotHead(s.head, Count(s) == 0), seenHead := |s.sent|)
    case CLoadTail => s.(consumer := CGotTail(c.head, s.tail, c.empty))
    case CTest => s.(consumer := if c.head == c.tail then CIdle else CReading(c.tail))
    case Read(junk) => s.(consumer := CRead(s.ring[c.tail], c.tail), ring := s.ring[c.tail := junk])
    case StoreTail => s.(tail := Next(s.size, c.tail), received := s.received + [c.v], consumer := CIdle)
  }

  /** The slots a thread is about to touch lie inside the array. */
  predicate InBounds<T>(s: State<T>) {
    && (s.producer.PWriting? || s.producer.PWrote? ==> s.producer.head < s.size)
    && (s.consumer.CReading? || s.consumer.CRead? ==> s.consumer.tail < s.size)
  }

  function Init<T>(size: nat, ring: seq<T>): State<T> {
    State(size, 0, 0, ring, PIdle, CIdle, [], [], 0, 0)
  }

  /** Positions count from the first item ever sent; this is where one lives. */
  function Slot(size: nat, k: nat): (r: nat)
    requires size > 0
    ensures r < size
  {
    if k == 0 then 0 else Next(size, Slot(size, k - 1))
  }

  lemma NextWraps(size: nat, pos: nat)
    requires pos < size
    ensures Next(size, pos) == if pos + 1 == size then 0 else pos + 1
  {
    if pos + 1 < size { assert (pos + 1) % size == pos + 1; } else { assert size % size == 0; }
  }

  lemma {:induction false} SlotOffset(size: nat, k: nat, d: nat)
    requires size > 0 && d <= size
    ensures Slot(size, k + d) == if Slot(size, k) + d < size then Slot(size, k) + d else Slot(size, k) + d - size
  {
    if d > 0 {
      SlotOffset(size, k, d - 1);
      NextWraps(size, Slot(size, k + d - 1));
    }
  }

  /** Positions at most a ring apart share a slot only if they are the same or exactly a ring apart. */
  lemma SlotsDistinct(size: nat, a: nat, b: nat)
    requires size > 0 && b <= a <= b + size
    ensures Slot(size, a) == Slot(size, b) <==> a == b || a == b + size
  {
    SlotOffset(size, b, a - b);
  }

  ghost predicate ProducerInv<T>(s: State<T>)
    requires s.size > 0 && |s.ring| == s.size
  {
    var p := s.producer;
    match p
    case PIdle => true
    case PCalled(_) => true
    case PGotHead(_, h) => h == Slot(s.size, |s.sent|)
    case PGotTail(_, h, t, full) =>
      && h == Slot(s.size, |s.sent|) && t == Slot(s.size, s.seenTail)
      && s.seenTail <= |s.received| && |s.sent| - s.seenTail <= s.size - 1
      && (full <==> |s.sent| - s.seenTail == s.size - 1)
    case PWriting(_, h) => h == Slot(s.size, |s.sent|) && Count(s) < s.size - 1
    case PWrote(x, h) => h == Slot(s.size, |s.sent|) && Count(s) < s.size - 1 && s.ring[h] == x
  }

  ghost predicate ConsumerInv<T>(s: State<T>)
    requires s.size > 0
  {
    var c := s.consumer;
    match c
    case CIdle => true
    case CCalled => true
    case CGotHead(h, empty) =>
      && h == Slot(s.size, s.seenHead) && |s.received| <= s.seenHead <= |s.sent|
      && s.seenHead - |s.received| <= s.size - 1 && (empty <==> s.seenHead == |s.received|)
    case CGotTail(h, t, empty) =>
      && h == Slot(s.size, s.seenHead) && |s.received| <= s.seenHead <= |s.sent|
      && s.seenHead - |s.received| <= s.size - 1 && (empty <==> s.seenHead == |s.received|)
      && t == Slot(s.size, |s.received|)
    case CReading(t) => t == Slot(s.size, |s.received|) && Count(s) > 0
    case CRead(v, t) => t == Slot(s.size, |s.received|) && Count(s) > 0 && v == s.sent[|s.received|]
  }

  /** The first item that is still in its slot: a consumer that has read moved one out already. */
  function FirstLive<T>(s: State<T>): nat {
    if s.consumer.CRead? then |s.received| + 1 else |s.received|
  }

  ghost predicate Inv<T>(s: State<T>) {
    && s.size > 0 && |s.ring| == s.size
    && 0 <= Count(s) <= s.size - 1
    && s.head == Slot(s.size, |s.sent|) && s.tail == Slot(s.size, |s.received|)
    && s.received <= s.sent
    && (forall k :: FirstLive(s) <= k < |s.sent| ==> s.ring[Slot(s.size, k)] == s.sent[k])
    && ProducerInv(s) && ConsumerInv(s)
  }

  lemma InitInv<T>(size: nat, ring: seq<T>)
    requires size > 0 && |ring| == size
    ensures Inv(Init(size, ring))
  {
  }

  /** A write to the producer's slot touches no live slot. */
  lemma ProducerSlotFree<T>(s: State<T>, h: nat, k: nat)
    requires Inv(s) && h == Slot(s.size, |s.sent|) && |s.received| <= k < |s.sent|
    ensures Slot(s.size, k) != h
  {
    SlotsDistinct(s.size, |s.sent|, k);
  }

  lemma ProducerLoadsKeepInv<T>(s: State<T>, step: Step<T>)
    requires Inv(s) && Enabled(s, step) && (step.CallSend? || step.PLoadHead? || step.PLoadTail?)
    ensures Inv(Apply(s, step))
  {}

  /** The stale tail can only make the ring look fuller than it is. */
  lemma PTestKeepsInv<T>(s: State<T>)
    requires Inv(s) && Enabled(s, PTest)
    ensures Inv(Apply(s, PTest))
  {
    var p := s.producer;
    SlotsDistinct(s.size, |s.sent| + 1, s.seenTail);
    assert Next(s.size, p.head) == Slot(s.size, |s.sent| + 1);
    assert Next(s.size, p.head) == p.tail || Count(s) < s.size - 1;
  }

  lemma WriteKeepsInv<T>(s: State<T>, step: Step<T>)
    requires Inv(s) && Enabled(s, step) && (step.Scribble? || step.Write?)
    ensures Inv(Apply(s, step))
  {
    var t := Apply(s, step);
    forall k | FirstLive(t) <= k < |t.sent| ensures t.ring[Slot(t.size, k)] == t.sent[k] {
      ProducerSlotFree(s, s.producer.head, k);
    }
  }

  lemma StoreHeadKeepsInv<T>(s: State<T>)
    requires Inv(s) && Enabled(s, StoreHead)
    ensures Inv(Apply(s, StoreHead))
  {}

  lemma ConsumerKeepsInv<T>(s: State<T>, step: Step<T>)
    requires Inv(s) && Enabled(s, step)
    requires step.CallReceive? || step.CLoadHead? || step.CLoadTail? || step.CTest?
    ensures Inv(Apply(s, step))
  {
    if step.CTest? { SlotsDistinct(s.size, s.seenHead, |s.received|); }
  }

  lemma ReadKeepsInv<T>(s: State<T>, junk: T)
    requires Inv(s) && Enabled(s, Read(junk))
    ensures Inv(Apply(s, Read(junk)))
  {
    var t := Apply(s, Read(junk));
    forall k | FirstLive(t) <= k < |t.sent| ensures t.ring[Slot(t.size, k)] == t.sent[k] {
      SlotsDistinct(s.size, k, |s.received|);
    }
    if s.producer.PWrote? { ProducerSlotFree(s, s.producer.head, |s.received|); }
  }

  lemma StoreTailKeepsInv<T>(s: State<T>)
    requires Inv(s) && Enabled(s, StoreTail)
    ensures Inv(Apply(s, StoreTail))
  {}

  lemma StepKeepsInv<T>(s: State<T>, step: Step<T>)
    requires Inv(s) && Enabled(s, step)
    ensures Inv(Apply(s, step))
  {
    match step
    case Scribble(_) => WriteKeepsInv(s, step);
    case Write => WriteKeepsInv(s, step);
    case StoreHead => StoreHeadKeepsInv(s);
    case Read(junk) => ReadKeepsInv(s, junk);
    case StoreTail => StoreTailKeepsInv(s);
    case CallSend(_) => ProducerLoadsKeepInv(s, step);
    case PLoadHead => ProducerLoadsKeepInv(s, step);
    case PLoadTail => ProducerLoadsKeepInv(s, step);
    case PTest => PTestKeepsInv(s);
    case CallReceive => ConsumerKeepsInv(s, step);
    case CLoadHead => ConsumerKeepsInv(s, step);
    case CLoadTail => ConsumerKeepsInv(s, step);
    case CTest => ConsumerKeepsInv(s, step);
  }

  /** Any interleaving: a list of steps, each enabled in its turn. */
  ghost predicate Reaches<T>(s: State<T>, steps: seq<Step<T>>, t: State<T>)
    decreases steps
  {
    if steps == [] then s == t else
    && s.size > 0 && |s.ring| == s.size && InBounds(s) && Enabled(s, steps[0])
    && Reaches(Apply(s, steps[0]), steps[1..], t)
  }

  lemma {:induction false} RunKeepsInv<T>(s: State<T>, steps: seq<Step<T>>, t: State<T>)
    requires Inv(s) && Reaches(s, steps, t)
    ensures Inv(t)
    decreases steps
  {
    if steps != [] {
      StepKeepsInv(s, steps[0]);
      RunKeepsInv(Apply(s, steps[0]), steps[1..], t);
    }
  }

  /** The items in the channel, read off the slots from tail to head; a consumer may hold the first. */
  function Contents<T>(s: State<T>): seq<T>
    requires |s.ring| == s.size > 0 && Count(s) >= 0
  {
    seq(Count(s), i requires 0 <= i < Count(s) =>
      if i == 0 && s.consumer.CRead? then s.consumer.v else s.ring[Slot(s.size, |s.received| + i)])
  }

  /**
   * In every state of every interleaving: what was sent is what was received and then what the ring
   * holds, the ring holds at most size - 1 items, and the slot being written is neither live nor the
   * one being read.
   */
  lemma RingRefinesFifo<T>(size: nat, ring: seq<T>, steps: seq<Step<T>>, s: State<T>)
    requires size > 0 && |ring| == size && Reaches(Init(size, ring), steps, s)
    ensures |s.ring| == s.size == size && 0 <= Count(s) <= size - 1
    ensures s.sent == s.received + Contents(s)
    ensures s.producer.PWriting? || s.producer.PWrote? ==>
      forall k :: |s.received| <= k < |s.sent| ==> Slot(size, k) != s.producer.head
    ensures (s.producer.PWriting? || s.producer.PWrote?) && (s.consumer.CReading? || s.consumer.CRead?) ==>
      s.producer.head != s.consumer.tail
  {
    InitInv(size, ring);
    RunKeepsInv(Init(size, ring), steps, s);
    SizeFixed(Init(size, ring), steps, s);
    ContentsAreLive(s);
    if s.producer.PWriting? || s.producer.PWrote? { WrittenSlotIsFree(s); }
  }

  lemma ContentsAreLive<T>(s: State<T>)
    requires Inv(s)
    ensures s.sent == s.received + Contents(s)
  {
    var r, c := |s.received|, Contents(s);
    forall i | 0 <= i < |c| ensures c[i] == s.sent[r + i] {
      if i > 0 || !s.consumer.CRead? { assert FirstLive(s) <= r + i; }
    }
    assert s.received == s.sent[..r] && c == s.sent[r..];
  }

  lemma WrittenSlotIsFree<T>(s: State<T>)
    requires Inv(s) && (s.producer.PWriting? || s.producer.PWrote?)
    ensures forall k :: |s.received| <= k < |s.sent| ==> Slot(s.size, k) != s.producer.head
    ensures s.consumer.CReading? || s.consumer.CRead? ==> s.producer.head != s.consumer.tail
  {
    forall k | |s.received| <= k < |s.sent| ensures Slot(s.size, k) != s.producer.head {
      ProducerSlotFree(s, s.producer.head, k);
    }
  }

  lemma {:induction false} SizeFixed<T>(s: State<T>, steps: seq<Step<T>>, t: State<T>)
    requires Reaches(s, steps, t)
    ensures t.size == s.size
    decreases steps
  {
    if steps != [] { SizeFixed(Apply(s, steps[0]), steps[1..], t); }
  }

  /**
   * A call fails exactly when the queue was full, or empty, at the moment inside the call when the
   * other thread's index was loaded; stale copies cause no other failure.
   */
  lemma FailuresAreReal<T>(size: nat, ring: seq<T>, steps: seq<Step<T>>, s: State<T>)
    requires size > 0 && |ring| == size && Reaches(Init(size, ring), steps, s)
    ensures Inv(s)
    ensures s.producer.PGotTail? ==> (Apply(s, PTest).producer.PIdle? <==> s.producer.full)
    ensures s.producer.PGotTail? && !s.producer.full ==> Apply(s, PTest).producer == PWriting(s.producer.x, s.head)
    ensures s.consumer.CGotTail? ==> (Apply(s, CTest).consumer.CIdle? <==> s.consumer.empty)
    ensures s.consumer.CGotTail? && !s.consumer.empty ==> Apply(s, CTest).consumer == CReading(s.tail)
    ensures s.producer.PGotHead? ==> (Apply(s, PLoadTail).producer.full <==> |s.sent| == |s.received| + size - 1)
    ensures s.consumer.CCalled? ==> (Apply(s, CLoadHead).consumer.empty <==> s.sent == s.received)
  {
    InitInv(size, ring);
    RunKeepsInv(Init(size, ring), steps, s);
    SizeFixed(Init(size, ring), steps, s);
    InvMakesFailuresReal(s);
  }

  lemma InvMakesFailuresReal<T>(s: State<T>)
    requires Inv(s)
    ensures s.producer.PGotTail? ==> (Apply(s, PTest).producer.PIdle? <==> s.producer.full)
    ensures s.consumer.CGotTail? ==> (Apply(s, CTest).consumer.CIdle? <==> s.consumer.empty)
  {
    if s.producer.PGotTail? { SlotsDistinct(s.size, |s.sent| + 1, s.seenTail); }
    if s.consumer.CGotTail? { SlotsDistinct(s.size, s.seenHead, |s.received|); }
  }

  // ----- what the calls return -----

  /** A `try_send` that has ended: what it was to send, whether it did, and whether it had found the queue full. */
  datatype SendReturn<T> = SendReturn(x: T, ok: bool, full: bool)

  /** A `try_receive` that has ended, and whether it had found the queue empty. */
  datatype ReceiveReturn<T> = ReceiveReturn(r: Option<T>, empty: bool)

  /** A test that fails ends the call; the last store of one that does not, ends it too. */
  function SendEnds<T>(s: State<T>, step: Step<T>): seq<SendReturn<T>>
    requires Ready(s) && Enabled(s, step)
  {
    if s.producer.PIdle? || !Apply(s, step).producer.PIdle? then []
    else [SendReturn(s.producer.x, |Apply(s, step).sent| > |s.sent|, s.producer.PGotTail? && s.producer.full)]
  }

  function ReceiveEnds<T>(s: State<T>, step: Step<T>): seq<ReceiveReturn<T>>
    requires Ready(s) && Enabled(s, step)
  {
    var t := Apply(s, step);
    if s.consumer.CIdle? || !t.consumer.CIdle? then []
    else [ReceiveReturn(if |t.received| > |s.received| then Some(t.received[|t.received| - 1]) else None,
                        s.consumer.CGotTail? && s.consumer.empty)]
  }

  predicate Ready<T>(s: State<T>) { s.size > 0 && |s.ring| == s.size && InBounds(s) }

  function SendReturns<T>(s: State<T>, steps: seq<Step<T>>): seq<SendReturn<T>>
    decreases steps
  {
    if steps == [] || !Ready(s) || !Enabled(s, steps[0]) then []
    else SendEnds(s, steps[0]) + SendReturns(Apply(s, steps[0]), steps[1..])
  }

  function ReceiveReturns<T>(s: State<T>, steps: seq<Step<T>>): seq<ReceiveReturn<T>>
    decreases steps
  {
    if steps == [] || !Ready(s) || !Enabled(s, steps[0]) then []
    else ReceiveEnds(s, steps[0]) + ReceiveReturns(Apply(s, steps[0]), steps[1..])
  }

  /** What `try_send` was called with, and how often `try_receive` was. */
  function Offered<T>(steps: seq<Step<T>>): seq<T> {
    if steps == [] then [] else (if steps[0].CallSend? then [steps[0].x] else []) + Offered(steps[1..])
  }

  function Asked<T>(steps: seq<Step<T>>): nat {
    if steps == [] then 0 else (if steps[0].CallReceive? then 1 else 0) + Asked(steps[1..])
  }

  function All<T>(ended: seq<SendReturn<T>>): seq<T> {
    if ended == [] then [] else [ended[0].x] + All(ended[1..])
  }

  function Taken<T>(ended: seq<SendReturn<T>>): seq<T> {
    if ended == [] then [] else (if ended[0].ok then [ended[0].x] else []) + Taken(ended[1..])
  }

  function Given<T>(ended: seq<ReceiveReturn<T>>): seq<T> {
    if ended == [] then [] else (if ended[0].r.Some? then [ended[0].r.value] else []) + Given(ended[1..])
  }

  function Sending<T>(p: ProducerPc<T>): seq<T> { if p.PIdle? then [] else [p.x] }

  function Receiving<T>(c: ConsumerPc<T>): nat { if c.CIdle? then 0 else 1 }

  lemma StepSends<T>(s: State<T>, step: Step<T>)
    requires Inv(s) && Enabled(s, step)
    ensures var (t, ended) := (Apply(s, step), SendEnds(s, step));
            && Sending(s.producer) + Offered([step]) == All(ended) + Sending(t.producer)
            && t.sent == s.sent + Taken(ended) && forall x :: x in ended ==> (x.ok <==> !x.full)
  {
    InvMakesFailuresReal(s);
    assert [step][1..] == [] && s.sent + [] == s.sent;
  }

  lemma StepReceives<T>(s: State<T>, step: Step<T>)
    requires Inv(s) && Enabled(s, step)
    ensures var (t, ended) := (Apply(s, step), ReceiveEnds(s, step));
            && Receiving(s.consumer) + Asked([step]) == |ended| + Receiving(t.consumer)
            && t.received == s.received + Given(ended) && forall x :: x in ended ==> (x.r.Some? <==> !x.empty)
  {
    InvMakesFailuresReal(s);
    assert [step][1..] == [] && s.received + [] == s.received;
  }

  lemma {:induction false} SendsAppend<T>(a: seq<SendReturn<T>>, b: seq<SendReturn<T>>)
    ensures All(a + b) == All(a) + All(b) && Taken(a + b) == Taken(a) + Taken(b)
  {
    if a == [] {
      assert a + b == b;
    } else {
      assert (a + b)[0] == a[0] && (a + b)[1..] == a[1..] + b;
      SendsAppend(a[1..], b);
      ConcatAssoc([a[0].x], All(a[1..]), All(b));
      ConcatAssoc(if a[0].ok then [a[0].x] else [], Taken(a[1..]), Taken(b));
    }
  }

  lemma {:induction false} GivenAppend<T>(a: seq<ReceiveReturn<T>>, b: seq<ReceiveReturn<T>>)
    ensures Given(a + b) == Given(a) + Given(b)
  {
    if a == [] {
      assert a + b == b;
    } else {
      assert (a + b)[0] == a[0] && (a + b)[1..] == a[1..] + b;
      GivenAppend(a[1..], b);
      ConcatAssoc(if a[0].r.Some? then [a[0].r.value] else [], Given(a[1..]), Given(b));
    }
  }

  lemma OfferedFirst<T>(steps: seq<Step<T>>)
    requires steps != []
    ensures Offered(steps) == Offered([steps[0]]) + Offered(steps[1..])
    ensures Asked(steps) == Asked([steps[0]]) + Asked(steps[1..])
  {
    assert [steps[0]][1..] == [];
  }

  lemma {:induction false} RunSends<T>(s: State<T>, steps: seq<Step<T>>, t: State<T>)
    requires Inv(s) && Reaches(s, steps, t)
    ensures Sending(s.producer) + Offered(steps) == All(SendReturns(s, steps)) + Sending(t.producer)
    ensures t.sent == s.sent + Taken(SendReturns(s, steps))
    ensures forall x :: x in SendReturns(s, steps) ==> (x.ok <==> !x.full)
    decreases steps
  {
    if steps == [] {
      assert s.sent + [] == s.sent;
    } else {
      var u, first, rest := Apply(s, steps[0]), SendEnds(s, steps[0]), SendReturns(Apply(s, steps[0]), steps[1..]);
      StepSends(s, steps[0]);
      StepKeepsInv(s, steps[0]);
      RunSends(u, steps[1..], t);
      SendsAppend(first, rest);
      OfferedFirst(steps);
      ConcatAssoc(s.sent, Taken(first), Taken(rest));
      ConcatAssoc(Sending(s.producer), Offered([steps[0]]), Offered(steps[1..]));
      ConcatAssoc(All(first), Sending(u.producer), Offered(steps[1..]));
      ConcatAssoc(All(first), All(rest), Sending(t.producer));
    }
  }

  lemma {:induction false} RunReceives<T>(s: State<T>, steps: seq<Step<T>>, t: State<T>)
    requires Inv(s) && Reaches(s, steps, t)
    ensures Receiving(s.consumer) + Asked(steps) == |ReceiveReturns(s, steps)| + Receiving(t.consumer)
    ensures t.received == s.received + Given(ReceiveReturns(s, steps))
    ensures forall x :: x in ReceiveReturns(s, steps) ==> (x.r.Some? <==> !x.empty)
    decreases steps
  {
    if steps == [] {
      assert s.received + [] == s.received;
    } else {
      var u, first, rest := Apply(s, steps[0]), ReceiveEnds(s, steps[0]), ReceiveReturns(Apply(s, steps[0]), steps[1..]);
      StepReceives(s, steps[0]);
      StepKeepsInv(s, steps[0]);
      RunReceives(u, steps[1..], t);
      GivenAppend(first, rest);
      OfferedFirst(steps);
      ConcatAssoc(s.received, Given(first), Given(rest));
    }
  }

  /**
   * What every call comes to, on every run. Each `try_send` ends once, before the next, and true is
   * returned for exactly those whose items were sent, in order: all but those that found the queue full
   * when they looked. Likewise each `try_receive` returns the next item, unless it found the queue
   * empty when it looked.
   */
  lemma CallsReturn<T>(size: nat, ring: seq<T>, steps: seq<Step<T>>, s: State<T>)
    requires size > 0 && |ring| == size && Reaches(Init(size, ring), steps, s)
    ensures var ended := SendReturns(Init(size, ring), steps);
            && Offered(steps) == All(ended) + Sending(s.producer) && s.sent == Taken(ended)
            && forall x :: x in ended ==> (x.ok <==> !x.full)
    ensures var ended := ReceiveReturns(Init(size, ring), steps);
            && Asked(steps) == |ended| + Receiving(s.consumer) && s.received == Given(ended)
            && forall x :: x in ended ==> (x.r.Some? <==> !x.empty)
  {
    InitInv(size, ring);
    RunSends(Init(size, ring), steps, s);
    RunReceives(Init(size, ring), steps, s);
  }

  /** The steps a call has yet to take, at most, and whether a step is one of them. */
  function SendWork<T>(p: ProducerPc<T>): nat {
    match p
    case PIdle => 0
    case PCalled(_) => 5
    case PGotHead(_, _) => 4
    case PGotTail(_, _, _, _) => 3
    case PWriting(_, _) => 2
    case PWrote(_, _) => 1
  }

  function ReceiveWork<T>(c: ConsumerPc<T>): nat {
    match c
    case CIdle => 0
    case CCalled => 5
    case CGotHead(_, _) => 4
    case CGotTail(_, _, _) => 3
    case CReading(_) => 2
    case CRead(_, _) => 1
  }

  predicate Sends<T>(step: Step<T>) {
    step.PLoadHead? || step.PLoadTail? || step.PTest? || step.Write? || step.StoreHead?
  }

  predicate Receives<T>(step: Step<T>) {
    step.CLoadHead? || step.CLoadTail? || step.CTest? || step.Read? || step.StoreTail?
  }

  function CountSends<T>(steps: seq<Step<T>>): nat {
    if steps == [] then 0 else (if Sends(steps[0]) then 1 else 0) + CountSends(steps[1..])
  }

  function CountReceives<T>(steps: seq<Step<T>>): nat {
    if steps == [] then 0 else (if Receives(steps[0]) then 1 else 0) + CountReceives(steps[1..])
  }

  lemma StepWorks<T>(s: State<T>, step: Step<T>)
    requires Inv(s) && Enabled(s, step)
    ensures SendWork(Apply(s, step).producer) + (if Sends(step) then 1 else 0)
      <= SendWork(s.producer) + if step.CallSend? then 5 else 0
    ensures ReceiveWork(Apply(s, step).consumer) + (if Receives(step) then 1 else 0)
      <= ReceiveWork(s.consumer) + if step.CallReceive? then 5 else 0
  {}

  lemma {:induction false} RunWorks<T>(s: State<T>, steps: seq<Step<T>>, t: State<T>)
    requires Inv(s) && Reaches(s, steps, t)
    ensures SendWork(t.producer) + CountSends(steps) <= SendWork(s.producer) + 5 * |Offered(steps)|
    ensures ReceiveWork(t.consumer) + CountReceives(steps) <= ReceiveWork(s.consumer) + 5 * Asked(steps)
    decreases steps
  {
    if steps != [] {
      StepWorks(s, steps[0]);
      StepKeepsInv(s, steps[0]);
      RunWorks(Apply(s, steps[0]), steps[1..], t);
    }
  }

  /**
   * No call waits for the other thread: on every run `try_send` takes at most five steps a call, as does
   * `try_receive`, and a call under way can always take its next, whatever the other thread is doing.
   */
  lemma CallsNeverWait<T>(size: nat, ring: seq<T>, steps: seq<Step<T>>, s: State<T>)
    requires size > 0 && |ring| == size && Reaches(Init(size, ring), steps, s)
    ensures CountSends(steps) <= 5 * |Offered(steps)| && CountReceives(steps) <= 5 * Asked(steps)
    ensures s.producer.PIdle? || exists step :: Enabled(s, step) && Sends(step)
    ensures s.consumer.CIdle? || s.consumer.CReading? || exists step :: Enabled(s, step) && Receives(step)
    ensures s.consumer.CReading? ==> forall junk :: Enabled(s, Read(junk))
  {
    InitInv(size, ring);
    RunWorks(Init(size, ring), steps, s);
    var send := NextSend(s);
    if !s.consumer.CReading? { var receive := NextReceive(s); }
  }

  lemma NextSend<T>(s: State<T>) returns (step: Step<T>)
    ensures s.producer.PIdle? || (Enabled(s, step) && Sends(step))
  {
    step := match s.producer
      case PIdle => PLoadHead
      case PCalled(_) => PLoadHead
      case PGotHead(_, _) => PLoadTail
      case PGotTail(_, _, _, _) => PTest
      case PWriting(_, _) => Write
      case PWrote(_, _) => StoreHead;
  }

  lemma NextReceive<T>(s: State<T>) returns (step: Step<T>)
    requires !s.consumer.CReading?
    ensures s.consumer.CIdle? || (Enabled(s, step) && Receives(step))
  {
    step := match s.consumer
      case CIdle => CLoadHead
      case CCalled => CLoadHead
      case CGotHead(_, _) => CLoadTail
      case CGotTail(_, _, _) => CTest
      case CRead(_, _) => StoreTail;
  }

  // ----- the object -----

  predicate Shape<T>(s: State<T>) {
    s.size > 0 && |s.ring| == s.size && s.head < s.size && s.tail < s.size && InBounds(s)
  }

  /** A call of `try_send` that runs without interruption. */
  function SendAlone<T>(s: State<T>, x: T): State<T>
    requires Shape(s) && s.producer.PIdle?
  {
    var t := Apply(Apply(Apply(Apply(s, CallSend(x)), PLoadHead), PLoadTail), PTest);
    if t.producer.PIdle? then t else Apply(Apply(t, Write), StoreHead)
  }

  /** A call of `try_receive` that runs without interruption, leaving `junk` in the slot. */
  function ReceiveAlone<T>(s: State<T>, junk: T): State<T>
    requires Shape(s) && s.consumer.CIdle?
  {
    var t := Apply(Apply(Apply(Apply(s, CallReceive), CLoadHead), CLoadTail), CTest);
    if t.consumer.CIdle? then t else Apply(Apply(t, Read(junk)), StoreTail)
  }

  /** It fails on a full queue, and otherwise adds one item at the back. */
  function AfterSend<T>(s: State<T>, x: T, full: bool): State<T>
    requires Shape(s)
  {
    if full then s.(seenTail := |s.received|)
    else s.(ring := s.ring[s.head := x], head := Next(s.size, s.head), sent := s.sent + [x], seenTail := |s.received|)
  }

  /** It fails on an empty queue, and otherwise takes the item at the front. */
  function AfterReceive<T>(s: State<T>, junk: T, empty: bool): State<T>
    requires Shape(s)
  {
    if empty then s.(seenHead := |s.sent|)
    else s.(ring := s.ring[s.tail := junk], tail := Next(s.size, s.tail), seenHead := |s.sent|,
            received := s.received + [s.ring[s.tail]])
  }

  lemma SendAloneUnfolds<T>(s: State<T>, x: T)
    requires Shape(s) && s.producer.PIdle?
    ensures SendAlone(s, x) == AfterSend(s, x, Next(s.size, s.head) == s.tail)
  {
    var t := Apply(Apply(Apply(s, CallSend(x)), PLoadHead), PLoadTail);
    assert t == s.(producer := PGotTail(x, s.head, s.tail, Count(s) == s.size - 1), seenTail := |s.received|);
  }

  lemma ReceiveAloneUnfolds<T>(s: State<T>, junk: T)
    requires Shape(s) && s.consumer.CIdle?
    ensures ReceiveAlone(s, junk) == AfterReceive(s, junk, s.head == s.tail)
  {
    var t := Apply(Apply(Apply(s, CallReceive), CLoadHead), CLoadTail);
    assert t == s.(consumer := CGotTail(s.head, s.tail, Count(s) == 0), seenHead := |s.sent|);
  }

  lemma FullIffLast<T>(s: State<T>)
    requires Inv(s)
    ensures Next(s.size, s.head) == s.tail <==> Count(s) == s.size - 1
  {
    SlotsDistinct(s.size, |s.sent| + 1, |s.received|);
    assert Next(s.size, s.head) == Slot(s.size, |s.sent| + 1);
  }

  lemma AfterSendKeepsInv<T>(s: State<T>, x: T)
    requires Inv(s) && s.producer.PIdle?
    ensures Shape(s) && Inv(AfterSend(s, x, Count(s) == s.size - 1))
  {
    if Count(s) < s.size - 1 {
      var t := s.(producer := PWriting(x, s.head), seenTail := |s.received|);
      WriteKeepsInv(t, Write);
      StoreHeadKeepsInv(Apply(t, Write));
      assert Apply(Apply(t, Write), StoreHead) == AfterSend(s, x, false);
    }
  }

  lemma AfterReceiveKeepsInv<T>(s: State<T>, junk: T)
    requires Inv(s) && s.consumer.CIdle?
    ensures Shape(s) && (s.head == s.tail <==> Count(s) == 0)
    ensures Inv(AfterReceive(s, junk, Count(s) == 0))
    ensures Count(s) > 0 ==> s.ring[s.tail] == s.sent[|s.received|]
  {
    SlotsDistinct(s.size, |s.sent|, |s.received|);
    if Count(s) > 0 {
      var t := s.(consumer := CReading(s.tail), seenHead := |s.sent|);
      ReadKeepsInv(t, junk);
      StoreTailKeepsInv(Apply(t, Read(junk)));
    }
  }

  class Channel<T(0)> {
    const ringBuffer: array<T>
    var head: nat
    var tail: nat
    ghost var sent: seq<T>
    ghost var received: seq<T>
    ghost var seenTail: nat
    ghost var seenHead: nat

    ghost function View(): State<T>
      reads this, ringBuffer
    {
      State(ringBuffer.Length, head, tail, ringBuffer[..], PIdle, CIdle, sent, received, seenTail, seenHead)
    }

    ghost predicate Valid()
      reads this, ringBuffer
    {
      Inv(View())
    }

    constructor (size: nat)
      requires size > 0
      ensures Valid() && fresh(ringBuffer) && ringBuffer.Length == size && sent == [] && received == []
    {
      ringBuffer := new T[size];
      head, tail, sent, received, seenTail, seenHead := 0, 0, [], [], 0, 0;
      new;
      InitInv(size, ringBuffer[..]);
    }

    method TrySend(x: T) returns (ok: bool)
      requires Valid()
      modifies this, ringBuffer
      ensures Valid() && Shape(old(View()))
      ensures ok == (old(Count(View())) < ringBuffer.Length - 1)
      ensures View() == AfterSend(old(View()), x, !ok) == SendAlone(old(View()), x)
    {
      AfterSendKeepsInv(View(), x);
      FullIffLast(View());
      SendAloneUnfolds(View(), x);
      var headV := head;
      var tailV := tail;
      seenTail := |received|;
      if (headV + 1) % ringBuffer.Length == tailV { return false; }
      ringBuffer[headV] := x;
      head := (headV + 1) % ringBuffer.Length;
      sent := sent + [x];
      ok := true;
      assert View() == AfterSend(old(View()), x, false);
    }

    /** The moved-from slot is left as it was. */
    method TryReceive() returns (r: Option<T>)
      requires Valid()
      modifies this
      ensures Valid() && Shape(old(View())) && old(tail) < ringBuffer.Length
      ensures r == if old(Count(View())) == 0 then None else Some(old(sent[|received|]))
      ensures View() == AfterReceive(old(View()), ringBuffer[old(tail)], r.None?)
           == ReceiveAlone(old(View()), ringBuffer[old(tail)])
    {
      AfterReceiveKeepsInv(View(), ringBuffer[tail]);
      ReceiveAloneUnfolds(View(), ringBuffer[tail]);
      var headV := head;
      var tailV := tail;
      seenHead := |sent|;
      if headV == tailV { return None; }
      var v := ringBuffer[tailV];
      assert ringBuffer[..][tailV := v] == ringBuffer[..];
      tail := (tailV + 1) % ringBuffer.Length;
      received := received + [v];
      r := Some(v);
    }
  }
}
