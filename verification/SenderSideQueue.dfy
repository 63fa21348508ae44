/**
 * SenderSideLockQueue: many producers append to `in_queue` under the lock; the one consumer drains
 * `out_queue`, which it alone touches and reads without the lock, and swaps the two when it runs dry.
 */
module SenderSideQueue {
  import opened Base

  datatype ProducerPc = PIdle | PNotifying

  /** `CReturned` holds what the last receive call returned; `CReady` is past the refill. */
  datatype ConsumerPc<T> =
    | CReturned(r: Option<T>)
    | CEntering(mode: Mode)
    | CAsleep(mode: Mode)
    | CWoken(mode: Mode, expired: bool)
    | CReady(mode: Mode)

  /** `senders[k]` is the producer of `sent[k]`, and `pushed[i]` what producer `i` has sent, in its own order. */
  datatype State<T> = State(
    inq: seq<T>,
    outq: seq<T>,
    producers: seq<ProducerPc>,
    consumer: ConsumerPc<T>,
    sent: seq<T>,
    received: seq<T>,
    senders: seq<nat>,
    pushed: seq<seq<T>>)

  datatype Step<T> =
    | Push(i: nat, x: T)
    | Notify(i: nat)
    | CallReceive(mode: Mode)
    | Lock
    | Take
    | Spurious
    | Expire

  predicate Enabled<T>(s: State<T>, step: Step<T>) {
    match step
    case Push(i, _) => i < |s.producers| && i < |s.pushed| && s.producers[i].PIdle?
    case Notify(i) => i < |s.producers| && s.producers[i].PNotifying?
    case CallReceive(_) => s.consumer.CReturned?
    case Lock => s.consumer.CEntering? || s.consumer.CWoken?
    case Take => s.consumer.CReady? && s.outq != []
    case Spurious => s.consumer.CAsleep?
    case Expire => s.consumer.CAsleep? && s.consumer.mode == Timed
  }

  function OnEmpty<T>(pc: ConsumerPc<T>): ConsumerPc<T> {
    match pc
    case CEntering(mode) => if mode == Try then CReturned(None) else CAsleep(mode)
    case CWoken(mode, expired) => if expired then CReturned(None) else CAsleep(mode)
    case _ => pc
  }

  /** Only the first test of `out_queue` and the final pop happen outside the lock. */
  function Apply<T>(s: State<T>, step: Step<T>): State<T>
    requires Enabled(s, step)
  {
    match step
    case Push(i, x) =>
      s.(inq := s.inq + [x], sent := s.sent + [x], senders := s.senders + [i],
         pushed := s.pushed[i := s.pushed[i] + [x]], producers := s.producers[i := PNotifying])
    case Notify(i) =>
      s.(producers := s.producers[i := PIdle],
         consumer := if s.consumer.CAsleep? then CWoken(s.consumer.mode, false) else s.consumer)
    case CallReceive(mode) => s.(consumer := if s.outq == [] then CEntering(mode) else CReady(mode))
    case Lock =>
      if s.inq != [] then s.(outq := s.inq, inq := s.outq, consumer := CReady(s.consumer.mode))
      else s.(consumer := OnEmpty(s.consumer))
    case Take => s.(outq := s.outq[1..], received := s.received + [s.outq[0]], consumer := CReturned(Some(s.outq[0])))
    case Spurious => s.(consumer := CWoken(s.consumer.mode, false))
    case Expire => s.(consumer := CWoken(s.consumer.mode, true))
  }

  function Notifiers(producers: seq<ProducerPc>): nat {
    if producers == [] then 0
    else (if producers[0].PNotifying? then 1 else 0) + Notifiers(producers[1..])
  }

  lemma {:induction false} NotifiersUpdate(producers: seq<ProducerPc>, i: nat, pc: ProducerPc)
    requires i < |producers|
    ensures Notifiers(producers[i := pc]) ==
      Notifiers(producers) - (if producers[i].PNotifying? then 1 else 0) + (if pc.PNotifying? then 1 else 0)
  {
    if i == 0 {
      assert producers[0 := pc][1..] == producers[1..];
    } else {
      assert producers[i := pc][1..] == producers[1..][i - 1 := pc];
      NotifiersUpdate(producers[1..], i - 1, pc);
    }
  }

  /** The items among the first `n` sent that came from producer `i`. */
  function SentBy<T>(sent: seq<T>, senders: seq<nat>, i: nat, n: nat): seq<T>
    requires n <= |sent| && n <= |senders|
  {
    if n == 0 then [] else SentBy(sent, senders, i, n - 1) + if senders[n - 1] == i then [sent[n - 1]] else []
  }

  lemma {:induction false} SentByExtends<T>(a: seq<T>, b: seq<T>, sa: seq<nat>, sb: seq<nat>, i: nat, n: nat)
    requires n <= |a| <= |b| && n <= |sa| <= |sb| && a[..n] == b[..n] && sa[..n] == sb[..n]
    ensures SentBy(a, sa, i, n) == SentBy(b, sb, i, n)
  {
    if n > 0 {
      assert a[n - 1] == a[..n][n - 1] && b[n - 1] == b[..n][n - 1];
      assert sa[n - 1] == sa[..n][n - 1] && sb[n - 1] == sb[..n][n - 1];
      assert a[..n - 1] == a[..n][..n - 1] && b[..n - 1] == b[..n][..n - 1];
      assert sa[..n - 1] == sa[..n][..n - 1] && sb[..n - 1] == sb[..n][..n - 1];
      SentByExtends(a, b, sa, sb, i, n - 1);
    }
  }

  lemma {:induction false} SentByGrows<T>(sent: seq<T>, senders: seq<nat>, i: nat, m: nat, n: nat)
    requires m <= n <= |sent| && n <= |senders|
    ensures SentBy(sent, senders, i, m) <= SentBy(sent, senders, i, n)
  {
    if m < n { SentByGrows(sent, senders, i, m, n - 1); }
  }

  ghost predicate OrderInv<T>(s: State<T>) {
    && |s.pushed| == |s.producers| && |s.senders| == |s.sent|
    && forall i :: 0 <= i < |s.pushed| ==> s.pushed[i] == SentBy(s.sent, s.senders, i, |s.sent|)
  }

  ghost predicate FifoInv<T>(s: State<T>) {
    && s.sent == s.received + s.outq + s.inq
    && (s.consumer.CReady? ==> s.outq != [])
    && (s.consumer.CEntering? || s.consumer.CAsleep? || s.consumer.CWoken? ==> s.outq == [])
  }

  /** While the consumer sleeps, every item that arrived is matched by a notification still to come. */
  ghost predicate WakeInv<T>(s: State<T>) {
    s.consumer.CAsleep? ==> |s.inq| <= Notifiers(s.producers)
  }

  ghost predicate Inv<T>(s: State<T>) { OrderInv(s) && FifoInv(s) && WakeInv(s) }

  lemma PushKeepsOrder<T>(s: State<T>, i: nat, x: T)
    requires OrderInv(s) && Enabled(s, Push(i, x))
    ensures OrderInv(Apply(s, Push(i, x)))
  {
    var t := Apply(s, Push(i, x));
    var n := |s.sent|;
    forall j | 0 <= j < |t.pushed| ensures t.pushed[j] == SentBy(t.sent, t.senders, j, n + 1) {
      assert s.sent[..n] == t.sent[..n] && s.senders[..n] == t.senders[..n];
      SentByExtends(s.sent, t.sent, s.senders, t.senders, j, n);
    }
  }

  lemma StepKeepsInv<T>(s: State<T>, step: Step<T>)
    requires Inv(s) && Enabled(s, step)
    ensures Inv(Apply(s, step))
  {
    var t := Apply(s, step);
    match step
    case Push(i, x) =>
      PushKeepsOrder(s, i, x);
      NotifiersUpdate(s.producers, i, PNotifying);
      assert t.sent == t.received + t.outq + t.inq;
    case Notify(i) => NotifiersUpdate(s.producers, i, PIdle);
    case Lock => assert t.sent == t.received + t.outq + t.inq;
    case Take =>
      assert s.outq == [s.outq[0]] + t.outq;
      assert t.sent == t.received + t.outq + t.inq;
    case _ =>
  }

  ghost predicate Reaches<T>(s: State<T>, steps: seq<Step<T>>, t: State<T>)
    decreases steps
  {
    if steps == [] then s == t else Enabled(s, steps[0]) && Reaches(Apply(s, steps[0]), steps[1..], t)
  }

  lemma {:induction false} RunKeepsInv<T>(s: State<T>, steps: seq<Step<T>>, t: State<T>)
    requires Inv(s) && Reaches(s, steps, t)
    ensures Inv(t)
    decreases steps
  {
    if steps != [] {
      StepKeepsInv(s, steps[0]);
      RunKeepsInv(Apply(s, steps[0]), steps[1..], t);
    }
  }

  function Init<T>(n: nat): State<T> {
    State([], [], seq(n, _ => PIdle), CReturned(None), [], [], [], seq(n, _ => []))
  }

  /**
   * In every state of every run: the two queues together are one FIFO in lock order; what was
   * received from each producer is a prefix of what it sent, in its order; a sleeping consumer never
   * misses an item; a call returns empty-handed only if nothing was queued when it looked; and a call
   * under way can get on unless it sleeps.
   */
  lemma RefinesFifo<T>(n: nat, steps: seq<Step<T>>, s: State<T>)
    requires Reaches(Init(n), steps, s)
    ensures Inv(s) && s.sent == s.received + s.outq + s.inq
    ensures forall i :: 0 <= i < |s.pushed| ==>
      SentBy(s.sent, s.senders, i, |s.received|) <= s.pushed[i]
    ensures s.consumer.CAsleep? && s.inq != [] ==> Notifiers(s.producers) > 0
    ensures Enabled(s, Lock) && Apply(s, Lock).consumer == CReturned(None) ==> s.sent == s.received
    ensures s.consumer.CReturned? || s.consumer.CAsleep? || Enabled(s, Lock) || Enabled(s, Take)
    ensures s.consumer == CAsleep(Timed) ==> Enabled(s, Expire)
    ensures forall i :: 0 <= i < |s.producers| && s.producers[i].PNotifying? ==> Enabled(s, Notify(i))
  {
    RunKeepsInv(Init(n), steps, s);
    forall i | 0 <= i < |s.pushed| ensures SentBy(s.sent, s.senders, i, |s.received|) <= s.pushed[i] {
      SentByGrows(s.sent, s.senders, i, |s.received|, |s.sent|);
    }
  }

  // ----- what the calls return -----

  /** A receive that has ended: which, and the item it returned if it found one. */
  datatype Return<T> = Return(mode: Mode, r: Option<T>)

  /** The receive that ends with a step, if one does. */
  function Ends<T>(s: State<T>, step: Step<T>): seq<Return<T>>
    requires Enabled(s, step)
  {
    var c := Apply(s, step).consumer;
    if !s.consumer.CReturned? && c.CReturned? then [Return(s.consumer.mode, c.r)] else []
  }

  function Returns<T>(s: State<T>, steps: seq<Step<T>>): seq<Return<T>>
    decreases steps
  {
    if steps == [] || !Enabled(s, steps[0]) then [] else Ends(s, steps[0]) + Returns(Apply(s, steps[0]), steps[1..])
  }

  function Items<T>(ended: seq<Return<T>>): seq<T> {
    if ended == [] then [] else (if ended[0].r.Some? then [ended[0].r.value] else []) + Items(ended[1..])
  }

  function Modes<T>(ended: seq<Return<T>>): seq<Mode> {
    if ended == [] then [] else [ended[0].mode] + Modes(ended[1..])
  }

  /** The receives that were called. */
  function Called<T>(steps: seq<Step<T>>): seq<Mode> {
    if steps == [] then [] else (if steps[0].CallReceive? then [steps[0].mode] else []) + Called(steps[1..])
  }

  function UnderWay<T>(c: ConsumerPc<T>): seq<Mode> { if c.CReturned? then [] else [c.mode] }

  function Expiries<T>(steps: seq<Step<T>>): nat {
    if steps == [] then 0 else (if steps[0].Expire? then 1 else 0) + Expiries(steps[1..])
  }

  /** The timed receives that ended with nothing. */
  function GivenUp<T>(ended: seq<Return<T>>): nat {
    if ended == [] then 0 else (if ended[0].mode == Timed && ended[0].r.None? then 1 else 0) + GivenUp(ended[1..])
  }

  function Expired<T>(c: ConsumerPc<T>): nat { if c.CWoken? && c.expired then 1 else 0 }

  function TimedCalls<T>(steps: seq<Step<T>>): nat {
    if steps == [] then 0 else (if steps[0] == CallReceive(Timed) then 1 else 0) + TimedCalls(steps[1..])
  }

  /** The time of a timed receive can still expire. */
  function CanExpire<T>(c: ConsumerPc<T>): nat {
    if c == CEntering(Timed) || c == CAsleep(Timed) || c == CWoken(Timed, false) then 1 else 0
  }

  ghost predicate BlockingFinds<T>(ended: seq<Return<T>>) { forall x :: x in ended && x.mode == Blocking ==> x.r.Some? }

  /** A try is never found waiting, and only a timed wait expires. */
  predicate Waits<T>(c: ConsumerPc<T>) {
    && (c.CAsleep? || c.CWoken? ==> c.mode != Try)
    && (c.CWoken? && c.expired ==> c.mode == Timed)
  }

  lemma StepReturns<T>(s: State<T>, step: Step<T>)
    requires Waits(s.consumer) && Enabled(s, step)
    ensures var (t, ended) := (Apply(s, step), Ends(s, step));
            && Waits(t.consumer) && BlockingFinds(ended) && t.received == s.received + Items(ended)
            && UnderWay(s.consumer) + Called([step]) == Modes(ended) + UnderWay(t.consumer)
            && GivenUp(ended) + Expired(t.consumer) <= Expiries([step]) + Expired(s.consumer)
            && Expiries([step]) + CanExpire(t.consumer) <= TimedCalls([step]) + CanExpire(s.consumer)
  {
    assert [step][1..] == [] && s.received + [] == s.received;
  }

  lemma {:induction false} ReturnsAppend<T>(a: seq<Return<T>>, b: seq<Return<T>>)
    ensures Items(a + b) == Items(a) + Items(b)
    ensures Modes(a + b) == Modes(a) + Modes(b)
    ensures GivenUp(a + b) == GivenUp(a) + GivenUp(b)
  {
    if a == [] {
      assert a + b == b;
    } else {
      assert (a + b)[0] == a[0] && (a + b)[1..] == a[1..] + b;
      ReturnsAppend(a[1..], b);
      ConcatAssoc([a[0].mode], Modes(a[1..]), Modes(b));
      ConcatAssoc(if a[0].r.Some? then [a[0].r.value] else [], Items(a[1..]), Items(b));
    }
  }

  lemma CalledFirst<T>(steps: seq<Step<T>>)
    requires steps != []
    ensures Called(steps) == Called([steps[0]]) + Called(steps[1..])
    ensures Expiries(steps) == Expiries([steps[0]]) + Expiries(steps[1..])
    ensures TimedCalls(steps) == TimedCalls([steps[0]]) + TimedCalls(steps[1..])
  {
    assert [steps[0]][1..] == [];
  }

  lemma {:induction false} RunReturns<T>(s: State<T>, steps: seq<Step<T>>, t: State<T>)
    requires Waits(s.consumer) && Reaches(s, steps, t)
    ensures Waits(t.consumer) && BlockingFinds(Returns(s, steps))
    ensures t.received == s.received + Items(Returns(s, steps))
    ensures UnderWay(s.consumer) + Called(steps) == Modes(Returns(s, steps)) + UnderWay(t.consumer)
    ensures GivenUp(Returns(s, steps)) + Expired(t.consumer) <= Expiries(steps) + Expired(s.consumer)
    ensures Expiries(steps) + CanExpire(t.consumer) <= TimedCalls(steps) + CanExpire(s.consumer)
    decreases steps
  {
    if steps == [] {
      assert s.received + [] == s.received;
    } else {
      var u, first, rest := Apply(s, steps[0]), Ends(s, steps[0]), Returns(Apply(s, steps[0]), steps[1..]);
      StepReturns(s, steps[0]);
      RunReturns(u, steps[1..], t);
      ReturnsAppend(first, rest);
      CalledFirst(steps);
      ConcatAssoc(s.received, Items(first), Items(rest));
      ConcatAssoc(UnderWay(s.consumer), Called([steps[0]]), Called(steps[1..]));
      ConcatAssoc(Modes(first), UnderWay(u.consumer), Called(steps[1..]));
      ConcatAssoc(Modes(first), Modes(rest), UnderWay(t.consumer));
    }
  }

  /**
   * What every receive comes to, on every run. The items received are those returned, in order. Each
   * call ends once, before the next; a blocking one ends with an item and no other way, a timed one
   * without an item only if its time has expired, which it does once, and a try is never found waiting.
   */
  lemma ReceivesReturn<T>(n: nat, steps: seq<Step<T>>, s: State<T>)
    requires Reaches(Init(n), steps, s)
    ensures Items(Returns(Init(n), steps)) == s.received
    ensures Called(steps) == Modes(Returns(Init(n), steps)) + UnderWay(s.consumer)
    ensures forall x :: x in Returns(Init(n), steps) && x.mode == Blocking ==> x.r.Some?
    ensures GivenUp(Returns(Init(n), steps)) <= Expiries(steps) <= TimedCalls(steps)
    ensures s.consumer.CAsleep? || s.consumer.CWoken? ==> s.consumer.mode != Try
  {
    RunReturns(Init(n), steps, s);
  }

  // ----- the object -----

  /** The rest of a receive call once `out_queue` has been tested, when nobody interferes. */
  ghost function Finish<T>(s: State<T>): State<T>
    requires s.consumer.CEntering? || s.consumer.CReady?
  {
    var t := if s.consumer.CEntering? then Apply(s, Lock) else s;
    if Enabled(t, Take) then Apply(t, Take) else t
  }

  ghost function CallAlone<T>(s: State<T>, mode: Mode): State<T>
    requires s.consumer.CReturned?
  {
    Finish(Apply(s, CallReceive(mode)))
  }

  /** Where a call that found something, or nothing, leaves the consumer. */
  function After<T>(mode: Mode, r: Option<T>): ConsumerPc<T> {
    if r.Some? || mode == Try then CReturned(r) else CAsleep(mode)
  }

  /**
   * The queue object, each call run alone on the consumer's side: `Send` is the producer's step under
   * the lock, `Receive` the steps of a call until it returns or goes to sleep.
   */
  class SenderSideLockQueue<T> {
    var inQueue: seq<T>
    var outQueue: seq<T>
    ghost var sent: seq<T>
    ghost var received: seq<T>
    ghost var senders: seq<nat>
    ghost var pushed: seq<seq<T>>

    function Contents(): seq<T>
      reads this
    {
      outQueue + inQueue
    }

    ghost function View(producers: seq<ProducerPc>, consumer: ConsumerPc<T>): State<T>
      reads this
    {
      State(inQueue, outQueue, producers, consumer, sent, received, senders, pushed)
    }

    constructor (ghost n: nat)
      ensures Contents() == []
      ensures View(seq(n, _ => PIdle), CReturned(None)) == Init(n)
    {
      inQueue, outQueue, sent, received, senders := [], [], [], [], [];
      pushed := seq(n, _ => []);
    }

    /** `i` is the sending thread, and `s` the state of the machine beside the object. */
    method Send(t: T, ghost s: State<T>, ghost i: nat)
      requires s == View(s.producers, s.consumer) && Enabled(s, Push(i, t))
      modifies this
      ensures Contents() == old(Contents()) + [t]
      ensures View(s.producers[i := PNotifying], s.consumer) == Apply(s, Push(i, t))
    {
      inQueue := inQueue + [t];
      sent := sent + [t];
      senders := senders + [i];
      pushed := pushed[i := pushed[i] + [t]];
    }

    /** None is a false from `try_receive`, and for the other two calls the thread falling asleep. */
    method Receive(ghost mode: Mode, ghost s: State<T>) returns (r: Option<T>)
      requires s == View(s.producers, s.consumer) && s.consumer.CReturned?
      modifies this
      ensures old(Contents()) == (if r.Some? then [r.value] else []) + Contents()
      ensures r.None? ==> Contents() == []
      ensures View(s.producers, After(mode, r)) == CallAlone(s, mode)
    {
      if |outQueue| == 0 {
        if inQueue == [] { return None; }
        outQueue, inQueue := inQueue, outQueue;
      }
      r := Some(outQueue[0]);
      outQueue := outQueue[1..];
      received := received + [r.value];
    }
  }
}
