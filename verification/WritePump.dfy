/**
 * The write half of a connection: a queue of frames and at most one asynchronous write. A write takes
 * the frame at the BACK of the queue, and its completion drops the one at the FRONT, as the code does.
 */
module WritePump {
  import opened Base

  /**
   * `sends` are all frames ever queued and `wire` those whose write ended, in order; `whole[k]` tells
   * whether write `k` wrote all of its frame, or was cancelled part-way. The rest is history:
   * `starts[k]` is the position in `sends` of the youngest frame when write `k` started, `backlog[i]`
   * the queue length send `i` found, `depths[k]` the one completion `k` found.
   */
  datatype State<T> = State(
    queue: seq<T>,
    inflight: Option<T>,
    wire: seq<T>,
    sends: seq<T>,
    starts: seq<nat>,
    backlog: seq<nat>,
    depths: seq<nat>,
    whole: seq<bool>,
    failed: bool)

  /** A write that ends with nothing written, or in an error, fails. */
  datatype Step<T> = Send(x: T) | Complete(whole: bool) | Fail

  predicate Enabled<T>(s: State<T>, step: Step<T>) {
    step.Send? || s.inflight.Some?
  }

  function DoWrite<T>(s: State<T>): State<T>
    requires s.queue != [] && s.sends != []
  {
    s.(inflight := Some(s.queue[|s.queue| - 1]), starts := s.starts + [|s.sends| - 1])
  }

  function OnSend<T>(s: State<T>, x: T): State<T> {
    var t := s.(queue := s.queue + [x], sends := s.sends + [x], backlog := s.backlog + [|s.queue|]);
    if |t.queue| == 1 then DoWrite(t) else t
  }

  function OnComplete<T>(s: State<T>, whole: bool): State<T>
    requires s.inflight.Some? && s.queue != [] && s.sends != []
  {
    var t := s.(queue := s.queue[1..], inflight := None, wire := s.wire + [s.inflight.value],
                depths := s.depths + [|s.queue|], whole := s.whole + [whole]);
    if |t.queue| > 0 then DoWrite(t) else t
  }

  /** A write error closes the connection and leaves the queue as it is. */
  function OnFail<T>(s: State<T>): State<T> { s.(inflight := None, failed := true) }

  function Apply<T>(s: State<T>, step: Step<T>): State<T>
    requires Enabled(s, step) && (step.Complete? ==> s.queue != [] && s.sends != [])
  {
    match step
    case Send(x) => OnSend(s, x)
    case Complete(whole) => OnComplete(s, whole)
    case Fail => OnFail(s)
  }

  function Init<T>(): State<T> { State([], None, [], [], [], [], [], [], false) }

  /** The queue is what was sent less what was written; a write is in flight beside it until one fails. */
  ghost predicate QueueInv<T>(s: State<T>) {
    && (s.inflight.Some? <==> s.queue != [] && !s.failed)
    && (s.failed ==> s.queue != [])
    && |s.wire| + |s.queue| == |s.sends| && |s.whole| == |s.wire|
    && (forall i :: 0 <= i < |s.queue| ==> s.queue[i] == s.sends[|s.wire| + i])
    && |s.starts| == |s.wire| + (if s.queue != [] then 1 else 0)
  }

  /** Write `k` took frame `starts[k]`, its own or a younger one, and positions never go back. */
  ghost predicate StartInv<T>(s: State<T>) {
    && (forall k :: 0 <= k < |s.starts| ==> k <= s.starts[k] < |s.sends|)
    && (forall j, k :: 0 <= j <= k < |s.starts| ==> s.starts[j] <= s.starts[k])
  }

  ghost predicate WireInv<T>(s: State<T>)
    requires QueueInv(s) && StartInv(s)
  {
    && (forall k :: 0 <= k < |s.wire| ==> s.wire[k] == s.sends[s.starts[k]])
    && (s.inflight.Some? ==> s.inflight.value == s.sends[s.starts[|s.wire|]])
  }

  /** A completion that finds `d` frames drops one and writes the last; finding just one it waits for the next send. */
  function Ahead(d: nat): nat { if d <= 2 then 1 else d - 1 }

  /** How far ahead of its turn each write was, in terms of the queue its predecessor left. */
  ghost predicate DepthInv<T>(s: State<T>) {
    && |s.depths| == |s.wire| && |s.starts| <= |s.depths| + 1
    && (|s.starts| > 0 ==> s.starts[0] == 0)
    && (forall j :: 0 <= j < |s.depths| && j + 1 < |s.starts| ==> s.starts[j + 1] == j + Ahead(s.depths[j]))
    && (forall j :: 0 <= j < |s.depths| && s.depths[j] >= 2 ==> j + 1 < |s.starts|)
  }

  ghost predicate Crowded<T>(s: State<T>) { exists i :: 0 <= i < |s.backlog| && s.backlog[i] >= 2 }

  ghost predicate DeepCompletion<T>(s: State<T>) { exists j :: 0 <= j < |s.depths| && s.depths[j] >= 3 }

  ghost predicate CrowdInv<T>(s: State<T>) {
    && |s.backlog| == |s.sends| && (forall i :: 0 <= i < |s.backlog| ==> s.backlog[i] <= i)
    && (Crowded(s) <==> DeepCompletion(s) || |s.queue| >= 3)
  }

  ghost predicate Inv<T>(s: State<T>) {
    QueueInv(s) && StartInv(s) && WireInv(s) && DepthInv(s) && CrowdInv(s)
  }

  lemma InitInv<T>()
    ensures Inv(Init<T>())
  {
    assert !Crowded(Init<T>()) && !DeepCompletion(Init<T>());
  }

  lemma SendKeepsWrites<T>(s: State<T>, x: T)
    requires QueueInv(s) && StartInv(s) && WireInv(s)
    ensures var t := OnSend(s, x); QueueInv(t) && StartInv(t) && WireInv(t)
  {}

  lemma SendKeepsDepth<T>(s: State<T>, x: T)
    requires QueueInv(s) && DepthInv(s) && (|s.wire| == 0 ==> |s.sends| == |s.queue|)
    ensures DepthInv(OnSend(s, x))
  {}

  lemma SendKeepsCrowd<T>(s: State<T>, x: T)
    requires QueueInv(s) && CrowdInv(s)
    ensures CrowdInv(OnSend(s, x))
  {
    var t := OnSend(s, x);
    assert t.backlog[|s.backlog|] == |s.queue|;
    if Crowded(s) { var i :| 0 <= i < |s.backlog| && s.backlog[i] >= 2; assert t.backlog[i] >= 2; }
    assert t.depths == s.depths;
  }

  lemma CompleteKeepsQueue<T>(s: State<T>, whole: bool)
    requires QueueInv(s) && StartInv(s) && s.inflight.Some?
    ensures QueueInv(OnComplete(s, whole)) && StartInv(OnComplete(s, whole))
  {
    var t := OnComplete(s, whole);
    assert |t.sends| == |s.sends| && |t.wire| == |s.wire| + 1;
    assert t.starts == s.starts || t.starts == s.starts + [|s.sends| - 1];
  }

  lemma CompleteKeepsWire<T>(s: State<T>, whole: bool)
    requires QueueInv(s) && StartInv(s) && WireInv(s) && s.inflight.Some?
    ensures QueueInv(OnComplete(s, whole)) && StartInv(OnComplete(s, whole)) && WireInv(OnComplete(s, whole))
  {
    CompleteKeepsQueue(s, whole);
    var t := OnComplete(s, whole);
    assert t.wire == s.wire + [s.sends[s.starts[|s.wire|]]];
    assert t.sends == s.sends && s.starts <= t.starts;
  }

  lemma CompleteKeepsDepth<T>(s: State<T>, whole: bool)
    requires QueueInv(s) && DepthInv(s) && s.inflight.Some?
    ensures DepthInv(OnComplete(s, whole))
  {}

  lemma CompleteKeepsCrowd<T>(s: State<T>, whole: bool)
    requires QueueInv(s) && CrowdInv(s) && s.inflight.Some?
    ensures CrowdInv(OnComplete(s, whole))
  {
    var t := OnComplete(s, whole);
    assert t.depths[|s.depths|] == |s.queue| && t.backlog == s.backlog;
    if DeepCompletion(s) { var j :| 0 <= j < |s.depths| && s.depths[j] >= 3; assert t.depths[j] >= 3; }
    if DeepCompletion(t) {
      var j :| 0 <= j < |t.depths| && t.depths[j] >= 3;
      if j < |s.depths| { assert s.depths[j] >= 3; }
    }
  }

  lemma FailKeepsInv<T>(s: State<T>)
    requires Inv(s) && s.inflight.Some?
    ensures Inv(OnFail(s))
  {
    var t := OnFail(s);
    assert t.backlog == s.backlog && t.depths == s.depths;
    assert Crowded(t) <==> Crowded(s);
    assert DeepCompletion(t) <==> DeepCompletion(s);
  }

  lemma StepKeepsInv<T>(s: State<T>, step: Step<T>)
    requires Inv(s) && Enabled(s, step)
    ensures Inv(Apply(s, step))
  {
    match step {
      case Send(x) =>
        SendKeepsWrites(s, x);
        SendKeepsDepth(s, x);
        SendKeepsCrowd(s, x);
      case Complete(whole) =>
        CompleteKeepsWire(s, whole);
        CompleteKeepsDepth(s, whole);
        CompleteKeepsCrowd(s, whole);
      case Fail => FailKeepsInv(s);
    }
  }

  /** Any run, write errors and cancelled writes included. */
  ghost predicate Reaches<T>(s: State<T>, steps: seq<Step<T>>, t: State<T>)
    decreases steps
  {
    if steps == [] then s == t else
    && Enabled(s, steps[0]) && (steps[0].Complete? ==> s.queue != [] && s.sends != [])
    && Reaches(Apply(s, steps[0]), steps[1..], t)
  }

  lemma {:induction false} ReachesSnoc<T>(s: State<T>, steps: seq<Step<T>>, t: State<T>, step: Step<T>)
    requires Reaches(s, steps, t) && Enabled(t, step) && (step.Complete? ==> t.queue != [] && t.sends != [])
    ensures Reaches(s, steps + [step], Apply(t, step))
    decreases steps
  {
    var more := steps + [step];
    if steps == [] {
      assert more[1..] == [] && Reaches(Apply(s, step), more[1..], Apply(t, step));
    } else {
      ReachesSnoc(Apply(s, steps[0]), steps[1..], t, step);
      assert more[1..] == steps[1..] + [step];
    }
  }

  lemma {:induction false} RunKeepsInv<T>(s: State<T>, steps: seq<Step<T>>, t: State<T>)
    requires Inv(s) && Reaches(s, steps, t)
    ensures Inv(t)
    decreases steps
  {
    if steps != [] {
      StepKeepsInv(s, steps[0]);
      RunKeepsInv(Apply(s, steps[0]), steps[1..], t);
    }
  }

  lemma ReachedInv<T>(steps: seq<Step<T>>, s: State<T>)
    requires Reaches(Init(), steps, s)
    ensures Inv(s)
  {
    InitInv<T>();
    RunKeepsInv(Init(), steps, s);
  }

  /**
   * On every run: a write is in flight exactly while the queue is not empty and no write has failed;
   * the k-th frame written is the youngest one queued when that write started, so positions never go
   * back and never lag behind k; the frame in flight is still in the queue; and there are as many
   * writes as sends once it drains.
   */
  lemma PumpAsWritten<T>(steps: seq<Step<T>>, s: State<T>)
    requires Reaches(Init(), steps, s)
    ensures s.inflight.Some? <==> s.queue != [] && !s.failed
    ensures |s.wire| <= |s.starts| && forall k :: 0 <= k < |s.wire| ==>
      k <= s.starts[k] < |s.sends| && s.wire[k] == s.sends[s.starts[k]]
    ensures forall j, k :: 0 <= j <= k < |s.starts| ==> s.starts[j] <= s.starts[k]
    ensures s.inflight.Some? ==> s.inflight.value in s.queue
    ensures s.queue == [] ==> |s.wire| == |s.sends|
  {
    ReachedInv(steps, s);
    InflightQueued(s);
  }

  lemma InflightQueued<T>(s: State<T>)
    requires Inv(s)
    ensures s.inflight.Some? ==> s.inflight.value in s.queue
  {
    if s.inflight.Some? { assert s.queue[s.starts[|s.wire|] - |s.wire|] == s.inflight.value; }
  }

  /** Some write was cancelled when it had written only a part of its frame. */
  predicate Cut<T>(s: State<T>) { false in s.whole }

  /** It is the cancellations that leave a part: the run alone tells. */
  lemma {:induction false} CutIff<T>(s: State<T>, steps: seq<Step<T>>, t: State<T>)
    requires Reaches(s, steps, t)
    ensures Cut(t) <==> Cut(s) || Complete(false) in steps
    decreases steps
  {
    if steps != [] {
      CutIff(Apply(s, steps[0]), steps[1..], t);
      assert steps == [steps[0]] + steps[1..];
    }
  }

  /** Every write so far took the frame whose turn it was. */
  predicate InOrder<T>(s: State<T>) { forall k :: 0 <= k < |s.starts| ==> s.starts[k] == k }

  lemma InOrderIffShallow<T>(s: State<T>)
    requires Inv(s)
    ensures InOrder(s) <==> !DeepCompletion(s)
  {
    if !DeepCompletion(s) {
      forall k | 0 <= k < |s.starts| ensures s.starts[k] == k {
        if k > 0 { assert s.starts[(k - 1) + 1] == (k - 1) + Ahead(s.depths[k - 1]); }
      }
    }
    if InOrder(s) {
      forall j | 0 <= j < |s.depths| ensures s.depths[j] <= 2 {
        if s.depths[j] >= 2 { assert s.starts[j + 1] == j + Ahead(s.depths[j]); }
      }
    }
  }

  /** Every write that ended wrote the whole of the frame whose turn it was. */
  predicate WholeInTurn<T>(s: State<T>) {
    |s.wire| == |s.whole| && |s.wire| <= |s.starts| && forall k :: 0 <= k < |s.wire| ==> s.whole[k] && s.starts[k] == k
  }

  /**
   * Exactly when what was sent is on the wire. Once the queue has drained, every frame went out whole
   * and in its turn if and only if no send found two or more frames still queued and no write was
   * cancelled part-way.
   */
  lemma DrainedInOrderIff<T>(steps: seq<Step<T>>, s: State<T>)
    requires Reaches(Init(), steps, s) && s.queue == []
    ensures WholeInTurn(s) <==> !Crowded(s) && Complete(false) !in steps
    ensures WholeInTurn(s) ==> s.wire == s.sends
  {
    ReachedInv(steps, s);
    InOrderIffShallow(s);
    CutIff(Init(), steps, s);
    assert WholeInTurn(s) <==> InOrder(s) && !Cut(s);
    if InOrder(s) { InOrderIsPrefix(s); }
  }

  /** The least case of a cancelled write: one frame, a part of it written, and nothing left to write. */
  lemma CancelledSendsPart<T>(a: T)
    ensures exists s: State<T> ::
      Reaches(Init(), [Send(a), Complete(false)], s) && s.queue == [] && !Crowded(s) && s.wire == [a] && s.whole == [false]
  {
    var s1 := OnSend(Init<T>(), a);
    var s2 := OnComplete(s1, false);
    var run: seq<Step<T>> := [Send(a), Complete(false)];
    assert Reaches(s2, [], s2);
    assert run[1..][1..] == [] && Reaches(s1, run[1..], s2);
    assert Reaches(Init(), run, s2);
    assert forall i :: 0 <= i < |s2.backlog| ==> s2.backlog[i] == 0;
  }

  lemma InOrderIsPrefix<T>(s: State<T>)
    requires Inv(s) && InOrder(s)
    ensures s.wire <= s.sends
  {
    forall k | 0 <= k < |s.wire| ensures s.wire[k] == s.sends[k] { assert s.starts[k] == k; }
  }

  /** Before it drains too, if no send ever found two frames queued then a prefix of the sends is out. */
  lemma ShallowIsPrefix<T>(steps: seq<Step<T>>, s: State<T>)
    requires Reaches(Init(), steps, s) && !Crowded(s)
    ensures s.wire <= s.sends
  {
    ReachedInv(steps, s);
    InOrderIffShallow(s);
    InOrderIsPrefix(s);
  }

  /** Two sends on a connection, whatever the timing, cannot crowd the queue. */
  lemma TwoSendsInOrder<T>(steps: seq<Step<T>>, s: State<T>)
    requires Reaches(Init(), steps, s) && |s.sends| <= 2
    ensures s.wire <= s.sends && (s.queue == [] ==> s.wire == s.sends)
  {
    ReachedInv(steps, s);
    assert !Crowded(s);
    ShallowIsPrefix(steps, s);
  }

  /**
   * Otherwise a frame is lost: the first write to run ahead of its turn skips a frame that no later
   * write, on any continuation, will ever take.
   */
  lemma {:induction false} SkippedIsLost<T>(s: State<T>, steps: seq<Step<T>>, t: State<T>, k: nat)
    requires Inv(s) && Reaches(s, steps, t)
    requires k < |s.starts| && s.starts[k] > k && forall j :: 0 <= j < k ==> s.starts[j] == j
    ensures k < |t.sends| && k !in t.starts
    decreases steps
  {
    if steps == [] {
      forall j | 0 <= j < |s.starts| ensures s.starts[j] != k {
        if j >= k { assert s.starts[k] <= s.starts[j]; }
      }
    } else {
      StepKeepsInv(s, steps[0]);
      var u := Apply(s, steps[0]);
      assert s.starts <= u.starts;
      SkippedIsLost(u, steps[1..], t, k);
    }
  }

  /** No continuation ever writes frame `k`. */
  ghost predicate LostFrom<T(!new)>(s: State<T>, k: nat) {
    forall more: seq<Step<T>>, t :: Reaches(s, more, t) ==> k !in t.starts
  }

  /** A run out of order loses some frame for good. */
  lemma OutOfOrderLoses<T(!new)>(steps: seq<Step<T>>, s: State<T>)
    requires Reaches(Init(), steps, s) && !InOrder(s)
    ensures exists k: nat :: k < |s.sends| && LostFrom(s, k)
  {
    ReachedInv(steps, s);
    var k := FirstAhead(s, 0);
    forall more: seq<Step<T>>, t | Reaches(s, more, t) ensures k !in t.starts { SkippedIsLost(s, more, t, k); }
    assert k < |s.sends| && LostFrom(s, k);
  }

  lemma FirstAhead<T>(s: State<T>, from: nat) returns (k: nat)
    requires Inv(s) && from <= |s.starts| && (forall j :: 0 <= j < from ==> s.starts[j] == j) && !InOrder(s)
    ensures k < |s.starts| && s.starts[k] > k && forall j :: 0 <= j < k ==> s.starts[j] == j
    decreases |s.starts| - from
  {
    if s.starts[from] == from { k := FirstAhead(s, from + 1); } else { k := from; }
  }

  /** The concrete case: three frames queued before the first completes arrive as the first and twice the third. */
  lemma ThreeQueuedLosesSecond<T>(a: T, b: T, c: T)
    ensures exists s: State<T> ::
      && Reaches(Init(), [Send(a), Send(b), Send(c), Complete(true), Complete(true), Complete(true)], s)
      && s.queue == [] && s.wire == [a, c, c] && !Cut(s)
  {
    var s1 := OnSend(Init<T>(), a);
    var s2 := OnSend(s1, b);
    var s3 := OnSend(s2, c);
    var s4 := OnComplete(s3, true);
    var s5 := OnComplete(s4, true);
    var s6 := OnComplete(s5, true);
    var run: seq<Step<T>> := [Complete(true), Complete(true), Complete(true)];
    assert Reaches(s6, [], s6);
    assert run[2..][1..] == [] && Reaches(s5, run[2..], s6);
    assert run[1..][1..] == run[2..] && Reaches(s4, run[1..], s6);
    assert Reaches(s3, run, s6);
    var full := [Send(a), Send(b), Send(c)] + run;
    assert full[3..] == run && full[2..][1..] == full[3..] && Reaches(s2, full[2..], s6);
    assert full[1..][1..] == full[2..] && Reaches(s1, full[1..], s6);
    assert Reaches(Init(), full, s6);
    assert full == [Send(a), Send(b), Send(c), Complete(true), Complete(true), Complete(true)];
  }

  lemma {:induction false} FailedStaysStuck<T>(s: State<T>, steps: seq<Step<T>>, t: State<T>)
    requires s.failed && s.inflight.None? && s.queue != []
    requires Reaches(s, steps, t)
    ensures t.wire == s.wire && t.inflight.None? && t.starts == s.starts
    decreases steps
  {
    if steps != [] { FailedStaysStuck(Apply(s, steps[0]), steps[1..], t); }
  }

  /** Once a write has failed nothing more is ever written: the queue is stuck, and no later send restarts it. */
  lemma ErrorStopsWriting<T>(steps: seq<Step<T>>, s: State<T>, more: seq<Step<T>>, t: State<T>)
    requires Reaches(Init(), steps, s) && Enabled(s, Fail)
    requires Reaches(Apply(s, Fail), more, t)
    ensures t.wire == s.wire && t.inflight.None? && t.starts == s.starts && s.queue != []
  {
    ReachedInv(steps, s);
    FailedStaysStuck(Apply(s, Fail), more, t);
  }
}
