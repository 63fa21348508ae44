/**
 * The asynchronous logger: any number of threads insert records, a daemon writes them out, and `stop`
 * sets a flag and inserts one empty record to wake the daemon. The queue is the one of SenderSideQueue,
 * interleaved step by step with the daemon's own.
 */
module Logger {
  import opened Base
  import Q = SenderSideQueue

  /** `loop_body`: the test of `done`, then `flush_one`, and after the loop `flush_all`. */
  datatype DaemonPc =
    | Testing
    | Receiving
    | Writing
    | Flushing
    | FlushWriting
    | Exited

  /** `stop`, whose insertion is made by the producer numbered 0. It may be called again: the destructor does. */
  datatype StopPc = NotStopping | DoneSet | MarkerPushed

  /**
   * `mark` is the number of records that had been enqueued when `done` was set first. `marked` tells
   * that a stop has inserted its empty record, `stopped` that one has returned.
   */
  datatype State = State(
    q: Q.State<string>,
    done: bool,
    stopper: StopPc,
    daemon: DaemonPc,
    out: seq<string>,
    mark: nat,
    marked: bool,
    stopped: bool)

  datatype Step =
    | Insert(i: nat, record: string)
    | Notify(i: nat)
    | SetDone
    | PushMarker
    | NotifyMarker
    | Spurious
    | Daemon

  /** What the daemon does next. Some(None) is a step of its own, None means it is blocked or gone. */
  datatype Action = Blocked | Own | Queue(step: Q.Step<string>)

  function DaemonAction(s: State): Action {
    match s.daemon
    case Exited => Blocked
    case Testing => Own
    case Writing => Own
    case FlushWriting => Own
    case Receiving =>
      if s.q.consumer.CAsleep? then Blocked
      else if s.q.consumer.CReady? then Queue(Q.Take)
      else Queue(Q.Lock)
    case Flushing =>
      if s.q.consumer.CReady? then Queue(Q.Take)
      else if s.q.consumer.CReturned? then Own
      else Queue(Q.Lock)
  }

  predicate Enabled(s: State, step: Step) {
    match step
    case Insert(i, record) => i > 0 && Q.Enabled(s.q, Q.Push(i, record))
    case Notify(i) => i > 0 && Q.Enabled(s.q, Q.Notify(i))
    case SetDone => s.stopper == NotStopping
    case PushMarker => s.stopper == DoneSet && Q.Enabled(s.q, Q.Push(0, ""))
    case NotifyMarker => s.stopper == MarkerPushed && Q.Enabled(s.q, Q.Notify(0))
    case Spurious => Q.Enabled(s.q, Q.Spurious)
    case Daemon =>
      match DaemonAction(s)
      case Blocked => false
      case Own => s.q.consumer.CReturned?
      case Queue(step) => Q.Enabled(s.q, step)
  }

  /** A record that `receive` has returned goes to the stream unless it is empty. */
  function Written(out: seq<string>, r: Option<string>): seq<string> {
    if r.Some? && r.value != "" then out + [r.value] else out
  }

  function Apply(s: State, step: Step): State
    requires Enabled(s, step)
  {
    match step
    case Insert(i, record) => s.(q := Q.Apply(s.q, Q.Push(i, record)))
    case Notify(i) => s.(q := Q.Apply(s.q, Q.Notify(i)))
    case SetDone => s.(done := true, stopper := DoneSet, mark := if s.done then s.mark else |s.q.sent|)
    case PushMarker => s.(q := Q.Apply(s.q, Q.Push(0, "")), stopper := MarkerPushed, marked := true)
    case NotifyMarker => s.(q := Q.Apply(s.q, Q.Notify(0)), stopper := NotStopping, stopped := true)
    case Spurious => s.(q := Q.Apply(s.q, Q.Spurious))
    case Daemon => DaemonStep(s)
  }

  function DaemonStep(s: State): State
    requires Enabled(s, Daemon)
  {
    match s.daemon
    case Testing =>
      if s.done then s.(daemon := Flushing, q := Q.Apply(s.q, Q.CallReceive(Try)))
      else s.(daemon := Receiving, q := Q.Apply(s.q, Q.CallReceive(Blocking)))
    case Receiving =>
      s.(q := Q.Apply(s.q, DaemonAction(s).step), daemon := if s.q.consumer.CReady? then Writing else Receiving)
    case Writing => s.(out := Written(s.out, s.q.consumer.r), daemon := Testing)
    case Flushing =>
      if s.q.consumer.CReturned? then s.(daemon := Exited)
      else s.(q := Q.Apply(s.q, DaemonAction(s).step), daemon := if s.q.consumer.CReady? then FlushWriting else Flushing)
    case FlushWriting =>
      s.(out := Written(s.out, s.q.consumer.r), daemon := Flushing, q := Q.Apply(s.q, Q.CallReceive(Try)))
    case Exited => s
  }

  /** The records among the first `n` that are not empty. */
  function NonEmpty(records: seq<string>, n: nat): seq<string>
    requires n <= |records|
  {
    if n == 0 then [] else Written(NonEmpty(records, n - 1), Some(records[n - 1]))
  }

  lemma {:induction false} NonEmptyExtends(a: seq<string>, b: seq<string>, n: nat)
    requires n <= |a| && a <= b
    ensures NonEmpty(a, n) == NonEmpty(b, n)
  {
    if n > 0 { NonEmptyExtends(a, b, n - 1); }
  }

  predicate Waiting(c: Q.ConsumerPc<string>) { c.CEntering? || c.CAsleep? || c.CWoken? }

  /** How many received records are written; the one just returned may not be yet. */
  function WrittenCount(s: State): int {
    if s.daemon.Writing? || s.daemon.FlushWriting? then |s.q.received| - 1 else |s.q.received|
  }

  ghost predicate OutputInv(s: State) {
    && 0 <= WrittenCount(s) <= |s.q.received|
    && s.out == NonEmpty(s.q.received, WrittenCount(s))
    && (s.daemon.Writing? || s.daemon.FlushWriting? ==>
          s.q.consumer == Q.CReturned(Some(s.q.received[|s.q.received| - 1])))
  }

  /** What the consumer side of the queue can be doing for each place in the daemon. */
  ghost predicate ConsumerInv(s: State) {
    match s.daemon
    case Testing => s.q.consumer.CReturned?
    case Receiving =>
      s.q.consumer.CReady? || s.q.consumer == Q.CEntering(Blocking)
      || s.q.consumer == Q.CAsleep(Blocking) || s.q.consumer == Q.CWoken(Blocking, false)
    case Writing => s.q.consumer.CReturned?
    case FlushWriting => s.q.consumer.CReturned?
    case Flushing => s.q.consumer.CReady? || s.q.consumer == Q.CEntering(Try) || s.q.consumer == Q.CReturned(None)
    case Exited => s.q.consumer == Q.CReturned(None)
  }

  ghost predicate StopInv(s: State)
    requires |s.q.producers| > 0
  {
    && (s.stopper != NotStopping || s.marked || s.stopped ==> s.done)
    && (s.stopper == MarkerPushed || s.stopped ==> s.marked)
    && (s.stopper == MarkerPushed <==> s.q.producers[0].PNotifying?)
    && (s.done ==> s.mark <= |s.q.sent|)
    && (s.daemon.Flushing? || s.daemon.FlushWriting? || s.daemon.Exited? ==> s.done)
    // Once the marker is in, a daemon still inside `receive` has something to find.
    && (s.marked && s.daemon.Receiving? && Waiting(s.q.consumer) ==> s.q.inq != [])
    && (s.stopped ==> !s.q.consumer.CAsleep?)
    // An empty-handed `try_receive` saw everything that was enqueued before `done`.
    && (s.daemon.Exited? || (s.daemon.Flushing? && s.q.consumer.CReturned?) ==> s.mark <= |s.q.received|)
  }

  ghost predicate Inv(s: State) {
    Q.Inv(s.q) && |s.q.producers| > 0 && OutputInv(s) && ConsumerInv(s) && StopInv(s)
  }

  function Init(n: nat): State { State(Q.Init(n + 1), false, NotStopping, Testing, [], 0, false, false) }

  lemma QueueStepFacts(q: Q.State<string>, step: Q.Step<string>)
    requires Q.Inv(q) && Q.Enabled(q, step)
    ensures var r := Q.Apply(q, step);
      && Q.Inv(r) && |r.producers| == |q.producers| && q.sent <= r.sent && q.received <= r.received
      && (!step.Take? ==> r.received == q.received)
  {
    Q.StepKeepsInv(q, step);
  }

  lemma OthersKeepInv(s: State, step: Step)
    requires Inv(s) && Enabled(s, step) && (step.Insert? || step.Notify? || step.SetDone? || step.Spurious?)
    ensures Inv(Apply(s, step))
  {
    match step
    case Insert(i, record) => QueueStepFacts(s.q, Q.Push(i, record));
    case Notify(i) => QueueStepFacts(s.q, Q.Notify(i));
    case SetDone =>
    case Spurious => QueueStepFacts(s.q, Q.Spurious);
  }

  lemma MarkerKeepsInv(s: State, step: Step)
    requires Inv(s) && Enabled(s, step) && (step.PushMarker? || step.NotifyMarker?)
    ensures Inv(Apply(s, step))
  {
    match step
    case PushMarker => QueueStepFacts(s.q, Q.Push(0, ""));
    case NotifyMarker => QueueStepFacts(s.q, Q.Notify(0));
  }

  lemma DaemonKeepsInv(s: State)
    requires Inv(s) && Enabled(s, Daemon)
    ensures Inv(DaemonStep(s))
  {
    var t := DaemonStep(s);
    match s.daemon
    case Testing => QueueStepFacts(s.q, Q.CallReceive(if s.done then Try else Blocking));
    case Receiving => DaemonTakes(s);
    case Writing =>
    case Flushing => if !s.q.consumer.CReturned? { DaemonTakes(s); }
    case FlushWriting => QueueStepFacts(s.q, Q.CallReceive(Try));
  }

  lemma DaemonTakes(s: State)
    requires Inv(s) && Enabled(s, Daemon)
    requires s.daemon.Receiving? || (s.daemon.Flushing? && !s.q.consumer.CReturned?)
    ensures Inv(DaemonStep(s))
  {
    var step := DaemonAction(s).step;
    QueueStepFacts(s.q, step);
    var t := DaemonStep(s);
    NonEmptyExtends(s.q.received, t.q.received, |s.q.received|);
  }

  lemma StepKeepsInv(s: State, step: Step)
    requires Inv(s) && Enabled(s, step)
    ensures Inv(Apply(s, step))
  {
    match step
    case Daemon => DaemonKeepsInv(s);
    case PushMarker => MarkerKeepsInv(s, step);
    case NotifyMarker => MarkerKeepsInv(s, step);
    case Insert(_, _) => OthersKeepInv(s, step);
    case Notify(_) => OthersKeepInv(s, step);
    case SetDone => OthersKeepInv(s, step);
    case Spurious => OthersKeepInv(s, step);
  }

  ghost predicate Reaches(s: State, steps: seq<Step>, t: State)
    decreases steps
  {
    if steps == [] then s == t else Enabled(s, steps[0]) && Reaches(Apply(s, steps[0]), steps[1..], t)
  }

  lemma {:induction false} RunKeepsInv(s: State, steps: seq<Step>, t: State)
    requires Inv(s) && Reaches(s, steps, t)
    ensures Inv(t)
    decreases steps
  {
    if steps != [] {
      StepKeepsInv(s, steps[0]);
      RunKeepsInv(Apply(s, steps[0]), steps[1..], t);
    }
  }

  /** The records inserted in a run that are not empty, and those inserted before `done` was set. */
  function Kept(steps: seq<Step>): seq<string> {
    if steps == [] then []
    else (if steps[0].Insert? && steps[0].record != "" then [steps[0].record] else []) + Kept(steps[1..])
  }

  function KeptBeforeDone(steps: seq<Step>): seq<string> {
    if steps == [] || steps[0].SetDone? then []
    else (if steps[0].Insert? && steps[0].record != "" then [steps[0].record] else []) + KeptBeforeDone(steps[1..])
  }

  /** All that was ever enqueued, the empty records of `stop` and any others dropped. */
  function Enqueued(s: State): seq<string> { NonEmpty(s.q.sent, |s.q.sent|) }

  lemma StepEnqueues(s: State, step: Step)
    requires Inv(s) && Enabled(s, step)
    ensures Enqueued(Apply(s, step)) ==
      Enqueued(s) + if step.Insert? && step.record != "" then [step.record] else []
    ensures var t := Apply(s, step);
      && (t.done <==> s.done || step.SetDone?)
      && (s.done ==> t.mark == s.mark) && (!s.done && t.done ==> t.mark == |s.q.sent| && t.q.sent == s.q.sent)
  {
    var sent, t := s.q.sent, Apply(s, step);
    NonEmptyExtends(sent, t.q.sent, |sent|);
  }

  lemma {:induction false} RunEnqueues(s: State, steps: seq<Step>, t: State)
    requires Inv(s) && Reaches(s, steps, t)
    ensures Enqueued(t) == Enqueued(s) + Kept(steps)
    decreases steps
  {
    if steps == [] {
      assert Enqueued(s) + [] == Enqueued(s);
    } else {
      var u, first := Apply(s, steps[0]), if steps[0].Insert? && steps[0].record != "" then [steps[0].record] else [];
      StepEnqueues(s, steps[0]);
      StepKeepsInv(s, steps[0]);
      RunEnqueues(u, steps[1..], t);
      ConcatAssoc(Enqueued(s), first, Kept(steps[1..]));
    }
  }

  lemma {:induction false} RunMarks(s: State, steps: seq<Step>, t: State)
    requires Inv(s) && Reaches(s, steps, t)
    ensures s.q.sent <= t.q.sent && (t.done ==> t.mark <= |t.q.sent|)
    ensures s.done ==> t.done && t.mark == s.mark
    ensures !s.done && t.done ==> SetDone in steps && NonEmpty(t.q.sent, t.mark) == Enqueued(s) + KeptBeforeDone(steps)
    decreases steps
  {
    if steps != [] {
      var u, first := Apply(s, steps[0]), if steps[0].Insert? && steps[0].record != "" then [steps[0].record] else [];
      StepEnqueues(s, steps[0]);
      StepKeepsInv(s, steps[0]);
      SentGrows(s, steps[0]);
      RunMarks(u, steps[1..], t);
      if !s.done && u.done {
        NonEmptyExtends(s.q.sent, t.q.sent, u.mark);
        assert Enqueued(s) + [] == Enqueued(s);
      } else if !s.done && t.done {
        ConcatAssoc(Enqueued(s), first, KeptBeforeDone(steps[1..]));
      }
    }
  }

  lemma SentGrows(s: State, step: Step)
    requires Inv(s) && Enabled(s, step)
    ensures s.q.sent <= Apply(s, step).q.sent
  {}

  lemma {:induction false} NonEmptyGrows(records: seq<string>, m: nat, n: nat)
    requires m <= n <= |records|
    ensures NonEmpty(records, m) <= NonEmpty(records, n)
  {
    if m < n { NonEmptyGrows(records, m, n - 1); }
  }

  /**
   * In every state of every run with `n` logging threads: the output is a prefix of the records in
   * the order they were enqueued, each once, with the empty ones dropped, the markers of `stop` among
   * them, so that nothing but what was inserted is ever written; once a `stop` has finished
   * the daemon is not asleep; and when the daemon is gone everything enqueued before `done` was set
   * is in the output.
   */
  lemma ShutdownIsSafe(n: nat, steps: seq<Step>, s: State)
    requires Reaches(Init(n), steps, s)
    ensures exists k :: 0 <= k <= |s.q.sent| && s.out == NonEmpty(s.q.sent, k) && (s.daemon.Exited? ==> k >= s.mark)
    ensures s.out <= Kept(steps)
    ensures s.daemon.Exited? ==> SetDone in steps && KeptBeforeDone(steps) <= s.out
    ensures s.stopped ==> !s.q.consumer.CAsleep?
  {
    RunKeepsInv(Init(n), steps, s);
    OutputFits(s);
    KeptIsEnqueued(n, steps, s);
  }

  lemma KeptIsEnqueued(n: nat, steps: seq<Step>, s: State)
    requires Inv(s) && Reaches(Init(n), steps, s)
    ensures Enqueued(s) == Kept(steps)
    ensures s.done ==> SetDone in steps && NonEmpty(s.q.sent, s.mark) == KeptBeforeDone(steps)
  {
    RunEnqueues(Init(n), steps, s);
    RunMarks(Init(n), steps, s);
    assert [] + Kept(steps) == Kept(steps) && Enqueued(Init(n)) == [];
    assert [] + KeptBeforeDone(steps) == KeptBeforeDone(steps);
  }

  /** Where the output lies among what was enqueued. */
  lemma OutputFits(s: State)
    requires Inv(s)
    ensures 0 <= WrittenCount(s) <= |s.q.sent| && s.out == NonEmpty(s.q.sent, WrittenCount(s)) <= Enqueued(s)
    ensures s.daemon.Exited? ==> s.mark <= WrittenCount(s) && NonEmpty(s.q.sent, s.mark) <= s.out
  {
    var k := WrittenCount(s);
    assert s.q.received <= s.q.sent;
    NonEmptyExtends(s.q.received, s.q.sent, k);
    NonEmptyGrows(s.q.sent, k, |s.q.sent|);
    if s.daemon.Exited? { NonEmptyGrows(s.q.sent, s.mark, k); }
  }

  /** Inside `flush_one`. */
  predicate InLoop(s: State) { s.daemon.Receiving? || s.daemon.Writing? }

  lemma {:induction false} RunStaysOut(s: State, steps: seq<Step>, t: State)
    requires s.done && !InLoop(s) && Reaches(s, steps, t)
    ensures !InLoop(t)
    decreases steps
  {
    if steps != [] { RunStaysOut(Apply(s, steps[0]), steps[1..], t); }
  }

  /**
   * The daemon leaves its loop only once `done` has been set, and once that is so and it is out of
   * `flush_one` it never enters it again. Until it has exited it can always move, unless it sleeps with
   * nothing queued or a notification on its way.
   */
  lemma LoopEndsWithDone(n: nat, steps: seq<Step>, s: State, more: seq<Step>, t: State)
    requires Reaches(Init(n), steps, s) && Reaches(s, more, t)
    ensures s.daemon.Flushing? || s.daemon.FlushWriting? || s.daemon.Exited? ==> SetDone in steps
    ensures SetDone in steps && !InLoop(s) ==> !InLoop(t)
    ensures Enabled(s, Daemon) || s.daemon.Exited?
      || (s.q.consumer.CAsleep? && s.q.outq == [] && (s.q.inq == [] || Q.Notifiers(s.q.producers) > 0))
  {
    RunKeepsInv(Init(n), steps, s);
    RunDone(Init(n), steps, s);
    WaitsForRecords(s);
    if s.done && !InLoop(s) { RunStaysOut(s, more, t); }
  }

  lemma WaitsForRecords(s: State)
    requires Inv(s)
    ensures Enabled(s, Daemon) || s.daemon.Exited?
      || (s.q.consumer.CAsleep? && s.q.outq == [] && (s.q.inq == [] || Q.Notifiers(s.q.producers) > 0))
  {}

  lemma {:induction false} RunDone(s: State, steps: seq<Step>, t: State)
    requires Inv(s) && Reaches(s, steps, t)
    ensures t.done <==> s.done || SetDone in steps
    decreases steps
  {
    if steps != [] {
      StepEnqueues(s, steps[0]);
      StepKeepsInv(s, steps[0]);
      RunDone(Apply(s, steps[0]), steps[1..], t);
      assert steps == [steps[0]] + steps[1..];
    }
  }

  // ----- the stopping thread -----

  function Times(steps: seq<Step>, step: Step): nat {
    if steps == [] then 0 else (if steps[0] == step then 1 else 0) + Times(steps[1..], step)
  }

  function Is(stopper: StopPc, pc: StopPc): nat { if stopper == pc then 1 else 0 }

  lemma StepStops(s: State, step: Step)
    requires Enabled(s, step)
    ensures var t := Apply(s, step);
      && Is(s.stopper, DoneSet) + Times([step], SetDone) == Times([step], PushMarker) + Is(t.stopper, DoneSet)
      && Is(s.stopper, MarkerPushed) + Times([step], PushMarker) == Times([step], NotifyMarker) + Is(t.stopper, MarkerPushed)
      && (t.stopped <==> s.stopped || Times([step], NotifyMarker) > 0)
  {
    assert [step][1..] == [];
  }

  lemma TimesFirst(steps: seq<Step>, step: Step)
    requires steps != []
    ensures Times(steps, step) == Times([steps[0]], step) + Times(steps[1..], step)
  {
    assert [steps[0]][1..] == [];
  }

  lemma {:induction false} RunStops(s: State, steps: seq<Step>, t: State)
    requires Reaches(s, steps, t)
    ensures Is(s.stopper, DoneSet) + Times(steps, SetDone) == Times(steps, PushMarker) + Is(t.stopper, DoneSet)
    ensures Is(s.stopper, MarkerPushed) + Times(steps, PushMarker) == Times(steps, NotifyMarker) + Is(t.stopper, MarkerPushed)
    ensures t.stopped <==> s.stopped || Times(steps, NotifyMarker) > 0
    decreases steps
  {
    if steps != [] {
      StepStops(s, steps[0]);
      RunStops(Apply(s, steps[0]), steps[1..], t);
      TimesFirst(steps, SetDone);
      TimesFirst(steps, PushMarker);
      TimesFirst(steps, NotifyMarker);
    }
  }

  /**
   * Each `stop` sets `done`, inserts its marker and notifies, in this order, and nothing holds it up: it
   * has finished once it has notified.
   */
  lemma StopGetsOn(n: nat, steps: seq<Step>, s: State)
    requires Reaches(Init(n), steps, s)
    ensures Times(steps, SetDone) == Times(steps, PushMarker) + if s.stopper == DoneSet then 1 else 0
    ensures Times(steps, PushMarker) == Times(steps, NotifyMarker) + if s.stopper == MarkerPushed then 1 else 0
    ensures s.stopped <==> Times(steps, NotifyMarker) > 0
    ensures s.stopper == DoneSet ==> Enabled(s, PushMarker)
    ensures s.stopper == MarkerPushed ==> Enabled(s, NotifyMarker)
  {
    RunKeepsInv(Init(n), steps, s);
    RunStops(Init(n), steps, s);
  }

  // ----- termination of the shutdown -----

  /** Daemon steps left once `stop` has finished, if nothing more is inserted. */
  function StepsLeft(s: State): nat {
    var items := |s.q.inq| + |s.q.outq|;
    match s.daemon
    case Exited => 0
    case Flushing =>
      4 * items + (if s.q.consumer.CReady? then 2 else if s.q.consumer.CReturned? then 1 else 3)
    case FlushWriting => 4 * items + 4
    case Testing => 4 * items + 4
    case Writing => 4 * items + 5
    case Receiving => 4 * items + if s.q.consumer.CReady? then 3 else 4
  }

  /**
   * After `stop`, the daemon can always move until it has exited, and each of its moves brings the
   * exit nearer: `flush_all` terminates, and so does the join in the destructor.
   */
  lemma ShutdownTerminates(n: nat, steps: seq<Step>, s: State)
    requires Reaches(Init(n), steps, s) && s.stopped
    ensures Enabled(s, Daemon) <==> s.daemon != Exited
    ensures Enabled(s, Daemon) ==> StepsLeft(Apply(s, Daemon)) < StepsLeft(s)
  {
    RunKeepsInv(Init(n), steps, s);
  }

  predicate Inserts(step: Step) { step.Insert? || step.PushMarker? }

  function CountDaemon(steps: seq<Step>): nat {
    if steps == [] then 0 else (if steps[0].Daemon? then 1 else 0) + CountDaemon(steps[1..])
  }

  function CountInserts(steps: seq<Step>): nat {
    if steps == [] then 0 else (if Inserts(steps[0]) then 1 else 0) + CountInserts(steps[1..])
  }

  /** Only an insertion puts the exit off, by four steps. */
  lemma StepCosts(s: State, step: Step)
    requires Inv(s) && s.stopped && Enabled(s, step)
    ensures Apply(s, step).stopped
    ensures StepsLeft(Apply(s, step)) + (if step.Daemon? then 1 else 0) <= StepsLeft(s) + if Inserts(step) then 4 else 0
  {}

  lemma {:induction false} RunCosts(s: State, steps: seq<Step>, t: State)
    requires Inv(s) && s.stopped && Reaches(s, steps, t)
    ensures CountDaemon(steps) + StepsLeft(t) <= StepsLeft(s) + 4 * CountInserts(steps)
    decreases steps
  {
    if steps != [] {
      StepCosts(s, steps[0]);
      StepKeepsInv(s, steps[0]);
      RunCosts(Apply(s, steps[0]), steps[1..], t);
    }
  }

  /**
   * From any state in which a `stop` has finished, whatever the other threads do in between, the daemon
   * takes at most as many steps as it had left, and four for each insertion; one that takes them all has
   * exited.
   */
  lemma ShutdownIsBounded(n: nat, steps: seq<Step>, s: State, more: seq<Step>, t: State)
    requires Reaches(Init(n), steps, s) && s.stopped && Reaches(s, more, t)
    ensures CountDaemon(more) + StepsLeft(t) <= StepsLeft(s) + 4 * CountInserts(more)
    ensures StepsLeft(t) == 0 <==> t.daemon == Exited
  {
    RunKeepsInv(Init(n), steps, s);
    RunCosts(s, more, t);
  }

  // ----- the daemon by itself -----

  /** `n` steps of the daemon. */
  ghost predicate DaemonRun(s: State, n: nat, t: State)
    decreases n
  {
    if n == 0 then s == t else Enabled(s, Daemon) && DaemonRun(Apply(s, Daemon), n - 1, t)
  }

  lemma {:induction false} DaemonRunAppend(s: State, m: nat, t: State, n: nat, u: State)
    requires DaemonRun(s, m, t) && DaemonRun(t, n, u)
    ensures DaemonRun(s, m + n, u)
    decreases m
  {
    if m > 0 { DaemonRunAppend(Apply(s, Daemon), m - 1, t, n, u); }
  }

  lemma {:induction false} DaemonRunIsRun(s: State, n: nat, t: State)
    requires DaemonRun(s, n, t)
    ensures Reaches(s, seq(n, _ => Daemon), t)
    decreases n
  {
    if n > 0 {
      DaemonRunIsRun(Apply(s, Daemon), n - 1, t);
      assert seq(n, _ => Daemon)[1..] == seq(n - 1, _ => Daemon);
    }
  }

  /** The daemon has just called the queue, and has yet to take the lock or an item. */
  ghost predicate AtCall(s: State, mode: Mode) {
    s.q.consumer == if s.q.outq == [] then Q.CEntering(mode) else Q.CReady(mode)
  }

  /** A try that found something is written and followed by the next; one that did not ends the daemon. */
  ghost function AfterRound(s: State, f: Q.State<string>): State
    requires f.consumer.CReturned?
  {
    if f.consumer.r.None? then s.(q := f, daemon := Exited)
    else s.(out := Written(s.out, f.consumer.r), q := Q.Apply(f, Q.CallReceive(Try)))
  }

  ghost function AfterReceive(s: State, f: Q.State<string>): State {
    if f.consumer.CReturned? then s.(out := Written(s.out, f.consumer.r), q := f, daemon := Testing) else s.(q := f)
  }

  /** The daemon's steps from the call to its end are the queue's, and then it writes or gives up. */
  lemma FlushRound(s: State) returns (n: nat, t: State)
    requires s.daemon == Flushing && AtCall(s, Try)
    ensures DaemonRun(s, n, t)
    ensures Q.Finish(s.q).consumer.CReturned? && t == AfterRound(s, Q.Finish(s.q))
  {
    var u := if s.q.consumer.CEntering? then Apply(s, Daemon) else s;
    n := if s.q.consumer.CEntering? then 1 else 0;
    assert DaemonRun(s, n, u) by { assert DaemonRun(u, 0, u); }
    var v := Apply(u, Daemon);
    assert DaemonRun(u, 1, v) by { assert DaemonRun(v, 0, v); }
    DaemonRunAppend(s, n, u, 1, v);
    n := n + 1;
    t := v;
    if u.q.consumer.CReady? {
      t := Apply(v, Daemon);
      assert DaemonRun(v, 1, t) by { assert DaemonRun(t, 0, t); }
      DaemonRunAppend(s, n, v, 1, t);
      n := n + 1;
    }
  }

  /** The same for the blocking call of `flush_one`, which may end with the daemon asleep. */
  lemma ReceiveRound(s: State) returns (n: nat, t: State)
    requires s.daemon == Receiving && AtCall(s, Blocking)
    ensures DaemonRun(s, n, t)
    ensures t == AfterReceive(s, Q.Finish(s.q))
    ensures Q.Finish(s.q).consumer == Q.CAsleep(Blocking) || (Q.Finish(s.q).consumer.CReturned? && Q.Finish(s.q).consumer.r.Some?)
  {
    var u := if s.q.consumer.CEntering? then Apply(s, Daemon) else s;
    n := if s.q.consumer.CEntering? then 1 else 0;
    assert DaemonRun(s, n, u) by { assert DaemonRun(u, 0, u); }
    t := u;
    if u.q.consumer.CReady? {
      var v := Apply(u, Daemon);
      t := Apply(v, Daemon);
      assert DaemonRun(u, 2, t) by { assert DaemonRun(t, 0, t) && DaemonRun(v, 1, t); }
      DaemonRunAppend(s, n, u, 2, t);
      n := n + 2;
    }
  }

  // ----- the objects -----

  /**
   * The logger, each call run without interruption. A state of the machine goes along with the flushing
   * calls: they take it where the daemon's own steps do.
   */
  class AsyncLogger {
    const records: Q.SenderSideLockQueue<string>
    var dest: seq<string>

    /** `s` has this queue and this output. */
    ghost predicate Matches(s: State)
      reads this, records
    {
      s.q == records.View(s.q.producers, s.q.consumer) && s.out == dest
    }

    constructor (ghost n: nat)
      ensures fresh(records) && records.Contents() == [] && Matches(Init(n))
    {
      records := new Q.SenderSideLockQueue<string>(n + 1);
      dest := [];
    }

    /** `i` is the inserting thread. */
    method InsertRecord(record: string, ghost s: State, ghost i: nat)
      requires Matches(s) && Enabled(s, Insert(i, record))
      modifies records
      ensures records.Contents() == old(records.Contents()) + [record]
      ensures Matches(Apply(s, Insert(i, record)))
    {
      records.Send(record, s.q, i);
    }

    /** With nothing queued the call does not return: the daemon is asleep. */
    method FlushOne(ghost s: State) returns (blocked: bool, ghost n: nat, ghost t: State)
      requires Matches(s) && s.daemon == Receiving && AtCall(s, Blocking)
      modifies this, records
      ensures DaemonRun(s, n, t) && Matches(t)
      ensures if blocked then t.q.consumer == Q.CAsleep(Blocking) else t.daemon == Testing
      ensures blocked == (old(records.Contents()) == [])
      ensures if blocked then dest == old(dest) && records.Contents() == []
              else && old(records.Contents()) == [old(records.Contents())[0]] + records.Contents()
                   && dest == Written(old(dest), Some(old(records.Contents())[0]))
    {
      n, t := ReceiveRound(s);
      ghost var idle := Returned(s.q);
      CallAgain(s, Blocking);
      var r := records.Receive(Blocking, idle);
      assert Q.Finish(s.q) == records.View(s.q.producers, Q.After(Blocking, r));
      blocked := r.None?;
      if r.Some? && |r.value| > 0 { dest := dest + [r.value]; }
    }

    method FlushAll(ghost s: State) returns (ghost n: nat, ghost t: State)
      requires Matches(s) && s.daemon == Flushing && AtCall(s, Try)
      modifies this, records
      ensures DaemonRun(s, n, t) && Matches(t) && t.daemon == Exited
      ensures records.Contents() == []
      ensures dest == old(dest) + NonEmpty(old(records.Contents()), |old(records.Contents())|)
    {
      ghost var all, start, taken: seq<string> := records.Contents(), dest, [];
      n, t := 0, s;
      var more := true;
      while more
        invariant all == taken + records.Contents() && dest == start + NonEmpty(taken, |taken|)
        invariant DaemonRun(s, n, t) && Matches(t)
        invariant if more then t.daemon == Flushing && AtCall(t, Try) else t.daemon == Exited && records.Contents() == []
        decreases |records.Contents()|, more
      {
        ghost var m, u := n, t;
        var r;
        r, n, t := FlushStep(t);
        DaemonRunAppend(s, m, u, n, t);
        n := m + n;
        if r.None? {
          more := false;
        } else {
          NonEmptySnoc(taken, r.value);
          TakeOne(all, taken, r.value, records.Contents());
          taken := taken + [r.value];
        }
      }
      assert taken == all;
    }

    /** One turn of the loop of `flush_all`. */
    method FlushStep(ghost s: State) returns (r: Option<string>, ghost n: nat, ghost t: State)
      requires Matches(s) && s.daemon == Flushing && AtCall(s, Try)
      modifies this, records
      ensures DaemonRun(s, n, t) && Matches(t)
      ensures if r.Some? then t.daemon == Flushing && AtCall(t, Try) else t.daemon == Exited && records.Contents() == []
      ensures old(records.Contents()) == (if r.Some? then [r.value] else []) + records.Contents()
      ensures dest == Written(old(dest), r)
    {
      n, t := FlushRound(s);
      ghost var idle := Returned(s.q);
      CallAgain(s, Try);
      r := records.Receive(Try, idle);
      assert Q.Finish(s.q) == records.View(s.q.producers, Q.CReturned(r));
      if r.Some? && |r.value| > 0 { dest := dest + [r.value]; }
    }
  }

  /** The queue before the call the daemon has just made. */
  function Returned(q: Q.State<string>): Q.State<string> { q.(consumer := Q.CReturned(None)) }

  lemma CallAgain(s: State, mode: Mode)
    requires AtCall(s, mode)
    ensures Q.CallAlone(Returned(s.q), mode) == Q.Finish(s.q)
  {
    assert Q.Apply(Returned(s.q), Q.CallReceive(mode)) == s.q;
  }

  lemma TakeOne(all: seq<string>, taken: seq<string>, record: string, rest: seq<string>)
    requires all == taken + ([record] + rest)
    ensures all == taken + [record] + rest
  {
    ConcatAssoc(taken, [record], rest);
  }

  lemma NonEmptySnoc(records: seq<string>, record: string)
    ensures NonEmpty(records + [record], |records| + 1) ==
      NonEmpty(records, |records|) + if record != "" then [record] else []
  {
    NonEmptyExtends(records, records + [record], |records|);
  }
}
