/**
 * BasicLockQueue: any number of producers and consumers around one mutex and one condition variable.
 * A critical section is one step, since the mutex lets nothing in between; the notification that
 * follows it, outside the lock, is a step of its own.
 */
module LockQueue {
  import opened Base

  /**
   * A thread between calls, about to notify after a send, about to lock for the first time in a
   * receive, blocked in the wait, or out of the wait with the lock still to be taken again, the time of
   * a timed wait having expired or not.
   */
  datatype Pc =
    | Idle
    | Notifying
    | Entering(mode: Mode)
    | Asleep(mode: Mode)
    | Woken(mode: Mode, expired: bool)

  datatype State<T> = State(msgq: seq<T>, threads: seq<Pc>, sent: seq<T>, received: seq<T>)

  datatype Step<T> =
    | Push(i: nat, x: T)
    | Notify(i: nat, chosen: Option<nat>)
    | Call(i: nat, mode: Mode)
    | Lock(i: nat)
    | Spurious(i: nat)
    | Expire(i: nat)

  predicate IsAsleep(threads: seq<Pc>, i: nat) { i < |threads| && threads[i].Asleep? }

  /** `notify_one` wakes some sleeper, whichever the scheduler likes, and nobody when there is none. */
  ghost predicate Enabled<T>(s: State<T>, step: Step<T>) {
    && step.i < |s.threads|
    && match step
       case Push(i, _) => s.threads[i].Idle?
       case Notify(i, chosen) =>
         && s.threads[i].Notifying?
         && (match chosen
             case Some(j) => IsAsleep(s.threads, j)
             case None => forall j :: !IsAsleep(s.threads, j))
       case Call(i, _) => s.threads[i].Idle?
       case Lock(i) => s.threads[i].Entering? || s.threads[i].Woken?
       case Spurious(i) => s.threads[i].Asleep?
       case Expire(i) => s.threads[i].Asleep? && s.threads[i].mode == Timed
  }

  /** Where a thread goes that finds the queue empty under the lock. */
  function OnEmpty(pc: Pc): Pc {
    match pc
    case Entering(mode) => if mode == Try then Idle else Asleep(mode)
    case Woken(mode, expired) => if expired then Idle else Asleep(mode)
    case _ => pc
  }

  function Apply<T>(s: State<T>, step: Step<T>): State<T>
    requires Enabled(s, step)
  {
    match step
    case Push(i, x) => s.(msgq := s.msgq + [x], sent := s.sent + [x], threads := s.threads[i := Notifying])
    case Notify(i, chosen) =>
      var threads := s.threads[i := Idle];
      (match chosen
       case None => s.(threads := threads)
       case Some(j) => s.(threads := threads[j := Woken(s.threads[j].mode, false)]))
    case Call(i, mode) => s.(threads := s.threads[i := Entering(mode)])
    case Lock(i) =>
      if s.msgq != [] then
        s.(msgq := s.msgq[1..], received := s.received + [s.msgq[0]], threads := s.threads[i := Idle])
      else s.(threads := s.threads[i := OnEmpty(s.threads[i])])
    case Spurious(i) => s.(threads := s.threads[i := Woken(s.threads[i].mode, false)])
    case Expire(i) => s.(threads := s.threads[i := Woken(s.threads[i].mode, true)])
  }

  /** The threads that still owe the sleepers something: a notification, or a look at the queue. */
  function Owing(pc: Pc): nat { if pc.Notifying? || pc.Woken? then 1 else 0 }

  function Owings(threads: seq<Pc>): nat {
    if threads == [] then 0 else Owing(threads[0]) + Owings(threads[1..])
  }

  lemma {:induction false} OwingsUpdate(threads: seq<Pc>, i: nat, pc: Pc)
    requires i < |threads|
    ensures Owings(threads[i := pc]) + Owing(threads[i]) == Owings(threads) + Owing(pc)
  {
    if i == 0 {
      assert threads[0 := pc][1..] == threads[1..];
    } else {
      assert threads[i := pc][1..] == threads[1..][i - 1 := pc];
      OwingsUpdate(threads[1..], i - 1, pc);
    }
  }

  ghost predicate Inv<T>(s: State<T>) {
    && s.sent == s.received + s.msgq
    && ((exists i :: IsAsleep(s.threads, i)) ==> |s.msgq| <= Owings(s.threads))
  }

  lemma StepKeepsInv<T>(s: State<T>, step: Step<T>)
    requires Inv(s) && Enabled(s, step)
    ensures Inv(Apply(s, step))
  {
    var t := Apply(s, step);
    var i := step.i;
    match step
    case Notify(_, Some(j)) =>
      OwingsUpdate(s.threads, i, Idle);
      OwingsUpdate(s.threads[i := Idle], j, Woken(s.threads[j].mode, false));
      assert IsAsleep(s.threads, j);
    case Notify(_, None) =>
      forall j ensures !IsAsleep(t.threads, j) { assert !IsAsleep(s.threads, j); }
    case _ =>
      OwingsUpdate(s.threads, i, t.threads[i]);
      assert s.threads[i].Asleep? ==> IsAsleep(s.threads, i);
      if j :| IsAsleep(t.threads, j) && j != i { assert IsAsleep(s.threads, j); }
  }

  ghost predicate Reaches<T>(s: State<T>, steps: seq<Step<T>>, t: State<T>)
    decreases steps
  {
    if steps == [] then s == t else Enabled(s, steps[0]) && Reaches(Apply(s, steps[0]), steps[1..], t)
  }

  lemma {:induction false} RunKeepsInv<T>(s: State<T>, steps: seq<Step<T>>, t: State<T>)
    requires Inv(s) && Reaches(s, steps, t)
    ensures Inv(t)
    decreases steps
  {
    if steps != [] {
      StepKeepsInv(s, steps[0]);
      RunKeepsInv(Apply(s, steps[0]), steps[1..], t);
    }
  }

  function Init<T>(n: nat): State<T> { State([], seq(n, _ => Idle), [], []) }

  /**
   * In every state of every run with any number of threads: items come out in the order the lock
   * let them in, and if a consumer sleeps there are no more items than producers about to notify
   * plus woken consumers that have yet to look. So a sleeper beside an item always has a waker.
   */
  lemma NoLostWakeup<T>(n: nat, steps: seq<Step<T>>, s: State<T>)
    requires Reaches(Init(n), steps, s)
    ensures s.sent == s.received + s.msgq
    ensures (exists i :: IsAsleep(s.threads, i)) ==> |s.msgq| <= Owings(s.threads)
    ensures (exists i :: IsAsleep(s.threads, i)) && s.msgq != [] ==>
      exists i :: 0 <= i < |s.threads| && Owing(s.threads[i]) == 1
  {
    assert forall i :: !IsAsleep(Init<T>(n).threads, i);
    RunKeepsInv(Init(n), steps, s);
    if (exists i :: IsAsleep(s.threads, i)) && s.msgq != [] { SomebodyOwes(s.threads); }
  }

  lemma {:induction false} SomebodyOwes(threads: seq<Pc>)
    requires Owings(threads) > 0
    ensures exists i :: 0 <= i < |threads| && Owing(threads[i]) == 1
  {
    if Owing(threads[0]) == 0 {
      SomebodyOwes(threads[1..]);
      var i :| 0 <= i < |threads[1..]| && Owing(threads[1..][i]) == 1;
      assert Owing(threads[i + 1]) == 1;
    }
  }

  /** What the calls already under way can still do, short of being woken for nothing. */
  function Work(pc: Pc): nat {
    match pc
    case Idle => 0
    case Notifying => 2
    case Entering(mode) => if mode == Timed then 3 else 1
    case Asleep(mode) => if mode == Timed then 2 else 0
    case Woken(mode, expired) => if mode == Timed && !expired then 3 else 1
  }

  function Works(threads: seq<Pc>): nat {
    if threads == [] then 0 else Work(threads[0]) + Works(threads[1..])
  }

  lemma {:induction false} WorksUpdate(threads: seq<Pc>, i: nat, pc: Pc)
    requires i < |threads|
    ensures Works(threads[i := pc]) + Work(threads[i]) == Works(threads) + Work(pc)
  {
    if i == 0 {
      assert threads[0 := pc][1..] == threads[1..];
    } else {
      assert threads[i := pc][1..] == threads[1..][i - 1 := pc];
      WorksUpdate(threads[1..], i - 1, pc);
    }
  }

  /** A step by which a call under way gets on: a notification, a turn at the lock, the end of a timed wait. */
  predicate IsMove<T>(step: Step<T>) { step.Notify? || step.Lock? || step.Expire? }

  /** What a step can add to the work to be done. */
  function Adds<T>(step: Step<T>): nat {
    match step
    case Push(_, _) => 2
    case Call(_, _) => 3
    case Spurious(_) => 1
    case _ => 0
  }

  lemma StepWork<T>(s: State<T>, step: Step<T>)
    requires Enabled(s, step)
    ensures Works(Apply(s, step).threads) + (if IsMove(step) then 1 else 0) <= Works(s.threads) + Adds(step)
  {
    var i, t := step.i, Apply(s, step);
    if step.Notify? && step.chosen.Some? {
      var j := step.chosen.value;
      WorksUpdate(s.threads, i, Idle);
      WorksUpdate(s.threads[i := Idle], j, Woken(s.threads[j].mode, false));
    } else {
      WorksUpdate(s.threads, i, t.threads[i]);
    }
  }

  function Moves<T>(steps: seq<Step<T>>): nat {
    if steps == [] then 0 else (if IsMove(steps[0]) then 1 else 0) + Moves(steps[1..])
  }

  function Added<T>(steps: seq<Step<T>>): nat {
    if steps == [] then 0 else Adds(steps[0]) + Added(steps[1..])
  }

  lemma {:induction false} RunWork<T>(s: State<T>, steps: seq<Step<T>>, t: State<T>)
    requires Reaches(s, steps, t)
    ensures Moves(steps) + Works(t.threads) <= Works(s.threads) + Added(steps)
    decreases steps
  {
    if steps != [] {
      StepWork(s, steps[0]);
      RunWork(Apply(s, steps[0]), steps[1..], t);
    }
  }

  lemma {:induction false} NobodyWorks(n: nat)
    ensures Works(seq(n, _ => Idle)) == 0
  {
    if n > 0 {
      assert seq(n, _ => Idle)[1..] == seq(n - 1, _ => Idle);
      NobodyWorks(n - 1);
    }
  }

  /**
   * No run goes on by itself for ever: on every run the notifications, turns at the lock and ends of
   * timed waits number at most two for each send, three for each receive and one for each spurious
   * wake-up.
   */
  lemma RunsAreBounded<T>(n: nat, steps: seq<Step<T>>, s: State<T>)
    requires Reaches(Init(n), steps, s)
    ensures Moves(steps) + Works(s.threads) <= Added(steps)
  {
    NobodyWorks(n);
    RunWork(Init(n), steps, s);
  }

  lemma {:induction false} Owes(threads: seq<Pc>, i: nat)
    requires i < |threads|
    ensures Owing(threads[i]) <= Owings(threads)
  {
    if i > 0 { Owes(threads[1..], i - 1); }
  }

  /**
   * When the calls under way have come to rest, so that nobody has a notification or a turn at the
   * lock to come, nobody sleeps beside an item; and as long as there is work, some call can get on.
   */
  lemma ComesToRest<T>(n: nat, steps: seq<Step<T>>, s: State<T>)
    requires Reaches(Init(n), steps, s)
    ensures (forall next :: Enabled(s, next) ==> !next.Notify? && !next.Lock?) && (exists i :: IsAsleep(s.threads, i)) ==>
      s.msgq == []
    ensures Works(s.threads) > 0 <==> exists next :: Enabled(s, next) && IsMove(next)
  {
    NoLostWakeup(n, steps, s);
    if (exists i :: IsAsleep(s.threads, i)) && s.msgq != [] {
      var i :| 0 <= i < |s.threads| && Owing(s.threads[i]) == 1;
      var next := MoveOf(s, i);
      assert Enabled(s, next) && (next.Notify? || next.Lock?);
    }
    if Works(s.threads) > 0 {
      var i := Worker(s.threads);
      var next := MoveOf(s, i);
      assert Enabled(s, next) && IsMove(next);
    }
    if next :| Enabled(s, next) && IsMove(next) { StepWork(s, next); }
  }

  lemma MoveOf<T>(s: State<T>, i: nat) returns (next: Step<T>)
    requires i < |s.threads| && Work(s.threads[i]) > 0
    ensures Enabled(s, next) && IsMove(next)
    ensures Owing(s.threads[i]) == 1 ==> next.Notify? || next.Lock?
  {
    if s.threads[i].Notifying? {
      if j :| IsAsleep(s.threads, j) { next := Notify(i, Some(j)); } else { next := Notify(i, None); }
    } else if s.threads[i].Asleep? {
      next := Expire(i);
    } else {
      next := Lock(i);
    }
  }

  lemma {:induction false} Worker(threads: seq<Pc>) returns (i: nat)
    requires Works(threads) > 0
    ensures i < |threads| && Work(threads[i]) > 0
  {
    if Work(threads[0]) > 0 { i := 0; } else { i := Worker(threads[1..]); i := i + 1; }
  }

  // ----- what the calls return -----

  /** A receive that has ended: whose it was, which, and the item it returned if it found one. */
  datatype Return<T> = Return(i: nat, mode: Mode, r: Option<T>)

  /** The receive that ends with a step, if one does. */
  ghost function Ends<T>(s: State<T>, step: Step<T>): seq<Return<T>>
    requires Enabled(s, step)
  {
    var t := Apply(s, step);
    if step.Lock? && t.threads[step.i].Idle? then
      [Return(step.i, s.threads[step.i].mode, if |t.received| > |s.received| then Some(t.received[|t.received| - 1]) else None)]
    else []
  }

  ghost function Returns<T>(s: State<T>, steps: seq<Step<T>>): seq<Return<T>>
    decreases steps
  {
    if steps == [] || !Enabled(s, steps[0]) then [] else Ends(s, steps[0]) + Returns(Apply(s, steps[0]), steps[1..])
  }

  function Items<T>(ended: seq<Return<T>>): seq<T> {
    if ended == [] then [] else (if ended[0].r.Some? then [ended[0].r.value] else []) + Items(ended[1..])
  }

  /** The receives that thread `i` has called, and those of them that have ended, in order. */
  function Called<T>(steps: seq<Step<T>>, i: nat): seq<Mode> {
    if steps == [] then [] else (if steps[0].Call? && steps[0].i == i then [steps[0].mode] else []) + Called(steps[1..], i)
  }

  function Ended<T>(ended: seq<Return<T>>, i: nat): seq<Mode> {
    if ended == [] then [] else (if ended[0].i == i then [ended[0].mode] else []) + Ended(ended[1..], i)
  }

  function UnderWay(pc: Pc): seq<Mode> { if pc.Entering? || pc.Asleep? || pc.Woken? then [pc.mode] else [] }

  function Expiries<T>(steps: seq<Step<T>>, i: nat): nat {
    if steps == [] then 0 else (if steps[0] == Expire(i) then 1 else 0) + Expiries(steps[1..], i)
  }

  /** The timed receives of thread `i` that ended with nothing. */
  function GivenUp<T>(ended: seq<Return<T>>, i: nat): nat {
    if ended == [] then 0
    else (if ended[0].i == i && ended[0].mode == Timed && ended[0].r.None? then 1 else 0) + GivenUp(ended[1..], i)
  }

  function Expired(pc: Pc): nat { if pc.Woken? && pc.expired then 1 else 0 }

  ghost predicate BlockingFinds<T>(ended: seq<Return<T>>) { forall x :: x in ended && x.mode == Blocking ==> x.r.Some? }

  /** A try is never found waiting, and only a timed wait expires. */
  ghost predicate Waits<T>(s: State<T>) {
    forall i :: 0 <= i < |s.threads| ==>
      && (s.threads[i].Asleep? || s.threads[i].Woken? ==> s.threads[i].mode != Try)
      && (s.threads[i].Woken? && s.threads[i].expired ==> s.threads[i].mode == Timed)
  }

  lemma StepWaits<T>(s: State<T>, step: Step<T>)
    requires Waits(s) && Enabled(s, step)
    ensures Waits(Apply(s, step)) && BlockingFinds(Ends(s, step)) && |Apply(s, step).threads| == |s.threads|
    ensures Apply(s, step).received == s.received + Items(Ends(s, step))
  {
    assert s.received + [] == s.received;
  }

  lemma EndsOne<T>(s: State<T>, step: Step<T>, i: nat)
    requires Enabled(s, step) && i < |s.threads|
    ensures Ended(Ends(s, step), i) ==
      if step == Lock(i) && Apply(s, step).threads[i].Idle? then [s.threads[i].mode] else []
    ensures Called([step], i) == if step.Call? && step.i == i then [step.mode] else []
  {
    assert [step][1..] == [] && (Ends(s, step) != [] ==> Ends(s, step)[1..] == []);
  }

  lemma StepEnds<T>(s: State<T>, step: Step<T>, i: nat)
    requires Enabled(s, step) && i < |s.threads|
    ensures UnderWay(s.threads[i]) + Called([step], i) == Ended(Ends(s, step), i) + UnderWay(Apply(s, step).threads[i])
  {
    EndsOne(s, step, i);
  }

  lemma StepGivesUp<T>(s: State<T>, step: Step<T>, i: nat)
    requires Waits(s) && Enabled(s, step) && i < |s.threads|
    ensures GivenUp(Ends(s, step), i) + Expired(Apply(s, step).threads[i]) <= Expiries([step], i) + Expired(s.threads[i])
  {
    assert [step][1..] == [];
  }

  lemma {:induction false} ItemsAppend<T>(a: seq<Return<T>>, b: seq<Return<T>>)
    ensures Items(a + b) == Items(a) + Items(b)
  {
    if a == [] {
      assert a + b == b;
    } else {
      assert (a + b)[0] == a[0] && (a + b)[1..] == a[1..] + b;
      ItemsAppend(a[1..], b);
      ConcatAssoc(if a[0].r.Some? then [a[0].r.value] else [], Items(a[1..]), Items(b));
    }
  }

  lemma {:induction false} EndedAppend<T>(a: seq<Return<T>>, b: seq<Return<T>>, i: nat)
    ensures Ended(a + b, i) == Ended(a, i) + Ended(b, i)
  {
    if a == [] {
      assert a + b == b;
    } else {
      assert (a + b)[0] == a[0] && (a + b)[1..] == a[1..] + b;
      EndedAppend(a[1..], b, i);
      ConcatAssoc(if a[0].i == i then [a[0].mode] else [], Ended(a[1..], i), Ended(b, i));
    }
  }

  lemma {:induction false} GivenUpAppend<T>(a: seq<Return<T>>, b: seq<Return<T>>, i: nat)
    ensures GivenUp(a + b, i) == GivenUp(a, i) + GivenUp(b, i)
  {
    if a == [] {
      assert a + b == b;
    } else {
      assert (a + b)[0] == a[0] && (a + b)[1..] == a[1..] + b;
      GivenUpAppend(a[1..], b, i);
    }
  }

  lemma CalledFirst<T>(steps: seq<Step<T>>, i: nat)
    requires steps != []
    ensures Called(steps, i) == Called([steps[0]], i) + Called(steps[1..], i)
    ensures Expiries(steps, i) == Expiries([steps[0]], i) + Expiries(steps[1..], i)
  {
    assert [steps[0]][1..] == [];
  }

  lemma {:induction false} RunReturns<T>(s: State<T>, steps: seq<Step<T>>, t: State<T>, i: nat)
    requires Waits(s) && Reaches(s, steps, t) && i < |s.threads|
    ensures Waits(t) && |t.threads| == |s.threads| && BlockingFinds(Returns(s, steps))
    ensures t.received == s.received + Items(Returns(s, steps))
    ensures UnderWay(s.threads[i]) + Called(steps, i) == Ended(Returns(s, steps), i) + UnderWay(t.threads[i])
    ensures GivenUp(Returns(s, steps), i) + Expired(t.threads[i]) <= Expiries(steps, i) + Expired(s.threads[i])
    decreases steps
  {
    if steps == [] {
      assert s.received + [] == s.received;
    } else {
      var u, first, rest := Apply(s, steps[0]), Ends(s, steps[0]), Returns(Apply(s, steps[0]), steps[1..]);
      StepWaits(s, steps[0]);
      StepEnds(s, steps[0], i);
      StepGivesUp(s, steps[0], i);
      RunReturns(u, steps[1..], t, i);
      ItemsAppend(first, rest);
      EndedAppend(first, rest, i);
      GivenUpAppend(first, rest, i);
      CalledFirst(steps, i);
      ConcatAssoc(s.received, Items(first), Items(rest));
      ConcatAssoc(UnderWay(s.threads[i]), Called([steps[0]], i), Called(steps[1..], i));
      ConcatAssoc(Ended(first, i), UnderWay(u.threads[i]), Called(steps[1..], i));
      ConcatAssoc(Ended(first, i), Ended(rest, i), UnderWay(t.threads[i]));
    }
  }

  /**
   * What every receive comes to, on every run. The items taken off the queue are those returned, in
   * order. Each call of a thread ends once, before its next; a blocking one ends with an item and no
   * other way, a timed one without an item only if its time has expired, and a try is never found
   * waiting.
   */
  lemma ReceivesReturn<T>(n: nat, steps: seq<Step<T>>, s: State<T>, i: nat)
    requires Reaches(Init(n), steps, s) && i < n
    ensures Items(Returns(Init(n), steps)) == s.received
    ensures i < |s.threads| && Called(steps, i) == Ended(Returns(Init(n), steps), i) + UnderWay(s.threads[i])
    ensures forall x :: x in Returns(Init(n), steps) && x.mode == Blocking ==> x.r.Some?
    ensures GivenUp(Returns(Init(n), steps), i) <= Expiries(steps, i)
    ensures s.threads[i].Asleep? || s.threads[i].Woken? ==> s.threads[i].mode != Try
  {
    RunReturns(Init(n), steps, s, i);
    assert UnderWay(Init<T>(n).threads[i]) == [];
  }

  // ----- the object -----

  /** A call of `try_receive`: entering, and its one turn at the lock. */
  ghost function TryAlone<T>(s: State<T>, i: nat): State<T>
    requires i < |s.threads| && s.threads[i].Idle?
  {
    Apply(Apply(s, Call(i, Try)), Lock(i))
  }

  /**
   * The critical sections of the queue. Whatever the other threads are doing, each is the step of the
   * machine that takes the lock. The notification that ends a send touches no field.
   */
  class BasicLockQueue<T> {
    var msgq: seq<T>
    ghost var sent: seq<T>
    ghost var received: seq<T>

    ghost function View(threads: seq<Pc>): State<T>
      reads this
    {
      State(msgq, threads, sent, received)
    }

    constructor ()
      ensures forall n: nat :: View(seq(n, _ => Idle)) == Init(n)
    {
      msgq, sent, received := [], [], [];
    }

    method Send(t: T)
      modifies this
      ensures msgq == old(msgq) + [t]
      ensures forall threads: seq<Pc>, i: nat :: i < |threads| && threads[i].Idle? ==>
        View(threads[i := Notifying]) == Apply(old(View(threads)), Push(i, t))
    {
      msgq := msgq + [t];
      sent := sent + [t];
    }

    /** The end of a receive that has found something. */
    method PopFront() returns (t: T)
      requires msgq != []
      modifies this
      ensures [t] + msgq == old(msgq) && sent == old(sent) && received == old(received) + [t]
    {
      t := msgq[0];
      msgq := msgq[1..];
      received := received + [t];
    }

    method TryReceive() returns (r: Option<T>)
      modifies this
      ensures old(msgq) == (if r.Some? then [r.value] else []) + msgq
      ensures r.None? ==> msgq == []
      ensures forall threads: seq<Pc>, i: nat :: i < |threads| && threads[i].Idle? ==>
        View(threads) == TryAlone(old(View(threads)), i)
    {
      if msgq == [] {
        r := None;
      } else {
        var t := PopFront();
        r := Some(t);
      }
      forall threads: seq<Pc>, i: nat | i < |threads| && threads[i].Idle?
        ensures View(threads) == TryAlone(old(View(threads)), i)
      {
        assert threads[i := Entering(Try)][i := Idle] == threads;
      }
    }

    /**
     * A turn at the lock in any receive, on entry or after the wait: None sends the thread to sleep, or
     * home if its time is up.
     */
    method TurnAtLock(ghost s: State<T>, ghost i: nat) returns (r: Option<T>)
      requires Enabled(s, Lock(i)) && s == View(s.threads)
      modifies this
      ensures var t := Apply(s, Lock(i)); t == View(t.threads)
      ensures received == old(received) + if r.Some? then [r.value] else []
      ensures r.None? <==> old(msgq) == []
      ensures var pc := Apply(s, Lock(i)).threads[i];
        if r.Some? || s.threads[i] == Entering(Try) || (s.threads[i].Woken? && s.threads[i].expired) then pc.Idle?
        else pc == Asleep(s.threads[i].mode)
    {
      if msgq == [] { return None; }
      var t := PopFront();
      r := Some(t);
    }
  }
}
