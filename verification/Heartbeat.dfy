/**
 * Heartbeats in real time: a sender that ticks once an interval, a channel that takes time, and a
 * checker whose timer every beat pushes two intervals ahead. Ticks may be late and beats may be slow,
 * within bounds.
 */
module Heartbeat {
  import opened Base

  function Timeout(interval: real): real { 2.0 * interval }

  function InitialTimeout(interval: real): real { interval + Timeout(interval) }

  /** The checker's timer: whether a wait is pending, for when, and when it expired if it did. */
  datatype Timer = Timer(armed: bool, deadline: real, fired: Option<real>)

  function OnBeat(t: Timer, interval: real, now: real): Timer {
    if t.armed then t.(deadline := now + Timeout(interval)) else t
  }

  function OnExpiry(t: Timer, now: real): Timer { t.(armed := false, fired := Some(now)) }

  function OnStop(t: Timer): Timer { t.(armed := false) }

  /** The sender: when its next tick is due and whether it still ticks. */
  datatype Sender = Sender(due: real, alive: bool)

  function OnTick(x: Sender, interval: real, now: real): Sender { x.(due := now + interval) }

  function OnCancel(x: Sender): Sender { x.(alive := false) }

  class HeartbeatChecker {
    const interval: real
    var expiry: real
    var waiting: bool
    var timedOut: Option<real>

    ghost function View(): Timer
      reads this
    {
      Timer(waiting, expiry, timedOut)
    }

    constructor (policyInterval: real, now: real)
      ensures interval == 2.0 * policyInterval
      ensures View() == Timer(false, now + 3.0 * policyInterval, None)
    {
      interval := Timeout(policyInterval);
      expiry, waiting, timedOut := now + InitialTimeout(policyInterval), false, None;
    }

    method HeartbeatStart()
      modifies this
      ensures View() == old(View()).(armed := true) && expiry == old(expiry)
    {
      waiting := true;
    }

    /** Moving the expiry cancels the pending wait, so a new one is started. */
    method HeartbeatReceived(now: real)
      modifies this
      ensures View() == old(View()).(armed := true, deadline := now + interval)
      ensures old(waiting) ==> View() == OnBeat(old(View()), interval / 2.0, now)
    {
      expiry := now + interval;
      waiting := true;
    }

    method HeartbeatStop()
      modifies this
      ensures View() == OnStop(old(View())) && !waiting
    {
      waiting := false;
    }

    /** A wait that ends cancelled does nothing; one that ends by itself reports the timeout and stops the timer. */
    method WhenTimeout(cancelled: bool, now: real)
      requires cancelled || waiting
      modifies this
      ensures View() == if cancelled then old(View()) else OnExpiry(old(View()), now)
      ensures !cancelled ==> timedOut == Some(now) && !waiting && expiry == old(expiry)
    {
      if cancelled { return; }
      timedOut := Some(now);
      HeartbeatStop();
    }
  }

  class HeartbeatSender {
    const interval: real
    var expiry: real
    var waiting: bool
    var sent: seq<real>

    ghost function View(): Sender
      reads this
    {
      Sender(expiry, waiting)
    }

    constructor (policyInterval: real, now: real)
      ensures interval == policyInterval && View() == Sender(now + policyInterval, true) && sent == []
    {
      interval := policyInterval;
      expiry, waiting, sent := now + policyInterval, true, [];
    }

    /** A tick sends and counts the next interval from now, not from when it was due; a cancelled wait ends it. */
    method SendAndReset(cancelled: bool, now: real)
      requires waiting
      modifies this
      ensures sent == old(sent) + if cancelled then [] else [now]
      ensures View() == if cancelled then OnCancel(old(View())) else OnTick(old(View()), interval, now)
      ensures waiting == !cancelled && expiry == if cancelled then old(expiry) else now + interval
    {
      waiting := false;
      if !cancelled {
        sent := sent + [now];
        expiry := now + interval;
        waiting := true;
      }
    }
  }

  // ----- the two ends in real time -----

  /** Ticks come at most `lateness` after they are due, beats at most `delay` after they are sent. */
  datatype Bounds = Bounds(interval: real, lateness: real, delay: real) {
    predicate Valid() { interval > 0.0 && lateness >= 0.0 && delay >= 0.0 }
  }

  /** `transit` holds the sending times of the beats on their way, `beats` the arrivals that counted. */
  datatype State = State(now: real, sender: Sender, transit: seq<real>, timer: Timer, beats: seq<real>)

  /** Time starts when the connection is accepted. */
  function Init(b: Bounds, due: real): State {
    State(0.0, Sender(due, true), [], Timer(true, InitialTimeout(b.interval), None), [])
  }

  datatype Step = Wait(time: real) | Tick | Arrive | Expire | NormalMessage | SenderStops | Close

  /** Time may not pass a bound, nor an armed deadline; at the deadline a beat may still win the race. */
  predicate Enabled(b: Bounds, s: State, step: Step) {
    match step
    case Wait(time) =>
      && time >= 0.0
      && (s.sender.alive ==> s.now + time <= s.sender.due + b.lateness)
      && (s.transit != [] ==> s.now + time <= s.transit[0] + b.delay)
      && (s.timer.armed ==> s.now + time <= s.timer.deadline)
    case Tick => s.sender.alive && s.now >= s.sender.due
    case Arrive => s.transit != []
    case Expire => s.timer.armed && s.now >= s.timer.deadline
    case NormalMessage => true
    case SenderStops => s.sender.alive
    case Close => s.timer.armed
  }

  function Apply(b: Bounds, s: State, step: Step): State
    requires Enabled(b, s, step)
  {
    match step
    case Wait(time) => s.(now := s.now + time)
    case Tick => s.(transit := s.transit + [s.now], sender := OnTick(s.sender, b.interval, s.now))
    case Arrive =>
      s.(transit := s.transit[1..], timer := OnBeat(s.timer, b.interval, s.now),
         beats := if s.timer.armed then s.beats + [s.now] else s.beats)
    case Expire => s.(timer := OnExpiry(s.timer, s.now))
    case NormalMessage => s
    case SenderStops => s.(sender := OnCancel(s.sender))
    case Close => s.(timer := OnStop(s.timer))
  }

  ghost predicate Reaches(b: Bounds, s: State, steps: seq<Step>, t: State)
    decreases steps
  {
    if steps == [] then s == t
    else Enabled(b, s, steps[0]) && Reaches(b, Apply(b, s, steps[0]), steps[1..], t)
  }

  /** The sender keeps going. */
  predicate Steady(steps: seq<Step>) { SenderStops !in steps }

  // ----- when the checker can time out -----

  predicate Punctual(b: Bounds, due: real) {
    && b.lateness + b.delay < b.interval
    && due + b.lateness + b.delay < 3.0 * b.interval
  }

  /** The next beat, on its way or not yet sent, will arrive before the deadline. */
  ghost predicate InTime(b: Bounds, s: State) {
    && s.sender.alive && s.now <= s.sender.due + b.lateness
    && (forall i :: 0 <= i < |s.transit| ==> s.transit[i] <= s.now <= s.transit[i] + b.delay)
    && (s.transit != [] ==> s.sender.due <= s.now + b.interval)
    && s.timer.fired.None?
    && (s.timer.armed ==>
          if s.transit == [] then s.sender.due + b.lateness + b.delay < s.timer.deadline
          else s.transit[0] + b.delay < s.timer.deadline)
  }

  /** Beats are sent in order and arrive in order, so bounding the first bounds them all. */
  ghost predicate Ordered(s: State) {
    forall i, j :: 0 <= i <= j < |s.transit| ==> s.transit[i] <= s.transit[j] <= s.now
  }

  lemma StepKeepsInTime(b: Bounds, s: State, step: Step)
    requires b.Valid() && b.lateness + b.delay < b.interval
    requires InTime(b, s) && Ordered(s) && Enabled(b, s, step) && !step.SenderStops?
    ensures InTime(b, Apply(b, s, step)) && Ordered(Apply(b, s, step))
  {}

  lemma {:induction false} SteadyRunInTime(b: Bounds, s: State, steps: seq<Step>, t: State)
    requires b.Valid() && b.lateness + b.delay < b.interval
    requires InTime(b, s) && Ordered(s) && Reaches(b, s, steps, t) && Steady(steps)
    ensures InTime(b, t)
    decreases steps
  {
    if steps != [] {
      StepKeepsInTime(b, s, steps[0]);
      SteadyRunInTime(b, Apply(b, s, steps[0]), steps[1..], t);
    }
  }

  ghost predicate CanTimeOut(b: Bounds, s: State) {
    exists steps, t :: Reaches(b, s, steps, t) && Steady(steps) && t.timer.fired.Some?
  }

  lemma {:induction false} StepThenTimeOut(b: Bounds, s: State, step: Step)
    requires Enabled(b, s, step) && !step.SenderStops? && CanTimeOut(b, Apply(b, s, step))
    ensures CanTimeOut(b, s)
  {
    var rest, t :| Reaches(b, Apply(b, s, step), rest, t) && Steady(rest) && t.timer.fired.Some?;
    var steps := [step] + rest;
    assert steps[1..] == rest && Reaches(b, s, steps, t) && Steady(steps);
  }

  lemma {:induction false} WaitAndExpire(b: Bounds, s: State)
    requires s.timer.armed && s.now <= s.timer.deadline && Enabled(b, s, Wait(s.timer.deadline - s.now))
    ensures CanTimeOut(b, s)
  {
    var u := Apply(b, s, Wait(s.timer.deadline - s.now));
    var v := Apply(b, u, Expire);
    assert Reaches(b, v, [], v) && Steady([]);
    StepThenTimeOut(b, u, Expire);
    StepThenTimeOut(b, s, Wait(s.timer.deadline - s.now));
  }

  /** If every beat on its way can take until the deadline, none arrives and the timer expires. */
  lemma {:induction false} SlowBeatsTimeOut(b: Bounds, s: State, n: nat)
    requires b.Valid() && s.sender.alive && s.timer.armed && s.transit != []
    requires s.now <= s.timer.deadline && s.now <= s.sender.due + b.lateness
    requires forall i :: 0 <= i < |s.transit| ==> s.transit[i] <= s.now && s.transit[i] + b.delay >= s.timer.deadline
    requires s.timer.deadline - s.sender.due <= n as real * b.interval
    ensures CanTimeOut(b, s)
    decreases n
  {
    if s.sender.due + b.lateness >= s.timer.deadline {
      WaitAndExpire(b, s);
    } else {
      var pause := if s.sender.due > s.now then s.sender.due - s.now else 0.0;
      var u := Apply(b, s, Wait(pause));
      var v := Apply(b, u, Tick);
      assert n > 0;
      assert (n - 1) as real * b.interval == n as real * b.interval - b.interval;
      SlowBeatsTimeOut(b, v, n - 1);
      StepThenTimeOut(b, u, Tick);
      StepThenTimeOut(b, s, Wait(pause));
    }
  }

  lemma ScaleUp(x: real, y: real, interval: real)
    requires x <= y && interval > 0.0
    ensures x * interval <= y * interval
  {}

  lemma EnoughIntervals(x: real, interval: real) returns (n: nat)
    requires interval > 0.0
    ensures x <= n as real * interval
  {
    var q := x / interval;
    n := if q < 0.0 then 0 else q.Floor + 1;
    ScaleUp(q, n as real, interval);
  }

  /** The next beat is not sent yet and can be late and slow enough to miss the deadline. */
  lemma NextBeatTooLate(b: Bounds, s: State)
    requires b.Valid() && s.sender.alive && s.timer.armed && s.transit == []
    requires s.now <= s.timer.deadline && s.now <= s.sender.due
    requires s.sender.due + b.lateness + b.delay >= s.timer.deadline
    ensures CanTimeOut(b, s)
  {
    if s.sender.due + b.lateness >= s.timer.deadline {
      WaitAndExpire(b, s);
    } else {
      var pause := s.sender.due + b.lateness - s.now;
      var u := Apply(b, s, Wait(pause));
      var v := Apply(b, u, Tick);
      var n := EnoughIntervals(v.timer.deadline - v.sender.due, b.interval);
      SlowBeatsTimeOut(b, v, n);
      StepThenTimeOut(b, u, Tick);
      StepThenTimeOut(b, s, Wait(pause));
    }
  }

  lemma LatePeerTimesOut(b: Bounds, due: real)
    requires b.Valid() && due >= 0.0 && !Punctual(b, due)
    ensures CanTimeOut(b, Init(b, due))
  {
    var s := Init(b, due);
    if due + b.lateness + b.delay >= 3.0 * b.interval {
      NextBeatTooLate(b, s);
    } else {
      // one prompt beat, then a late and slow one
      var u := Apply(b, s, Wait(due));
      var v := Apply(b, u, Tick);
      var w := Apply(b, v, Arrive);
      NextBeatTooLate(b, w);
      StepThenTimeOut(b, v, Arrive);
      StepThenTimeOut(b, u, Tick);
      StepThenTimeOut(b, s, Wait(due));
    }
  }

  /**
   * Exactly when a live peer is never declared dead, on any run: the lateness of a tick and the delay
   * of a beat add up to less than one interval, and the first beat cannot miss three. Equality is not
   * enough, since a beat that arrives at the deadline may lose to the timer.
   */
  lemma NeverTimesOutIff(b: Bounds, due: real)
    requires b.Valid() && due >= 0.0
    ensures (forall steps, t :: Reaches(b, Init(b, due), steps, t) && Steady(steps) ==> t.timer.fired.None?)
            <==> b.lateness + b.delay < b.interval && due + b.lateness + b.delay < 3.0 * b.interval
  {
    if Punctual(b, due) {
      forall steps, t | Reaches(b, Init(b, due), steps, t) && Steady(steps) ensures t.timer.fired.None? {
        SteadyRunInTime(b, Init(b, due), steps, t);
      }
    } else {
      LatePeerTimesOut(b, due);
    }
  }

  // ----- when the timer expires -----

  function Deadline(b: Bounds, beats: seq<real>): real {
    if beats == [] then 3.0 * b.interval else beats[|beats| - 1] + 2.0 * b.interval
  }

  ghost predicate TimerInv(b: Bounds, s: State) {
    && s.timer.deadline == Deadline(b, s.beats)
    && (s.timer.armed ==> s.now <= s.timer.deadline && s.timer.fired.None?)
    && (s.timer.fired.Some? ==> s.timer.fired.value == s.timer.deadline <= s.now)
    && (forall k :: 0 <= k < |s.beats| ==> s.beats[k] <= Deadline(b, s.beats[..k]) && s.beats[k] <= s.now)
  }

  lemma StepKeepsTimerInv(b: Bounds, s: State, step: Step)
    requires b.Valid() && TimerInv(b, s) && Enabled(b, s, step)
    ensures TimerInv(b, Apply(b, s, step))
    ensures !step.Close? && (s.timer.armed || s.timer.fired.Some?) ==>
      var t := Apply(b, s, step); t.timer.armed || t.timer.fired.Some?
  {
    var t := Apply(b, s, step);
    forall k | 0 <= k < |t.beats| ensures t.beats[k] <= Deadline(b, t.beats[..k]) && t.beats[k] <= t.now {
      if k < |s.beats| { assert t.beats[..k] == s.beats[..k]; } else { assert t.beats[..k] == s.beats; }
    }
  }

  lemma {:induction false} RunKeepsTimerInv(b: Bounds, s: State, steps: seq<Step>, t: State)
    requires b.Valid() && TimerInv(b, s) && Reaches(b, s, steps, t)
    ensures TimerInv(b, t)
    ensures Close !in steps && (s.timer.armed || s.timer.fired.Some?) ==> t.timer.armed || t.timer.fired.Some?
    decreases steps
  {
    if steps != [] {
      StepKeepsTimerInv(b, s, steps[0]);
      RunKeepsTimerInv(b, Apply(b, s, steps[0]), steps[1..], t);
    }
  }

  /**
   * On every run, whatever the peer does and however much normal traffic there is: every beat that
   * counted came in time; if the timer expired it did so exactly two intervals after the last beat, or
   * three after the start if none came; and on a connection nobody closes it has expired by any later
   * moment and not before.
   */
  lemma ExpiresExactly(b: Bounds, due: real, steps: seq<Step>, t: State)
    requires b.Valid() && Reaches(b, Init(b, due), steps, t)
    ensures forall k :: 0 <= k < |t.beats| ==> t.beats[k] <= Deadline(b, t.beats[..k])
    ensures t.timer.fired.Some? ==> t.timer.fired == Some(Deadline(b, t.beats))
    ensures t.now < Deadline(b, t.beats) ==> t.timer.fired.None?
    ensures Close !in steps && t.now > Deadline(b, t.beats) ==> t.timer.fired == Some(Deadline(b, t.beats))
  {
    RunKeepsTimerInv(b, Init(b, due), steps, t);
  }

  // ----- stopping either end -----

  /** The beats sent in a run, each at its time. */
  function Sent(b: Bounds, s: State, steps: seq<Step>): seq<real>
    decreases steps
  {
    if steps == [] || !Enabled(b, s, steps[0]) then []
    else (if steps[0].Tick? then [s.now] else []) + Sent(b, Apply(b, s, steps[0]), steps[1..])
  }

  /** A sender that has stopped sends nothing, and a timer that was stopped never expires and counts no beat. */
  lemma {:induction false} RunStaysStopped(b: Bounds, s: State, steps: seq<Step>, t: State)
    requires Reaches(b, s, steps, t)
    ensures !s.sender.alive ==> !t.sender.alive && Sent(b, s, steps) == []
    ensures !s.timer.armed ==> !t.timer.armed && t.timer == s.timer && t.beats == s.beats
    decreases steps
  {
    if steps != [] { RunStaysStopped(b, Apply(b, s, steps[0]), steps[1..], t); }
  }

  /** Closing the connection stops the timer for good, and cancelling the sender's wait stops the beats for good. */
  lemma StoppedForGood(b: Bounds, s: State, steps: seq<Step>, t: State)
    ensures Enabled(b, s, Close) && Reaches(b, Apply(b, s, Close), steps, t) ==>
      !t.timer.armed && t.timer.fired == s.timer.fired && t.beats == s.beats
    ensures Enabled(b, s, SenderStops) && Reaches(b, Apply(b, s, SenderStops), steps, t) ==>
      Sent(b, Apply(b, s, SenderStops), steps) == []
  {
    if Enabled(b, s, Close) && Reaches(b, Apply(b, s, Close), steps, t) {
      RunStaysStopped(b, Apply(b, s, Close), steps, t);
    }
    if Enabled(b, s, SenderStops) && Reaches(b, Apply(b, s, SenderStops), steps, t) {
      RunStaysStopped(b, Apply(b, s, SenderStops), steps, t);
    }
  }

  // ----- the sender's rhythm -----

  /** Beat `k` is sent when it is due, one interval after the one before it, or late within bounds. */
  predicate OnTime(b: Bounds, due: real, sent: seq<real>, k: nat)
    requires k < |sent|
  {
    var next := if k == 0 then due else sent[k - 1] + b.interval;
    next <= sent[k] <= next + b.lateness
  }

  ghost predicate RhythmInv(b: Bounds, due: real, sent: seq<real>, s: State) {
    && s.sender.due == (if sent == [] then due else sent[|sent| - 1] + b.interval)
    && (s.sender.alive ==> s.now <= s.sender.due + b.lateness)
    && forall k :: 0 <= k < |sent| ==> OnTime(b, due, sent, k)
  }

  lemma {:induction false} RunKeepsRhythm(b: Bounds, due: real, sent: seq<real>, s: State, steps: seq<Step>, t: State)
    requires b.Valid() && RhythmInv(b, due, sent, s) && Reaches(b, s, steps, t)
    ensures RhythmInv(b, due, sent + Sent(b, s, steps), t)
    decreases steps
  {
    if steps == [] {
      assert sent + [] == sent;
    } else {
      var u, now := Apply(b, s, steps[0]), if steps[0].Tick? then [s.now] else [];
      assert RhythmInv(b, due, sent + now, u) by {
        if steps[0].Tick? {
          forall k | 0 <= k < |sent| ensures OnTime(b, due, sent + now, k) { assert OnTime(b, due, sent, k); }
        } else {
          assert sent + [] == sent;
        }
      }
      RunKeepsRhythm(b, due, sent + now, u, steps[1..], t);
      ConcatAssoc(sent, now, Sent(b, u, steps[1..]));
    }
  }

  /**
   * When the beats are sent, on every run: the first when it is due, each other one interval after the
   * one before it, and none of them later than a tick can be late.
   */
  lemma BeatsKeepTime(b: Bounds, due: real, steps: seq<Step>, t: State)
    requires b.Valid() && due >= 0.0 && Reaches(b, Init(b, due), steps, t)
    ensures var sent := Sent(b, Init(b, due), steps);
      && forall k :: 0 <= k < |sent| ==> OnTime(b, due, sent, k)
  {
    var sent := Sent(b, Init(b, due), steps);
    RunKeepsRhythm(b, due, [], Init(b, due), steps, t);
    assert [] + sent == sent;
    assert RhythmInv(b, due, sent, t);
  }
}
