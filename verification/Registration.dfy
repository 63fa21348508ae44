/**
 * The whole registration: one coordinator, its workers, and any number of strangers presenting
 * cookies that were never issued, over one FIFO channel per connection and direction. A connection
 * is known by the number the coordinator gave it when it was accepted.
 */
module Registration {
  import opened Base
  import opened RuntimeProtocol
  import opened Coordinator

  datatype Role = WorkerRole(cookie: Cookie) | Stranger

  /**
   * One connection. The peer sends the hellos of `script`, of which `said` have been sent and
   * `heard` delivered; `sent` is what the coordinator has sent back, of which `got` messages have
   * been delivered. So the channel up holds script[heard..said] and the channel down sent[got..].
   * `worker` is None once a handler of the worker has thrown.
   */
  datatype Endpoint = Endpoint(
    role: Role,
    script: seq<Cookie>,
    said: nat,
    heard: nat,
    open: bool,
    sent: seq<Message>,
    got: nat,
    worker: Option<Worker>)

  datatype Sys = Sys(co: State, ends: seq<Endpoint>)

  /** Who connects, what each peer will say, which connections are workers, which cookies were issued. */
  datatype Config = Config(roles: seq<Role>, scripts: seq<seq<Cookie>>, workers: set<ConnId>, issued: set<Cookie>)

  /** Workers hold distinct issued cookies and say hello once; strangers say anything else, any number of times. */
  ghost predicate WellFormed(cfg: Config) {
    && |cfg.roles| == |cfg.scripts|
    && (forall i: ConnId :: i in cfg.workers <==> i < |cfg.roles| && cfg.roles[i].WorkerRole?)
    && (forall i :: i in cfg.workers ==> cfg.roles[i].cookie in cfg.issued && cfg.scripts[i] == [cfg.roles[i].cookie])
    && (forall i, j :: i in cfg.workers && j in cfg.workers && i != j ==> cfg.roles[i].cookie != cfg.roles[j].cookie)
    && (forall i, k :: 0 <= i < |cfg.roles| && i !in cfg.workers && 0 <= k < |cfg.scripts[i]| ==>
          cfg.scripts[i][k] !in cfg.issued)
  }

  function Start(cfg: Config): Sys
    requires |cfg.roles| == |cfg.scripts|
  {
    Sys(Init(cfg.issued, |cfg.workers|),
        seq(|cfg.roles|, i requires 0 <= i < |cfg.roles| =>
          Endpoint(cfg.roles[i], cfg.scripts[i], 0, 0, true, [], 0, Some(NEW_WORKER))))
  }

  datatype Step = SendHello(c: ConnId) | DeliverHello(c: ConnId, port: nat) | DeliverDown(c: ConnId)

  /** Closed connections deliver nothing, nor does a worker that has its peer map and disconnected. */
  predicate CanTake(x: Endpoint, step: Step) {
    match step
    case SendHello(_) => x.said < |x.script|
    case DeliverHello(_, port) => x.open && x.heard < x.said <= |x.script| && port < 0x1_0000
    case DeliverDown(_) =>
      x.role.WorkerRole? && x.got < |x.sent| && x.worker.Some? && x.worker.value.received == None
  }

  predicate Enabled(s: Sys, step: Step) { step.c < |s.ends| && CanTake(s.ends[step.c], step) }

  /** One endpoint after a hello from connection `c` was handled with effects `e`. */
  function AfterHello(x: Endpoint, i: ConnId, c: ConnId, e: Effects): Endpoint {
    var y := x.(sent := x.sent + SentTo(e, i));
    if i == c then y.(heard := x.heard + 1, open := x.open && e.refused.None?) else y
  }

  function AfterDown(x: Endpoint): Endpoint
    requires x.got < |x.sent| && x.worker.Some?
  {
    x.(got := x.got + 1, worker := OnWorkerMessage(x.worker.value, x.sent[x.got]))
  }

  function Apply(s: Sys, step: Step): Sys
    requires Enabled(s, step)
  {
    var x := s.ends[step.c];
    match step
    case SendHello(c) => s.(ends := s.ends[c := x.(said := x.said + 1)])
    case DeliverDown(c) => s.(ends := s.ends[c := AfterDown(x)])
    case DeliverHello(c, port) =>
      var (co, e) := OnMessage(s.co, c, Some(x.script[x.heard]), port).value;
      Sys(co, seq(|s.ends|, i requires 0 <= i < |s.ends| => AfterHello(s.ends[i], i, c, e)))
  }

  /** A run: the state after a list of steps, if each is enabled in its turn. */
  function Exec(s: Sys, steps: seq<Step>): Option<Sys>
    decreases steps
  {
    if steps == [] then Some(s)
    else if Enabled(s, steps[0]) then Exec(Apply(s, steps[0]), steps[1..])
    else None
  }

  // ----- the invariant -----

  function SentWhen(co: State, i: ConnId): seq<Message> {
    if i !in co.workers then []
    else if co.phase == AtFirstConnection then [HelloOk]
    else [HelloOk, PeerMap(co.info)]
  }

  /** A worker that has handled the first `k` of its messages. */
  function WorkerAfter(k: nat, co: State): Worker {
    if k == 0 then NEW_WORKER
    else if k == 1 then Worker(AtRecvWorkerInfo, None)
    else Worker(AtRecvWorkerInfo, Some(co.info))
  }

  ghost predicate WorkerInv(co: State, i: ConnId, x: Endpoint)
    requires x.role.WorkerRole?
  {
    && x.open && x.script == [x.role.cookie]
    && (x.heard == 1 <==> i in co.workers)
    && (x.role.cookie in co.cookies <==> i !in co.workers)
    && x.sent == SentWhen(co, i)
    && x.got <= |x.sent|
    && x.worker == Some(WorkerAfter(x.got, co))
  }

  ghost predicate EndInv(co: State, i: ConnId, x: Endpoint) {
    && x.heard <= x.said <= |x.script|
    && if x.role.WorkerRole? then WorkerInv(co, i, x) else
         x.sent == [] && x.got == 0 && (co.phase == AtFirstConnection ==> x.heard == if x.open then 0 else 1)
  }

  ghost predicate CoInv(cfg: Config, co: State) {
    && co.workerNum == |cfg.workers|
    && co.workers <= cfg.workers && co.info.Keys == co.workers
    && co.cookies <= cfg.issued
    && (forall c :: c in co.info ==> co.info[c].addr == [] && co.info[c].port < 0x1_0000)
    && (co.phase == AtPeersInfo ==> co.workers == cfg.workers)
    && (co.phase == AtFirstConnection && cfg.workers != {} ==> co.workers != cfg.workers)
  }

  /** Only with no workers at all does the switch depend on strangers: any hello triggers it. */
  ghost predicate EmptyInv(cfg: Config, s: Sys) {
    cfg.workers == {} ==>
      if s.co.phase == AtFirstConnection
      then forall i :: 0 <= i < |s.ends| ==> s.ends[i].open && s.ends[i].heard == 0
      else exists i :: 0 <= i < |cfg.scripts| && cfg.scripts[i] != []
  }

  /** The endpoints are the configured ones. */
  ghost predicate Same(cfg: Config, s: Sys) {
    && |s.ends| == |cfg.roles| == |cfg.scripts|
    && forall i :: 0 <= i < |s.ends| ==> s.ends[i].role == cfg.roles[i] && s.ends[i].script == cfg.scripts[i]
  }

  ghost predicate Ends(s: Sys) { forall i :: 0 <= i < |s.ends| ==> EndInv(s.co, i, s.ends[i]) }

  ghost predicate Inv(cfg: Config, s: Sys) {
    WellFormed(cfg) && Same(cfg, s) && CoInv(cfg, s.co) && Ends(s) && EmptyInv(cfg, s)
  }

  lemma InitInv(cfg: Config)
    requires WellFormed(cfg)
    ensures Inv(cfg, Start(cfg))
  {
    var s := Start(cfg);
    forall i | 0 <= i < |s.ends| ensures EndInv(s.co, i, s.ends[i]) {
      assert cfg.roles[i].WorkerRole? ==> i in cfg.workers;
    }
  }

  lemma OneEnd(s: Sys, c: ConnId, y: Endpoint)
    requires Ends(s) && c < |s.ends| && EndInv(s.co, c, y)
    ensures Ends(s.(ends := s.ends[c := y]))
  {
    var t := s.(ends := s.ends[c := y]);
    forall i | 0 <= i < |t.ends| ensures EndInv(t.co, i, t.ends[i]) {
      if i == c { assert t.ends[i] == y; } else { assert t.ends[i] == s.ends[i]; }
    }
  }

  lemma OneEndStaysEmpty(cfg: Config, s: Sys, c: ConnId, y: Endpoint)
    requires EmptyInv(cfg, s) && c < |s.ends| && y.open == s.ends[c].open && y.heard == s.ends[c].heard
    ensures EmptyInv(cfg, s.(ends := s.ends[c := y]))
  {}

  /** A step that touches one endpoint only. */
  lemma OneEndKeepsInv(cfg: Config, s: Sys, c: ConnId, y: Endpoint)
    requires Inv(cfg, s) && c < |s.ends| && EndInv(s.co, c, y)
    requires var x := s.ends[c]; y.role == x.role && y.script == x.script && y.open == x.open && y.heard == x.heard
    ensures Inv(cfg, s.(ends := s.ends[c := y]))
  {
    OneEnd(s, c, y);
    OneEndStaysEmpty(cfg, s, c, y);
  }

  lemma DownKeepsWorker(co: State, i: ConnId, x: Endpoint)
    requires x.role.WorkerRole? && WorkerInv(co, i, x) && CanTake(x, DeliverDown(i))
    ensures WorkerInv(co, i, AfterDown(x))
  {}

  /** A worker's own hello registers it, and completes the registration exactly when it is the last. */
  ghost predicate Registers(co: State, c: ConnId, cookie: Cookie, t: State, e: Effects) {
    && co.phase == AtFirstConnection && c !in co.workers
    && t.workers == co.workers + {c} && t.cookies == co.cookies - {cookie}
    && e.ack == Some(c) && e.refused == None
    && (if t.phase == AtPeersInfo then e.broadcast == Some(PeerMap(t.info)) && e.recipients == t.workers
        else e.broadcast == None)
  }

  lemma WorkerHelloKeepsCo(cfg: Config, co: State, c: ConnId, cookie: Cookie, port: nat)
    requires CoInv(cfg, co) && c in cfg.workers && c !in co.workers && cookie in co.cookies && port < 0x1_0000
    ensures var (t, e) := OnHello(co, c, cookie, port);
      CoInv(cfg, t) && Registers(co, c, cookie, t, e)
  {
    var (t, e) := OnHello(co, c, cookie, port);
    SubsetCardinality(t.workers, cfg.workers);
  }

  /** What each worker is sent when one registers. */
  lemma RegisteredSends(co: State, c: ConnId, cookie: Cookie, t: State, e: Effects, i: ConnId)
    requires Registers(co, c, cookie, t, e)
    requires t.phase == AtPeersInfo ==> i in t.workers
    ensures SentWhen(co, i) + SentTo(e, i) == SentWhen(t, i)
  {
    var extra := if t.phase == AtPeersInfo && i in t.workers then [PeerMap(t.info)] else [];
    assert SentTo(e, i) == (if i == c then [HelloOk] else []) + extra;
  }

  lemma WorkerHelloKeepsWorker(co: State, c: ConnId, cookie: Cookie, t: State, e: Effects, i: ConnId, x: Endpoint)
    requires Registers(co, c, cookie, t, e) && x.role.WorkerRole? && WorkerInv(co, i, x)
    requires x.role.cookie == cookie <==> i == c
    requires i == c ==> x.heard == 0
    requires t.phase == AtPeersInfo ==> i in t.workers
    ensures WorkerInv(t, i, AfterHello(x, i, c, e))
  {
    RegisteredSends(co, c, cookie, t, e, i);
    assert x.got <= 1 && WorkerAfter(x.got, t) == WorkerAfter(x.got, co);
  }

  lemma WorkerHelloKeepsEnd(cfg: Config, co: State, c: ConnId, cookie: Cookie, t: State, e: Effects, i: ConnId, x: Endpoint)
    requires Registers(co, c, cookie, t, e) && c in cfg.workers && EndInv(co, i, x)
    requires x.role.WorkerRole? ==> i in cfg.workers && (x.role.cookie == cookie <==> i == c)
    requires x.role.Stranger? ==> i !in cfg.workers
    requires i == c ==> x.heard == 0 && x.heard < x.said
    requires t.workers <= cfg.workers && (t.phase == AtPeersInfo ==> t.workers == cfg.workers)
    ensures EndInv(t, i, AfterHello(x, i, c, e))
  {
    if x.role.WorkerRole? {
      WorkerHelloKeepsWorker(co, c, cookie, t, e, i, x);
    } else {
      assert SentTo(e, i) == [];
    }
  }

  lemma WorkerHelloIsGood(cfg: Config, s: Sys, c: ConnId, port: nat)
    requires Inv(cfg, s) && Enabled(s, DeliverHello(c, port)) && s.ends[c].role.WorkerRole?
    ensures var x := s.ends[c];
      && c in cfg.workers && x.heard == 0 && x.script == [x.role.cookie]
      && c !in s.co.workers && x.role.cookie in s.co.cookies && s.co.phase == AtFirstConnection
  {
    assert EndInv(s.co, c, s.ends[c]) && cfg.roles[c] == s.ends[c].role;
    assert c in cfg.workers;
  }

  lemma WorkerHelloKeepsEach(cfg: Config, s: Sys, c: ConnId, t: State, e: Effects, i: ConnId)
    requires Inv(cfg, s) && c in cfg.workers && c < |s.ends| && s.ends[c].role.WorkerRole?
    requires s.ends[c].heard == 0 && s.ends[c].heard < s.ends[c].said
    requires Registers(s.co, c, s.ends[c].role.cookie, t, e) && CoInv(cfg, t)
    requires i < |s.ends|
    ensures EndInv(t, i, AfterHello(s.ends[i], i, c, e))
  {
    var x := s.ends[i];
    assert EndInv(s.co, i, x) && x.role == cfg.roles[i] && s.ends[c].role == cfg.roles[c];
    assert x.role.WorkerRole? ==> i in cfg.workers;
    assert x.role.Stranger? ==> i !in cfg.workers;
    WorkerHelloKeepsEnd(cfg, s.co, c, s.ends[c].role.cookie, t, e, i, x);
  }

  /** What a delivered hello does to every endpoint. */
  ghost predicate Heard(s: Sys, c: ConnId, e: Effects, t: Sys) {
    |t.ends| == |s.ends| && forall i :: 0 <= i < |s.ends| ==> t.ends[i] == AfterHello(s.ends[i], i, c, e)
  }

  lemma DeliveredHello(s: Sys, c: ConnId, port: nat)
    requires Enabled(s, DeliverHello(c, port))
    ensures var (co, e) := OnMessage(s.co, c, Some(s.ends[c].script[s.ends[c].heard]), port).value;
            Apply(s, DeliverHello(c, port)).co == co && Heard(s, c, e, Apply(s, DeliverHello(c, port)))
  {}

  lemma HeardSame(cfg: Config, s: Sys, c: ConnId, e: Effects, t: Sys)
    requires Same(cfg, s) && Heard(s, c, e, t)
    ensures Same(cfg, t)
  {}

  lemma WorkerHelloKeepsInv(cfg: Config, s: Sys, c: ConnId, port: nat)
    requires Inv(cfg, s) && Enabled(s, DeliverHello(c, port)) && s.ends[c].role.WorkerRole?
    ensures Inv(cfg, Apply(s, DeliverHello(c, port)))
  {
    WorkerHelloIsGood(cfg, s, c, port);
    DeliveredHello(s, c, port);
    var (co, e) := OnHello(s.co, c, s.ends[c].role.cookie, port);
    WorkerHelloKeepsCo(cfg, s.co, c, s.ends[c].role.cookie, port);
    RegisteredKeepsInv(cfg, s, c, co, e, Apply(s, DeliverHello(c, port)));
  }

  lemma RegisteredKeepsInv(cfg: Config, s: Sys, c: ConnId, co: State, e: Effects, t: Sys)
    requires Inv(cfg, s) && c in cfg.workers && c < |s.ends| && s.ends[c].role.WorkerRole?
    requires s.ends[c].heard == 0 && s.ends[c].heard < s.ends[c].said
    requires Registers(s.co, c, s.ends[c].role.cookie, co, e) && CoInv(cfg, co)
    requires t.co == co && Heard(s, c, e, t)
    ensures Inv(cfg, t)
  {
    HeardSame(cfg, s, c, e, t);
    forall i | 0 <= i < |t.ends| ensures EndInv(co, i, t.ends[i]) {
      WorkerHelloKeepsEach(cfg, s, c, co, e, i);
    }
    assert Ends(t);
  }

  /** Anyone else's hello changes nothing but the stranger's own connection. */
  ghost predicate Refuses(co: State, t: State, c: ConnId, e: Effects) {
    && t == co.(phase := t.phase)
    && e.ack == None && e.recipients == {}
    && (if co.phase == AtFirstConnection then e.refused == Some(c) else t.phase == AtPeersInfo)
  }

  lemma StrangerHelloKeepsCo(cfg: Config, co: State, c: ConnId, cookie: Cookie, port: nat)
    requires CoInv(cfg, co) && cookie !in cfg.issued
    ensures var (t, e) := OnMessage(co, c, Some(cookie), port).value;
      && CoInv(cfg, t) && Refuses(co, t, c, e)
      && (t.phase != co.phase ==> cfg.workers == {})
      && (cfg.workers == {} ==> t.phase == AtPeersInfo)
  {
    SubsetCardinality(co.workers, cfg.workers);
  }

  lemma StrangerHelloKeepsEnd(co: State, t: State, c: ConnId, e: Effects, i: ConnId, x: Endpoint)
    requires Refuses(co, t, c, e) && EndInv(co, i, x)
    requires x.role.WorkerRole? ==> t.phase == co.phase && i != c
    requires i == c ==> x.heard < x.said && x.open
    ensures EndInv(t, i, AfterHello(x, i, c, e))
  {
    assert SentTo(e, i) == [] && x.sent + [] == x.sent;
  }

  lemma StrangerHelloKeepsInv(cfg: Config, s: Sys, c: ConnId, port: nat)
    requires Inv(cfg, s) && Enabled(s, DeliverHello(c, port)) && s.ends[c].role.Stranger?
    ensures Inv(cfg, Apply(s, DeliverHello(c, port)))
  {
    var x := s.ends[c];
    assert cfg.roles[c] == x.role && cfg.scripts[c] == x.script && c !in cfg.workers;
    DeliveredHello(s, c, port);
    StrangerHelloKeepsCo(cfg, s.co, c, x.script[x.heard], port);
    var (co, e) := OnMessage(s.co, c, Some(x.script[x.heard]), port).value;
    RefusedKeepsInv(cfg, s, c, co, e, Apply(s, DeliverHello(c, port)));
  }

  lemma RefusedKeepsInv(cfg: Config, s: Sys, c: ConnId, co: State, e: Effects, t: Sys)
    requires Inv(cfg, s) && c < |s.ends| && s.ends[c].role.Stranger?
    requires s.ends[c].heard < s.ends[c].said && s.ends[c].open
    requires CoInv(cfg, co) && Refuses(s.co, co, c, e)
    requires (co.phase != s.co.phase ==> cfg.workers == {}) && (cfg.workers == {} ==> co.phase == AtPeersInfo)
    requires t.co == co && Heard(s, c, e, t)
    ensures Inv(cfg, t)
  {
    HeardSame(cfg, s, c, e, t);
    forall i | 0 <= i < |t.ends| ensures EndInv(co, i, t.ends[i]) {
      var x := s.ends[i];
      assert EndInv(s.co, i, x) && x.role == cfg.roles[i];
      assert x.role.WorkerRole? ==> i in cfg.workers;
      StrangerHelloKeepsEnd(s.co, co, c, e, i, x);
    }
    assert Ends(t);
    assert EndInv(s.co, c, s.ends[c]) && cfg.scripts[c] == s.ends[c].script != [];
  }

  lemma SendHelloKeepsInv(cfg: Config, s: Sys, c: ConnId)
    requires Inv(cfg, s) && Enabled(s, SendHello(c))
    ensures Inv(cfg, Apply(s, SendHello(c)))
  {
    var x := s.ends[c];
    assert EndInv(s.co, c, x);
    OneEndKeepsInv(cfg, s, c, x.(said := x.said + 1));
  }

  lemma DownKeepsInv(cfg: Config, s: Sys, c: ConnId)
    requires Inv(cfg, s) && Enabled(s, DeliverDown(c))
    ensures Inv(cfg, Apply(s, DeliverDown(c)))
  {
    var x := s.ends[c];
    assert EndInv(s.co, c, x);
    DownKeepsWorker(s.co, c, x);
    OneEndKeepsInv(cfg, s, c, AfterDown(x));
  }

  lemma StepKeepsInv(cfg: Config, s: Sys, step: Step)
    requires Inv(cfg, s) && Enabled(s, step)
    ensures Inv(cfg, Apply(s, step))
  {
    match step {
      case SendHello(c) => SendHelloKeepsInv(cfg, s, c);
      case DeliverDown(c) => DownKeepsInv(cfg, s, c);
      case DeliverHello(c, port) =>
        if s.ends[c].role.Stranger? {
          StrangerHelloKeepsInv(cfg, s, c, port);
        } else {
          WorkerHelloKeepsInv(cfg, s, c, port);
        }
    }
  }

  lemma {:induction false} RunKeepsInv(cfg: Config, s: Sys, steps: seq<Step>)
    requires Inv(cfg, s) && Exec(s, steps).Some?
    ensures Inv(cfg, Exec(s, steps).value)
    decreases steps
  {
    if steps != [] {
      StepKeepsInv(cfg, s, steps[0]);
      RunKeepsInv(cfg, Apply(s, steps[0]), steps[1..]);
    }
  }

  // ----- safety -----

  /**
   * A worker has not thrown, has been sent a prefix of [OK, peer map], and once finished holds the
   * coordinator's map, whose keys are exactly the workers. A stranger is sent nothing, and
   * disconnected on its first hello, after which none is heard.
   */
  ghost predicate EndSafe(cfg: Config, co: State, i: ConnId, x: Endpoint) {
    if i in cfg.workers then
      && x.worker.Some? && x.sent <= [HelloOk, PeerMap(co.info)]
      && (x.worker.value.received.Some? ==> x.worker.value.received.value == co.info && co.info.Keys == cfg.workers)
    else x.sent == [] && (co.phase == AtFirstConnection ==> x.heard == if x.open then 0 else 1)
  }

  lemma InvIsSafe(cfg: Config, co: State, i: ConnId, x: Endpoint)
    requires CoInv(cfg, co) && EndInv(co, i, x) && (x.role.WorkerRole? <==> i in cfg.workers)
    ensures EndSafe(cfg, co, i, x)
  {}

  /** Every state of every run is safe on every connection. */
  lemma RegistrationIsSafe(cfg: Config, steps: seq<Step>)
    requires WellFormed(cfg) && Exec(Start(cfg), steps).Some?
    ensures var s := Exec(Start(cfg), steps).value;
      && |s.ends| == |cfg.roles|
      && forall i :: 0 <= i < |s.ends| ==> EndSafe(cfg, s.co, i, s.ends[i])
  {
    InitInv(cfg);
    RunKeepsInv(cfg, Start(cfg), steps);
    var s := Exec(Start(cfg), steps).value;
    forall i | 0 <= i < |s.ends| ensures EndSafe(cfg, s.co, i, s.ends[i]) {
      assert EndInv(s.co, i, s.ends[i]) && s.ends[i].role == cfg.roles[i];
      InvIsSafe(cfg, s.co, i, s.ends[i]);
    }
  }

  // ----- termination -----

  /** The steps an endpoint can still take part in. */
  function Weight(x: Endpoint): int {
    2 * (|x.script| - x.said) + (x.said - x.heard)
    + (if x.role.Stranger? || x.worker.None? || x.worker.value.received.Some? then 0
       else if x.worker.value.handler == AtRecvWorkerInfo then 1 else 2)
  }

  function Measure(ends: seq<Endpoint>): int {
    if ends == [] then 0 else Weight(ends[0]) + Measure(ends[1..])
  }

  lemma {:induction false} MeasureFalls(a: seq<Endpoint>, b: seq<Endpoint>, c: nat)
    requires |a| == |b| && c < |a| && Weight(b[c]) < Weight(a[c])
    requires forall i :: 0 <= i < |a| && i != c ==> Weight(b[i]) == Weight(a[i])
    ensures Measure(b) < Measure(a)
  {
    if c > 0 {
      MeasureFalls(a[1..], b[1..], c - 1);
    } else {
      MeasureSame(a[1..], b[1..]);
    }
  }

  lemma {:induction false} MeasureSame(a: seq<Endpoint>, b: seq<Endpoint>)
    requires |a| == |b| && forall i :: 0 <= i < |a| ==> Weight(b[i]) == Weight(a[i])
    ensures Measure(b) == Measure(a)
  {
    if a != [] { MeasureSame(a[1..], b[1..]); }
  }

  lemma {:induction false} MeasureBounded(ends: seq<Endpoint>)
    requires forall i :: 0 <= i < |ends| ==> ends[i].heard <= ends[i].said <= |ends[i].script|
    ensures Measure(ends) >= 0
  {
    if ends != [] { MeasureBounded(ends[1..]); }
  }

  lemma DownFalls(co: State, i: ConnId, x: Endpoint)
    requires x.role.WorkerRole? && WorkerInv(co, i, x) && CanTake(x, DeliverDown(i))
    ensures Weight(AfterDown(x)) < Weight(x)
  {}

  lemma HelloFalls(s: Sys, c: ConnId, port: nat)
    requires Enabled(s, DeliverHello(c, port))
    ensures Measure(Apply(s, DeliverHello(c, port)).ends) < Measure(s.ends)
  {
    var x := s.ends[c];
    var e := OnMessage(s.co, c, Some(x.script[x.heard]), port).value.1;
    var t := Apply(s, DeliverHello(c, port)).ends;
    forall i | 0 <= i < |t| ensures t[i] == AfterHello(s.ends[i], i, c, e) {}
    MeasureFalls(s.ends, t, c);
  }

  lemma StepFalls(cfg: Config, s: Sys, step: Step)
    requires Inv(cfg, s) && Enabled(s, step)
    ensures Measure(Apply(s, step).ends) < Measure(s.ends)
  {
    assert EndInv(s.co, step.c, s.ends[step.c]);
    match step
    case SendHello(c) => MeasureFalls(s.ends, Apply(s, step).ends, c);
    case DeliverDown(c) =>
      DownFalls(s.co, c, s.ends[c]);
      MeasureFalls(s.ends, Apply(s, step).ends, c);
    case DeliverHello(c, port) => HelloFalls(s, c, port);
  }

  lemma {:induction false} RunIsBounded(cfg: Config, s: Sys, steps: seq<Step>)
    requires Inv(cfg, s) && Exec(s, steps).Some?
    ensures |steps| <= Measure(s.ends)
    decreases steps
  {
    if steps == [] {
      forall i | 0 <= i < |s.ends| ensures s.ends[i].heard <= s.ends[i].said <= |s.ends[i].script| {
        assert EndInv(s.co, i, s.ends[i]);
      }
      MeasureBounded(s.ends);
    } else {
      StepFalls(cfg, s, steps[0]);
      StepKeepsInv(cfg, s, steps[0]);
      RunIsBounded(cfg, Apply(s, steps[0]), steps[1..]);
    }
  }

  /** Every run is finite: at most four steps for each worker and two for each hello of a stranger. */
  lemma {:induction false} RegistrationTerminates(cfg: Config, steps: seq<Step>)
    requires WellFormed(cfg) && Exec(Start(cfg), steps).Some?
    ensures |steps| <= Measure(Start(cfg).ends)
    ensures forall i :: 0 <= i < |cfg.roles| ==>
      Weight(Start(cfg).ends[i]) == 2 * |cfg.scripts[i]| + if cfg.roles[i].WorkerRole? then 2 else 0
  {
    InitInv(cfg);
    RunIsBounded(cfg, Start(cfg), steps);
  }

  // ----- no deadlock -----

  ghost predicate Finished(co: State, x: Endpoint) {
    x.sent == [HelloOk, PeerMap(co.info)] && x.got == 2 && x.worker == Some(Worker(AtRecvWorkerInfo, Some(co.info)))
  }

  /**
   * Every worker holds the peer map and the coordinator has moved on. With no workers to wait for,
   * the coordinator moves on exactly when a stranger says hello.
   */
  ghost predicate Done(cfg: Config, s: Sys) {
    && (forall i :: i in cfg.workers ==> i < |s.ends| && Finished(s.co, s.ends[i]))
    && s.co.workers == s.co.info.Keys == cfg.workers
    && (forall c :: c in s.co.info ==> s.co.info[c].addr == [] && s.co.info[c].port < 0x1_0000)
    && (s.co.phase == AtPeersInfo <==>
          cfg.workers != {} || exists i :: 0 <= i < |cfg.scripts| && cfg.scripts[i] != [])
  }

  /** Nothing left to do on this connection. */
  predicate Quiet(x: Endpoint) {
    && !CanTake(x, SendHello(0)) && !CanTake(x, DeliverHello(0, 0)) && !CanTake(x, DeliverDown(0))
  }

  lemma QuietWorker(co: State, i: ConnId, x: Endpoint)
    requires x.role.WorkerRole? && EndInv(co, i, x) && Quiet(x)
    ensures i in co.workers
    ensures co.phase == AtPeersInfo ==> Finished(co, x)
  {}

  lemma QuietIsDone(cfg: Config, s: Sys)
    requires Inv(cfg, s) && forall i :: 0 <= i < |s.ends| ==> Quiet(s.ends[i])
    ensures Done(cfg, s)
  {
    forall i | i in cfg.workers
      ensures i < |s.ends| && i in s.co.workers && (s.co.phase == AtPeersInfo ==> Finished(s.co, s.ends[i]))
    {
      assert EndInv(s.co, i, s.ends[i]) && s.ends[i].role == cfg.roles[i];
      QuietWorker(s.co, i, s.ends[i]);
    }
    assert s.co.workers == cfg.workers;
    if cfg.workers == {} && s.co.phase == AtFirstConnection {
      forall i | 0 <= i < |cfg.scripts| ensures cfg.scripts[i] == [] {
        assert Quiet(s.ends[i]) && EndInv(s.co, i, s.ends[i]);
      }
    }
  }

  /** A run that can go no further has finished. */
  lemma RegistrationNeverDeadlocks(cfg: Config, steps: seq<Step>)
    requires WellFormed(cfg) && Exec(Start(cfg), steps).Some?
    requires forall step :: !Enabled(Exec(Start(cfg), steps).value, step)
    ensures Done(cfg, Exec(Start(cfg), steps).value)
  {
    InitInv(cfg);
    RunKeepsInv(cfg, Start(cfg), steps);
    var s := Exec(Start(cfg), steps).value;
    forall i | 0 <= i < |s.ends| ensures Quiet(s.ends[i]) {
      assert !Enabled(s, SendHello(i)) && !Enabled(s, DeliverHello(i, 0)) && !Enabled(s, DeliverDown(i));
    }
    QuietIsDone(cfg, s);
  }
}
