/**
 * The two sides of the registration protocol: the coordinator server and the worker daemon, each as
 * the object the program runs and as the step function it is proved to follow. Then what the
 * coordinator guarantees against arbitrary traffic.
 */
module Coordinator {
  import opened Base
  import opened RuntimeProtocol

  /** Which handler the state machine currently points at. */
  datatype Phase = AtFirstConnection | AtPeersInfo

  datatype State = State(
    cookies: set<Cookie>,
    workers: set<ConnId>,
    info: map<ConnId, WorkerInfo>,
    workerNum: nat,
    phase: Phase)

  /** What a handler asks of the layer below. */
  datatype Effects = Effects(
    ack: Option<ConnId>,
    refused: Option<ConnId>,
    broadcast: Option<Message>,
    recipients: set<ConnId>)

  const NO_EFFECTS: Effects := Effects(None, None, None, {})

  /** The messages one connection is sent, in order. */
  function SentTo(e: Effects, c: ConnId): seq<Message> {
    (if e.ack == Some(c) then [HelloOk] else [])
    + (if e.broadcast.Some? && c in e.recipients then [e.broadcast.value] else [])
  }

  function Init(cookies: set<Cookie>, workerNum: nat): State {
    State(cookies, {}, map[], workerNum, AtFirstConnection)
  }

  /** A hello carries no address, so what is recorded is a default one with an indeterminate port. */
  function Unaddressed(port: nat): WorkerInfo { WorkerInfo(port, []) }

  /** The cookie check: a known cookie is used up and registers the connection, any other is refused. */
  function OnCookie(s: State, conn: ConnId, cookie: Cookie, port: nat): (State, Effects) {
    if cookie in s.cookies
    then (s.(cookies := s.cookies - {cookie}, workers := s.workers + {conn}, info := s.info[conn := Unaddressed(port)]),
          NO_EFFECTS.(ack := Some(conn)))
    else (s, NO_EFFECTS.(refused := Some(conn)))
  }

  /** `firstconnection`, once the hello has been read. The size test runs on both branches. */
  function OnHello(s: State, conn: ConnId, cookie: Cookie, port: nat): (State, Effects) {
    var (s1, e) := OnCookie(s, conn, cookie, port);
    if |s1.workers| == s1.workerNum
    then (s1.(phase := AtPeersInfo), e.(broadcast := Some(PeerMap(s1.info)), recipients := s1.workers))
    else (s1, e)
  }

  /** What `from_buffer<Firsconnection>` makes of a buffer; None is an exception. */
  function HelloIn(buf: seq<byte>): Option<Cookie> {
    match FromBuffer(FirstConnection, buf)
    case Some(Hello(cookie)) => Some(cookie)
    case _ => None
  }

  /** The current handler on a received buffer; None is an exception, which leaves the state alone. */
  function OnMessage(s: State, conn: ConnId, hello: Option<Cookie>, port: nat): Option<(State, Effects)> {
    if s.phase == AtPeersInfo then Some((s, NO_EFFECTS))
    else if hello.None? then None
    else Some(OnHello(s, conn, hello.value, port))
  }

  datatype PlaceObj = PlaceObj(rank: int)

  class CoordinatorServer {
    var cookies: set<Cookie>
    var workers: map<ConnId, PlaceObj>
    var workerInfo: map<ConnId, WorkerInfo>
    const workerNum: nat
    var currentState: Phase
    // The requests made of the layers below.
    var sent: map<ConnId, seq<Message>>
    var disconnected: seq<ConnId>
    var stops: nat

    ghost predicate Valid()
      reads this
    {
      workers.Keys == workerInfo.Keys && forall c :: c in workers ==> workers[c] == PlaceObj(c)
    }

    function View(): State
      reads this
    {
      State(cookies, workers.Keys, workerInfo, workerNum, currentState)
    }

    static function LogOf(log: map<ConnId, seq<Message>>, c: ConnId): seq<Message> {
      if c in log then log[c] else []
    }

    function Log(c: ConnId): seq<Message>
      reads this
    {
      LogOf(sent, c)
    }

    /** `generated` are the random cookies drawn, one per worker; a repeated draw is one cookie. */
    constructor (generated: seq<Cookie>)
      ensures Valid() && View() == Init(set c | c in generated, |generated|)
      ensures forall c :: Log(c) == []
      ensures disconnected == [] && stops == 0
    {
      cookies := {};
      workers, workerInfo, workerNum := map[], map[], |generated|;
      currentState := AtFirstConnection;
      sent, disconnected, stops := map[], [], 0;
      new;
      for i := 0 to |generated|
        invariant Valid() && View() == Init(set c | c in generated[..i], |generated|)
        invariant sent == map[] && disconnected == [] && stops == 0
      {
        cookies := cookies + {generated[i]};
        assert generated[..i + 1] == generated[..i] + [generated[i]];
      }
      assert generated[..|generated|] == generated;
    }

    method Send(conn: ConnId, m: Message)
      modifies this`sent
      ensures Log(conn) == old(Log(conn)) + [m]
      ensures forall c :: c != conn ==> Log(c) == old(Log(c))
    {
      sent := sent[conn := Log(conn) + [m]];
    }

    /** Walks the workers in whatever order the hash map has. */
    method Broadcast(m: Message)
      requires Valid()
      modifies this`sent
      ensures forall c :: Log(c) == old(Log(c)) + if c in workers then [m] else []
    {
      var todo := workers.Keys;
      while todo != {}
        invariant todo <= workers.Keys
        invariant forall c :: Log(c) == old(Log(c)) + if c in workers && c !in todo then [m] else []
        decreases todo
      {
        var dest :| dest in todo;
        Send(dest, m);
        todo := todo - {dest};
      }
    }

    /** `assert_message_type` and `from_buffer`; None when either throws. */
    method ReadHello(buf: seq<byte>) returns (r: Option<Cookie>)
      ensures r == HelloIn(buf)
    {
      var received := ReadHeaderMessageType(buf);
      HeaderByte(FirstConnection, buf);
      if received != Some(Code(FirstConnection)) { return None; }
      var f := FromBuffer(FirstConnection, buf);
      r := if f.None? then None else Some(f.value.cookie);
    }

    method HandleFirstConnection(conn: ConnId, buf: seq<byte>, port: nat) returns (ok: bool)
      requires Valid() && currentState == AtFirstConnection
      modifies this
      ensures ok == (|buf| >= 17 && buf[0] == 0)
      ensures !ok ==> View() == old(View()) && sent == old(sent) && disconnected == old(disconnected) && stops == old(stops)
      ensures Valid() && Follows(OnMessage(old(View()), conn, HelloIn(buf), port), ok,
        old(View()), old(sent), old(disconnected), old(stops))
    {
      HelloIffBytes(buf);
      var hello := ReadHello(buf);
      if hello.None? { return false; }
      HandleHello(conn, hello.value, port);
      ok := true;
    }

    method HandleHello(conn: ConnId, cookie: Cookie, port: nat)
      requires Valid()
      modifies this
      ensures Valid()
      ensures Follows(Some(OnHello(old(View()), conn, cookie, port)), true,
        old(View()), old(sent), old(disconnected), old(stops))
    {
      ghost var was := View();
      ghost var log0 := sent;
      CheckCookie(conn, cookie, port);
      ghost var log1 := sent;
      var complete := FinishIfComplete();
      ghost var m := PeerMap(workerInfo);
      ghost var e := OnHello(was, conn, cookie, port).1;
      LogsCompose(log0, log1, sent, OnCookie(was, conn, cookie, port).1, e,
        if complete then Some(m) else None, workers.Keys);
    }

    /** Two bursts of sends, one after the other. */
    static lemma LogsCompose(log0: map<ConnId, seq<Message>>, log1: map<ConnId, seq<Message>>,
        log2: map<ConnId, seq<Message>>, e1: Effects, e2: Effects, m: Option<Message>, to: set<ConnId>)
      requires forall c :: LogOf(log1, c) == LogOf(log0, c) + SentTo(e1, c)
      requires forall c :: LogOf(log2, c) == LogOf(log1, c) + if m.Some? && c in to then [m.value] else []
      requires e1.broadcast == None
      requires e2 == if m.Some? then e1.(broadcast := m, recipients := to) else e1
      ensures forall c :: LogOf(log2, c) == LogOf(log0, c) + SentTo(e2, c)
    {
      forall c ensures LogOf(log2, c) == LogOf(log0, c) + SentTo(e2, c) {
        SentTwice(LogOf(log0, c), e1, e2, m, to, c);
      }
    }

    static lemma SentTwice(log: seq<Message>, e1: Effects, e2: Effects, m: Option<Message>, to: set<ConnId>, c: ConnId)
      requires e1.broadcast == None
      requires e2 == if m.Some? then e1.(broadcast := m, recipients := to) else e1
      ensures log + SentTo(e1, c) + (if m.Some? && c in to then [m.value] else []) == log + SentTo(e2, c)
    {
      var first, second := SentTo(e1, c), if m.Some? && c in to then [m.value] else [];
      assert SentTo(e2, c) == first + second;
      ConcatAssoc(log, first, second);
    }

    method CheckCookie(conn: ConnId, cookie: Cookie, port: nat)
      requires Valid()
      modifies this`cookies, this`workers, this`workerInfo, this`sent, this`disconnected
      ensures Valid() && View() == OnCookie(old(View()), conn, cookie, port).0
      ensures forall c :: Log(c) == old(Log(c)) + SentTo(OnCookie(old(View()), conn, cookie, port).1, c)
      ensures disconnected == old(disconnected) + if cookie in old(cookies) then [] else [conn]
      ensures workerInfo == if cookie in old(cookies) then old(workerInfo)[conn := WorkerInfo(port, [])] else old(workerInfo)
      ensures cookies == old(cookies) - {cookie}
      ensures Log(conn) == old(Log(conn)) + if cookie in old(cookies) then [HelloOk] else []
    {
      if cookie !in cookies {
        disconnected := disconnected + [conn];
      } else {
        cookies := cookies - {cookie};
        workers := workers[conn := PlaceObj(conn)];
        workerInfo := workerInfo[conn := Unaddressed(port)];
        Send(conn, HelloOk);
      }
    }

    method FinishIfComplete() returns (complete: bool)
      requires Valid()
      modifies this`currentState, this`sent, this`stops
      ensures complete == (|workers| == workerNum)
      ensures currentState == if complete then AtPeersInfo else old(currentState)
      ensures forall c :: Log(c) == old(Log(c)) + if complete && c in workers then [PeerMap(workerInfo)] else []
      ensures stops == old(stops) + if complete then 1 else 0
    {
      complete := |workers| == workerNum;
      if complete {
        currentState := AtPeersInfo;
        Broadcast(PeerMap(workerInfo));
        stops := stops + 1;
      }
    }

    /**
     * `logic`: run whichever handler is current. The first throws at anything but a hello, and nothing has
     * happened then; the second ignores whatever it is handed.
     */
    method Logic(conn: ConnId, buf: seq<byte>, port: nat) returns (ok: bool)
      requires Valid()
      modifies this
      ensures ok == (old(currentState) == AtPeersInfo || (|buf| >= 17 && buf[0] == 0))
      ensures !ok || old(currentState) == AtPeersInfo ==>
        View() == old(View()) && sent == old(sent) && disconnected == old(disconnected) && stops == old(stops)
      ensures Valid() && Follows(OnMessage(old(View()), conn, HelloIn(buf), port), ok,
        old(View()), old(sent), old(disconnected), old(stops))
    {
      match currentState {
        case AtFirstConnection => ok := HandleFirstConnection(conn, buf, port);
        case AtPeersInfo => ok := true;
      }
    }

    /** The object is where a step function said it would be, having asked for exactly its effects. */
    ghost predicate Follows(r: Option<(State, Effects)>, ok: bool,
        was: State, sent0: map<ConnId, seq<Message>>, disconnected0: seq<ConnId>, stops0: nat)
      reads this
    {
      match r
      case None => !ok && View() == was && sent == sent0 && disconnected == disconnected0 && stops == stops0
      case Some((s, e)) =>
        && ok && View() == s
        && (forall c :: LogOf(sent, c) == LogOf(sent0, c) + SentTo(e, c))
        && disconnected == disconnected0 + (if e.refused.Some? then [e.refused.value] else [])
        && stops == stops0 + (if e.broadcast.Some? then 1 else 0)
    }
  }

  // ----- the worker -----

  datatype Handler = AtFirstConnectionOk | AtRecvWorkerInfo

  /** `received` is the peer map once it has arrived; the worker disconnects then. */
  datatype Worker = Worker(handler: Handler, received: Option<map<ConnId, WorkerInfo>>)

  const NEW_WORKER: Worker := Worker(AtFirstConnectionOk, None)

  /** None is an exception: a buffer the current handler does not expect. */
  function OnWorkerBuffer(w: Worker, buf: seq<byte>): Option<Worker> {
    match w.handler
    case AtFirstConnectionOk =>
      if ReadHeaderMessageType(buf) == Some(Code(FirstConnectionOk)) then Some(w.(handler := AtRecvWorkerInfo)) else None
    case AtRecvWorkerInfo =>
      match FromBuffer(PeersInfo, buf)
      case Some(PeerMap(peers)) => Some(w.(received := Some(peers)))
      case _ => None
  }

  class WorkerDeamon {
    const cookie: Cookie
    var currentState: Handler
    var received: Option<map<ConnId, WorkerInfo>>
    var sent: seq<Message>
    var disconnects: nat
    var stops: nat

    function View(): Worker
      reads this
    {
      Worker(currentState, received)
    }

    constructor (cookie: Cookie)
      ensures View() == NEW_WORKER && this.cookie == cookie && sent == [] && disconnects == 0 && stops == 0
    {
      this.cookie := cookie;
      currentState, received, sent, disconnects, stops := AtFirstConnectionOk, None, [], 0, 0;
    }

    method InitLogic()
      modifies this`sent
      ensures sent == old(sent) + [Hello(cookie)]
    {
      sent := sent + [Hello(cookie)];
    }

    method Logic(buf: seq<byte>) returns (ok: bool)
      modifies this
      ensures match OnWorkerBuffer(old(View()), buf)
        case None => !ok && View() == old(View()) && disconnects == old(disconnects) && stops == old(stops)
        case Some(w) =>
          && ok && View() == w
          && disconnects == old(disconnects) + (if old(currentState) == AtRecvWorkerInfo then 1 else 0)
          && stops == old(stops) + (if old(currentState) == AtRecvWorkerInfo then 1 else 0)
      ensures sent == old(sent)
      ensures old(currentState) == AtFirstConnectionOk ==> ok == (|buf| > 0 && buf[0] == 1) && received == old(received)
      ensures currentState == if ok then AtRecvWorkerInfo else old(currentState)
    {
      match currentState {
        case AtFirstConnectionOk =>
          if ReadHeaderMessageType(buf) != Some(Code(FirstConnectionOk)) { return false; }
          currentState := AtRecvWorkerInfo;
        case AtRecvWorkerInfo =>
          var m := FromBuffer(PeersInfo, buf);
          if m.None? { return false; }
          received := Some(m.value.peers);
          disconnects := disconnects + 1;
          stops := stops + 1;
      }
      ok := true;
    }
  }

  /** The worker's handlers on messages rather than buffers. */
  function OnWorkerMessage(w: Worker, m: Message): Option<Worker> {
    match w.handler
    case AtFirstConnectionOk => if m.HelloOk? then Some(w.(handler := AtRecvWorkerInfo)) else None
    case AtRecvWorkerInfo => if m.PeerMap? then Some(w.(received := Some(m.peers))) else None
  }

  /** Each side reads from the other's buffers exactly the message that was sent. */
  lemma HelloIsRead(cookie: Cookie)
    ensures HelloIn(ToBuffer(Hello(cookie), [])) == Some(cookie)
  {
    MessageRoundTrip(Hello(cookie), [], []);
    assert ToBuffer(Hello(cookie), []) + [] == ToBuffer(Hello(cookie), []);
  }

  lemma WorkerReadsWhatIsSent(w: Worker, m: Message, order: seq<ConnId>)
    requires Sendable(m, order)
    ensures OnWorkerBuffer(w, ToBuffer(m, order)) == OnWorkerMessage(w, m)
  {
    var b := ToBuffer(m, order);
    assert b + [] == b;
    MessageRoundTrip(m, order, []);
    assert KindOf(m) != PeersInfo ==> FromBuffer(PeersInfo, b) == None;
  }

  // ----- arbitrary traffic -----

  /** A received buffer, as `HelloIn` reads it: any cookie, or nothing that is a hello at all. */
  datatype Input = Input(conn: ConnId, hello: Option<Cookie>, port: nat)

  /** A coordinator together with what it has accepted and broadcast so far. */
  datatype History = History(s: State, accepted: seq<(ConnId, Cookie)>, broadcasts: nat)

  function Accepts(s: State, i: Input): seq<(ConnId, Cookie)> {
    if s.phase == AtFirstConnection && i.hello.Some? && i.hello.value in s.cookies
    then [(i.conn, i.hello.value)] else []
  }

  /** One received buffer. After an exception the object is as it was, and could be fed again. */
  function Received(h: History, i: Input): History {
    match OnMessage(h.s, i.conn, i.hello, i.port)
    case None => h
    case Some((s, e)) =>
      History(s, h.accepted + Accepts(h.s, i), h.broadcasts + if e.broadcast.Some? then 1 else 0)
  }

  function Run(h: History, inputs: seq<Input>): History
    decreases inputs
  {
    if inputs == [] then h else Run(Received(h, inputs[0]), inputs[1..])
  }

  function Conns(accepted: seq<(ConnId, Cookie)>): set<ConnId> {
    if accepted == [] then {} else Conns(accepted[..|accepted| - 1]) + {accepted[|accepted| - 1].0}
  }

  function Cookies(accepted: seq<(ConnId, Cookie)>): set<Cookie> {
    if accepted == [] then {} else Cookies(accepted[..|accepted| - 1]) + {accepted[|accepted| - 1].1}
  }

  predicate ConnsDistinct(accepted: seq<(ConnId, Cookie)>) {
    forall i, j :: 0 <= i < j < |accepted| ==> accepted[i].0 != accepted[j].0
  }

  /** The issued cookies are partitioned into those still open and those accepted, each once. */
  ghost predicate CookiesSafe(h: History, issued: set<Cookie>) {
    && h.s.cookies !! Cookies(h.accepted) && h.s.cookies + Cookies(h.accepted) == issued
    && |Cookies(h.accepted)| == |h.accepted| <= |issued|
  }

  /** The workers are the connections that were accepted; the one broadcast waits for all of them. */
  ghost predicate WorkersSafe(h: History, workerNum: nat) {
    && h.s.workerNum == workerNum
    && h.s.workers == Conns(h.accepted) && h.s.info.Keys == h.s.workers
    && |h.s.workers| <= |h.accepted|
    && (forall c :: c in h.s.info ==> h.s.info[c].addr == [])
    && h.broadcasts == (if h.s.phase == AtPeersInfo then 1 else 0)
    && (h.s.phase == AtPeersInfo ==> |h.s.workers| == workerNum)
    && (h.s.phase == AtFirstConnection ==> |h.s.workers| != workerNum || (workerNum == 0 && h.accepted == []))
  }

  ghost predicate Safe(h: History, issued: set<Cookie>, workerNum: nat) {
    CookiesSafe(h, issued) && WorkersSafe(h, workerNum)
  }

  lemma ConnsSnoc(accepted: seq<(ConnId, Cookie)>, p: (ConnId, Cookie))
    ensures Conns(accepted + [p]) == Conns(accepted) + {p.0}
    ensures Cookies(accepted + [p]) == Cookies(accepted) + {p.1}
  {
    assert (accepted + [p])[..|accepted|] == accepted;
  }

  lemma SafeStep(h: History, i: Input, issued: set<Cookie>, workerNum: nat)
    requires Safe(h, issued, workerNum)
    ensures Safe(Received(h, i), issued, workerNum)
  {
    if Accepts(h.s, i) != [] {
      SafeAccept(h, i.conn, i.hello.value, i.port, issued, workerNum);
    } else {
      assert h.accepted + [] == h.accepted;
    }
  }

  lemma SafeAccept(h: History, conn: ConnId, cookie: Cookie, port: nat, issued: set<Cookie>, workerNum: nat)
    requires Safe(h, issued, workerNum) && h.s.phase == AtFirstConnection && cookie in h.s.cookies
    ensures Safe(Received(h, Input(conn, Some(cookie), port)), issued, workerNum)
  {
    var next := Received(h, Input(conn, Some(cookie), port));
    assert next.accepted == h.accepted + [(conn, cookie)];
    ConnsSnoc(h.accepted, (conn, cookie));
    CookieMoves(h.s.cookies, Cookies(h.accepted), issued, cookie);
    WorkerJoins(h, conn, cookie, port, workerNum);
  }

  lemma CookieMoves(open: set<Cookie>, taken: set<Cookie>, issued: set<Cookie>, cookie: Cookie)
    requires open !! taken && open + taken == issued && cookie in open
    ensures open - {cookie} !! taken + {cookie} && (open - {cookie}) + (taken + {cookie}) == issued
    ensures |taken + {cookie}| == |taken| + 1 <= |issued|
  {
    SubsetCardinality(taken + {cookie}, issued);
  }

  lemma AddOne(workers: set<ConnId>, conn: ConnId)
    ensures |workers + {conn}| == if conn in workers then |workers| else |workers| + 1
  {
    if conn in workers { assert workers + {conn} == workers; }
  }

  /** The state in which an accepted hello leaves the coordinator. */
  lemma Accepted(h: History, conn: ConnId, cookie: Cookie, port: nat)
    requires h.s.phase == AtFirstConnection && cookie in h.s.cookies
    ensures var (t, workers) := (Received(h, Input(conn, Some(cookie), port)), h.s.workers + {conn});
            && t.accepted == h.accepted + [(conn, cookie)]
            && t.s.workers == workers && t.s.info == h.s.info[conn := Unaddressed(port)]
            && t.s.workerNum == h.s.workerNum && t.s.cookies == h.s.cookies - {cookie}
            && (t.s.phase == if |workers| == h.s.workerNum then AtPeersInfo else AtFirstConnection)
            && t.broadcasts == h.broadcasts + if |workers| == h.s.workerNum then 1 else 0
  {}

  lemma WorkerJoins(h: History, conn: ConnId, cookie: Cookie, port: nat, workerNum: nat)
    requires WorkersSafe(h, workerNum) && h.s.phase == AtFirstConnection && cookie in h.s.cookies
    ensures WorkersSafe(Received(h, Input(conn, Some(cookie), port)), workerNum)
  {
    Accepted(h, conn, cookie, port);
    var t := Received(h, Input(conn, Some(cookie), port));
    ConnsSnoc(h.accepted, (conn, cookie));
    AddOne(h.s.workers, conn);
    assert t.s.info.Keys == h.s.info.Keys + {conn};
  }

  lemma {:induction false} SafeRun(h: History, inputs: seq<Input>, issued: set<Cookie>, workerNum: nat)
    requires Safe(h, issued, workerNum)
    ensures Safe(Run(h, inputs), issued, workerNum)
    decreases inputs
  {
    if inputs != [] {
      SafeStep(h, inputs[0], issued, workerNum);
      SafeRun(Received(h, inputs[0]), inputs[1..], issued, workerNum);
    }
  }

  // ----- from the cookies drawn -----

  function Issued(draws: seq<Cookie>): set<Cookie> { set c | c in draws }

  predicate NoRepeats(draws: seq<Cookie>) { forall i, j :: 0 <= i < j < |draws| ==> draws[i] != draws[j] }

  /** A coordinator that has drawn one cookie for each worker. */
  function Begin(draws: seq<Cookie>): History { History(Init(Issued(draws), |draws|), [], 0) }

  lemma IssuedSnoc(front: seq<Cookie>, last: Cookie)
    ensures Issued(front + [last]) == Issued(front) + {last}
  {}

  lemma NoRepeatsSnoc(front: seq<Cookie>, last: Cookie)
    ensures NoRepeats(front + [last]) <==> NoRepeats(front) && last !in front
  {
    var all, n := front + [last], |front|;
    if NoRepeats(all) {
      forall i, j | 0 <= i < j < n ensures front[i] != front[j] { assert all[i] != all[j]; }
      forall i | 0 <= i < n ensures front[i] != last { assert all[i] != all[n]; }
    }
  }

  lemma {:induction false} DistinctDraws(draws: seq<Cookie>)
    ensures |Issued(draws)| <= |draws|
    ensures |Issued(draws)| == |draws| <==> NoRepeats(draws)
  {
    if draws == [] {
      assert Issued(draws) == {};
    } else {
      var front, last := draws[..|draws| - 1], draws[|draws| - 1];
      assert draws == front + [last];
      DistinctDraws(front);
      IssuedSnoc(front, last);
      NoRepeatsSnoc(front, last);
      assert last in Issued(front) <==> last in front;
      if last in front { assert Issued(draws) == Issued(front); }
    }
  }

  /**
   * Whatever is received, from whomever and however often: the coordinator stays safe, and accepts
   * no more cookies than it has places.
   */
  lemma SafeAgainstAnyTraffic(draws: seq<Cookie>, inputs: seq<Input>)
    ensures Safe(Run(Begin(draws), inputs), Issued(draws), |draws|)
    ensures |Run(Begin(draws), inputs).s.workers| <= |Run(Begin(draws), inputs).accepted| <= |draws|
  {
    SafeRun(Begin(draws), inputs, Issued(draws), |draws|);
    DistinctDraws(draws);
  }

  lemma {:induction false} ConnsMember(accepted: seq<(ConnId, Cookie)>, c: ConnId)
    ensures c in Conns(accepted) <==> exists i :: 0 <= i < |accepted| && accepted[i].0 == c
  {
    if accepted != [] {
      var n := |accepted| - 1;
      ConnsMember(accepted[..n], c);
      if c in Conns(accepted[..n]) {
        var i :| 0 <= i < n && accepted[..n][i].0 == c;
        assert accepted[i].0 == c;
      }
    }
  }

  lemma {:induction false} DistinctConnsCounted(accepted: seq<(ConnId, Cookie)>)
    ensures |Conns(accepted)| <= |accepted|
    ensures |Conns(accepted)| == |accepted| <==> ConnsDistinct(accepted)
  {
    if accepted != [] {
      var n := |accepted| - 1;
      var front, last := accepted[..n], accepted[n];
      DistinctConnsCounted(front);
      ConnsMember(front, last.0);
      if last.0 in Conns(front) {
        assert Conns(accepted) == Conns(front);
        var i :| 0 <= i < n && front[i].0 == last.0;
        assert accepted[i].0 == accepted[n].0;
      } else {
        forall i | 0 <= i < n ensures accepted[i].0 != last.0 { assert front[i] == accepted[i]; }
      }
      assert ConnsDistinct(accepted) ==> ConnsDistinct(front);
    }
  }

  lemma AllOwnIff(h: History, issued: set<Cookie>, workerNum: nat)
    requires Safe(h, issued, workerNum) && |issued| == workerNum > 0
    ensures h.s.phase == AtPeersInfo <==> h.s.cookies == {} && ConnsDistinct(h.accepted)
  {
    DistinctConnsCounted(h.accepted);
    if h.s.phase == AtPeersInfo || h.s.cookies == {} {
      SubsetCardinality(Cookies(h.accepted), issued);
    }
  }

  // ----- which traffic completes a registration -----

  predicate FirstPresents(inputs: seq<Input>, c: Cookie, k: int) {
    0 <= k < |inputs| && inputs[k].hello == Some(c) && forall j :: 0 <= j < k ==> inputs[j].hello != Some(c)
  }

  predicate Presented(inputs: seq<Input>, c: Cookie) {
    exists k :: 0 <= k < |inputs| && inputs[k].hello == Some(c)
  }

  /** No two issued cookies are first presented by the same connection. */
  ghost predicate OwnConnections(inputs: seq<Input>, issued: set<Cookie>) {
    forall c, d, j, k :: c in issued && d in issued && c != d && FirstPresents(inputs, c, j) && FirstPresents(inputs, d, k)
      ==> inputs[j].conn != inputs[k].conn
  }

  /** With no worker to wait for, anything that reads as a hello completes. */
  ghost predicate Completes(draws: seq<Cookie>, inputs: seq<Input>) {
    if draws == [] then exists k :: 0 <= k < |inputs| && inputs[k].hello.Some?
    else NoRepeats(draws) && (forall c :: c in draws ==> Presented(inputs, c)) && OwnConnections(inputs, Issued(draws))
  }

  ghost predicate Witnessed(seen: seq<Input>, p: (ConnId, Cookie)) {
    exists k :: FirstPresents(seen, p.1, k) && seen[k].conn == p.0
  }

  /** What has been accepted is what was first presented, from whom it was. */
  ghost predicate LogInv(h: History, seen: seq<Input>, issued: set<Cookie>) {
    && h.s.cookies <= issued
    && (forall i :: 0 <= i < |h.accepted| ==>
          h.accepted[i].1 in issued && h.accepted[i].1 !in h.s.cookies && Witnessed(seen, h.accepted[i]))
    && (forall i, j :: 0 <= i < j < |h.accepted| ==> h.accepted[i].1 != h.accepted[j].1)
    && (forall c :: c in issued && c !in h.s.cookies ==> exists i :: 0 <= i < |h.accepted| && h.accepted[i].1 == c)
    && (forall c :: c in h.s.cookies ==> !Presented(seen, c))
  }

  lemma FirstStaysFirst(seen: seq<Input>, more: seq<Input>, c: Cookie, k: int)
    requires FirstPresents(seen, c, k)
    ensures FirstPresents(seen + more, c, k) && (seen + more)[k] == seen[k]
  {}

  lemma WitnessStays(seen: seq<Input>, more: seq<Input>, p: (ConnId, Cookie))
    requires Witnessed(seen, p)
    ensures Witnessed(seen + more, p)
  {
    var k :| FirstPresents(seen, p.1, k) && seen[k].conn == p.0;
    FirstStaysFirst(seen, more, p.1, k);
  }

  lemma NotYetPresented(seen: seq<Input>, i: Input, c: Cookie)
    requires !Presented(seen, c) && i.hello != Some(c)
    ensures !Presented(seen + [i], c)
  {
    forall k | 0 <= k < |seen + [i]| ensures (seen + [i])[k].hello != Some(c) {
      if k < |seen| { assert (seen + [i])[k] == seen[k]; }
    }
  }

  lemma StillAccepted(accepted: seq<(ConnId, Cookie)>, p: (ConnId, Cookie), d: Cookie)
    requires d == p.1 || exists k :: 0 <= k < |accepted| && accepted[k].1 == d
    ensures exists k :: 0 <= k < |accepted + [p]| && (accepted + [p])[k].1 == d
  {
    if d == p.1 {
      assert (accepted + [p])[|accepted|].1 == d;
    } else {
      var k :| 0 <= k < |accepted| && accepted[k].1 == d;
      assert (accepted + [p])[k].1 == d;
    }
  }

  lemma AcceptKeepsLog(h: History, i: Input, seen: seq<Input>, issued: set<Cookie>)
    requires LogInv(h, seen, issued) && Accepts(h.s, i) != []
    ensures LogInv(Received(h, i), seen + [i], issued)
  {
    var t, c, n := Received(h, i), i.hello.value, |h.accepted|;
    assert t.accepted == h.accepted + [(i.conn, c)] && t.s.cookies == h.s.cookies - {c};
    forall k | 0 <= k < |t.accepted| ensures Witnessed(seen + [i], t.accepted[k]) {
      if k < n {
        WitnessStays(seen, [i], h.accepted[k]);
      } else {
        assert FirstPresents(seen + [i], c, |seen|);
      }
    }
    forall d | d in issued && d !in t.s.cookies ensures exists k :: 0 <= k < |t.accepted| && t.accepted[k].1 == d {
      StillAccepted(h.accepted, (i.conn, c), d);
    }
    forall d | d in t.s.cookies ensures !Presented(seen + [i], d) { NotYetPresented(seen, i, d); }
  }

  lemma RefuseKeepsLog(h: History, i: Input, seen: seq<Input>, issued: set<Cookie>)
    requires LogInv(h, seen, issued) && Accepts(h.s, i) == [] && (h.s.phase == AtPeersInfo ==> h.s.cookies == {})
    ensures LogInv(Received(h, i), seen + [i], issued)
  {
    var t := Received(h, i);
    assert t.accepted == h.accepted && t.s.cookies == h.s.cookies;
    forall k | 0 <= k < |t.accepted| ensures Witnessed(seen + [i], t.accepted[k]) {
      WitnessStays(seen, [i], h.accepted[k]);
    }
    forall d | d in t.s.cookies ensures !Presented(seen + [i], d) { NotYetPresented(seen, i, d); }
  }

  lemma StepKeepsLog(h: History, i: Input, seen: seq<Input>, issued: set<Cookie>, workerNum: nat)
    requires Safe(h, issued, workerNum) && |issued| == workerNum > 0 && LogInv(h, seen, issued)
    ensures LogInv(Received(h, i), seen + [i], issued)
  {
    AllOwnIff(h, issued, workerNum);
    if Accepts(h.s, i) != [] { AcceptKeepsLog(h, i, seen, issued); } else { RefuseKeepsLog(h, i, seen, issued); }
  }

  lemma {:induction false} RunSnoc(h: History, inputs: seq<Input>, i: Input)
    ensures Run(h, inputs + [i]) == Received(Run(h, inputs), i)
    decreases inputs
  {
    var all := inputs + [i];
    if inputs == [] {
      assert all[1..] == [] && Run(Received(h, i), []) == Received(h, i);
    } else {
      assert all[1..] == inputs[1..] + [i];
      RunSnoc(Received(h, inputs[0]), inputs[1..], i);
    }
  }

  lemma {:induction false} LogAfter(draws: seq<Cookie>, inputs: seq<Input>)
    requires draws != [] && NoRepeats(draws)
    ensures LogInv(Run(Begin(draws), inputs), inputs, Issued(draws))
    decreases inputs
  {
    if inputs != [] {
      var front, last := inputs[..|inputs| - 1], inputs[|inputs| - 1];
      assert inputs == front + [last];
      LogAfter(draws, front);
      SafeAgainstAnyTraffic(draws, front);
      DistinctDraws(draws);
      StepKeepsLog(Run(Begin(draws), front), last, front, Issued(draws), |draws|);
      RunSnoc(Begin(draws), front, last);
    }
  }

  lemma FirstIsUnique(inputs: seq<Input>, c: Cookie, j: int, k: int)
    requires FirstPresents(inputs, c, j) && FirstPresents(inputs, c, k)
    ensures j == k
  {}

  lemma AllPresentedIff(h: History, seen: seq<Input>, issued: set<Cookie>)
    requires LogInv(h, seen, issued)
    ensures h.s.cookies == {} <==> forall c :: c in issued ==> Presented(seen, c)
  {
    if h.s.cookies == {} {
      forall c | c in issued ensures Presented(seen, c) {
        var i :| 0 <= i < |h.accepted| && h.accepted[i].1 == c;
        assert Witnessed(seen, h.accepted[i]);
        var k :| FirstPresents(seen, c, k) && seen[k].conn == h.accepted[i].0;
        assert seen[k].hello == Some(c);
      }
    }
  }

  lemma DistinctIffOwn(h: History, seen: seq<Input>, issued: set<Cookie>)
    requires LogInv(h, seen, issued) && h.s.cookies == {}
    ensures ConnsDistinct(h.accepted) <==> OwnConnections(seen, issued)
  {
    if ConnsDistinct(h.accepted) {
      forall c, d, j, k | c in issued && d in issued && c != d && FirstPresents(seen, c, j) && FirstPresents(seen, d, k)
        ensures seen[j].conn != seen[k].conn
      {
        AcceptedFrom(h, seen, issued, c, j);
        AcceptedFrom(h, seen, issued, d, k);
      }
    }
    if OwnConnections(seen, issued) {
      forall i, j | 0 <= i < j < |h.accepted| ensures h.accepted[i].0 != h.accepted[j].0 {
        var p, q := h.accepted[i], h.accepted[j];
        assert Witnessed(seen, p) && Witnessed(seen, q) && p.1 != q.1;
        var k :| FirstPresents(seen, p.1, k) && seen[k].conn == p.0;
        var n :| FirstPresents(seen, q.1, n) && seen[n].conn == q.0;
      }
    }
  }

  lemma AcceptedFrom(h: History, seen: seq<Input>, issued: set<Cookie>, c: Cookie, k: int)
    requires LogInv(h, seen, issued) && c in issued && c !in h.s.cookies && FirstPresents(seen, c, k)
    ensures exists i :: 0 <= i < |h.accepted| && h.accepted[i] == (seen[k].conn, c)
  {
    var i :| 0 <= i < |h.accepted| && h.accepted[i].1 == c;
    assert Witnessed(seen, h.accepted[i]);
    var n :| FirstPresents(seen, c, n) && seen[n].conn == h.accepted[i].0;
    FirstIsUnique(seen, c, k, n);
  }

  lemma {:induction false} NobodyToWaitFor(h: History, inputs: seq<Input>)
    requires Safe(h, {}, 0)
    ensures Run(h, inputs).s.phase == AtPeersInfo <==>
      h.s.phase == AtPeersInfo || exists k :: 0 <= k < |inputs| && inputs[k].hello.Some?
    decreases inputs
  {
    if inputs != [] {
      var i, t := inputs[0], Received(h, inputs[0]);
      SafeStep(h, i, {}, 0);
      NobodyToWaitFor(t, inputs[1..]);
      assert h.s.workers == {};
      assert t.s.phase == AtPeersInfo <==> h.s.phase == AtPeersInfo || i.hello.Some?;
      assert inputs == [i] + inputs[1..];
    }
  }

  lemma DistinctDrawsComplete(draws: seq<Cookie>, inputs: seq<Input>)
    requires draws != [] && NoRepeats(draws)
    ensures Run(Begin(draws), inputs).s.phase == AtPeersInfo <==> Completes(draws, inputs)
  {
    var h, issued := Run(Begin(draws), inputs), Issued(draws);
    SafeAgainstAnyTraffic(draws, inputs);
    DistinctDraws(draws);
    LogAfter(draws, inputs);
    AllOwnIff(h, issued, |draws|);
    AllPresentedIff(h, inputs, issued);
    if h.s.cookies == {} { DistinctIffOwn(h, inputs, issued); }
  }

  lemma RepeatedDrawsDoNot(draws: seq<Cookie>, inputs: seq<Input>)
    requires !NoRepeats(draws)
    ensures Run(Begin(draws), inputs).s.phase == AtFirstConnection
  {
    SafeAgainstAnyTraffic(draws, inputs);
    DistinctDraws(draws);
  }

  /**
   * Exactly which traffic completes a registration: no draw was repeated, every drawn cookie is
   * presented, and no two of them are first presented by the same connection.
   */
  lemma BroadcastIff(draws: seq<Cookie>, inputs: seq<Input>)
    ensures Run(Begin(draws), inputs).s.phase == AtPeersInfo <==> Completes(draws, inputs)
  {
    if draws == [] {
      assert Issued(draws) == {};
      NobodyToWaitFor(Begin(draws), inputs);
    } else if NoRepeats(draws) {
      DistinctDrawsComplete(draws, inputs);
    } else {
      RepeatedDrawsDoNot(draws, inputs);
    }
  }

  /** A repeated draw makes registration impossible: no traffic completes it. */
  lemma CollisionNeverCompletes(draws: seq<Cookie>, i: nat, j: nat, inputs: seq<Input>)
    requires i < j < |draws| && draws[i] == draws[j]
    ensures Run(Begin(draws), inputs).s.phase == AtFirstConnection
  {
    BroadcastIff(draws, inputs);
  }

  /** Once one connection has been the first with two drawn cookies, nothing that follows completes it. */
  lemma StuckForGood(draws: seq<Cookie>, inputs: seq<Input>, c: Cookie, d: Cookie, j: int, k: int, more: seq<Input>)
    requires c in draws && d in draws && c != d
    requires FirstPresents(inputs, c, j) && FirstPresents(inputs, d, k) && inputs[j].conn == inputs[k].conn
    ensures Run(Begin(draws), inputs + more).s.phase == AtFirstConnection
  {
    FirstStaysFirst(inputs, more, c, j);
    FirstStaysFirst(inputs, more, d, k);
    assert c in Issued(draws) && d in Issued(draws);
    assert !OwnConnections(inputs + more, Issued(draws));
    BroadcastIff(draws, inputs + more);
  }

  /** The least case: two workers' cookies from one connection, both accepted, and no way on. */
  lemma TwoCookiesOneConnection(a: Cookie, b: Cookie, conn: ConnId, port: nat, more: seq<Input>)
    requires a != b
    ensures Run(Begin([a, b]), [Input(conn, Some(a), port), Input(conn, Some(b), port)]).s.cookies == {}
    ensures Run(Begin([a, b]), [Input(conn, Some(a), port), Input(conn, Some(b), port)] + more).s.phase == AtFirstConnection
  {
    var i, j := Input(conn, Some(a), port), Input(conn, Some(b), port);
    var h := Begin([a, b]);
    assert h.s.cookies == {a, b};
    assert Run(Received(Received(h, i), j), []) == Received(Received(h, i), j);
    assert [j][1..] == [] && Run(Received(h, i), [j]) == Received(Received(h, i), j);
    assert [i, j][1..] == [j] && Run(h, [i, j]) == Received(Received(h, i), j);
    assert Received(h, i).s.cookies == {b} && Received(h, i).s.phase == AtFirstConnection;
    assert FirstPresents([i, j], a, 0) && FirstPresents([i, j], b, 1);
    StuckForGood([a, b], [i, j], a, b, 0, 1, more);
  }
}
