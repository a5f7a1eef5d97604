// How the proxies end (proxyWebSocket and proxyWebSocketUDP in internal/engine/http.go, the TCP
// proxies in internal/engine/engine.go, proxy in internal/client/tunnel.go): two copiers and an
// optional pinger report to the main routine over a buffered channel, in any interleaving.

module Shutdown {
  import opened Results

  // --- Errors ---

  /** What an ended read, write or ping reports. */
  datatype Error =
    | Eof
    | NetClosed
    | CloseError(code: int, saysUnexpectedEof: bool)
    | Other(text: string)

  const CLOSE_NORMAL_CLOSURE := 1000
  const CLOSE_GOING_AWAY := 1001
  const CLOSE_NO_STATUS_RECEIVED := 1005
  const CLOSE_ABNORMAL_CLOSURE := 1006

  /** normalizeProxyError: the ordinary ways to end are no errors. */
  function Normalise(error: Error): Option<Error> {
    match error
    case Eof => None
    case NetClosed => None
    case CloseError(code, saysUnexpectedEof) =>
      if code in {CLOSE_NORMAL_CLOSURE, CLOSE_GOING_AWAY, CLOSE_NO_STATUS_RECEIVED} then None
      else if code == CLOSE_ABNORMAL_CLOSURE && saysUnexpectedEof then None
      else Some(error)
    case Other(_) => Some(error)
  }

  // --- Threads ---

  /**
    The capacity of errCh, whether there is a pinger, whether writes share a mutex, and whether the
    connection that is no WebSocket is closed first.
    */
  datatype Setup = Setup(capacity: nat, pinger: bool, locking: bool, plainFirst: bool)

  /** The channel has room for each of its senders. */
  predicate Sound(setup: Setup) {
    setup.capacity >= if setup.pinger then 3 else 2
  }

  const WEB_SOCKET_PROXY := Setup(3, true, true, false)
  const WEB_SOCKET_PROXY_WITHOUT_PINGS := Setup(3, false, true, false)
  const CLIENT_PROXY := Setup(3, true, false, true)
  const CLIENT_PROXY_WITHOUT_PINGS := Setup(3, false, false, true)
  const TCP_PROXY := Setup(2, false, false, false)

  /**
    The WebSocket proxies make room for three, the TCP proxies for two; only the server's WebSocket
    proxies share a write mutex, and only the client's closes its plain connection first.
    */
  lemma ProxiesAreSound()
    ensures Sound(WEB_SOCKET_PROXY) && Sound(WEB_SOCKET_PROXY_WITHOUT_PINGS)
    ensures Sound(CLIENT_PROXY) && Sound(CLIENT_PROXY_WITHOUT_PINGS) && Sound(TCP_PROXY)
    ensures WEB_SOCKET_PROXY.capacity == 3 && WEB_SOCKET_PROXY_WITHOUT_PINGS.capacity == 3
    ensures CLIENT_PROXY.capacity == 3 && CLIENT_PROXY_WITHOUT_PINGS.capacity == 3
    ensures TCP_PROXY.capacity == 2
    ensures WEB_SOCKET_PROXY.pinger && CLIENT_PROXY.pinger
    ensures !WEB_SOCKET_PROXY_WITHOUT_PINGS.pinger && !CLIENT_PROXY_WITHOUT_PINGS.pinger && !TCP_PROXY.pinger
    ensures WEB_SOCKET_PROXY.locking && WEB_SOCKET_PROXY_WITHOUT_PINGS.locking
    ensures !CLIENT_PROXY.locking && !CLIENT_PROXY_WITHOUT_PINGS.locking && !TCP_PROXY.locking
    ensures CLIENT_PROXY.plainFirst && CLIENT_PROXY_WITHOUT_PINGS.plainFirst
    ensures !WEB_SOCKET_PROXY.plainFirst && !WEB_SOCKET_PROXY_WITHOUT_PINGS.plainFirst && !TCP_PROXY.plainFirst
  {
  }

  datatype MainPc =
    | AwaitFirst
    | ClosingDone(first: Error)
    | ClosingWebSocket(first: Error)
    | ClosingServer(first: Error)
    | AwaitSecond(first: Error)
    | Returned(result: Option<Error>)

  datatype CopierPc = Reading | Locking | Writing | Sending(error: Error) | Finished

  datatype PingerPc = Absent | Waiting | PingLocking | Pinging | Reporting(failure: Error) | Stopped(sent: bool)

  /**
    Upstream reads the WebSocket and writes the server connection; downstream the reverse, under
    the write mutex. enqueued is everything ever put into the channel; pending counts the messages
    a closed WebSocket still has buffered.
    */
  datatype State = State(
    queue: seq<Error>,
    enqueued: seq<Error>,
    main: MainPc,
    upstream: CopierPc,
    downstream: CopierPc,
    pinger: PingerPc,
    done: bool,
    webSocketOpen: bool,
    serverOpen: bool,
    pending: nat,
    mutexHeld: bool)

  function Start(setup: Setup): State {
    State([], [], AwaitFirst, Reading, Reading, if setup.pinger then Waiting else Absent,
          false, true, true, 0, false)
  }

  datatype Step =
    | ReceiveFirst | CloseDone | CloseWebSocket(buffered: nat) | CloseServer | ReceiveSecond
    | UpRead | UpSkip | UpReadFails(error: Error) | UpWrite | UpWriteFails(error: Error) | UpSend
    | DownRead | DownSkip | DownReadFails(error: Error) | DownLock | DownWrite | DownWriteFails(error: Error) | DownSend
    | Tick | PingLock | Ping | PingFails(error: Error) | PingReport | PingStop

  /** A WebSocket gives messages while it is open, and then what it had buffered. */
  predicate WebSocketGives(s: State) {
    s.webSocketOpen || s.pending > 0
  }

  function AfterWebSocketRead(s: State): State {
    if s.webSocketOpen || s.pending == 0 then s else s.(pending := s.pending - 1)
  }

  predicate Enabled(setup: Setup, s: State, step: Step) {
    match step
    case ReceiveFirst => s.main.AwaitFirst? && s.queue != []
    case CloseDone => s.main.ClosingDone?
    case CloseWebSocket(_) => s.main.ClosingWebSocket?
    case CloseServer => s.main.ClosingServer?
    case ReceiveSecond => s.main.AwaitSecond? && s.queue != []
    case UpRead => s.upstream.Reading? && WebSocketGives(s)
    case UpSkip => s.upstream.Reading? && WebSocketGives(s)
    case UpReadFails(_) => s.upstream.Reading?
    case UpWrite => s.upstream.Writing? && s.serverOpen
    case UpWriteFails(_) => s.upstream.Writing?
    case UpSend => s.upstream.Sending? && |s.queue| < setup.capacity
    case DownRead => s.downstream.Reading? && s.serverOpen
    case DownSkip => s.downstream.Reading? && s.serverOpen
    case DownReadFails(_) => s.downstream.Reading?
    case DownLock => s.downstream.Locking? && !(setup.locking && s.mutexHeld)
    case DownWrite => s.downstream.Writing? && s.webSocketOpen
    case DownWriteFails(_) => s.downstream.Writing?
    case DownSend => s.downstream.Sending? && |s.queue| < setup.capacity
    case Tick => s.pinger.Waiting?
    case PingLock => s.pinger.PingLocking? && !(setup.locking && s.mutexHeld)
    case Ping => s.pinger.Pinging? && s.webSocketOpen
    case PingFails(_) => s.pinger.Pinging?
    case PingReport => s.pinger.Reporting?
    case PingStop => s.pinger.Waiting? && s.done
  }

  function Enqueue(s: State, error: Error): State {
    s.(queue := s.queue + [error], enqueued := s.enqueued + [error])
  }

  predicate ByMain(step: Step) {
    step.ReceiveFirst? || step.CloseDone? || step.CloseWebSocket? || step.CloseServer? || step.ReceiveSecond?
  }

  predicate ByUpstream(step: Step) {
    step.UpRead? || step.UpSkip? || step.UpReadFails? || step.UpWrite? || step.UpWriteFails? || step.UpSend?
  }

  predicate ByPinger(step: Step) {
    step.Tick? || step.PingLock? || step.Ping? || step.PingFails? || step.PingReport? || step.PingStop?
  }

  predicate ByDownstream(step: Step) {
    !ByMain(step) && !ByUpstream(step) && !ByPinger(step)
  }

  function MainNext(setup: Setup, s: State, step: Step): State
    requires Enabled(setup, s, step) && ByMain(step)
  {
    match step
    case ReceiveFirst => s.(main := ClosingDone(s.queue[0]), queue := s.queue[1..])
    case CloseDone =>
      s.(done := true, main := if setup.plainFirst then ClosingServer(s.main.first) else ClosingWebSocket(s.main.first))
    case CloseWebSocket(buffered) =>
      s.(webSocketOpen := false, pending := buffered,
         main := if setup.plainFirst then AwaitSecond(s.main.first) else ClosingServer(s.main.first))
    case CloseServer =>
      s.(serverOpen := false,
         main := if setup.plainFirst then ClosingWebSocket(s.main.first) else AwaitSecond(s.main.first))
    case ReceiveSecond => s.(main := Returned(Normalise(s.main.first)), queue := s.queue[1..])
  }

  function UpstreamNext(setup: Setup, s: State, step: Step): State
    requires Enabled(setup, s, step) && ByUpstream(step)
  {
    match step
    case UpRead => AfterWebSocketRead(s).(upstream := Writing)
    case UpSkip => AfterWebSocketRead(s)
    case UpReadFails(error) => s.(upstream := Sending(error))
    case UpWrite => s.(upstream := Reading)
    case UpWriteFails(error) => s.(upstream := Sending(error))
    case UpSend => Enqueue(s, s.upstream.error).(upstream := Finished)
  }

  function DownstreamNext(setup: Setup, s: State, step: Step): State
    requires Enabled(setup, s, step) && ByDownstream(step)
  {
    match step
    case DownRead => s.(downstream := Locking)
    case DownSkip => s
    case DownReadFails(error) => s.(downstream := Sending(error))
    case DownLock => s.(downstream := Writing, mutexHeld := setup.locking)
    case DownWrite => s.(downstream := Reading, mutexHeld := false)
    case DownWriteFails(error) => s.(downstream := Sending(error), mutexHeld := false)
    case DownSend => Enqueue(s, s.downstream.error).(downstream := Finished)
  }

  function PingerNext(setup: Setup, s: State, step: Step): State
    requires Enabled(setup, s, step) && ByPinger(step)
  {
    match step
    case Tick => s.(pinger := PingLocking)
    case PingLock => s.(pinger := Pinging, mutexHeld := setup.locking)
    case Ping => s.(pinger := Waiting, mutexHeld := false)
    case PingFails(error) => s.(pinger := Reporting(error), mutexHeld := false)
    case PingReport =>
      if |s.queue| < setup.capacity then Enqueue(s, s.pinger.failure).(pinger := Stopped(true))
      else s.(pinger := Stopped(false))
    case PingStop => s.(pinger := Stopped(false))
  }

  function Next(setup: Setup, s: State, step: Step): State
    requires Enabled(setup, s, step)
  {
    if ByMain(step) then MainNext(setup, s, step)
    else if ByUpstream(step) then UpstreamNext(setup, s, step)
    else if ByPinger(step) then PingerNext(setup, s, step)
    else DownstreamNext(setup, s, step)
  }

  function Run(setup: Setup, steps: seq<Step>): Option<State> {
    if steps == [] then Some(Start(setup))
    else
      match Run(setup, steps[..|steps| - 1])
      case None => None
      case Some(s) =>
        var step := steps[|steps| - 1];
        if Enabled(setup, s, step) then Some(Next(setup, s, step)) else None
  }

  // --- The invariant ---

  function Count(b: bool): nat {
    if b then 1 else 0
  }

  /** How many errors the main routine has received. */
  function Received(s: State): nat {
    match s.main
    case AwaitFirst => 0
    case Returned(_) => 2
    case _ => 1
  }

  /** How many threads have put their error into the channel: none does so twice. */
  function Senders(s: State): nat {
    Count(s.upstream.Finished?) + Count(s.downstream.Finished?) + Count(s.pinger == Stopped(true))
  }

  /** The channel holds what was sent and not yet received, in order. */
  predicate Suffix(queue: seq<Error>, enqueued: seq<Error>, received: nat) {
    received <= |enqueued| && queue == enqueued[received..]
  }

  predicate QueueSound(s: State) {
    Suffix(s.queue, s.enqueued, Received(s))
  }

  predicate ChannelSound(s: State) {
    |s.enqueued| == Senders(s) && QueueSound(s)
  }

  predicate MainSound(setup: Setup, s: State) {
    match s.main
    case AwaitFirst => s.webSocketOpen && s.serverOpen && !s.done
    case ClosingDone(first) => |s.enqueued| > 0 && first == s.enqueued[0] && s.webSocketOpen && s.serverOpen && !s.done
    case ClosingWebSocket(first) =>
      |s.enqueued| > 0 && first == s.enqueued[0] && s.webSocketOpen && s.serverOpen == !setup.plainFirst && s.done
    case ClosingServer(first) =>
      |s.enqueued| > 0 && first == s.enqueued[0] && s.webSocketOpen == setup.plainFirst && s.serverOpen && s.done
    case AwaitSecond(first) => |s.enqueued| > 0 && first == s.enqueued[0] && !s.webSocketOpen && !s.serverOpen && s.done
    case Returned(result) =>
      |s.enqueued| > 0 && result == Normalise(s.enqueued[0]) && !s.webSocketOpen && !s.serverOpen && s.done
  }

  predicate MutexSound(setup: Setup, s: State) {
    (s.mutexHeld <==> setup.locking && (s.downstream.Writing? || s.pinger.Pinging?))
    && (setup.locking ==> !(s.downstream.Writing? && s.pinger.Pinging?))
    && (s.pinger.Absent? <==> !setup.pinger)
    && !s.upstream.Locking?
  }

  predicate Invariant(setup: Setup, s: State) {
    ChannelSound(s) && MainSound(setup, s) && MutexSound(setup, s)
  }

  lemma SuffixAppend(queue: seq<Error>, enqueued: seq<Error>, received: nat, error: Error)
    requires Suffix(queue, enqueued, received)
    ensures Suffix(queue + [error], enqueued + [error], received)
  {
  }

  lemma SuffixPop(queue: seq<Error>, enqueued: seq<Error>, received: nat)
    requires Suffix(queue, enqueued, received) && queue != []
    ensures Suffix(queue[1..], enqueued, received + 1)
  {
  }

  lemma MainKeeps(setup: Setup, s: State, step: Step)
    requires Invariant(setup, s) && Enabled(setup, s, step) && ByMain(step)
    ensures Invariant(setup, MainNext(setup, s, step))
  {
    if step.ReceiveFirst? || step.ReceiveSecond? {
      SuffixPop(s.queue, s.enqueued, Received(s));
    }
  }

  lemma UpstreamKeeps(setup: Setup, s: State, step: Step)
    requires Invariant(setup, s) && Enabled(setup, s, step) && ByUpstream(step)
    ensures Invariant(setup, UpstreamNext(setup, s, step))
  {
    hide Suffix;
    SuffixLength(s.queue, s.enqueued, Received(s));
    if step.UpSend? {
      SuffixAppend(s.queue, s.enqueued, Received(s), s.upstream.error);
    }
  }

  lemma DownstreamKeeps(setup: Setup, s: State, step: Step)
    requires Invariant(setup, s) && Enabled(setup, s, step) && ByDownstream(step)
    ensures Invariant(setup, DownstreamNext(setup, s, step))
  {
    hide Suffix;
    SuffixLength(s.queue, s.enqueued, Received(s));
    if step.DownSend? {
      SuffixAppend(s.queue, s.enqueued, Received(s), s.downstream.error);
    }
  }

  lemma PingerKeeps(setup: Setup, s: State, step: Step)
    requires Invariant(setup, s) && Enabled(setup, s, step) && ByPinger(step)
    ensures Invariant(setup, PingerNext(setup, s, step))
  {
    hide Enabled, Invariant, PingerNext;
    if step.PingReport? {
      PingReportKeeps(setup, s);
    } else {
      PingingKeeps(setup, s, step);
    }
  }

  lemma PingReportKeeps(setup: Setup, s: State)
    requires Invariant(setup, s) && Enabled(setup, s, PingReport)
    ensures Invariant(setup, PingerNext(setup, s, PingReport))
  {
    hide Suffix, MainSound;
    SuffixLength(s.queue, s.enqueued, Received(s));
    SuffixAppend(s.queue, s.enqueued, Received(s), s.pinger.failure);
    ReportKeepsMainSound(setup, s);
  }

  lemma ReportKeepsMainSound(setup: Setup, s: State)
    requires MainSound(setup, s) && Enabled(setup, s, PingReport)
    ensures MainSound(setup, PingerNext(setup, s, PingReport))
  {
  }

  lemma PingingKeeps(setup: Setup, s: State, step: Step)
    requires Invariant(setup, s) && Enabled(setup, s, step) && ByPinger(step) && !step.PingReport?
    ensures Invariant(setup, PingerNext(setup, s, step))
  {
    hide Suffix;
  }

  lemma SuffixLength(queue: seq<Error>, enqueued: seq<Error>, received: nat)
    requires Suffix(queue, enqueued, received)
    ensures received <= |enqueued| && |queue| == |enqueued| - received
  {
  }

  lemma KeepsInvariant(setup: Setup, s: State, step: Step)
    requires Invariant(setup, s) && Enabled(setup, s, step)
    ensures Invariant(setup, Next(setup, s, step))
  {
    hide Enabled, Invariant, MainNext, UpstreamNext, DownstreamNext, PingerNext;
    if ByMain(step) {
      MainKeeps(setup, s, step);
    } else if ByUpstream(step) {
      UpstreamKeeps(setup, s, step);
    } else if ByPinger(step) {
      PingerKeeps(setup, s, step);
    } else {
      DownstreamKeeps(setup, s, step);
    }
  }

  /** Every reachable state is sound. */
  lemma {:induction false} RunsAreSound(setup: Setup, steps: seq<Step>)
    ensures Run(setup, steps).Some? ==> Invariant(setup, Run(setup, steps).value)
  {
    hide Next, Enabled, Invariant;
    if steps == [] {
      assert Invariant(setup, Start(setup)) by { StartsSound(setup); }
    } else if Run(setup, steps).Some? {
      RunsAreSound(setup, steps[..|steps| - 1]);
      KeepsInvariant(setup, Run(setup, steps[..|steps| - 1]).value, steps[|steps| - 1]);
    }
  }

  lemma StartsSound(setup: Setup)
    ensures Invariant(setup, Start(setup))
  {
  }

  // --- Nobody is stranded ---

  predicate MaySend(setup: Setup, s: State) {
    (s.upstream.Sending? ==> Enabled(setup, s, UpSend))
    && (s.downstream.Sending? ==> Enabled(setup, s, DownSend))
    && (s.pinger.Reporting? ==> Next(setup, s, PingReport).pinger == Stopped(true))
  }

  /** The channel has room whenever somebody wants to send; a failed ping is never dropped. */
  lemma SendersNeverBlock(setup: Setup, steps: seq<Step>)
    requires Sound(setup) && Run(setup, steps).Some?
    ensures |Run(setup, steps).value.enqueued| <= setup.capacity
    ensures MaySend(setup, Run(setup, steps).value)
  {
    hide Run, Enabled, Next;
    RunsAreSound(setup, steps);
    RoomForAll(setup, Run(setup, steps).value);
  }

  lemma RoomForAll(setup: Setup, s: State)
    requires Sound(setup) && Invariant(setup, s)
    ensures |s.enqueued| <= setup.capacity
    ensures MaySend(setup, s)
  {
  }

  predicate Closed(s: State) {
    !s.webSocketOpen && !s.serverOpen && s.done
  }

  predicate AllDone(s: State) {
    s.main.Returned? && s.upstream.Finished? && s.downstream.Finished? && (s.pinger.Absent? || s.pinger.Stopped?)
  }

  function CopierRank(pc: CopierPc): nat {
    match pc
    case Reading => 4
    case Locking => 3
    case Writing => 2
    case Sending(_) => 1
    case Finished => 0
  }

  function PingerRank(pc: PingerPc): nat {
    match pc
    case Waiting => 4
    case PingLocking => 3
    case Pinging => 2
    case Reporting(_) => 1
    case _ => 0
  }

  function MainRank(pc: MainPc): nat {
    match pc
    case Returned(_) => 0
    case _ => 1
  }

  function Rank(s: State): nat {
    CopierRank(s.upstream) + CopierRank(s.downstream) + PingerRank(s.pinger) + MainRank(s.main) + s.pending
  }

  /** Once both connections are closed, whatever happens brings the end nearer. */
  lemma EveryStepDescends(setup: Setup, s: State, step: Step)
    requires Invariant(setup, s) && Closed(s) && Enabled(setup, s, step)
    ensures Closed(Next(setup, s, step)) && Rank(Next(setup, s, step)) < Rank(s)
  {
  }

  /** And until all is done, something can happen. */
  lemma NeverStuck(setup: Setup, s: State)
    requires Sound(setup) && Invariant(setup, s) && Closed(s) && !AllDone(s)
    ensures exists step :: Enabled(setup, s, step)
  {
    if !s.upstream.Finished? {
      UpstreamGoesOn(setup, s);
    } else if s.pinger.Waiting? {
      assert Enabled(setup, s, PingStop);
    } else if s.pinger.Pinging? {
      assert Enabled(setup, s, PingFails(NetClosed));
    } else if s.pinger.Reporting? {
      assert Enabled(setup, s, PingReport);
    } else if !s.downstream.Finished? {
      DownstreamGoesOn(setup, s);
    } else if s.pinger.PingLocking? {
      assert Enabled(setup, s, PingLock);
    } else {
      assert Enabled(setup, s, ReceiveSecond);
    }
  }

  lemma UpstreamGoesOn(setup: Setup, s: State)
    requires Sound(setup) && Invariant(setup, s) && !s.upstream.Finished?
    ensures exists step :: Enabled(setup, s, step)
  {
    match s.upstream
    case Reading => assert Enabled(setup, s, UpReadFails(NetClosed));
    case Writing => assert Enabled(setup, s, UpWriteFails(NetClosed));
    case Sending(_) => assert Enabled(setup, s, UpSend);
  }

  lemma DownstreamGoesOn(setup: Setup, s: State)
    requires Sound(setup) && Invariant(setup, s) && !s.downstream.Finished? && !s.pinger.Pinging?
    ensures exists step :: Enabled(setup, s, step)
  {
    match s.downstream
    case Reading => assert Enabled(setup, s, DownReadFails(NetClosed));
    case Locking => assert Enabled(setup, s, DownLock);
    case Writing => assert Enabled(setup, s, DownWriteFails(NetClosed));
    case Sending(_) => assert Enabled(setup, s, DownSend);
  }

  /** Between the first error and the closing of both connections, the main routine is never held up. */
  lemma MainGoesOn(setup: Setup, steps: seq<Step>)
    requires Run(setup, steps).Some?
    ensures var s := Run(setup, steps).value;
            (s.main.AwaitFirst? && |s.enqueued| > 0 ==> Enabled(setup, s, ReceiveFirst))
            && (s.main.ClosingDone? ==> Enabled(setup, s, CloseDone))
            && (s.main.ClosingWebSocket? ==> forall n: nat :: Enabled(setup, s, CloseWebSocket(n)))
            && (s.main.ClosingServer? ==> Enabled(setup, s, CloseServer))
            && (s.main.AwaitSecond? || s.main.Returned? <==> Closed(s))
  {
    RunsAreSound(setup, steps);
  }

  /** From any state with both connections closed, every way to go on ends, with all threads done. */
  lemma {:induction false} ShutdownEnds(setup: Setup, steps: seq<Step>, n: nat)
    requires Sound(setup) && n <= |steps|
    requires Run(setup, steps).Some? && Run(setup, steps[..n]).Some? && Closed(Run(setup, steps[..n]).value)
    ensures Closed(Run(setup, steps).value)
    ensures |steps| - n <= Rank(Run(setup, steps[..n]).value) - Rank(Run(setup, steps).value)
    ensures AllDone(Run(setup, steps).value) || exists step :: Enabled(setup, Run(setup, steps).value, step)
    decreases |steps|
  {
    hide Next, Enabled, Invariant, Rank, Closed, AllDone, Sound;
    RunsAreSound(setup, steps);
    if |steps| == n {
      assert steps[..n] == steps;
    } else {
      var before := steps[..|steps| - 1];
      assert before[..n] == steps[..n];
      ShutdownEnds(setup, before, n);
      RunsAreSound(setup, before);
      EveryStepDescends(setup, Run(setup, before).value, steps[|steps| - 1]);
    }
    if !AllDone(Run(setup, steps).value) {
      NeverStuck(setup, Run(setup, steps).value);
    }
  }

  // --- What is returned, and who may still run ---

  /**
    The result is the first error of all, unless that is one of the ordinary ways to end: end of
    file, a closed connection, a close frame that says normal closure, going away or nothing, or one
    that stands for a connection cut off.
    */
  lemma ReturnsFirstError(setup: Setup, steps: seq<Step>)
    requires Run(setup, steps).Some? && Run(setup, steps).value.main.Returned?
    ensures var s := Run(setup, steps).value;
            |s.enqueued| >= 2 && Closed(s)
            && var first := s.enqueued[0];
               s.main.result
               == if first.Eof? || first.NetClosed?
                     || (first.CloseError? && first.code in {1000, 1001, 1005})
                     || (first.CloseError? && first.code == 1006 && first.saysUnexpectedEof)
                  then None else Some(first)
  {
    RunsAreSound(setup, steps);
  }

  /**
    On return a copier may still be running only if a failed ping took one of the two receives;
    without a pinger both copiers have finished.
    */
  lemma WhoOutlivesMain(setup: Setup, steps: seq<Step>)
    requires Run(setup, steps).Some? && Run(setup, steps).value.main.Returned?
    ensures var s := Run(setup, steps).value;
            (s.upstream.Finished? || s.downstream.Finished?)
            && ((s.upstream.Finished? && s.downstream.Finished?) || s.pinger == Stopped(true))
            && (!setup.pinger ==> s.upstream.Finished? && s.downstream.Finished?)
  {
    RunsAreSound(setup, steps);
  }

  lemma RunFrom(setup: Setup, steps: seq<Step>, step: Step)
    ensures Run(setup, steps + [step])
         == match Run(setup, steps)
            case None => None
            case Some(s) => if Enabled(setup, s, step) then Some(Next(setup, s, step)) else None
  {
    hide Enabled, Next;
    assert (steps + [step])[..|steps|] == steps;
  }

  ghost predicate Reachable(setup: Setup, s: State) {
    exists steps :: Run(setup, steps) == Some(s)
  }

  lemma GoOn(setup: Setup, s: State, step: Step, t: State)
    requires Reachable(setup, s) && Enabled(setup, s, step) && Next(setup, s, step) == t
    ensures Reachable(setup, t)
  {
    hide Enabled, Next;
    var steps :| Run(setup, steps) == Some(s);
    RunFrom(setup, steps, step);
  }

  lemma Begun(setup: Setup)
    ensures Reachable(setup, Start(setup))
  {
    assert Run(setup, []) == Some(Start(setup));
  }

  /** With a pinger, the main routine can return while the upstream copier has yet to report. */
  lemma CopierMayOutliveMain(setup: Setup)
    requires setup.pinger && setup.capacity >= 1
    ensures exists s :: Reachable(setup, s) && s.main.Returned? && s.upstream.Writing?
  {
    hide Reachable;
    var s0 := Start(setup);
    Begun(setup);
    var s1 := s0.(upstream := Writing);
    GoOn(setup, s0, UpRead, s1);
    var s2 := s1.(downstream := Sending(Eof));
    GoOn(setup, s1, DownReadFails(Eof), s2);
    assert [] + [Eof] == [Eof];
    var s3 := s2.(downstream := Finished, queue := [Eof], enqueued := [Eof]);
    GoOn(setup, s2, DownSend, s3);
    assert s3.queue[1..] == [];
    var s4 := s3.(main := ClosingDone(Eof), queue := []);
    GoOn(setup, s3, ReceiveFirst, s4);
    PingStarts(setup, s4);
  }

  lemma PingStarts(setup: Setup, s: State)
    requires Reachable(setup, s) && s.main == ClosingDone(Eof) && s.upstream.Writing? && s.pinger.Waiting?
    requires s.queue == [] && !s.mutexHeld && setup.capacity >= 1
    ensures exists t :: Reachable(setup, t) && t.main.Returned? && t.upstream.Writing?
  {
    hide Reachable;
    var a := s.(pinger := PingLocking);
    GoOn(setup, s, Tick, a);
    var b := a.(pinger := Pinging, mutexHeld := setup.locking);
    GoOn(setup, a, PingLock, b);
    if setup.plainFirst {
      ClosesPlainFirst(setup, b);
    } else {
      ClosesWebSocketFirst(setup, b);
    }
  }

  lemma ClosesWebSocketFirst(setup: Setup, s: State)
    requires Reachable(setup, s) && s.main == ClosingDone(Eof) && s.upstream.Writing? && s.pinger.Pinging?
    requires s.queue == [] && setup.capacity >= 1 && !setup.plainFirst
    ensures exists t :: Reachable(setup, t) && t.main.Returned? && t.upstream.Writing?
  {
    hide Reachable;
    var a := s.(done := true, main := ClosingWebSocket(Eof));
    GoOn(setup, s, CloseDone, a);
    var b := a.(webSocketOpen := false, pending := 0, main := ClosingServer(Eof));
    GoOn(setup, a, CloseWebSocket(0), b);
    var c := b.(serverOpen := false, main := AwaitSecond(Eof));
    GoOn(setup, b, CloseServer, c);
    PingIsReceived(setup, c);
  }

  lemma ClosesPlainFirst(setup: Setup, s: State)
    requires Reachable(setup, s) && s.main == ClosingDone(Eof) && s.upstream.Writing? && s.pinger.Pinging?
    requires s.queue == [] && setup.capacity >= 1 && setup.plainFirst
    ensures exists t :: Reachable(setup, t) && t.main.Returned? && t.upstream.Writing?
  {
    hide Reachable;
    var a := s.(done := true, main := ClosingServer(Eof));
    GoOn(setup, s, CloseDone, a);
    var b := a.(serverOpen := false, main := ClosingWebSocket(Eof));
    GoOn(setup, a, CloseServer, b);
    var c := b.(webSocketOpen := false, pending := 0, main := AwaitSecond(Eof));
    GoOn(setup, b, CloseWebSocket(0), c);
    PingIsReceived(setup, c);
  }

  lemma PingIsReceived(setup: Setup, s: State)
    requires Reachable(setup, s) && s.main == AwaitSecond(Eof) && s.upstream.Writing? && s.pinger.Pinging?
    requires s.queue == [] && setup.capacity >= 1
    ensures exists t :: Reachable(setup, t) && t.main.Returned? && t.upstream.Writing?
  {
    hide Reachable;
    var d := s.(pinger := Reporting(NetClosed), mutexHeld := false);
    GoOn(setup, s, PingFails(NetClosed), d);
    var e := Enqueue(d, NetClosed).(pinger := Stopped(true));
    GoOn(setup, d, PingReport, e);
    assert e.queue == [NetClosed];
    var f := e.(main := Returned(Normalise(Eof)), queue := e.queue[1..]);
    GoOn(setup, e, ReceiveSecond, f);
  }

  ghost predicate MainOutlivesCopiers(setup: Setup) {
    forall s :: Reachable(setup, s) && s.main.Returned? ==> s.upstream.Finished? && s.downstream.Finished?
  }

  /** Exactly the proxies without a pinger have ended both copiers whenever the main routine returns. */
  lemma WhoseCopiersEnd(setup: Setup)
    requires Sound(setup)
    ensures MainOutlivesCopiers(setup) <==> !setup.pinger
  {
    if setup.pinger {
      CopierMayOutliveMain(setup);
    } else {
      forall s | Reachable(setup, s) && s.main.Returned?
        ensures s.upstream.Finished? && s.downstream.Finished?
      {
        var steps :| Run(setup, steps) == Some(s);
        WhoOutlivesMain(setup, steps);
      }
    }
  }
}
