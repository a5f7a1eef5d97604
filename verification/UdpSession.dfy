// One UDP session at work: the client's read loop and the server's write loop run at once, and a
// write to the target and the counting of its bytes are two steps.

module UdpSession {
  import opened Bytes
  import opened Results
  import opened UdpTunnel

  /**
    What the client read from the source while the session lasted, what it sent, the messages under
    way, those the server has read, what the target got, the receive counter, the bytes written and
    about to be counted, whether each end still works, and whether a write to the target failed.
    */
  datatype Session = Session(
    received: seq<Payload>,
    sent: seq<Payload>,
    channel: seq<Payload>,
    taken: seq<Payload>,
    delivered: seq<Payload>,
    rx: nat,
    counting: Option<nat>,
    clientUp: bool,
    serverUp: bool,
    writeFailed: bool)

  datatype Limits = Limits(client: int, server: int)

  const FRESH: Session := Session([], [], [], [], [], 0, None, true, true, false)

  datatype Action =
    | Receive(payload: Payload, writeFails: bool)
    | EndClient
    | Deliver(writeFails: bool)
    | Count
    | EndServer

  /** One step; an end that is down or busy, and a reader with nothing to read, do nothing. */
  function Act(s: Session, action: Action, limits: Limits): Session {
    match action
    case Receive(_, _) =>
      if !s.clientUp then s
      else if !Fits(action.payload, limits.client) then s.(received := s.received + [action.payload])
      else if action.writeFails then s.(received := s.received + [action.payload], clientUp := false)
      else
        s.(received := s.received + [action.payload],
           sent := s.sent + [action.payload],
           channel := s.channel + [action.payload])
    case EndClient => s.(clientUp := false)
    case Deliver(_) =>
      if !s.serverUp || s.counting.Some? || s.channel == [] then s
      else
        var message := s.channel[0];
        var read := s.(channel := s.channel[1..], taken := s.taken + [message]);
        if !Fits(message, limits.server) then read
        else if action.writeFails then read.(serverUp := false, writeFailed := true)
        else read.(delivered := s.delivered + [message], counting := Some(|message|))
    case Count => if s.counting.Some? then s.(rx := s.rx + s.counting.value, counting := None) else s
    case EndServer => if s.counting.Some? then s else s.(serverUp := false)
  }

  function Run(actions: seq<Action>, limits: Limits): Session {
    if actions == [] then FRESH
    else Act(Run(actions[..|actions| - 1], limits), actions[|actions| - 1], limits)
  }

  // --- Each end does what its loop does ---

  /** What the read loop meets in the run. */
  function ClientEvents(actions: seq<Action>): seq<ClientEvent> {
    if actions == [] then []
    else
      var n := |actions| - 1;
      ClientEvents(actions[..n])
      + match actions[n]
        case Receive(payload, writeFails) => [Datagram(payload, writeFails)]
        case EndClient => [ReadFails([], true)]
        case _ => []
  }

  /** The loop goes on behind the events. */
  predicate StillReading(events: seq<ClientEvent>, maxPayloadBytes: int) {
    forall event <- events ::
      if event.ReadFails? then !event.closed else !(event.writeFails && Fits(event.payload, maxPayloadBytes))
  }

  lemma OfferedFirst(events: seq<ClientEvent>, maxPayloadBytes: int)
    requires events != []
    ensures var event := events[0];
            Offered(events, maxPayloadBytes)
            == if !StillReading([event], maxPayloadBytes) then []
               else (if event.ReadFails? then [] else [event.payload]) + Offered(events[1..], maxPayloadBytes)
  {
    assert events[0] in [events[0]];
  }

  lemma {:induction false} OfferedMore(events: seq<ClientEvent>, event: ClientEvent, maxPayloadBytes: int)
    ensures Offered(events + [event], maxPayloadBytes)
         == Offered(events, maxPayloadBytes)
            + if StillReading(events, maxPayloadBytes) then Offered([event], maxPayloadBytes) else []
    ensures StillReading(events + [event], maxPayloadBytes)
       <==> StillReading(events, maxPayloadBytes) && StillReading([event], maxPayloadBytes)
    decreases |events|
  {
    hide Offered, Fits;
    if events == [] {
      assert events + [event] == [event];
      NothingOffered(maxPayloadBytes);
      assert [] + Offered([event], maxPayloadBytes) == Offered([event], maxPayloadBytes);
    } else {
      var more := events + [event];
      assert more[1..] == events[1..] + [event];
      OfferedFirst(events, maxPayloadBytes);
      OfferedFirst(more, maxPayloadBytes);
      OfferedMore(events[1..], event, maxPayloadBytes);
      assert events == [events[0]] + events[1..];
    }
  }

  lemma NothingOffered(maxPayloadBytes: int)
    ensures Offered([], maxPayloadBytes) == []
  {
  }

  /** The client's end of the session is the read loop of startUDPListener. */
  ghost predicate ClientSound(actions: seq<Action>, limits: Limits) {
    var s, events := Run(actions, limits), ClientEvents(actions);
    && s.sent == SentBy(events, limits.client)
    && s.clientUp == StillReading(events, limits.client)
  }

  lemma OneEvent(event: ClientEvent, maxPayloadBytes: int)
    ensures Offered([event], maxPayloadBytes)
         == if event.ReadFails? || !StillReading([event], maxPayloadBytes) then [] else [event.payload]
    ensures StillReading([event], maxPayloadBytes)
       <==> if event.ReadFails? then !event.closed else !(event.writeFails && Fits(event.payload, maxPayloadBytes))
  {
    assert event in [event];
  }

  lemma {:induction false} ClientRunsItsLoop(actions: seq<Action>, limits: Limits)
    ensures ClientSound(actions, limits)
  {
    hide Offered, Fitting, StillReading, Fits;
    if actions == [] {
      NothingOffered(limits.client);
      NothingFits(limits.client);
      NoEvents(limits.client);
    } else {
      var n := |actions| - 1;
      ClientRunsItsLoop(actions[..n], limits);
      ClientStep(actions, limits);
    }
  }

  lemma NoEvents(maxPayloadBytes: int)
    ensures StillReading([], maxPayloadBytes)
  {
  }

  lemma ClientStep(actions: seq<Action>, limits: Limits)
    requires actions != [] && ClientSound(actions[..|actions| - 1], limits)
    ensures ClientSound(actions, limits)
  {
    hide Offered, Fitting, StillReading, Run, ClientEvents;
    var n := |actions| - 1;
    var action := actions[n];
    var before, events := Run(actions[..n], limits), ClientEvents(actions[..n]);
    LastAction(actions, limits);
    if action.Receive? || action.EndClient? {
      var event := if action.Receive? then Datagram(action.payload, action.writeFails) else ReadFails([], true);
      OfferedMore(events, event, limits.client);
      OneEvent(event, limits.client);
      FittingConcat(Offered(events, limits.client), Offered([event], limits.client), limits.client);
      NothingFits(limits.client);
      if action.Receive? {
        OneMore([], action.payload, limits.client);
        assert [] + [action.payload] == [action.payload];
      }
      assert Offered(events, limits.client) + [] == Offered(events, limits.client);
      assert before.sent + [] == before.sent;
    } else {
      assert events + [] == events;
    }
  }

  lemma LastAction(actions: seq<Action>, limits: Limits)
    requires actions != []
    ensures var n := |actions| - 1;
            && Run(actions, limits) == Act(Run(actions[..n], limits), actions[n], limits)
            && ClientEvents(actions)
               == ClientEvents(actions[..n])
                  + match actions[n]
                    case Receive(payload, writeFails) => [Datagram(payload, writeFails)]
                    case EndClient => [ReadFails([], true)]
                    case _ => []
  {
  }

  /** The server's end of the session is the write loop of proxyWebSocketUDP. */
  ghost predicate ServerSound(s: Session, limits: Limits) {
    && Served(s.taken, limits.server, if s.writeFailed then Some(|s.delivered|) else None, s.delivered, s.writeFailed)
    && s.rx + (if s.counting.Some? then s.counting.value else 0) == TotalLength(s.delivered)
    && (s.counting.Some? ==> s.serverUp)
    && (s.writeFailed ==> !s.serverUp)
    && s.sent == s.taken + s.channel
  }

  lemma ServerStep(s: Session, action: Action, limits: Limits)
    requires ServerSound(s, limits)
    ensures ServerSound(Act(s, action, limits), limits)
  {
    hide Fitting, TotalLength;
    if action.Deliver? && s.channel != [] {
      OneMore(s.taken, s.channel[0], limits.server);
      OneMore(s.delivered, s.channel[0], limits.server);
      assert s.channel == [s.channel[0]] + s.channel[1..];
      ConcatAssociative(s.taken, [s.channel[0]], s.channel[1..]);
    }
    if action.Receive? {
      ConcatAssociative(s.taken, s.channel, [action.payload]);
    }
  }

  lemma {:induction false} ServerRunsItsLoop(actions: seq<Action>, limits: Limits)
    ensures ServerSound(Run(actions, limits), limits)
  {
    hide Fitting, TotalLength, Act, Served;
    if actions == [] {
      FreshIsSound(limits);
    } else {
      ServerRunsItsLoop(actions[..|actions| - 1], limits);
      ServerStep(Run(actions[..|actions| - 1], limits), actions[|actions| - 1], limits);
    }
  }

  lemma FreshIsSound(limits: Limits)
    ensures ServerSound(FRESH, limits)
  {
  }

  // --- From the source to the target ---

  function Both(limits: Limits): int {
    Min(limits.client, limits.server)
  }

  lemma FittingPrefix(a: seq<Payload>, b: seq<Payload>, maxPayloadBytes: int)
    requires a <= b
    ensures Fitting(a, maxPayloadBytes) <= Fitting(b, maxPayloadBytes)
  {
    assert b == a + b[|a|..];
    FittingConcat(a, b[|a|..], maxPayloadBytes);
  }

  lemma {:induction false} SentFits(actions: seq<Action>, limits: Limits)
    ensures var s := Run(actions, limits);
            s.sent <= Fitting(s.received, limits.client)
            && (s.clientUp ==> s.sent == Fitting(s.received, limits.client))
  {
    hide Fitting;
    if actions == [] {
      NothingFits(limits.client);
    } else {
      var n := |actions| - 1;
      SentFits(actions[..n], limits);
      if actions[n].Receive? {
        OneMore(Run(actions[..n], limits).received, actions[n].payload, limits.client);
      }
    }
  }

  /**
    In every interleaving of the two loops, with whatever errors: the target has got a prefix of
    the source's datagrams of admissible length, each of them whole, and the session's counter with
    what is about to be counted is their total length.
    */
  lemma EveryRunInOrder(actions: seq<Action>, limits: Limits)
    ensures var s := Run(actions, limits);
            s.delivered <= Fitting(s.received, Both(limits))
            && s.rx + (if s.counting.Some? then s.counting.value else 0) == TotalLength(s.delivered)
  {
    hide Fitting, TotalLength, Run;
    var s := Run(actions, limits);
    ServerRunsItsLoop(actions, limits);
    SentFits(actions, limits);
    FittingPrefix(s.taken, s.sent, limits.server);
    FittingPrefix(s.sent, Fitting(s.received, limits.client), limits.server);
    BothGuards(s.received, limits.client, limits.server);
  }

  predicate Faultless(action: Action) {
    action.Count? || ((action.Receive? || action.Deliver?) && !action.writeFails)
  }

  function Sources(actions: seq<Action>): seq<Payload> {
    if actions == [] then []
    else
      var n := |actions| - 1;
      Sources(actions[..n]) + if actions[n].Receive? then [actions[n].payload] else []
  }

  /** Without socket errors, once the channel is drained, exactly the admissible datagrams arrived. */
  lemma FaultlessRunsDeliverAll(actions: seq<Action>, limits: Limits)
    requires forall action <- actions :: Faultless(action)
    requires Run(actions, limits).channel == [] && Run(actions, limits).counting == None
    ensures var s := Run(actions, limits);
            s.delivered == Fitting(s.received, Min(limits.client, limits.server))
            && s.rx == TotalLength(s.delivered)
            && s.received == Sources(actions)
  {
    hide Fitting, TotalLength, Run;
    ServerRunsItsLoop(actions, limits);
    SentFits(actions, limits);
    FaultlessStaysUp(actions, limits);
    var s := Run(actions, limits);
    assert s.taken + [] == s.taken;
    BothGuards(s.received, limits.client, limits.server);
  }

  lemma {:induction false} FaultlessStaysUp(actions: seq<Action>, limits: Limits)
    requires forall action <- actions :: Faultless(action)
    ensures var s := Run(actions, limits);
            s.clientUp && s.serverUp && !s.writeFailed && s.received == Sources(actions)
  {
    if actions != [] {
      assert Faultless(actions[|actions| - 1]);
      FaultlessStaysUp(actions[..|actions| - 1], limits);
    }
  }

  /**
    The datagrams of 1 to so many bytes, in order: exactly these are picked, from left to right.
    */
  lemma AdmissibleDatagrams(payloads: seq<Payload>, limits: Limits)
    ensures var positions := Positions(payloads, Both(limits));
            && Picks(positions, Fitting(payloads, Both(limits)), payloads)
            && forall i | 0 <= i < |payloads| ::
                 (i in positions
                  <==> 1 <= |payloads[i]| && |payloads[i]| <= limits.client && |payloads[i]| <= limits.server)
  {
    hide Positions, Fitting;
    FittingPicks(payloads, Both(limits));
  }

  /** The datagrams the client read from the source before its end of the session closed. */
  function ReadWhileUp(actions: seq<Action>, limits: Limits): seq<Payload> {
    if actions == [] then []
    else
      var n := |actions| - 1;
      ReadWhileUp(actions[..n], limits)
      + if actions[n].Receive? && Run(actions[..n], limits).clientUp then [actions[n].payload] else []
  }

  lemma {:induction false} ReceivedHistory(actions: seq<Action>, limits: Limits)
    ensures Run(actions, limits).received == ReadWhileUp(actions, limits)
  {
    if actions != [] {
      ReceivedHistory(actions[..|actions| - 1], limits);
    }
  }

  /** An end that has closed stays closed, sends no more and delivers no more; only the last count may follow. */
  lemma ClosedEnds(s: Session, action: Action, limits: Limits)
    ensures !Act(s, EndClient, limits).clientUp
    ensures s.counting == None ==> !Act(s, EndServer, limits).serverUp
    ensures !s.clientUp ==>
      !Act(s, action, limits).clientUp && Act(s, action, limits).sent == s.sent
    ensures !s.serverUp ==>
      !Act(s, action, limits).serverUp && Act(s, action, limits).delivered == s.delivered
      && Act(s, action, limits).taken == s.taken
  {
  }

  /** While its end is up and not busy, the server takes what has arrived. */
  lemma OpenEnds(s: Session, writeFails: bool, limits: Limits)
    ensures s.serverUp && s.counting == None && s.channel != [] ==>
      Act(s, Deliver(writeFails), limits).taken == s.taken + [s.channel[0]]
    ensures s.serverUp && s.counting == None && s.channel != [] && 1 <= |s.channel[0]| <= limits.server ==>
      var after := Act(s, Deliver(writeFails), limits);
      && (writeFails ==> !after.serverUp && after.writeFailed && after.delivered == s.delivered)
      && (!writeFails ==> after.delivered == s.delivered + [s.channel[0]] && after.counting == Some(|s.channel[0]|))
    ensures s.counting.Some? ==>
      Act(s, Count, limits).counting == None && Act(s, Count, limits).rx == s.rx + s.counting.value
  {
  }

  /** In every run, the delivered datagrams are an order-preserving subsequence of the received ones. */
  lemma DeliveredIsSubsequence(actions: seq<Action>, limits: Limits)
    ensures var s := Run(actions, limits);
            exists positions :: Picks(positions, s.delivered, s.received)
  {
    hide Fitting, Positions, Run;
    EveryRunInOrder(actions, limits);
    var s := Run(actions, limits);
    FittingPicks(s.received, Both(limits));
    var positions := Positions(s.received, Both(limits));
    assert Picks(positions[..|s.delivered|], s.delivered, s.received);
  }
}
