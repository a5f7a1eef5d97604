// Whole-or-nothing datagrams: the read guard (internal/udputil/limits.go), the client's read loop
// (internal/client/tunnel.go) and the server's write loop (internal/engine/http.go) of one UDP
// session of a passthrough plugin.

module UdpTunnel {
  import opened Bytes
  import opened Results

  type Payload = seq<byte>

  // --- The read guard ---

  datatype ReadError = NonPositiveLimit | BufferTooSmall(got: int, need: int) | SocketError(text: string)

  /** What a read reports: how many bytes are in the buffer, whether there was too much, and an error. */
  datatype ReadReport = ReadReport(n: nat, oversized: bool, error: Option<ReadError>)

  /** What the socket gives: the bytes of a datagram, and the error of the read, if it has one. */
  datatype Arrival = Arrival(datagram: Payload, error: Option<string>)

  /** One byte more than a payload may have, so that an oversized datagram shows. */
  function ReadBufferSize(maxPayloadBytes: int): int {
    if maxPayloadBytes < 1 then 2 else maxPayloadBytes + 1
  }

  lemma ReadBufferSizes(maxPayloadBytes: int)
    ensures ReadBufferSize(maxPayloadBytes) == if maxPayloadBytes >= 1 then 1 + maxPayloadBytes else 2
  {
  }

  /** The socket's part: a datagram fills the buffer from its start, and what does not fit is lost. */
  method ReadFrom(datagram: Payload, buffer: array<byte>, limit: nat) returns (n: nat)
    requires limit <= buffer.Length
    modifies buffer
    ensures n == Min(|datagram|, limit)
    ensures buffer[..n] == datagram[..n] && buffer[n..] == old(buffer[n..])
  {
    n := Min(|datagram|, limit);
    for i := 0 to n
      invariant buffer[..i] == datagram[..i] && buffer[i..] == old(buffer[i..])
    {
      buffer[i] := datagram[i];
    }
  }

  /**
    Nothing that was cut short passes the guard, and everything that fits does. The socket's own
    error is passed on together with what was read.
    */
  method ReadDatagram(arrival: Arrival, buffer: array<byte>, maxPayloadBytes: int) returns (report: ReadReport)
    modifies buffer
    ensures maxPayloadBytes < 1 ==> report == ReadReport(0, false, Some(NonPositiveLimit))
    ensures 1 <= maxPayloadBytes && buffer.Length <= maxPayloadBytes ==>
      report == ReadReport(0, false, Some(BufferTooSmall(buffer.Length, maxPayloadBytes + 1)))
    ensures maxPayloadBytes < 1 || buffer.Length <= maxPayloadBytes ==> buffer[..] == old(buffer[..])
    ensures 1 <= maxPayloadBytes < buffer.Length ==>
      report.error == (match arrival.error case None => None case Some(text) => Some(SocketError(text)))
    ensures 1 <= maxPayloadBytes < buffer.Length ==> report.n == Min(|arrival.datagram|, maxPayloadBytes + 1)
    ensures 1 <= maxPayloadBytes < buffer.Length ==> (report.oversized <==> |arrival.datagram| > maxPayloadBytes)
    ensures 1 <= maxPayloadBytes < buffer.Length && !report.oversized ==> buffer[..report.n] == arrival.datagram
  {
    if maxPayloadBytes < 1 {
      return ReadReport(0, false, Some(NonPositiveLimit));
    }
    if buffer.Length < ReadBufferSize(maxPayloadBytes) {
      return ReadReport(0, false, Some(BufferTooSmall(buffer.Length, ReadBufferSize(maxPayloadBytes))));
    }
    var n := ReadFrom(arrival.datagram, buffer, ReadBufferSize(maxPayloadBytes));
    assert n == |arrival.datagram| ==> arrival.datagram[..n] == arrival.datagram;
    var error: Option<ReadError> := None;
    if arrival.error.Some? {
      error := Some(SocketError(arrival.error.value));
    }
    return ReadReport(n, n > maxPayloadBytes, error);
  }

  // --- What passes ---

  predicate Fits(payload: Payload, maxPayloadBytes: int) {
    1 <= |payload| <= maxPayloadBytes
  }

  /** The payloads of admissible length, in order. */
  function Fitting(payloads: seq<Payload>, maxPayloadBytes: int): seq<Payload> {
    if payloads == [] then []
    else
      var n := |payloads| - 1;
      Fitting(payloads[..n], maxPayloadBytes)
      + if Fits(payloads[n], maxPayloadBytes) then [payloads[n]] else []
  }

  function TotalLength(payloads: seq<Payload>): nat {
    if payloads == [] then 0 else TotalLength(payloads[..|payloads| - 1]) + |payloads[|payloads| - 1]|
  }

  lemma OneMore(payloads: seq<Payload>, payload: Payload, maxPayloadBytes: int)
    ensures Fitting(payloads + [payload], maxPayloadBytes)
         == Fitting(payloads, maxPayloadBytes) + if Fits(payload, maxPayloadBytes) then [payload] else []
    ensures TotalLength(payloads + [payload]) == TotalLength(payloads) + |payload|
  {
    assert (payloads + [payload])[..|payloads|] == payloads;
  }

  lemma NothingFits(maxPayloadBytes: int)
    ensures Fitting([], maxPayloadBytes) == [] && TotalLength([]) == 0
  {
  }

  // --- The client's read loop, for the datagrams of one session ---

  /** A datagram and whether writing it to the WebSocket fails, or a read that ends in an error. */
  datatype ClientEvent = Datagram(payload: Payload, writeFails: bool) | ReadFails(partial: Payload, closed: bool)

  /** The datagrams read before the loop or the session ends, without the one whose write failed. */
  function Offered(events: seq<ClientEvent>, maxPayloadBytes: int): seq<Payload> {
    if events == [] then []
    else
      match events[0]
      case ReadFails(_, closed) => if closed then [] else Offered(events[1..], maxPayloadBytes)
      case Datagram(payload, fails) =>
        if fails && Fits(payload, maxPayloadBytes) then []
        else [payload] + Offered(events[1..], maxPayloadBytes)
  }

  /** What the read loop sends. */
  function SentBy(events: seq<ClientEvent>, maxPayloadBytes: int): seq<Payload> {
    Fitting(Offered(events, maxPayloadBytes), maxPayloadBytes)
  }

  lemma {:induction false} FittingConcat(a: seq<Payload>, b: seq<Payload>, maxPayloadBytes: int)
    ensures Fitting(a + b, maxPayloadBytes) == Fitting(a, maxPayloadBytes) + Fitting(b, maxPayloadBytes)
    ensures TotalLength(a + b) == TotalLength(a) + TotalLength(b)
  {
    if b == [] {
      assert a + b == a;
    } else {
      var n := |b| - 1;
      FittingConcat(a, b[..n], maxPayloadBytes);
      ConcatAssociative(a, b[..n], [b[n]]);
      assert b == b[..n] + [b[n]];
      OneMore(a + b[..n], b[n], maxPayloadBytes);
      OneMore(b[..n], b[n], maxPayloadBytes);
      ConcatAssociative(Fitting(a, maxPayloadBytes), Fitting(b[..n], maxPayloadBytes),
                        if Fits(b[n], maxPayloadBytes) then [b[n]] else []);
    }
  }

  /** The loop of startUDPListener, without the session table. */
  method ClientLoop(events: seq<ClientEvent>, bufferSize: int) returns (sent: seq<Payload>)
    ensures sent == SentBy(events, bufferSize)
  {
    sent := [];
    var buffer := new byte[ReadBufferSize(bufferSize)](_ => 0);
    for i := 0 to |events|
      invariant fresh(buffer) && buffer.Length == ReadBufferSize(bufferSize)
      invariant sent + Fitting(Offered(events[i..], bufferSize), bufferSize)
             == Fitting(Offered(events, bufferSize), bufferSize)
    {
      OfferedStep(events, i, bufferSize);
      var event := events[i];
      var arrival :=
        if event.ReadFails? then Arrival(event.partial, Some("read error")) else Arrival(event.payload, None);
      var report := ReadDatagram(arrival, buffer, bufferSize);
      if report.error.Some? {
        if event.ReadFails? && event.closed { return; }
        continue;
      }
      var n := report.n;
      if n == 0 { continue; }
      if report.oversized { continue; }
      if event.writeFails { return; }
      ConcatAssociative(sent, [buffer[..n]], Fitting(Offered(events[i + 1..], bufferSize), bufferSize));
      sent := sent + [buffer[..n]];
    }
  }

  lemma OfferedStep(events: seq<ClientEvent>, i: nat, maxPayloadBytes: int)
    requires i < |events|
    ensures var event, rest := events[i], Fitting(Offered(events[i + 1..], maxPayloadBytes), maxPayloadBytes);
            Fitting(Offered(events[i..], maxPayloadBytes), maxPayloadBytes)
            == if event.ReadFails? then (if event.closed then [] else rest)
               else if !Fits(event.payload, maxPayloadBytes) then rest
               else if event.writeFails then []
               else [event.payload] + rest
  {
    var rest := Offered(events[i + 1..], maxPayloadBytes);
    assert events[i..][0] == events[i] && events[i..][1..] == events[i + 1..];
    if events[i].Datagram? {
      var payload := events[i].payload;
      FittingConcat([payload], rest, maxPayloadBytes);
      OneMore([], payload, maxPayloadBytes);
      assert [] + [payload] == [payload];
    }
  }

  // --- The server's write loop ---

  datatype MessageType = Binary | Text | Other

  datatype Message = Message(messageType: MessageType, data: Payload)

  function DataOf(messages: seq<Message>): seq<Payload> {
    if messages == [] then []
    else
      var n := |messages| - 1;
      DataOf(messages[..n]) + if messages[n].messageType.Other? then [] else [messages[n].data]
  }

  lemma OneMoreMessage(messages: seq<Message>, i: nat, maxPayloadBytes: int)
    requires i < |messages|
    ensures var message := messages[i];
            Fitting(DataOf(messages[..i + 1]), maxPayloadBytes)
            == Fitting(DataOf(messages[..i]), maxPayloadBytes)
               + if !message.messageType.Other? && Fits(message.data, maxPayloadBytes) then [message.data] else []
  {
    assert messages[..i + 1][..i] == messages[..i];
    if messages[i].messageType.Other? {
      assert DataOf(messages[..i]) + [] == DataOf(messages[..i]);
    } else {
      OneMore(DataOf(messages[..i]), messages[i].data, maxPayloadBytes);
    }
  }

  /** What the target gets of the payloads, when the write numbered failing, if there is one, fails. */
  predicate Served(payloads: seq<Payload>, maxPayloadBytes: int, failing: Option<nat>, delivered: seq<Payload>,
                   writeFailed: bool)
  {
    var fitting := Fitting(payloads, maxPayloadBytes);
    writeFailed == (failing.Some? && failing.value < |fitting|)
    && delivered == (if writeFailed then fitting[..failing.value] else fitting)
  }

  /**
    The WebSocket reader of proxyWebSocketUDP with the messages that arrive; the target write
    numbered failing, if there is one, fails.
    */
  method ServerLoop(messages: seq<Message>, bufferSize: int, failing: Option<nat>)
    returns (delivered: seq<Payload>, rx: nat, writeFailed: bool)
    ensures Served(DataOf(messages), bufferSize, failing, delivered, writeFailed)
    ensures rx == TotalLength(delivered)
  {
    hide Fitting, DataOf, TotalLength;
    NothingFits(bufferSize);
    NoMessages(messages);
    delivered, rx, writeFailed := [], 0, false;
    for i := 0 to |messages|
      invariant delivered == Fitting(DataOf(messages[..i]), bufferSize)
      invariant rx == TotalLength(delivered)
      invariant failing.Some? ==> |delivered| <= failing.value
      invariant !writeFailed
    {
      OneMoreMessage(messages, i, bufferSize);
      var message := messages[i];
      if !message.messageType.Binary? && !message.messageType.Text? { continue; }
      var payload := message.data;
      if |payload| == 0 { continue; }
      if |payload| > bufferSize { continue; }
      if failing == Some(|delivered|) {
        FittingGrows(messages, i + 1, bufferSize);
        writeFailed := true;
        return;
      }
      OneMore(delivered, payload, bufferSize);
      delivered := delivered + [payload];
      rx := rx + |payload|;
    }
    assert messages[..|messages|] == messages;
  }

  lemma {:induction false} FittingGrows(messages: seq<Message>, n: nat, maxPayloadBytes: int)
    requires n <= |messages|
    ensures Fitting(DataOf(messages[..n]), maxPayloadBytes) <= Fitting(DataOf(messages), maxPayloadBytes)
  {
    hide Fitting, DataOf;
    if n < |messages| {
      var last := |messages| - 1;
      FittingGrows(messages[..last], n, maxPayloadBytes);
      assert messages[..last][..n] == messages[..n] && messages[..last + 1] == messages;
      OneMoreMessage(messages, last, maxPayloadBytes);
    } else {
      assert messages[..n] == messages;
    }
  }

  lemma NoMessages(messages: seq<Message>)
    ensures DataOf(messages[..0]) == []
  {
  }

  /** What the server lets through of what the client lets through is what both would. */
  lemma {:induction false} BothGuards(payloads: seq<Payload>, client: int, server: int)
    ensures Fitting(Fitting(payloads, client), server) == Fitting(payloads, Min(client, server))
  {
    if payloads != [] {
      var n := |payloads| - 1;
      var before := Fitting(payloads[..n], client);
      BothGuards(payloads[..n], client, server);
      OneMore(before, payloads[n], server);
      assert before + [] == before;
      assert Fitting(payloads, client) == before + if Fits(payloads[n], client) then [payloads[n]] else [];
    }
  }

  // --- Order-preserving subsequences ---

  /** The positions pick the chosen payloads out of all of them, from left to right. */
  ghost predicate Picks(positions: seq<nat>, chosen: seq<Payload>, all: seq<Payload>) {
    |positions| == |chosen|
    && (forall k :: 0 <= k < |positions| ==> positions[k] < |all| && all[positions[k]] == chosen[k])
    && (forall j, k :: 0 <= j < k < |positions| ==> positions[j] < positions[k])
  }

  ghost function Positions(payloads: seq<Payload>, maxPayloadBytes: int): seq<nat> {
    if payloads == [] then []
    else
      var n := |payloads| - 1;
      Positions(payloads[..n], maxPayloadBytes) + if Fits(payloads[n], maxPayloadBytes) then [n] else []
  }

  lemma {:induction false} FittingPicks(payloads: seq<Payload>, maxPayloadBytes: int)
    ensures Picks(Positions(payloads, maxPayloadBytes), Fitting(payloads, maxPayloadBytes), payloads)
    ensures forall i :: 0 <= i < |payloads| ==>
      (i in Positions(payloads, maxPayloadBytes) <==> 1 <= |payloads[i]| <= maxPayloadBytes)
  {
    if payloads != [] {
      var n := |payloads| - 1;
      FittingPicks(payloads[..n], maxPayloadBytes);
    }
  }
}
