// Whole runs of a proxy: which error is reported, what becomes of every message, and the channel.

module ShutdownRuns {
  import opened Results
  import opened Shutdown

  // --- Errors are those of the threads that report them ---

  /** The error a copier or the pinger has met last. */
  function UpstreamError(steps: seq<Step>): Error {
    if steps == [] then Eof
    else
      var last := steps[|steps| - 1];
      if last.UpReadFails? || last.UpWriteFails? then last.error else UpstreamError(steps[..|steps| - 1])
  }

  function DownstreamError(steps: seq<Step>): Error {
    if steps == [] then Eof
    else
      var last := steps[|steps| - 1];
      if last.DownReadFails? || last.DownWriteFails? then last.error else DownstreamError(steps[..|steps| - 1])
  }

  function PingError(steps: seq<Step>): Error {
    if steps == [] then Eof
    else
      var last := steps[|steps| - 1];
      if last.PingFails? then last.error else PingError(steps[..|steps| - 1])
  }

  /** The errors reported in the run, in the order of the reports. */
  function ReportsOf(steps: seq<Step>): seq<Error> {
    if steps == [] then []
    else
      var before, last := steps[..|steps| - 1], steps[|steps| - 1];
      ReportsOf(before)
      + match last
        case UpSend => [UpstreamError(before)]
        case DownSend => [DownstreamError(before)]
        case PingReport => [PingError(before)]
        case _ => []
  }

  ghost predicate ErrorsKept(steps: seq<Step>, s: State) {
    && s.enqueued == ReportsOf(steps)
    && (s.upstream.Sending? ==> s.upstream.error == UpstreamError(steps))
    && (s.downstream.Sending? ==> s.downstream.error == DownstreamError(steps))
    && (s.pinger.Reporting? ==> s.pinger.failure == PingError(steps))
  }

  /** What the functions above make of one more step. */
  lemma OneMoreReport(steps: seq<Step>, step: Step)
    ensures var more := steps + [step];
            && UpstreamError(more)
               == (if step.UpReadFails? || step.UpWriteFails? then step.error else UpstreamError(steps))
            && DownstreamError(more)
               == (if step.DownReadFails? || step.DownWriteFails? then step.error else DownstreamError(steps))
            && PingError(more) == (if step.PingFails? then step.error else PingError(steps))
            && ReportsOf(more)
               == ReportsOf(steps) + if step.UpSend? then [UpstreamError(steps)]
                                     else if step.DownSend? then [DownstreamError(steps)]
                                     else if step.PingReport? then [PingError(steps)] else []
  {
    assert (steps + [step])[..|steps|] == steps;
  }

  lemma PingHasRoom(setup: Setup, s: State)
    requires Sound(setup) && Invariant(setup, s) && s.pinger.Reporting?
    ensures |s.queue| < setup.capacity
  {
    SuffixLength(s.queue, s.enqueued, Received(s));
  }

  lemma UpstreamKeepsErrors(setup: Setup, steps: seq<Step>, s: State, step: Step)
    requires ErrorsKept(steps, s) && Enabled(setup, s, step) && ByUpstream(step)
    ensures ErrorsKept(steps + [step], UpstreamNext(setup, s, step))
  {
    hide UpstreamError, DownstreamError, PingError, ReportsOf;
    OneMoreReport(steps, step);
    assert s.enqueued + [] == s.enqueued;
  }

  lemma DownstreamKeepsErrors(setup: Setup, steps: seq<Step>, s: State, step: Step)
    requires ErrorsKept(steps, s) && Enabled(setup, s, step) && ByDownstream(step)
    ensures ErrorsKept(steps + [step], DownstreamNext(setup, s, step))
  {
    hide UpstreamError, DownstreamError, PingError, ReportsOf;
    OneMoreReport(steps, step);
    assert s.enqueued + [] == s.enqueued;
  }

  lemma PingerKeepsErrors(setup: Setup, steps: seq<Step>, s: State, step: Step)
    requires Sound(setup) && Invariant(setup, s)
    requires ErrorsKept(steps, s) && Enabled(setup, s, step) && ByPinger(step)
    ensures ErrorsKept(steps + [step], PingerNext(setup, s, step))
  {
    hide UpstreamError, DownstreamError, PingError, ReportsOf, MainSound, MutexSound, ChannelSound;
    OneMoreReport(steps, step);
    if s.pinger.Reporting? { PingHasRoom(setup, s); }
    assert s.enqueued + [] == s.enqueued;
  }

  lemma MainKeepsErrors(setup: Setup, steps: seq<Step>, s: State, step: Step)
    requires ErrorsKept(steps, s) && Enabled(setup, s, step) && ByMain(step)
    ensures ErrorsKept(steps + [step], MainNext(setup, s, step))
  {
    hide UpstreamError, DownstreamError, PingError, ReportsOf;
    OneMoreReport(steps, step);
    assert s.enqueued + [] == s.enqueued;
  }

  lemma StepKeepsErrors(setup: Setup, steps: seq<Step>, s: State, step: Step)
    requires Sound(setup) && Invariant(setup, s) && ErrorsKept(steps, s) && Enabled(setup, s, step)
    ensures ErrorsKept(steps + [step], Next(setup, s, step))
  {
    hide ErrorsKept, Invariant, Enabled, MainNext, UpstreamNext, DownstreamNext, PingerNext, Sound;
    hide ByMain, ByUpstream, ByPinger;
    if ByMain(step) {
      MainKeepsErrors(setup, steps, s, step);
    } else if ByUpstream(step) {
      UpstreamKeepsErrors(setup, steps, s, step);
    } else if ByPinger(step) {
      PingerKeepsErrors(setup, steps, s, step);
    } else {
      DownstreamKeepsErrors(setup, steps, s, step);
    }
  }

  lemma NothingReported(setup: Setup)
    ensures Run(setup, []) == Some(Start(setup)) && ErrorsKept([], Start(setup))
  {
  }

  lemma RunBefore(setup: Setup, steps: seq<Step>)
    requires steps != [] && Run(setup, steps).Some?
    ensures var before, step := Run(setup, steps[..|steps| - 1]), steps[|steps| - 1];
            before.Some? && Enabled(setup, before.value, step)
            && Run(setup, steps) == Some(Next(setup, before.value, step))
  {
    hide Enabled, Next;
  }

  /** In every run the channel has carried exactly the errors the threads ended with. */
  lemma {:induction false} RunsKeepErrors(setup: Setup, steps: seq<Step>)
    requires Sound(setup) && Run(setup, steps).Some?
    ensures ErrorsKept(steps, Run(setup, steps).value)
    decreases |steps|
  {
    hide Run, Next, Enabled, Invariant, ErrorsKept, Sound;
    if steps == [] {
      NothingReported(setup);
    } else {
      var before, step := steps[..|steps| - 1], steps[|steps| - 1];
      RunBefore(setup, steps);
      RunsKeepErrors(setup, before);
      RunsAreSound(setup, before);
      StepKeepsErrors(setup, before, Run(setup, before).value, step);
      assert before + [step] == steps;
    }
  }

  /** So the main routine returns what the first thread to report had met, unless that is an ordinary end. */
  lemma ReturnsFirstFailure(setup: Setup, steps: seq<Step>)
    requires Sound(setup) && Run(setup, steps).Some? && Run(setup, steps).value.main.Returned?
    ensures |ReportsOf(steps)| >= 2
    ensures var first := ReportsOf(steps)[0];
            Run(setup, steps).value.main.result
            == if first.Eof? || first.NetClosed?
                  || (first.CloseError? && first.code in {1000, 1001, 1005})
                  || (first.CloseError? && first.code == 1006 && first.saysUnexpectedEof)
               then None else Some(first)
  {
    hide Run, ReportsOf;
    RunsKeepErrors(setup, steps);
    ReturnsFirstError(setup, steps);
  }

  // --- Messages ---

  /** How often the threads have done what. */
  datatype Tally = Tally(
    upRead: nat, upDone: nat, downRead: nat, downLocked: nat, downDone: nat,
    ticks: nat, pingLocked: nat, pingDone: nat, pingStops: nat, pingReports: nat)

  function Bit(b: bool): nat {
    if b then 1 else 0
  }

  function TallyOf(steps: seq<Step>): Tally {
    if steps == [] then Tally(0, 0, 0, 0, 0, 0, 0, 0, 0, 0)
    else
      var t, last := TallyOf(steps[..|steps| - 1]), steps[|steps| - 1];
      Tally(t.upRead + Bit(last.UpRead?), t.upDone + Bit(last.UpWrite? || last.UpWriteFails?),
            t.downRead + Bit(last.DownRead?), t.downLocked + Bit(last.DownLock?),
            t.downDone + Bit(last.DownWrite? || last.DownWriteFails?),
            t.ticks + Bit(last.Tick?), t.pingLocked + Bit(last.PingLock?),
            t.pingDone + Bit(last.Ping? || last.PingFails?),
            t.pingStops + Bit(last.PingStop?), t.pingReports + Bit(last.PingReport?))
  }

  /** Every message read is written once before the next is read, and every tick is one ping. */
  ghost predicate OneAtATime(t: Tally, s: State) {
    && t.upRead == t.upDone + Bit(s.upstream.Writing?)
    && t.downRead == t.downLocked + Bit(s.downstream.Locking?)
    && t.downLocked == t.downDone + Bit(s.downstream.Writing?)
    && t.ticks == t.pingLocked + Bit(s.pinger.PingLocking?)
    && t.pingLocked == t.pingDone + Bit(s.pinger.Pinging?)
    && t.pingStops == Bit(s.pinger == Stopped(false))
    && t.pingReports == Bit(s.pinger == Stopped(true))
  }

  lemma UpstreamOneAtATime(setup: Setup, t: Tally, s: State, step: Step)
    requires OneAtATime(t, s) && Enabled(setup, s, step) && ByUpstream(step)
    ensures OneAtATime(t.(upRead := t.upRead + Bit(step.UpRead?),
                          upDone := t.upDone + Bit(step.UpWrite? || step.UpWriteFails?)),
                       UpstreamNext(setup, s, step))
  {
  }

  lemma DownstreamOneAtATime(setup: Setup, t: Tally, s: State, step: Step)
    requires OneAtATime(t, s) && Enabled(setup, s, step) && ByDownstream(step)
    ensures OneAtATime(t.(downRead := t.downRead + Bit(step.DownRead?),
                          downLocked := t.downLocked + Bit(step.DownLock?),
                          downDone := t.downDone + Bit(step.DownWrite? || step.DownWriteFails?)),
                       DownstreamNext(setup, s, step))
  {
  }

  lemma PingerOneAtATime(setup: Setup, t: Tally, s: State, step: Step)
    requires Sound(setup) && Invariant(setup, s) && OneAtATime(t, s) && Enabled(setup, s, step) && ByPinger(step)
    ensures OneAtATime(t.(ticks := t.ticks + Bit(step.Tick?), pingLocked := t.pingLocked + Bit(step.PingLock?),
                          pingDone := t.pingDone + Bit(step.Ping? || step.PingFails?),
                          pingStops := t.pingStops + Bit(step.PingStop?),
                          pingReports := t.pingReports + Bit(step.PingReport?)),
                       PingerNext(setup, s, step))
  {
    hide MainSound, MutexSound, ChannelSound;
    if s.pinger.Reporting? { PingHasRoom(setup, s); }
  }

  lemma MainLeavesThreads(setup: Setup, s: State, step: Step)
    requires Enabled(setup, s, step) && ByMain(step)
    ensures var t := MainNext(setup, s, step);
            t.upstream == s.upstream && t.downstream == s.downstream && t.pinger == s.pinger
  {
  }

  lemma UpstreamTally(steps: seq<Step>, step: Step)
    requires ByUpstream(step)
    ensures var t := TallyOf(steps);
            TallyOf(steps + [step])
            == t.(upRead := t.upRead + Bit(step.UpRead?), upDone := t.upDone + Bit(step.UpWrite? || step.UpWriteFails?))
  {
    assert (steps + [step])[..|steps|] == steps;
  }

  lemma DownstreamTally(steps: seq<Step>, step: Step)
    requires ByDownstream(step)
    ensures var t := TallyOf(steps);
            TallyOf(steps + [step])
            == t.(downRead := t.downRead + Bit(step.DownRead?), downLocked := t.downLocked + Bit(step.DownLock?),
                  downDone := t.downDone + Bit(step.DownWrite? || step.DownWriteFails?))
  {
    assert (steps + [step])[..|steps|] == steps;
  }

  lemma PingerTally(steps: seq<Step>, step: Step)
    requires ByPinger(step)
    ensures var t := TallyOf(steps);
            TallyOf(steps + [step])
            == t.(ticks := t.ticks + Bit(step.Tick?), pingLocked := t.pingLocked + Bit(step.PingLock?),
                  pingDone := t.pingDone + Bit(step.Ping? || step.PingFails?),
                  pingStops := t.pingStops + Bit(step.PingStop?),
                  pingReports := t.pingReports + Bit(step.PingReport?))
  {
    assert (steps + [step])[..|steps|] == steps;
  }

  lemma MainTally(steps: seq<Step>, step: Step)
    requires ByMain(step)
    ensures TallyOf(steps + [step]) == TallyOf(steps)
  {
    assert (steps + [step])[..|steps|] == steps;
  }

  lemma StepOneAtATime(setup: Setup, steps: seq<Step>, s: State, step: Step)
    requires Sound(setup) && Invariant(setup, s) && OneAtATime(TallyOf(steps), s) && Enabled(setup, s, step)
    ensures OneAtATime(TallyOf(steps + [step]), Next(setup, s, step))
  {
    hide Enabled, Invariant, OneAtATime, MainNext, UpstreamNext, DownstreamNext, PingerNext, Sound, TallyOf, Bit;
    hide ByMain, ByUpstream, ByPinger;
    var t := TallyOf(steps);
    if ByMain(step) {
      MainTally(steps, step);
      MainLeavesThreads(setup, s, step);
      SameThreads(t, s, MainNext(setup, s, step));
    } else if ByUpstream(step) {
      UpstreamTally(steps, step);
      UpstreamOneAtATime(setup, t, s, step);
    } else if ByPinger(step) {
      PingerTally(steps, step);
      PingerOneAtATime(setup, t, s, step);
    } else {
      DownstreamTally(steps, step);
      DownstreamOneAtATime(setup, t, s, step);
    }
  }

  lemma SameThreads(t: Tally, s: State, after: State)
    requires OneAtATime(t, s)
    requires after.upstream == s.upstream && after.downstream == s.downstream && after.pinger == s.pinger
    ensures OneAtATime(t, after)
  {
  }

  lemma NothingYet(setup: Setup)
    ensures Run(setup, []) == Some(Start(setup)) && OneAtATime(TallyOf([]), Start(setup))
  {
  }

  /** In every run: no message is read over, written twice or forgotten, and nobody pings who has stopped. */
  lemma {:induction false} RunsOneAtATime(setup: Setup, steps: seq<Step>)
    requires Sound(setup) && Run(setup, steps).Some?
    ensures OneAtATime(TallyOf(steps), Run(setup, steps).value)
    decreases |steps|
  {
    hide Run, Next, Enabled, Invariant, OneAtATime, TallyOf, Sound;
    if steps == [] {
      NothingYet(setup);
    } else {
      var before, step := steps[..|steps| - 1], steps[|steps| - 1];
      RunBefore(setup, steps);
      RunsOneAtATime(setup, before);
      RunsAreSound(setup, before);
      StepOneAtATime(setup, before, Run(setup, before).value, step);
      assert before + [step] == steps;
    }
  }

  // --- The channel, and the buffer of a closed WebSocket ---

  lemma StepFits(setup: Setup, s: State, step: Step)
    requires Enabled(setup, s, step) && |s.queue| <= setup.capacity
    ensures |Next(setup, s, step).queue| <= setup.capacity
  {
    hide MainNext, UpstreamNext, DownstreamNext, PingerNext;
    if ByMain(step) {
      MainFits(setup, s, step);
    } else if ByUpstream(step) {
      UpstreamFits(setup, s, step);
    } else if ByPinger(step) {
      PingerFits(setup, s, step);
    } else {
      DownstreamFits(setup, s, step);
    }
  }

  lemma MainFits(setup: Setup, s: State, step: Step)
    requires Enabled(setup, s, step) && ByMain(step) && |s.queue| <= setup.capacity
    ensures |MainNext(setup, s, step).queue| <= setup.capacity
  {
  }

  lemma UpstreamFits(setup: Setup, s: State, step: Step)
    requires Enabled(setup, s, step) && ByUpstream(step) && |s.queue| <= setup.capacity
    ensures |UpstreamNext(setup, s, step).queue| <= setup.capacity
  {
  }

  lemma DownstreamFits(setup: Setup, s: State, step: Step)
    requires Enabled(setup, s, step) && ByDownstream(step) && |s.queue| <= setup.capacity
    ensures |DownstreamNext(setup, s, step).queue| <= setup.capacity
  {
  }

  lemma PingerFits(setup: Setup, s: State, step: Step)
    requires Enabled(setup, s, step) && ByPinger(step) && |s.queue| <= setup.capacity
    ensures |PingerNext(setup, s, step).queue| <= setup.capacity
  {
  }

  /** Whatever the setup, the channel never holds more than its capacity. */
  lemma {:induction false} ChannelNeverOverflows(setup: Setup, steps: seq<Step>)
    requires Run(setup, steps).Some?
    ensures |Run(setup, steps).value.queue| <= setup.capacity
    decreases |steps|
  {
    hide Next, Enabled;
    if steps != [] {
      RunBefore(setup, steps);
      ChannelNeverOverflows(setup, steps[..|steps| - 1]);
      StepFits(setup, Run(setup, steps[..|steps| - 1]).value, steps[|steps| - 1]);
    }
  }

  /** The messages a WebSocket had buffered when it was closed, less those read since; none while it is open. */
  function Buffered(steps: seq<Step>): int {
    if steps == [] then 0
    else
      var before, last := Buffered(steps[..|steps| - 1]), steps[|steps| - 1];
      if last.CloseWebSocket? then last.buffered
      else if WasClosed(steps[..|steps| - 1]) && (last.UpRead? || last.UpSkip?) then before - 1 else before
  }

  predicate WasClosed(steps: seq<Step>) {
    exists step <- steps :: step.CloseWebSocket?
  }

  ghost predicate BufferKept(steps: seq<Step>, s: State) {
    && s.pending == Buffered(steps)
    && (s.webSocketOpen <==> !WasClosed(steps))
    && (s.webSocketOpen ==> s.pending == 0)
  }

  lemma StepKeepsBuffer(setup: Setup, steps: seq<Step>, s: State, step: Step)
    requires Invariant(setup, s) && BufferKept(steps, s) && Enabled(setup, s, step)
    ensures BufferKept(steps + [step], Next(setup, s, step))
  {
    hide WasClosed, Buffered, Enabled, Invariant, Next;
    BufferedBefore(steps, step);
    StepReads(setup, s, step);
  }

  lemma BufferedBefore(steps: seq<Step>, step: Step)
    ensures WasClosed(steps + [step]) <==> WasClosed(steps) || step.CloseWebSocket?
    ensures Buffered(steps + [step])
         == if step.CloseWebSocket? then step.buffered
            else if WasClosed(steps) && (step.UpRead? || step.UpSkip?) then Buffered(steps) - 1 else Buffered(steps)
  {
    assert (steps + [step])[..|steps|] == steps;
    assert WasClosed(steps + [step]) <==> WasClosed(steps) || step.CloseWebSocket? by {
      assert forall x :: x in steps + [step] <==> x in steps || x == step;
    }
  }

  /** What a step does to the WebSocket and its buffer. */
  lemma StepReads(setup: Setup, s: State, step: Step)
    requires Invariant(setup, s) && Enabled(setup, s, step) && (s.webSocketOpen ==> s.pending == 0)
    ensures var after := Next(setup, s, step);
            && after.webSocketOpen == (s.webSocketOpen && !step.CloseWebSocket?)
            && after.pending
               == if step.CloseWebSocket? then step.buffered
                  else if !s.webSocketOpen && (step.UpRead? || step.UpSkip?) then s.pending - 1 else s.pending
  {
    hide MainNext, UpstreamNext, DownstreamNext, PingerNext, Invariant;
    if ByMain(step) {
      MainCloses(setup, s, step);
    } else if ByUpstream(step) {
      UpstreamReads(setup, s, step);
    } else if ByPinger(step) {
      PingerLeavesBuffer(setup, s, step);
    } else {
      DownstreamLeavesBuffer(setup, s, step);
    }
  }

  lemma MainCloses(setup: Setup, s: State, step: Step)
    requires Enabled(setup, s, step) && ByMain(step)
    ensures var after := MainNext(setup, s, step);
            && after.webSocketOpen == (s.webSocketOpen && !step.CloseWebSocket?)
            && after.pending == if step.CloseWebSocket? then step.buffered else s.pending
  {
  }

  lemma UpstreamReads(setup: Setup, s: State, step: Step)
    requires Enabled(setup, s, step) && ByUpstream(step) && (s.webSocketOpen ==> s.pending == 0)
    ensures var after := UpstreamNext(setup, s, step);
            && after.webSocketOpen == s.webSocketOpen
            && after.pending
               == if !s.webSocketOpen && (step.UpRead? || step.UpSkip?) then s.pending - 1 else s.pending
  {
  }

  lemma DownstreamLeavesBuffer(setup: Setup, s: State, step: Step)
    requires Enabled(setup, s, step) && ByDownstream(step)
    ensures var after := DownstreamNext(setup, s, step);
            after.webSocketOpen == s.webSocketOpen && after.pending == s.pending
  {
  }

  lemma PingerLeavesBuffer(setup: Setup, s: State, step: Step)
    requires Enabled(setup, s, step) && ByPinger(step)
    ensures var after := PingerNext(setup, s, step);
            after.webSocketOpen == s.webSocketOpen && after.pending == s.pending
  {
  }

  /** After a WebSocket is closed exactly the messages it had buffered can still be read. */
  lemma {:induction false} RunsKeepBuffer(setup: Setup, steps: seq<Step>)
    requires Run(setup, steps).Some?
    ensures BufferKept(steps, Run(setup, steps).value)
    ensures var s := Run(setup, steps).value;
            s.upstream.Reading? ==> (Enabled(setup, s, UpRead) <==> !WasClosed(steps) || Buffered(steps) > 0)
    decreases |steps|
  {
    hide Run, Next, Invariant, Buffered;
    if steps == [] {
      NothingBuffered(setup);
    } else {
      var before, step := steps[..|steps| - 1], steps[|steps| - 1];
      RunBefore(setup, steps);
      RunsKeepBuffer(setup, before);
      RunsAreSound(setup, before);
      StepKeepsBuffer(setup, before, Run(setup, before).value, step);
      assert before + [step] == steps;
    }
  }

  lemma NothingBuffered(setup: Setup)
    ensures Run(setup, []) == Some(Start(setup)) && BufferKept([], Start(setup))
  {
  }

  /** Reads and writes may succeed on open connections only, and fail at any time; ticks come when they will. */
  lemma OutsideEvents(setup: Setup, s: State, error: Error)
    ensures s.upstream.Reading? && s.webSocketOpen ==> Enabled(setup, s, UpRead) && Enabled(setup, s, UpSkip)
    ensures s.upstream.Reading? ==> Enabled(setup, s, UpReadFails(error))
    ensures s.upstream.Writing? ==> (Enabled(setup, s, UpWrite) <==> s.serverOpen)
    ensures s.upstream.Writing? ==> Enabled(setup, s, UpWriteFails(error))
    ensures s.downstream.Reading? ==>
      (Enabled(setup, s, DownRead) <==> s.serverOpen) && (Enabled(setup, s, DownSkip) <==> s.serverOpen)
    ensures s.downstream.Reading? ==> Enabled(setup, s, DownReadFails(error))
    ensures s.downstream.Writing? ==> (Enabled(setup, s, DownWrite) <==> s.webSocketOpen)
    ensures s.downstream.Writing? ==> Enabled(setup, s, DownWriteFails(error))
  {
  }

  lemma PingEvents(setup: Setup, s: State, error: Error)
    ensures s.pinger.Waiting? ==> Enabled(setup, s, Tick) && (Enabled(setup, s, PingStop) <==> s.done)
    ensures s.pinger.Pinging? ==>
      (Enabled(setup, s, Ping) <==> s.webSocketOpen) && Enabled(setup, s, PingFails(error))
  {
  }
}
