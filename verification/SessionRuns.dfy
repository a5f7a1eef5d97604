// What the threads of the session table bring about over whole runs: a sweep, a failed write, the
// choice of a session for a datagram, and the closing of sockets.

module SessionRuns {
  import opened Results
  import opened SessionTable
  import opened SessionHistory

  /** Every prefix of a run is a run. */
  lemma {:induction false} RunsSoFar(steps: seq<Step>, k: nat)
    requires Run(steps).Some? && k <= |steps|
    ensures Run(steps[..k]).Some?
    ensures k < |steps| ==> Enabled(Run(steps[..k]).value, steps[k])
    ensures k < |steps| ==> Run(steps[..k + 1]) == Some(Next(Run(steps[..k]).value, steps[k]))
    decreases |steps|
  {
    hide Enabled, Next;
    if k == |steps| {
      assert steps[..k] == steps;
    } else {
      var before := steps[..|steps| - 1];
      LastStep(steps);
      if k == |steps| - 1 {
        assert steps[..k + 1] == steps;
      } else {
        RunsSoFar(before, k);
        assert before[..k] == steps[..k] && before[..k + 1] == steps[..k + 1];
      }
    }
  }

  /** What was taken out of the table stays out. */
  lemma OutForGood(steps: seq<Step>, k: nat, id: SessionId)
    requires Run(steps).Some? && k <= |steps| && WasRemoved(steps[..k], id)
    ensures WasRemoved(steps, id) && !InTable(Run(steps).value, id)
  {
    hide Run, RemovedAt, InTable;
    var j: nat :| RemovedAt(steps[..k], j, id);
    Within(steps[..k], j, id);
    RemovedLater(steps, k, j, id);
    TableHistory(steps, id);
  }

  lemma RemovedLater(steps: seq<Step>, k: nat, j: nat, id: SessionId)
    requires k <= |steps| && j < k
    ensures RemovedAt(steps[..k], j, id) == RemovedAt(steps, j, id)
  {
    hide Run, Removes;
    assert steps[..k][..j] == steps[..j];
  }

  // --- A sweep ---

  /** The keys the sweeper has yet to remove. */
  function Remaining(pc: SweeperPc): set<Key>
    requires pc.Sweeping? || pc.SweeperCloses?
  {
    if pc.Sweeping? then pc.keys else pc.rest
  }

  /** The sweep that starts at step i still goes on before step j. */
  ghost predicate SweepGoesOn(steps: seq<Step>, i: nat, j: nat) {
    i < j <= |steps| && steps[i].Sweep? && forall k | i < k < j :: steps[k] != SweepEnds
  }

  function SweptKeys(steps: seq<Step>, i: nat, j: nat): set<Key>
    requires i < j <= |steps|
  {
    set k | i < k < j && steps[k].SweeperTakes? :: steps[k].key
  }

  lemma SweeperMoves(s: State, step: Step)
    requires Enabled(s, step) && (s.sweeper.Sweeping? || s.sweeper.SweeperCloses?) && step != SweepEnds
    ensures var t := Next(s, step);
            && (t.sweeper.Sweeping? || t.sweeper.SweeperCloses?)
            && (step.SweeperTakes? ==> step.key in Remaining(s.sweeper))
            && Remaining(t.sweeper) == Remaining(s.sweeper) - (if step.SweeperTakes? then {step.key} else {})
  {
    if !BySweeper(step) { SweeperStep(s, step); }
  }

  lemma SweptOneMore(steps: seq<Step>, i: nat, j: nat)
    requires i < j < |steps|
    ensures SweptKeys(steps, i, j + 1)
         == SweptKeys(steps, i, j) + if steps[j].SweeperTakes? then {steps[j].key} else {}
  {
  }

  /** A sweep works off exactly the keys it has collected. */
  lemma {:induction false} SweepProgress(steps: seq<Step>, i: nat, j: nat)
    requires Run(steps).Some? && SweepGoesOn(steps, i, j)
    ensures Run(steps[..j]).Some?
    ensures var sweeper := Run(steps[..j]).value.sweeper;
            && (sweeper.Sweeping? || sweeper.SweeperCloses?)
            && SweptKeys(steps, i, j) <= steps[i].expired
            && Remaining(sweeper) == steps[i].expired - SweptKeys(steps, i, j)
    decreases j
  {
    hide Next, Enabled, Run;
    RunsSoFar(steps, j - 1);
    var s := Run(steps[..j - 1]).value;
    if j == i + 1 {
      SweepBegins(s, steps[i].expired);
      assert SweptKeys(steps, i, j) == {};
    } else {
      SweepProgress(steps, i, j - 1);
      SweeperMoves(s, steps[j - 1]);
      SweptOneMore(steps, i, j - 1);
    }
  }

  lemma SweepBegins(s: State, expired: set<Key>)
    requires Enabled(s, Sweep(expired))
    ensures Next(s, Sweep(expired)).sweeper == Sweeping(expired)
  {
  }

  lemma SweepEndsEmpty(s: State)
    requires Enabled(s, SweepEnds)
    ensures s.sweeper == Sweeping({})
  {
  }

  lemma KeyTaken(s: State, key: Key, id: SessionId)
    requires Enabled(s, SweeperTakes(key))
    ensures var t := Next(s, SweeperTakes(key));
            key !in t.table && (id in t.keyOf && t.keyOf[id] == key ==> !InTable(t, id))
  {
  }

  /**
    Every sweep, however it interleaves with the other threads: exactly the keys it collected are run
    through removeSession before it ends, and no session that was in the table under one of them when
    it began is in the table when it ends.
    */
  lemma SweepIsComplete(steps: seq<Step>, i: nat, j: nat, id: SessionId)
    requires Run(steps).Some? && j < |steps| && SweepGoesOn(steps, i, j) && steps[j] == SweepEnds
    ensures SweptKeys(steps, i, j) == steps[i].expired
    ensures Run(steps[..i]).Some? && Run(steps[..j]).Some?
    ensures var s, t := Run(steps[..i]).value, Run(steps[..j]).value;
            InTable(s, id) && s.keyOf[id] in steps[i].expired ==> !InTable(t, id)
  {
    hide Next, Enabled, Run, InTable;
    SweepProgress(steps, i, j);
    RunsSoFar(steps, i);
    RunsSoFar(steps, j);
    SweepEndsEmpty(Run(steps[..j]).value);
    NothingLeft(steps[i].expired, SweptKeys(steps, i, j));
    var s := Run(steps[..i]).value;
    InTableHasKey(s, id);
    if InTable(s, id) && s.keyOf[id] in steps[i].expired {
      var k :| i < k < j && steps[k].SweeperTakes? && steps[k].key == s.keyOf[id];
      SweptIsOut(steps, i, k, j, id);
    }
  }

  lemma NothingLeft(all: set<Key>, done: set<Key>)
    requires done <= all && all - done == {}
    ensures done == all
  {
    assert all == (all - done) + done;
  }

  lemma InTableHasKey(s: State, id: SessionId)
    ensures InTable(s, id) ==> id in s.keyOf
  {
  }

  lemma {:induction false} KeysStayAlong(steps: seq<Step>, i: nat, k: nat, id: SessionId)
    requires Run(steps).Some? && i <= k <= |steps| && Run(steps[..i]).Some? && id in Run(steps[..i]).value.keyOf
    ensures Run(steps[..k]).Some? && id in Run(steps[..k]).value.keyOf
    ensures Run(steps[..k]).value.keyOf[id] == Run(steps[..i]).value.keyOf[id]
    decreases k
  {
    hide Next, Enabled, Run;
    if i < k {
      KeysStayAlong(steps, i, k - 1, id);
      RunsSoFar(steps, k - 1);
      KeysStay(Run(steps[..k - 1]).value, steps[k - 1], id);
    }
  }

  lemma SweptIsOut(steps: seq<Step>, i: nat, k: nat, j: nat, id: SessionId)
    requires Run(steps).Some? && i < k < j <= |steps| && steps[k].SweeperTakes?
    requires Run(steps[..i]).Some? && InTable(Run(steps[..i]).value, id)
    requires id in Run(steps[..i]).value.keyOf && Run(steps[..i]).value.keyOf[id] == steps[k].key
    ensures Run(steps[..j]).Some? && !InTable(Run(steps[..j]).value, id)
  {
    hide Next, Enabled, Run, InTable, RemovedAt, InsertedAt;
    RunsSoFar(steps, k);
    RunsSoFar(steps, j);
    KeysStayAlong(steps, i, k + 1, id);
    KeyTaken(Run(steps[..k]).value, steps[k].key, id);
    GoneIsRemoved(steps, i, k + 1, id);
    assert steps[..j][..k + 1] == steps[..k + 1];
    OutForGood(steps[..j], k + 1, id);
  }

  /** A session that was in the table and no longer is has been taken out. */
  lemma GoneIsRemoved(steps: seq<Step>, i: nat, k: nat, id: SessionId)
    requires Run(steps).Some? && i <= k <= |steps| && Run(steps[..i]).Some? && Run(steps[..k]).Some?
    requires InTable(Run(steps[..i]).value, id) && !InTable(Run(steps[..k]).value, id)
    ensures WasRemoved(steps[..k], id)
  {
    hide Next, Enabled, Run, InTable;
    TableHistory(steps[..i], id);
    TableHistory(steps[..k], id);
    var j: nat :| InsertedAt(steps[..i], j, id);
    Within(steps[..i], j, id);
    assert steps[..i][..j] == steps[..j] && steps[..k][..j] == steps[..j];
    assert InsertedAt(steps[..k], j, id);
  }

  /** What the sweeper took at step k is closed, or about to be. */
  lemma {:induction false} SweptIsClosed(steps: seq<Step>, k: nat, j: nat, id: SessionId)
    requires Run(steps).Some? && k < j <= |steps| && steps[k].SweeperTakes? && RemovedAt(steps, k, id)
    ensures Run(steps[..j]).Some?
    ensures var s := Run(steps[..j]).value;
            id in s.closed || (s.sweeper.SweeperCloses? && s.sweeper.victim == id)
    decreases j
  {
    hide Next, Enabled, Run;
    RunsSoFar(steps, j - 1);
    var s := Run(steps[..j - 1]).value;
    if j == k + 1 {
      SweeperHasTaken(s, steps[k], id);
    } else {
      SweptIsClosed(steps, k, j - 1, id);
      VictimIsClosed(s, steps[j - 1], id);
    }
  }

  lemma SweeperHasTaken(s: State, step: Step, id: SessionId)
    requires Enabled(s, step) && step.SweeperTakes? && Removes(s, step, id)
    ensures var t := Next(s, step); t.sweeper.SweeperCloses? && t.sweeper.victim == id
  {
  }

  lemma VictimIsClosed(s: State, step: Step, id: SessionId)
    requires Enabled(s, step) && (id in s.closed || (s.sweeper.SweeperCloses? && s.sweeper.victim == id))
    ensures var t := Next(s, step); id in t.closed || (t.sweeper.SweeperCloses? && t.sweeper.victim == id)
  {
    ClosedForGood(s, step);
    if !BySweeper(step) { SweeperStep(s, step); }
  }

  /** So when a sweep has ended, every session it took is closed. */
  lemma SweepCloses(steps: seq<Step>, k: nat, j: nat, id: SessionId)
    requires Run(steps).Some? && k < j < |steps| && steps[k].SweeperTakes? && RemovedAt(steps, k, id)
    requires steps[j] == SweepEnds
    ensures Run(steps[..j]).Some? && id in Run(steps[..j]).value.closed
  {
    hide Next, Enabled, Run;
    SweptIsClosed(steps, k, j, id);
    RunsSoFar(steps, j);
    SweepEndsEmpty(Run(steps[..j]).value);
  }

  /** A run with its last state. */
  ghost predicate Leads(steps: seq<Step>, s: State) {
    Run(steps) == Some(s)
  }

  lemma GoesOn(steps: seq<Step>, s: State, step: Step, t: State)
    requires Leads(steps, s) && Enabled(s, step) && Next(s, step) == t
    ensures Leads(steps + [step], t)
  {
    hide Enabled, Next;
    assert (steps + [step])[..|steps|] == steps;
  }

  function OneSession(key: Key, id: SessionId, closed: set<SessionId>, sweeper: SweeperPc): State {
    State(map[key := id], map[id := key], closed, Idle, map[id := Reading], sweeper, false)
  }

  lemma SessionUp(key: Key, id: SessionId)
    ensures Leads([Receive(key)] + [Dial(id)] + [InsertSession] + [Spawn] + [WriteSucceeds],
                  OneSession(key, id, {}, Waiting))
  {
    hide Leads;
    var s1 := INITIAL.(main := Dialing(key));
    var s2 := s1.(main := Creating(id), keyOf := map[id := key], readers := map[id := Unstarted]);
    var s3 := s2.(table := map[key := id], main := Spawning(id));
    var s4 := s3.(readers := map[id := Reading], main := Writing(id));
    NoSteps();
    GoesOn([], INITIAL, Receive(key), s1);
    assert [] + [Receive(key)] == [Receive(key)];
    GoesOn([Receive(key)], s1, Dial(id), s2);
    GoesOn([Receive(key)] + [Dial(id)], s2, InsertSession, s3);
    SpawnsAndWrites([Receive(key)] + [Dial(id)] + [InsertSession], key, id);
  }

  lemma NoSteps()
    ensures Leads([], INITIAL)
  {
  }

  lemma SpawnsAndWrites(steps: seq<Step>, key: Key, id: SessionId)
    requires Leads(steps, State(map[key := id], map[id := key], {}, Spawning(id), map[id := Unstarted], Waiting, false))
    ensures Leads(steps + [Spawn] + [WriteSucceeds], OneSession(key, id, {}, Waiting))
  {
    hide Leads;
    var s := State(map[key := id], map[id := key], {}, Spawning(id), map[id := Unstarted], Waiting, false);
    var t := s.(readers := map[id := Reading], main := Writing(id));
    assert s.readers[id := Reading] == t.readers;
    GoesOn(steps, s, Spawn, t);
    GoesOn(steps + [Spawn], t, WriteSucceeds, OneSession(key, id, {}, Waiting));
  }

  /** One idle session is swept: out of the table, and closed. */
  lemma IdleSessionIsSwept(key: Key, id: SessionId)
    ensures var steps := [Receive(key)] + [Dial(id)] + [InsertSession] + [Spawn] + [WriteSucceeds]
                         + [Sweep({key})] + [SweeperTakes(key)] + [SweeperFinishes] + [SweepEnds];
            Leads(steps, OneSession(key, id, {id}, Waiting).(table := map[]))
  {
    hide Leads;
    var up := [Receive(key)] + [Dial(id)] + [InsertSession] + [Spawn] + [WriteSucceeds];
    SessionUp(key, id);
    var s := OneSession(key, id, {}, Waiting);
    var a := s.(sweeper := Sweeping({key}));
    GoesOn(up, s, Sweep({key}), a);
    var b := a.(table := map[], sweeper := SweeperCloses(id, {}));
    assert a.table - {key} == map[] && {key} - {key} == {};
    GoesOn(up + [Sweep({key})], a, SweeperTakes(key), b);
    SweepFinishes(up + [Sweep({key})] + [SweeperTakes(key)], b);
    assert {} + {id} == {id};
  }

  lemma SweepFinishes(steps: seq<Step>, s: State)
    requires Leads(steps, s) && s.sweeper.SweeperCloses? && s.sweeper.rest == {}
    ensures Leads(steps + [SweeperFinishes] + [SweepEnds],
                  s.(closed := s.closed + {s.sweeper.victim}, sweeper := Waiting))
  {
    hide Leads;
    var t := s.(closed := s.closed + {s.sweeper.victim}, sweeper := Sweeping({}));
    GoesOn(steps, s, SweeperFinishes, t);
    GoesOn(steps + [SweeperFinishes], t, SweepEnds, t.(sweeper := Waiting));
  }

  // --- A failed write ---

  /** The read loop at work on the removal that a failed write of the session calls for. */
  predicate RemovingAfterFailure(s: State, id: SessionId, key: Key) {
    s.main == Removing(key) || (s.main.Closing? && !InTable(s, id))
  }

  lemma RemovalGoesOn(s: State, step: Step, id: SessionId, key: Key)
    requires WellFormed(s) && Enabled(s, step) && RemovingAfterFailure(s, id, key)
    requires id in s.keyOf && s.keyOf[id] == key && s.main != Creating(id)
    ensures var t := Next(s, step);
            RemovingAfterFailure(t, id, key) || (t.main.Idle? && !InTable(t, id))
  {
    hide UnstartedOnlyWhileCreating;
    EntersTableFromCreator(s, step, id);
    if !ByMain(step) { MainStep(s, step); }
  }

  lemma FailureCallsForRemoval(s: State, id: SessionId)
    requires Enabled(s, WriteFails) && s.main == Writing(id)
    ensures id in s.keyOf && Next(s, WriteFails).main == Removing(s.keyOf[id])
  {
  }

  /** Before step j the read loop has not read on since the write that failed at step i. */
  ghost predicate NotYetReadOn(steps: seq<Step>, i: nat, j: nat) {
    i < j <= |steps| && steps[i] == WriteFails
    && forall k | i < k < j :: Run(steps[..k]).Some? && !Run(steps[..k]).value.main.Idle?
  }

  /** When the read loop reads on after a failed write, the session it wrote to is out of the table. */
  lemma {:induction false} FailedWriteRemoves(steps: seq<Step>, i: nat, j: nat, id: SessionId)
    requires Run(steps).Some? && NotYetReadOn(steps, i, j)
    requires Run(steps[..i]).Some? && Run(steps[..i]).value.main == Writing(id)
    ensures Run(steps[..j]).Some? && id in Run(steps[..j]).value.keyOf
    ensures var s := Run(steps[..j]).value;
            RemovingAfterFailure(s, id, s.keyOf[id]) || (s.main.Idle? && !InTable(s, id))
    decreases j
  {
    hide Next, Enabled, Run, InTable, WellFormed, Exclusive, Accounted;
    RunsSoFar(steps, j - 1);
    var s := Run(steps[..j - 1]).value;
    if j == i + 1 {
      FailureCallsForRemoval(s, id);
      KeysStay(s, steps[i], id);
    } else {
      assert NotYetReadOn(steps, i, j - 1);
      FailedWriteRemoves(steps, i, j - 1, id);
      NoSessionLeak(steps[..j - 1]);
      KeysStay(s, steps[j - 1], id);
      RemovalGoesOn(s, steps[j - 1], id, s.keyOf[id]);
    }
  }

  // --- The session a datagram goes to ---

  /** The source of the datagram read last. */
  function LastSource(steps: seq<Step>): Option<Key> {
    if steps == [] then None
    else
      var last := steps[|steps| - 1];
      if last.Receive? then Some(last.source) else LastSource(steps[..|steps| - 1])
  }

  /** The read loop dials and writes for the source of the datagram in hand. */
  predicate ForSource(s: State, source: Option<Key>) {
    match s.main
    case Dialing(key) => source == Some(key)
    case Creating(id) => id in s.keyOf && source == Some(s.keyOf[id])
    case Spawning(id) => id in s.keyOf && source == Some(s.keyOf[id])
    case Writing(id) => id in s.keyOf && source == Some(s.keyOf[id])
    case _ => true
  }

  lemma StepForSource(s: State, step: Step, source: Option<Key>)
    requires WellFormed(s) && Enabled(s, step) && ForSource(s, source)
    ensures ForSource(Next(s, step), if step.Receive? then Some(step.source) else source)
  {
    hide UnstartedOnlyWhileCreating;
    if !ByMain(step) {
      MainStep(s, step);
      Parts(s, step);
    }
  }

  /** In every run a datagram goes to a session of its own source. */
  lemma {:induction false} DatagramsKeepTheirSource(steps: seq<Step>)
    requires Run(steps).Some?
    ensures ForSource(Run(steps).value, LastSource(steps))
    decreases |steps|
  {
    hide Next, Enabled, Run, ForSource, WellFormed, Exclusive, Accounted;
    if steps == [] {
      NothingInHand();
    } else {
      var before := steps[..|steps| - 1];
      LastStep(steps);
      DatagramsKeepTheirSource(before);
      NoSessionLeak(before);
      StepForSource(Run(before).value, steps[|steps| - 1], LastSource(before));
    }
  }

  lemma NothingInHand()
    ensures Run([]) == Some(INITIAL) && ForSource(INITIAL, None)
  {
  }

  // --- What the code provides for and what may happen at any time ---

  /**
    Should a session be in the table already when another is inserted for its source, the newcomer is
    closed and the datagram goes to the one that was there.
    */
  lemma NewcomerIsDiscarded(s: State, id: SessionId)
    requires s.main == Creating(id) && id in s.keyOf && s.keyOf[id] in s.table
    ensures Enabled(s, InsertSession) && Enabled(Next(s, InsertSession), Discard)
    ensures Next(Next(s, InsertSession), Discard)
         == s.(closed := s.closed + {id}, main := Writing(s.table[s.keyOf[id]]))
  {
  }

  /** Datagrams, failures, ticks of the sweeper and cancellation come when they will. */
  lemma OutsideEvents(s: State, source: Key, id: SessionId, expired: set<Key>)
    ensures Enabled(s, Cancel) && Next(s, Cancel) == s.(cancelled := true)
    ensures s.main.Idle? ==> Enabled(s, Receive(source))
    ensures s.main.Dialing? ==> Enabled(s, DialFails) && Next(s, DialFails) == s.(main := Idle)
    ensures s.main.Dialing? && id !in s.keyOf ==> Enabled(s, Dial(id))
    ensures s.main.Writing? ==> Enabled(s, WriteSucceeds) && Next(s, WriteSucceeds) == s.(main := Idle)
    ensures s.main.Writing? && s.main.session in s.keyOf ==> Enabled(s, WriteFails)
    ensures id in s.readers && s.readers[id].Reading? ==> Enabled(s, ReadFails(id))
    ensures id in s.readers && !s.readers[id].Unstarted? ==> Enabled(s, PingFails(id))
    ensures s.sweeper.Waiting? && expired <= s.table.Keys ==> Enabled(s, Sweep(expired))
  {
  }

  lemma StepStops(s: State, step: Step)
    requires Enabled(s, step) && (s.sweeper.Stopped? ==> s.cancelled)
    ensures Next(s, step).sweeper.Stopped? ==> Next(s, step).cancelled
  {
    StaysCancelled(s, step);
    if !BySweeper(step) { SweeperStep(s, step); }
  }

  /** The sweeper stops, and the listener returns, only after cancellation. */
  lemma {:induction false} NobodyStopsEarly(steps: seq<Step>)
    requires Run(steps).Some?
    ensures var s := Run(steps).value;
            s.sweeper.Stopped? || s.main.Draining? || s.main.Returned? ==> s.cancelled && Cancel in steps
    decreases |steps|
  {
    hide Next, Enabled;
    NoSessionLeak(steps);
    if steps != [] {
      var before := steps[..|steps| - 1];
      LastStep(steps);
      NobodyStopsEarly(before);
      StepStops(Run(before).value, steps[|steps| - 1]);
      CancelledByCancel(steps);
    }
  }

  lemma {:induction false} CancelledByCancel(steps: seq<Step>)
    requires Run(steps).Some?
    ensures Run(steps).value.cancelled <==> Cancel in steps
    decreases |steps|
  {
    hide Next, Enabled;
    if steps != [] {
      LastStep(steps);
      CancelledByCancel(steps[..|steps| - 1]);
      CancelStep(Run(steps[..|steps| - 1]).value, steps[|steps| - 1]);
      assert steps == steps[..|steps| - 1] + [steps[|steps| - 1]];
    }
  }

  lemma CancelStep(s: State, step: Step)
    requires Enabled(s, step)
    ensures Next(s, step).cancelled <==> s.cancelled || step == Cancel
  {
  }

  // --- Closing ---

  /** The step closes the session's socket. */
  predicate Closes(s: State, step: Step, id: SessionId) {
    match step
    case MainCloses => s.main == Closing(id)
    case Drain(drained) => drained == id
    case ReaderFinishes(r) => r in s.readers && s.readers[r] == ReaderCloses(id)
    case SweeperFinishes => s.sweeper.SweeperCloses? && s.sweeper.victim == id
    case PingFails(pinged) => pinged == id
    case _ => false
  }

  ghost predicate WasClosed(steps: seq<Step>, id: SessionId) {
    exists k | 0 <= k < |steps| :: Run(steps[..k]).Some? && Closes(Run(steps[..k]).value, steps[k], id)
  }

  lemma ClosedByStep(s: State, step: Step, id: SessionId)
    requires MainSound(s) && Enabled(s, step)
    ensures id in Next(s, step).closed <==> id in s.closed || Closes(s, step, id)
  {
    hide Next;
    Parts(s, step);
  }

  lemma WasClosedLater(steps: seq<Step>, id: SessionId)
    requires steps != [] && Run(steps).Some?
    ensures var n := |steps| - 1;
            Run(steps[..n]).Some?
            && (WasClosed(steps, id) <==> WasClosed(steps[..n], id) || Closes(Run(steps[..n]).value, steps[n], id))
  {
    hide Run, Closes;
    var n := |steps| - 1;
    LastStep(steps);
    forall k | 0 <= k < n ensures steps[..n][..k] == steps[..k] && steps[..n][k] == steps[k] { }
    if WasClosed(steps[..n], id) {
      var k :| 0 <= k < n && Run(steps[..n][..k]).Some? && Closes(Run(steps[..n][..k]).value, steps[..n][k], id);
      assert Run(steps[..k]).Some? && Closes(Run(steps[..k]).value, steps[k], id);
    }
  }

  /** In every run the closed sockets are exactly those some thread has closed. */
  lemma {:induction false} ClosedHistory(steps: seq<Step>, id: SessionId)
    requires Run(steps).Some?
    ensures id in Run(steps).value.closed <==> WasClosed(steps, id)
    decreases |steps|
  {
    hide Next, Enabled, Run, Closes, WasClosed, WellFormed, Exclusive, Accounted;
    if steps == [] {
      NothingClosed(id);
    } else {
      var before := steps[..|steps| - 1];
      LastStep(steps);
      ClosedHistory(before, id);
      NoSessionLeak(before);
      MainIsSound(Run(before).value);
      WasClosedLater(steps, id);
      ClosedByStep(Run(before).value, steps[|steps| - 1], id);
    }
  }

  lemma MainIsSound(s: State)
    requires WellFormed(s)
    ensures MainSound(s)
  {
  }

  lemma NothingClosed(id: SessionId)
    ensures Run([]) == Some(INITIAL) && !WasClosed([], id) && id !in INITIAL.closed
  {
  }
}
