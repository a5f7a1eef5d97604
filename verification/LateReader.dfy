// Removal goes by key: runs in which the late reader of a replaced session removes and closes the
// successor, about which nothing has failed.

module LateReader {
  import opened Results
  import opened SessionTable
  import opened SessionHistory

  /** The step is a failed read, ping or write of the session. */
  predicate Fails(s: State, step: Step, id: SessionId) {
    step == ReadFails(id) || step == PingFails(id) || (step.WriteFails? && s.main == Writing(id))
  }

  /** Nothing about the session fails in the run. */
  ghost predicate Unfailed(steps: seq<Step>, id: SessionId) {
    forall k | 0 <= k < |steps| :: Run(steps[..k]).Some? && !Fails(Run(steps[..k]).value, steps[k], id)
  }

  ghost predicate ReachableUnfailed(s: State, id: SessionId) {
    exists steps :: Run(steps) == Some(s) && Unfailed(steps, id)
  }

  lemma RunOneMore(steps: seq<Step>, step: Step)
    requires Run(steps).Some? && Enabled(Run(steps).value, step)
    ensures Run(steps + [step]) == Some(Next(Run(steps).value, step))
  {
    hide Enabled, Next;
    assert (steps + [step])[..|steps|] == steps;
  }

  lemma GoOn(s: State, step: Step, t: State, id: SessionId)
    requires ReachableUnfailed(s, id) && Enabled(s, step) && Next(s, step) == t && !Fails(s, step, id)
    ensures ReachableUnfailed(t, id)
  {
    hide Enabled, Next, Fails, Run;
    var steps :| Run(steps) == Some(s) && Unfailed(steps, id);
    RunOneMore(steps, step);
    var more := steps + [step];
    forall k | 0 <= k < |more| ensures Run(more[..k]).Some? && !Fails(Run(more[..k]).value, more[k], id) {
      assert more[..k] == steps[..k];
      if k == |steps| { assert steps[..k] == steps; }
    }
  }

  lemma InitiallyUnfailed(id: SessionId)
    ensures ReachableUnfailed(INITIAL, id)
  {
    assert Run([]) == Some(INITIAL) && Unfailed([], id);
  }

  function Simple(table: Table, keyOf: map<SessionId, Key>, closed: set<SessionId>, main: MainPc,
                  readers: map<SessionId, ReaderPc>): State
  {
    State(table, keyOf, closed, main, readers, Waiting, false)
  }

  /** A session comes up: from an idle read loop to an idle read loop with its reader at work. */
  lemma SessionComesUp(s: State, key: Key, dialled: SessionId, id: SessionId)
    requires ReachableUnfailed(s, id) && s.main.Idle? && key !in s.table
    requires dialled !in s.keyOf && dialled !in s.readers
    ensures ReachableUnfailed(s.(table := s.table[key := dialled], keyOf := s.keyOf[dialled := key],
                                 readers := s.readers[dialled := Reading]), id)
  {
    hide ReachableUnfailed;
    var dialing := s.(main := Dialing(key));
    var created := s.(main := Creating(dialled), keyOf := s.keyOf[dialled := key],
                      readers := s.readers[dialled := Unstarted]);
    var inserted := created.(table := s.table[key := dialled], main := Spawning(dialled));
    GoOn(s, Receive(key), dialing, id);
    GoOn(dialing, Dial(dialled), created, id);
    GoOn(created, InsertSession, inserted, id);
    SessionStarts(inserted, id);
    assert inserted.readers[dialled := Reading] == s.readers[dialled := Reading];
  }

  lemma SessionStarts(s: State, id: SessionId)
    requires ReachableUnfailed(s, id) && s.main.Spawning? && s.main.session in s.keyOf
    ensures ReachableUnfailed(s.(readers := s.readers[s.main.session := Reading], main := Idle), id)
  {
    hide ReachableUnfailed;
    var spawned := s.(readers := s.readers[s.main.session := Reading], main := Writing(s.main.session));
    GoOn(s, Spawn, spawned, id);
    GoOn(spawned, WriteSucceeds, spawned.(main := Idle), id);
  }

  /** A write to the first session fails, and the read loop removes it. */
  lemma ReadLoopRemoves(key: Key, r: SessionId, id: SessionId)
    requires r != id
    requires ReachableUnfailed(Simple(map[key := r], map[r := key], {}, Idle, map[r := Reading]), id)
    ensures ReachableUnfailed(Simple(map[], map[r := key], {}, Closing(r), map[r := Reading]), id)
  {
    hide ReachableUnfailed;
    var up := Simple(map[key := r], map[r := key], {}, Idle, map[r := Reading]);
    GoOn(up, Receive(key), up.(main := Writing(r)), id);
    GoOn(up.(main := Writing(r)), WriteFails, up.(main := Removing(key)), id);
    assert up.table - {key} == map[];
    GoOn(up.(main := Removing(key)), MainTakes, Simple(map[], map[r := key], {}, Closing(r), map[r := Reading]), id);
  }

  lemma FirstSessionGone(key: Key, r: SessionId, id: SessionId)
    requires r != id
    ensures ReachableUnfailed(Simple(map[], map[r := key], {r}, Idle, map[r := Reading]), id)
  {
    hide ReachableUnfailed, Next, Enabled;
    InitiallyUnfailed(id);
    SessionComesUp(INITIAL, key, r, id);
    var up := Simple(map[key := r], map[r := key], {}, Idle, map[r := Reading]);
    assert up == INITIAL.(table := map[key := r], keyOf := map[r := key], readers := map[r := Reading]);
    ReadLoopRemoves(key, r, id);
    var closing := Simple(map[], map[r := key], {}, Closing(r), map[r := Reading]);
    ReadLoopCloses(closing, id);
    assert closing.closed + {r} == {r};
  }

  lemma ReadLoopCloses(s: State, id: SessionId)
    requires ReachableUnfailed(s, id) && s.main.Closing?
    ensures ReachableUnfailed(s.(closed := s.closed + {s.main.session}, main := Idle), id)
  {
    hide ReachableUnfailed;
    GoOn(s, MainCloses, s.(closed := s.closed + {s.main.session}, main := Idle), id);
  }

  /** The successor is up, and the reader of the first session has yet to run removeSession. */
  function Replaced(key: Key, r: SessionId, id: SessionId): State {
    Simple(map[key := id], map[r := key, id := key], {r}, Idle, map[r := AboutToRemove, id := Reading])
  }

  lemma SuccessorComesUp(key: Key, r: SessionId, id: SessionId)
    requires r != id
    ensures ReachableUnfailed(Replaced(key, r, id), id)
  {
    hide ReachableUnfailed;
    FirstSessionGone(key, r, id);
    var alone := Simple(map[], map[r := key], {r}, Idle, map[r := Reading]);
    SessionComesUp(alone, key, id, id);
    var both := alone.(table := alone.table[key := id], keyOf := alone.keyOf[id := key],
                       readers := alone.readers[id := Reading]);
    assert both.readers[r := AboutToRemove] == Replaced(key, r, id).readers;
    assert both.(readers := both.readers[r := AboutToRemove]) == Replaced(key, r, id);
    GoOn(both, ReadFails(r), Replaced(key, r, id), id);
  }

  /**
    After these steps, in which nothing about the successor has failed, the late reader takes it out
    of the table and closes it, while its own reader is at work.
    */
  ghost predicate RemovesSuccessor(steps: seq<Step>, r: SessionId, successor: SessionId) {
    && Run(steps).Some? && Unfailed(steps, successor)
    && Enabled(Run(steps).value, ReaderTakes(r))
    && HasSuccessor(steps, r, successor)
    && var s, after := Run(steps).value, Run(steps + [ReaderTakes(r), ReaderFinishes(r)]);
       && Taken(s.table, s.keyOf[r]) == Some(successor) && successor !in s.closed
       && after.Some? && successor in after.value.closed
       && successor in after.value.readers && after.value.readers[successor].Reading?
  }

  function Taking(key: Key, r: SessionId, id: SessionId): State {
    Simple(map[], map[r := key, id := key], {r}, Idle, map[r := ReaderCloses(id), id := Reading])
  }

  lemma LateReaderTakes(key: Key, r: SessionId, id: SessionId)
    requires r != id
    ensures var s := Replaced(key, r, id);
            Enabled(s, ReaderTakes(r)) && Next(s, ReaderTakes(r)) == Taking(key, r, id)
  {
    var s := Replaced(key, r, id);
    assert s.table - {key} == map[];
    assert s.readers[r := ReaderCloses(id)] == Taking(key, r, id).readers;
  }

  lemma LateReaderCloses(key: Key, r: SessionId, id: SessionId)
    requires r != id
    ensures var s := Taking(key, r, id);
            Enabled(s, ReaderFinishes(r))
            && Next(s, ReaderFinishes(r)) == s.(closed := {r} + {id}, readers := s.readers[r := Done])
  {
  }

  lemma LateReaderActs(steps: seq<Step>, key: Key, r: SessionId, id: SessionId)
    requires r != id && Run(steps) == Some(Replaced(key, r, id))
    ensures Enabled(Run(steps).value, ReaderTakes(r))
    ensures var after := Run(steps + [ReaderTakes(r), ReaderFinishes(r)]);
            after.Some? && id in after.value.closed
            && id in after.value.readers && after.value.readers[id].Reading?
  {
    hide Next, Enabled, Run;
    LateReaderTakes(key, r, id);
    RunOneMore(steps, ReaderTakes(r));
    LateReaderCloses(key, r, id);
    RunOneMore(steps + [ReaderTakes(r)], ReaderFinishes(r));
    assert steps + [ReaderTakes(r)] + [ReaderFinishes(r)] == steps + [ReaderTakes(r), ReaderFinishes(r)];
  }

  /** For every key and any two sessions there is such a run. */
  lemma LateReaderRemovesSuccessor(key: Key, r: SessionId, successor: SessionId)
    requires r != successor
    ensures exists steps :: RemovesSuccessor(steps, r, successor)
  {
    hide Next, Unfailed, Run, HasSuccessor, WasRemoved, Held;
    SuccessorComesUp(key, r, successor);
    var steps :| Run(steps) == Some(Replaced(key, r, successor)) && Unfailed(steps, successor);
    LateReaderActs(steps, key, r, successor);
    WhatALateReaderRemoves(steps, r);
    assert RemovesSuccessor(steps, r, successor);
  }
}
