// The session table over whole runs: which steps put a session in and take it out, and what follows
// for a reader that comes late to removeSession.

module SessionHistory {
  import opened Results
  import opened SessionTable

  // --- Single steps ---

  /** The step puts the session into the table. */
  predicate Inserts(s: State, step: Step, id: SessionId) {
    step.InsertSession? && s.main == Creating(id) && id in s.keyOf && s.keyOf[id] !in s.table
  }

  /** The step takes the session out of the table. */
  predicate Removes(s: State, step: Step, id: SessionId) {
    match step
    case MainTakes => s.main.Removing? && Taken(s.table, s.main.key) == Some(id)
    case ReaderTakes(r) => r in s.keyOf && Taken(s.table, s.keyOf[r]) == Some(id)
    case SweeperTakes(key) => Taken(s.table, key) == Some(id)
    case StartDraining => id in s.table.Values
    case _ => false
  }

  lemma RemovesTakes(s: State, step: Step, id: SessionId)
    requires Enabled(s, step)
    ensures Removes(s, step, id) <==> id in TakenBy(s, step)
  {
  }

  lemma InsertionEnters(s: State, id: SessionId)
    requires WellFormed(s) && Enabled(s, InsertSession) && Inserts(s, InsertSession, id)
    ensures InTable(Next(s, InsertSession), id) && !InTable(s, id)
    ensures Next(s, InsertSession).main == Spawning(id)
  {
  }

  /** Nothing else changes what is in the table. */
  lemma TableChanges(s: State, step: Step, id: SessionId)
    requires WellFormed(s) && Enabled(s, step)
    ensures InTable(Next(s, step), id) <==> Inserts(s, step, id) || (InTable(s, id) && !Removes(s, step, id))
    ensures Removes(s, step, id) ==> InTable(s, id)
  {
    hide KeysSound, MainSound, UnstartedOnlyWhileCreating, Enabled, Next, InTable;
    RemovesTakes(s, step, id);
    if InTable(s, id) && !InTable(Next(s, step), id) { LeavesTaken(s, step, id); }
    if !InTable(s, id) && InTable(Next(s, step), id) { EntersByInsertion(s, step, id); }
    if Removes(s, step, id) { TakenWereIn(s, step, id); }
    if Inserts(s, step, id) { InsertionEnters(s, id); }
  }

  lemma CreatorGoesOn(s: State, step: Step, id: SessionId)
    requires WellFormed(s) && Enabled(s, step) && s.main == Creating(id)
    ensures Next(s, step).main == Creating(id) || Inserts(s, step, id)
  {
    hide UnstartedOnlyWhileCreating;
    if !ByMain(step) { MainStep(s, step); }
  }

  /** A dialled session is with its creator until it is inserted. */
  lemma CreationChanges(s: State, step: Step, id: SessionId)
    requires WellFormed(s) && Enabled(s, step)
    ensures var t := Next(s, step);
            (id in t.keyOf && t.main != Creating(id))
            <==> Inserts(s, step, id) || (id in s.keyOf && s.main != Creating(id))
    ensures id in s.keyOf ==> id in Next(s, step).keyOf && Next(s, step).keyOf[id] == s.keyOf[id]
  {
    hide KeysSound, MainSound, UnstartedOnlyWhileCreating, Enabled, Next;
    KeysStay(s, step, id);
    CreatingIsNew(s, step, id);
    if s.main == Creating(id) { CreatorGoesOn(s, step, id); }
    if step.Dial? { DialCreates(s, step.dialled); }
    if Inserts(s, step, id) { InsertionEnters(s, id); }
  }

  // --- Runs ---

  ghost predicate InsertedAt(steps: seq<Step>, k: nat, id: SessionId) {
    k < |steps| && Run(steps[..k]).Some? && Inserts(Run(steps[..k]).value, steps[k], id)
  }

  ghost predicate RemovedAt(steps: seq<Step>, k: nat, id: SessionId) {
    k < |steps| && Run(steps[..k]).Some? && Removes(Run(steps[..k]).value, steps[k], id)
  }

  ghost predicate WasInserted(steps: seq<Step>, id: SessionId) {
    exists k: nat :: InsertedAt(steps, k, id)
  }

  ghost predicate WasRemoved(steps: seq<Step>, id: SessionId) {
    exists k: nat :: RemovedAt(steps, k, id)
  }

  lemma PrefixHistory(steps: seq<Step>, k: nat, id: SessionId)
    requires steps != []
    ensures var n := |steps| - 1;
            (k < n ==> InsertedAt(steps, k, id) == InsertedAt(steps[..n], k, id))
            && (k < n ==> RemovedAt(steps, k, id) == RemovedAt(steps[..n], k, id))
  {
    hide Run, Inserts, Removes;
    if k < |steps| - 1 {
      assert steps[..|steps| - 1][..k] == steps[..k];
    }
  }

  lemma LastHistory(steps: seq<Step>, id: SessionId)
    requires steps != []
    ensures var n := |steps| - 1;
            (WasInserted(steps, id) <==> WasInserted(steps[..n], id) || InsertedAt(steps, n, id))
            && (WasRemoved(steps, id) <==> WasRemoved(steps[..n], id) || RemovedAt(steps, n, id))
  {
    hide Run, Inserts, Removes;
    var n := |steps| - 1;
    forall k: nat
      ensures InsertedAt(steps, k, id) <==> InsertedAt(steps[..n], k, id) || (k == n && InsertedAt(steps, n, id))
      ensures RemovedAt(steps, k, id) <==> RemovedAt(steps[..n], k, id) || (k == n && RemovedAt(steps, n, id))
    {
      PrefixHistory(steps, k, id);
    }
  }

  lemma LastStep(steps: seq<Step>)
    requires steps != [] && Run(steps).Some?
    ensures var before, step := Run(steps[..|steps| - 1]), steps[|steps| - 1];
            before.Some? && Enabled(before.value, step) && Run(steps) == Some(Next(before.value, step))
  {
    hide Enabled, Next;
  }

  /**
    In every run: a session is in the table if and only if some step has inserted it and no step has
    taken it out. In particular none is inserted twice.
    */
  lemma {:induction false} TableHistory(steps: seq<Step>, id: SessionId)
    requires Run(steps).Some?
    ensures var s := Run(steps).value;
            (WasInserted(steps, id) <==> id in s.keyOf && s.main != Creating(id))
            && (WasRemoved(steps, id) ==> WasInserted(steps, id))
            && (InTable(s, id) <==> WasInserted(steps, id) && !WasRemoved(steps, id))
  {
    hide Run, Enabled, Next, Inserts, Removes, InTable, WasInserted, WasRemoved, WellFormed, Exclusive, Accounted;
    if steps == [] {
      NoHistory(id);
    } else {
      var before, step := steps[..|steps| - 1], steps[|steps| - 1];
      LastStep(steps);
      TableHistory(before, id);
      NoSessionLeak(before);
      LastHistory(steps, id);
      TableChanges(Run(before).value, step, id);
      CreationChanges(Run(before).value, step, id);
      InTableIsInserted(Run(before).value, step, id);
    }
  }

  lemma InTableIsInserted(s: State, step: Step, id: SessionId)
    requires WellFormed(s)
    ensures InTable(s, id) ==> id in s.keyOf && s.main != Creating(id)
    ensures Inserts(s, step, id) ==> s.main == Creating(id) && !Removes(s, step, id)
  {
  }

  lemma NoHistory(id: SessionId)
    ensures Run([]) == Some(INITIAL) && !WasInserted([], id) && !WasRemoved([], id)
    ensures id !in INITIAL.keyOf && !InTable(INITIAL, id)
  {
  }

  // --- Successors ---

  /** The session was taken out, and a later one under its key is still there. */
  ghost predicate HasSuccessor(steps: seq<Step>, id: SessionId, successor: SessionId)
    requires Run(steps).Some?
  {
    var keyOf := Run(steps).value.keyOf;
    && id in keyOf && successor in keyOf && keyOf[successor] == keyOf[id]
    && (exists k: nat, j: nat :: RemovedAt(steps, k, id) && InsertedAt(steps, j, successor) && k < j)
    && !WasRemoved(steps, successor)
  }

  /** Two sessions under one key never share the table: the later one went in after the earlier went out. */
  lemma {:induction false} SuccessionInOrder(steps: seq<Step>, id: SessionId, successor: SessionId)
    requires Run(steps).Some? && id != successor
    requires var s := Run(steps).value;
             WasRemoved(steps, id) && InTable(s, successor) && id in s.keyOf && s.keyOf[id] == s.keyOf[successor]
    ensures exists k: nat, j: nat :: RemovedAt(steps, k, id) && InsertedAt(steps, j, successor) && k < j
  {
    hide Run, Enabled, Next, Inserts, Removes, InTable, WellFormed, Exclusive, Accounted, InsertedAt, RemovedAt;
    if steps == [] {
      NoHistory(id);
    } else {
      var n := |steps| - 1;
      var before, step := steps[..n], steps[n];
      LastStep(steps);
      NoSessionLeak(before);
      LastHistory(steps, id);
      var s := Run(before).value;
      TableChanges(s, step, successor);
      TableHistory(before, id);
      CreationChanges(s, step, id);
      AtTheLastStep(steps, id);
      AtTheLastStep(steps, successor);
      if WasRemoved(before, id) {
        var k: nat :| RemovedAt(before, k, id);
        Within(before, k, id);
        PrefixHistory(steps, k, id);
        if !Inserts(s, step, successor) {
          InTableIsInserted(s, step, successor);
          CreationChanges(s, step, successor);
          SuccessionInOrder(before, id, successor);
          var i: nat, j: nat :| RemovedAt(before, i, id) && InsertedAt(before, j, successor) && i < j;
          Within(before, i, id);
          Within(before, j, successor);
          PrefixHistory(steps, i, id);
          PrefixHistory(steps, j, successor);
        }
      } else {
        TableChanges(s, step, id);
        NoSessionLeak(steps);
        InTableIsInserted(Run(steps).value, step, successor);
        NotBoth(s, step, id, successor);
      }
    }
  }

  lemma Within(steps: seq<Step>, k: nat, id: SessionId)
    ensures InsertedAt(steps, k, id) || RemovedAt(steps, k, id) ==> k < |steps|
  {
  }

  lemma AtTheLastStep(steps: seq<Step>, id: SessionId)
    requires steps != [] && Run(steps[..|steps| - 1]).Some?
    ensures var s, step := Run(steps[..|steps| - 1]).value, steps[|steps| - 1];
            (InsertedAt(steps, |steps| - 1, id) <==> Inserts(s, step, id))
            && (RemovedAt(steps, |steps| - 1, id) <==> Removes(s, step, id))
  {
  }

  /** While one session holds the key, no other is in the table under it or goes in. */
  lemma NotBoth(s: State, step: Step, id: SessionId, other: SessionId)
    requires WellFormed(s) && Enabled(s, step) && id != other && InTable(s, id) && Removes(s, step, id)
    requires var t := Next(s, step);
             id in t.keyOf && other in t.keyOf && t.keyOf[id] == t.keyOf[other]
    ensures !InTable(Next(s, step), other)
  {
  }

  /**
    What a late reader removes, in terms of its run: its own session if and only if no earlier step
    took that out of the table; another session if and only if its own was taken out, and a session
    under the same key was inserted after that and has not been taken since.
    */
  lemma WhatALateReaderRemoves(steps: seq<Step>, r: SessionId)
    requires Run(steps).Some? && Enabled(Run(steps).value, ReaderTakes(r))
    ensures var s := Run(steps).value;
            var victim := Taken(s.table, s.keyOf[r]);
            (victim == Some(r) <==> !WasRemoved(steps, r))
            && (forall other :: other != r ==> (victim == Some(other) <==> HasSuccessor(steps, r, other)))
            && (victim.Some? ==> Next(s, ReaderTakes(r)).readers[r] == ReaderCloses(victim.value))
            && (WasRemoved(steps, r) ==> r in s.closed || Held(s, r))
  {
    hide Run, InsertedAt, RemovedAt, Held;
    NoSessionLeak(steps);
    TableHistory(steps, r);
    var s := Run(steps).value;
    assert Accounted(s, r);
    forall other | other != r ensures Taken(s.table, s.keyOf[r]) == Some(other) <==> HasSuccessor(steps, r, other) {
      TableHistory(steps, other);
      if InTable(s, other) && s.keyOf[other] == s.keyOf[r] {
        SuccessionInOrder(steps, r, other);
      }
      if HasSuccessor(steps, r, other) {
        var j: nat :| InsertedAt(steps, j, other);
        assert WasInserted(steps, other);
      }
    }
  }
}
