// The client's UDP session table (startUDPListener in internal/client/tunnel.go): the read loop,
// one reader and one pinger for each session, the sweeper and shutdown, in any interleaving.

module SessionTable {
  import opened Results
  import opened Sums

  type Key = string

  type SessionId = nat

  type Table = map<Key, SessionId>

  // --- The sections under sessionsMu ---

  /** What removeSession takes out of the table. */
  function Taken(table: Table, key: Key): Option<SessionId> {
    if key in table then Some(table[key]) else None
  }

  /** The table after an insertion that lets a session already there win. */
  function WithSession(table: Table, key: Key, session: SessionId): Table {
    if key in table then table else table[key := session]
  }

  /** The table after a removal by key. */
  function WithoutKey(table: Table, key: Key): Table {
    if key in table then table - {key} else table
  }

  class Sessions {
    var sessions: Table

    constructor ()
      ensures sessions == map[]
    {
      sessions := map[];
    }

    method Lookup(key: Key) returns (existing: Option<SessionId>)
      ensures existing == Taken(sessions, key)
    {
      if key in sessions { existing := Some(sessions[key]); } else { existing := None; }
    }

    /** The second critical section of getOrCreateSession: a session that got there first wins. */
    method Insert(key: Key, session: SessionId) returns (existing: Option<SessionId>)
      modifies this
      ensures existing == Taken(old(sessions), key)
      ensures sessions == WithSession(old(sessions), key, session)
    {
      if key in sessions { return Some(sessions[key]); }
      sessions := sessions[key := session];
      existing := None;
    }

    method Take(key: Key) returns (taken: Option<SessionId>)
      modifies this
      ensures taken == Taken(old(sessions), key)
      ensures sessions == WithoutKey(old(sessions), key)
    {
      taken := None;
      if key in sessions {
        taken := Some(sessions[key]);
        sessions := sessions - {key};
      }
    }

    /** closeAllSessions deletes while it collects: every session once, and nothing stays. */
    method TakeAll() returns (all: seq<SessionId>)
      modifies this
      ensures sessions == map[]
      ensures |all| == |old(sessions)|
      ensures forall key <- old(sessions) :: old(sessions)[key] in all
      ensures forall s <- all :: s in old(sessions).Values
    {
      all := [];
      ghost var before := sessions;
      while sessions != map[]
        invariant sessions.Keys <= before.Keys
        invariant forall key <- sessions :: sessions[key] == before[key]
        invariant forall key <- before :: key in sessions || before[key] in all
        invariant forall s <- all :: s in before.Values
        invariant |all| + |sessions| == |before|
        decreases |sessions|
      {
        var key :| key in sessions;
        all := all + [sessions[key]];
        assert sessions.Keys == (sessions - {key}).Keys + {key};
        sessions := sessions - {key};
      }
    }

    /** The sweeper's pass: exactly the keys of sessions idle for longer than allowed. */
    method Expired(lastSeen: map<SessionId, int>, now: int, idle: int) returns (expired: set<Key>)
      requires sessions.Values <= lastSeen.Keys
      ensures expired == set key | key in sessions && now - lastSeen[sessions[key]] > idle
    {
      expired := {};
      var keys := sessions.Keys;
      while keys != {}
        invariant keys <= sessions.Keys
        invariant expired == set key | key in sessions && key !in keys && now - lastSeen[sessions[key]] > idle
        decreases keys
      {
        var key :| key in keys;
        if now - lastSeen[sessions[key]] > idle { expired := expired + {key}; }
        keys := keys - {key};
      }
    }
  }

  // --- Threads ---

  /** The read loop. A session in Creating or Discarding is known to nobody else. */
  datatype MainPc =
    | Idle
    | Dialing(key: Key)
    | Creating(session: SessionId)
    | Discarding(session: SessionId, existing: SessionId)
    | Spawning(session: SessionId)
    | Writing(session: SessionId)
    | Removing(key: Key)
    | Closing(session: SessionId)
    | Draining(sessions: set<SessionId>)
    | Returned

  datatype ReaderPc = Unstarted | Reading | AboutToRemove | ReaderCloses(victim: SessionId) | Done

  datatype SweeperPc =
    | Waiting
    | Sweeping(keys: set<Key>)
    | SweeperCloses(victim: SessionId, rest: set<Key>)
    | Stopped

  /** Everything dialled so far is in keyOf, with its key; closed only grows. */
  datatype State = State(
    table: Table,
    keyOf: map<SessionId, Key>,
    closed: set<SessionId>,
    main: MainPc,
    readers: map<SessionId, ReaderPc>,
    sweeper: SweeperPc,
    cancelled: bool)

  const INITIAL: State := State(map[], map[], {}, Idle, map[], Waiting, false)

  datatype Step =
    | Receive(source: Key)
    | DialFails
    | Dial(dialled: SessionId)
    | InsertSession
    | Discard
    | Spawn
    | WriteSucceeds
    | WriteFails
    | MainTakes
    | MainCloses
    | StartDraining
    | Drain(drained: SessionId)
    | Return
    | ReadFails(reader: SessionId)
    | ReaderTakes(reader: SessionId)
    | ReaderFinishes(reader: SessionId)
    | PingFails(pinged: SessionId)
    | Sweep(expired: set<Key>)
    | SweeperTakes(key: Key)
    | SweeperFinishes
    | SweepEnds
    | SweeperStops
    | Cancel

  predicate ByReader(step: Step) {
    step.ReadFails? || step.ReaderTakes? || step.ReaderFinishes?
  }

  predicate BySweeper(step: Step) {
    step.Sweep? || step.SweeperTakes? || step.SweeperFinishes? || step.SweepEnds? || step.SweeperStops?
  }

  predicate ByMain(step: Step) {
    !ByReader(step) && !BySweeper(step) && !step.PingFails? && !step.Cancel?
  }

  predicate Enabled(s: State, step: Step) {
    match step
    case Receive(_) => s.main.Idle?
    case DialFails => s.main.Dialing?
    case Dial(id) => s.main.Dialing? && id !in s.keyOf
    case InsertSession => s.main.Creating? && s.main.session in s.keyOf
    case Discard => s.main.Discarding?
    case Spawn => s.main.Spawning? && s.main.session in s.keyOf
    case WriteSucceeds => s.main.Writing?
    case WriteFails => s.main.Writing? && s.main.session in s.keyOf
    case MainTakes => s.main.Removing?
    case MainCloses => s.main.Closing?
    case StartDraining => s.main.Idle? && s.cancelled
    case Drain(id) => s.main.Draining? && id in s.main.sessions
    case Return => s.main.Draining? && s.main.sessions == {}
    case ReadFails(r) => r in s.readers && s.readers[r].Reading?
    case ReaderTakes(r) => r in s.readers && r in s.keyOf && s.readers[r].AboutToRemove?
    case ReaderFinishes(r) => r in s.readers && s.readers[r].ReaderCloses?
    case PingFails(id) => id in s.readers && !s.readers[id].Unstarted?
    case Sweep(expired) => s.sweeper.Waiting? && expired <= s.table.Keys
    case SweeperTakes(key) => s.sweeper.Sweeping? && key in s.sweeper.keys
    case SweeperFinishes => s.sweeper.SweeperCloses?
    case SweepEnds => s.sweeper.Sweeping? && s.sweeper.keys == {}
    case SweeperStops => s.sweeper.Waiting? && s.cancelled
    case Cancel => true
  }

  /** A step of the read loop. */
  function MainNext(s: State, step: Step): State
    requires Enabled(s, step) && ByMain(step)
  {
    match step
    case Receive(key) => s.(main := if key in s.table then Writing(s.table[key]) else Dialing(key))
    case DialFails => s.(main := Idle)
    case Dial(id) =>
      s.(main := Creating(id), keyOf := s.keyOf[id := s.main.key], readers := s.readers[id := Unstarted])
    case InsertSession =>
      var id := s.main.session;
      var key := s.keyOf[id];
      if key in s.table then s.(main := Discarding(id, s.table[key]))
      else s.(table := s.table[key := id], main := Spawning(id))
    case Discard => s.(closed := s.closed + {s.main.session}, main := Writing(s.main.existing))
    case Spawn => s.(readers := s.readers[s.main.session := Reading], main := Writing(s.main.session))
    case WriteSucceeds => s.(main := Idle)
    case WriteFails => s.(main := Removing(s.keyOf[s.main.session]))
    case MainTakes =>
      if s.main.key in s.table then s.(main := Closing(s.table[s.main.key]), table := s.table - {s.main.key})
      else s.(main := Idle)
    case MainCloses => s.(closed := s.closed + {s.main.session}, main := Idle)
    case StartDraining => s.(main := Draining(s.table.Values), table := map[])
    case Drain(id) => s.(closed := s.closed + {id}, main := Draining(s.main.sessions - {id}))
    case Return => s.(main := Returned)
  }

  /** A step of the reader of a session. */
  function ReaderNext(s: State, step: Step): State
    requires Enabled(s, step) && ByReader(step)
  {
    match step
    case ReadFails(r) => s.(readers := s.readers[r := AboutToRemove])
    case ReaderTakes(r) =>
      var key := s.keyOf[r];
      if key in s.table then s.(readers := s.readers[r := ReaderCloses(s.table[key])], table := s.table - {key})
      else s.(readers := s.readers[r := Done])
    case ReaderFinishes(r) =>
      s.(closed := s.closed + {s.readers[r].victim}, readers := s.readers[r := Done])
  }

  function SweeperNext(s: State, step: Step): State
    requires Enabled(s, step) && BySweeper(step)
  {
    match step
    case Sweep(expired) => s.(sweeper := Sweeping(expired))
    case SweeperTakes(key) =>
      var rest := s.sweeper.keys - {key};
      if key in s.table then s.(sweeper := SweeperCloses(s.table[key], rest), table := s.table - {key})
      else s.(sweeper := Sweeping(rest))
    case SweeperFinishes =>
      s.(closed := s.closed + {s.sweeper.victim}, sweeper := Sweeping(s.sweeper.rest))
    case SweepEnds => s.(sweeper := Waiting)
    case SweeperStops => s.(sweeper := Stopped)
  }

  function Next(s: State, step: Step): State
    requires Enabled(s, step)
  {
    if ByMain(step) then MainNext(s, step)
    else if ByReader(step) then ReaderNext(s, step)
    else if BySweeper(step) then SweeperNext(s, step)
    else if step.PingFails? then s.(closed := s.closed + {step.pinged})
    else s.(cancelled := true)
  }

  /** The state after the steps, if each of them could be taken. */
  function Run(steps: seq<Step>): Option<State> {
    if steps == [] then Some(INITIAL)
    else
      match Run(steps[..|steps| - 1])
      case None => None
      case Some(s) =>
        var step := steps[|steps| - 1];
        if Enabled(s, step) then Some(Next(s, step)) else None
  }

  // --- The invariant ---

  datatype Agent = Main | Sweeper | Reader(id: SessionId)

  /** The sessions a thread has taken out of the table and is about to close. */
  function Holds(s: State, agent: Agent): set<SessionId> {
    match agent
    case Main =>
      if s.main.Closing? then {s.main.session} else if s.main.Draining? then s.main.sessions else {}
    case Sweeper => if s.sweeper.SweeperCloses? then {s.sweeper.victim} else {}
    case Reader(r) => if r in s.readers && s.readers[r].ReaderCloses? then {s.readers[r].victim} else {}
  }

  predicate InTable(s: State, id: SessionId) {
    id in s.keyOf && s.keyOf[id] in s.table && s.table[s.keyOf[id]] == id
  }

  predicate Held(s: State, id: SessionId) {
    id in Holds(s, Main) || id in Holds(s, Sweeper) || exists r <- s.readers :: id in Holds(s, Reader(r))
  }

  predicate KeysSound(s: State) {
    s.readers.Keys == s.keyOf.Keys
    && (forall key <- s.table :: s.table[key] in s.keyOf && s.keyOf[s.table[key]] == key)
  }

  predicate TableSound(s: State) {
    KeysSound(s) && s.closed <= s.keyOf.Keys
  }

  predicate MainSound(s: State) {
    (s.main.Writing? ==> s.main.session in s.keyOf)
    && (s.main.Dialing? ==> s.main.key !in s.table)
    && (s.main.Creating? ==> s.main.session in s.keyOf && s.keyOf[s.main.session] !in s.table)
    && (s.main.Spawning? ==> s.main.session in s.keyOf)
    && !s.main.Discarding?
    && (s.main.Draining? || s.main.Returned? ==> s.table == map[] && s.cancelled)
  }

  predicate UnstartedOnlyWhileCreating(s: State) {
    forall id <- s.readers :: s.readers[id].Unstarted? <==> s.main == Creating(id) || s.main == Spawning(id)
  }

  predicate WellFormed(s: State) {
    TableSound(s) && MainSound(s) && UnstartedOnlyWhileCreating(s)
  }

  /** No two threads hold the same session, and a held session is dialled and not in the table. */
  ghost predicate Exclusive(s: State) {
    (forall a, b, id :: id in Holds(s, a) && id in Holds(s, b) ==> a == b)
    && (forall a, id :: id in Holds(s, a) ==> id in s.keyOf && !InTable(s, id) && s.main != Creating(id))
  }

  /**
    Where a dialled session is: with its creator, or in the table under its own key with a reader
    that has not yet run removeSession, or out of the table and closed or held by a thread that is
    about to close it.
    */
  predicate Accounted(s: State, id: SessionId)
    requires id in s.readers
  {
    if s.main == Creating(id) then !InTable(s, id)
    else if InTable(s, id) then !s.readers[id].Done? && !s.readers[id].ReaderCloses?
    else id in s.closed || Held(s, id)
  }

  ghost predicate Invariant(s: State) {
    WellFormed(s) && Exclusive(s) && forall id <- s.readers :: Accounted(s, id)
  }

  // --- What a step does to each part of the state ---

  /** The table: what Insert, Take and TakeAll of the class above leave of it. */
  function TableAfter(s: State, step: Step): Table
    requires Enabled(s, step)
  {
    match step
    case InsertSession => WithSession(s.table, s.keyOf[s.main.session], s.main.session)
    case MainTakes => WithoutKey(s.table, s.main.key)
    case ReaderTakes(r) => WithoutKey(s.table, s.keyOf[r])
    case SweeperTakes(key) => WithoutKey(s.table, key)
    case StartDraining => map[]
    case _ => s.table
  }

  function Only(taken: Option<SessionId>): set<SessionId> {
    if taken.Some? then {taken.value} else {}
  }

  /** What a step takes out of the table for its thread to close: what Take and TakeAll return. */
  function TakenBy(s: State, step: Step): set<SessionId>
    requires Enabled(s, step)
  {
    match step
    case MainTakes => Only(Taken(s.table, s.main.key))
    case ReaderTakes(r) => Only(Taken(s.table, s.keyOf[r]))
    case SweeperTakes(key) => Only(Taken(s.table, key))
    case StartDraining => s.table.Values
    case _ => {}
  }

  function KeyOfAfter(s: State, step: Step): map<SessionId, Key>
    requires Enabled(s, step)
  {
    if step.Dial? then s.keyOf[step.dialled := s.main.key] else s.keyOf
  }

  function ReadersAfter(s: State, step: Step): map<SessionId, ReaderPc>
    requires Enabled(s, step)
  {
    match step
    case Dial(id) => s.readers[id := Unstarted]
    case Spawn => s.readers[s.main.session := Reading]
    case ReadFails(r) => s.readers[r := AboutToRemove]
    case ReaderTakes(r) =>
      var taken := Taken(s.table, s.keyOf[r]);
      s.readers[r := if taken.Some? then ReaderCloses(taken.value) else Done]
    case ReaderFinishes(r) => s.readers[r := Done]
    case _ => s.readers
  }

  function ClosedAfter(s: State, step: Step): set<SessionId>
    requires Enabled(s, step)
  {
    match step
    case Discard => s.closed + {s.main.session}
    case MainCloses => s.closed + {s.main.session}
    case Drain(id) => s.closed + {id}
    case ReaderFinishes(r) => s.closed + {s.readers[r].victim}
    case PingFails(id) => s.closed + {id}
    case SweeperFinishes => s.closed + {s.sweeper.victim}
    case _ => s.closed
  }

  lemma MainParts(s: State, step: Step)
    requires Enabled(s, step) && ByMain(step)
    ensures var t := MainNext(s, step);
            && t.table == TableAfter(s, step) && t.keyOf == KeyOfAfter(s, step)
            && t.readers == ReadersAfter(s, step) && t.closed == ClosedAfter(s, step)
  {
  }

  lemma ReaderParts(s: State, step: Step)
    requires Enabled(s, step) && ByReader(step)
    ensures var t := ReaderNext(s, step);
            && t.table == TableAfter(s, step) && t.keyOf == KeyOfAfter(s, step)
            && t.readers == ReadersAfter(s, step) && t.closed == ClosedAfter(s, step)
            && t.main == s.main && t.sweeper == s.sweeper
  {
  }

  lemma SweeperParts(s: State, step: Step)
    requires Enabled(s, step) && BySweeper(step)
    ensures var t := SweeperNext(s, step);
            && t.table == TableAfter(s, step) && t.keyOf == KeyOfAfter(s, step)
            && t.readers == ReadersAfter(s, step) && t.closed == ClosedAfter(s, step)
            && t.main == s.main
  {
  }

  lemma OtherParts(s: State, step: Step)
    requires Enabled(s, step) && (step.PingFails? || step.Cancel?)
    ensures var t := Next(s, step);
            && t.table == TableAfter(s, step) && t.keyOf == KeyOfAfter(s, step)
            && t.readers == ReadersAfter(s, step) && t.closed == ClosedAfter(s, step)
            && t.main == s.main && t.sweeper == s.sweeper
  {
  }

  /** The critical sections of the steps are those of the class. */
  lemma Parts(s: State, step: Step)
    requires Enabled(s, step)
    ensures var t := Next(s, step);
            && t.table == TableAfter(s, step) && t.keyOf == KeyOfAfter(s, step)
            && t.readers == ReadersAfter(s, step) && t.closed == ClosedAfter(s, step)
  {
    hide Enabled, MainNext, ReaderNext, SweeperNext, TableAfter, KeyOfAfter, ReadersAfter, ClosedAfter;
    if ByMain(step) {
      MainParts(s, step);
    } else if ByReader(step) {
      ReaderParts(s, step);
    } else if BySweeper(step) {
      SweeperParts(s, step);
    } else {
      OtherParts(s, step);
    }
  }

  /** A thread's program counter changes by its own steps only. */
  lemma MainStep(s: State, step: Step)
    requires Enabled(s, step) && !ByMain(step)
    ensures Next(s, step).main == s.main
  {
    hide Enabled, ReaderNext, SweeperNext;
    if ByReader(step) {
      ReaderParts(s, step);
    } else if BySweeper(step) {
      SweeperParts(s, step);
    }
  }

  lemma SweeperStep(s: State, step: Step)
    requires Enabled(s, step) && !BySweeper(step)
    ensures Next(s, step).sweeper == s.sweeper
  {
    hide Enabled, ReaderNext;
    if ByReader(step) {
      ReaderParts(s, step);
    }
  }

  // --- Every step keeps the invariant ---

  /** The thread that takes the step, where that matters. */
  function Actor(step: Step): Agent {
    if ByReader(step) then Reader(step.reader) else if BySweeper(step) then Sweeper else Main
  }

  /** A thread comes to hold only what it takes out of the table itself, and it does hold that. */
  lemma MainHolds(s: State, step: Step)
    requires Enabled(s, step)
    ensures Holds(Next(s, step), Main) <= Holds(s, Main) + (if ByMain(step) then TakenBy(s, step) else {})
    ensures ByMain(step) ==> TakenBy(s, step) <= Holds(Next(s, step), Main)
  {
    if !ByMain(step) {
      MainStep(s, step);
    }
  }

  lemma SweeperHolds(s: State, step: Step)
    requires Enabled(s, step)
    ensures Holds(Next(s, step), Sweeper) <= Holds(s, Sweeper) + (if BySweeper(step) then TakenBy(s, step) else {})
    ensures BySweeper(step) ==> TakenBy(s, step) <= Holds(Next(s, step), Sweeper)
  {
    if !BySweeper(step) {
      SweeperStep(s, step);
    }
  }

  lemma ReaderHolds(s: State, step: Step, r: SessionId)
    requires Enabled(s, step)
    ensures Holds(Next(s, step), Reader(r))
         <= Holds(s, Reader(r)) + (if Actor(step) == Reader(r) then TakenBy(s, step) else {})
    ensures Actor(step) == Reader(r) ==> TakenBy(s, step) <= Holds(Next(s, step), Reader(r))
  {
    hide Next;
    Parts(s, step);
  }

  lemma ActorOf(step: Step)
    ensures Actor(step) == Main <==> ByMain(step) || step.PingFails? || step.Cancel?
    ensures Actor(step) == Sweeper <==> BySweeper(step)
  {
  }

  lemma AgentHolds(s: State, step: Step, agent: Agent)
    requires Enabled(s, step)
    ensures Holds(Next(s, step), agent) <= Holds(s, agent) + (if agent == Actor(step) then TakenBy(s, step) else {})
    ensures agent == Actor(step) ==> TakenBy(s, step) <= Holds(Next(s, step), agent)
  {
    hide Next, Enabled, Holds, TakenBy, Actor, ByMain, BySweeper;
    ActorOf(step);
    if step.PingFails? || step.Cancel? { NoThreadActs(s, step); }
    match agent
    case Main => MainHolds(s, step);
    case Sweeper => SweeperHolds(s, step);
    case Reader(r) => ReaderHolds(s, step, r);
  }

  lemma NoThreadActs(s: State, step: Step)
    requires Enabled(s, step) && (step.PingFails? || step.Cancel?)
    ensures TakenBy(s, step) == {} && !ByMain(step)
  {
  }

  /** What is taken was in the table and no longer is. */
  lemma TakenWereIn(s: State, step: Step, id: SessionId)
    requires KeysSound(s) && Enabled(s, step) && id in TakenBy(s, step)
    ensures InTable(s, id) && !InTable(Next(s, step), id)
  {
    hide Next, Enabled;
    Parts(s, step);
  }

  /** What leaves the table has been taken. */
  lemma LeavesTaken(s: State, step: Step, id: SessionId)
    requires KeysSound(s) && Enabled(s, step) && InTable(s, id) && !InTable(Next(s, step), id)
    ensures id in TakenBy(s, step)
  {
    hide Next, Enabled;
    Parts(s, step);
    DialsFresh(s, step);
  }

  lemma EntersByInsertion(s: State, step: Step, id: SessionId)
    requires KeysSound(s) && Enabled(s, step) && !InTable(s, id) && InTable(Next(s, step), id)
    ensures step.InsertSession? && s.main == Creating(id) && id in s.keyOf && s.keyOf[id] !in s.table
  {
    hide Next, Enabled;
    Parts(s, step);
    DialsFresh(s, step);
  }

  lemma KeysStay(s: State, step: Step, id: SessionId)
    requires Enabled(s, step)
    ensures id in s.keyOf ==> id in Next(s, step).keyOf && Next(s, step).keyOf[id] == s.keyOf[id]
    ensures id in Next(s, step).keyOf ==> id in s.keyOf || step == Dial(id)
  {
    hide Next, Enabled;
    Parts(s, step);
    DialsFresh(s, step);
  }

  /** A thread comes to hold a session only by taking it out of the table itself. */
  lemma HeldBeforeOrTaken(s: State, step: Step, agent: Agent, id: SessionId)
    requires WellFormed(s) && Enabled(s, step)
    requires id in Holds(Next(s, step), agent)
    ensures id in Holds(s, agent) || (agent == Actor(step) && InTable(s, id) && !InTable(Next(s, step), id))
  {
    hide KeysSound, MainSound, Enabled, Next, Holds, InTable, Actor, TakenBy;
    AgentHolds(s, step, agent);
    if id !in Holds(s, agent) {
      TakenWereIn(s, step, id);
    }
  }

  lemma CreatingIsNew(s: State, step: Step, id: SessionId)
    requires Enabled(s, step)
    ensures Next(s, step).main == Creating(id) ==> s.main == Creating(id) || (id !in s.keyOf && step == Dial(id))
  {
    if !ByMain(step) {
      MainStep(s, step);
    }
  }

  lemma EntersTableFromCreator(s: State, step: Step, id: SessionId)
    requires WellFormed(s) && Enabled(s, step)
    ensures InTable(Next(s, step), id) ==> InTable(s, id) || s.main == Creating(id)
    ensures id in s.keyOf ==> id in Next(s, step).keyOf && Next(s, step).keyOf[id] == s.keyOf[id]
    ensures Next(s, step).main == Creating(id) ==> s.main == Creating(id) || id !in s.keyOf
  {
    hide KeysSound, MainSound, Enabled, Next, InTable;
    if InTable(Next(s, step), id) && !InTable(s, id) { EntersByInsertion(s, step, id); }
    KeysStay(s, step, id);
    CreatingIsNew(s, step, id);
  }

  lemma KeepsExclusive(s: State, step: Step)
    requires Invariant(s) && Enabled(s, step)
    ensures Exclusive(Next(s, step))
  {
    hide Next, Holds, WellFormed, InTable, Enabled, Held, Accounted;
    var t := Next(s, step);
    forall a, b, id | id in Holds(t, a) && id in Holds(t, b) ensures a == b {
      HeldBeforeOrTaken(s, step, a, id);
      HeldBeforeOrTaken(s, step, b, id);
    }
    forall a, id | id in Holds(t, a) ensures id in t.keyOf && !InTable(t, id) && t.main != Creating(id) {
      HeldBeforeOrTaken(s, step, a, id);
      EntersTableFromCreator(s, step, id);
      InTableFacts(s, id);
    }
  }

  lemma InTableFacts(s: State, id: SessionId)
    requires WellFormed(s)
    ensures InTable(s, id) ==> id in s.keyOf && s.main != Creating(id)
  {
  }

  lemma VictimsAreDialled(s: State)
    requires Exclusive(s)
    ensures s.main.Closing? ==> s.main.session in s.keyOf
    ensures s.main.Draining? ==> s.main.sessions <= s.keyOf.Keys
    ensures s.sweeper.SweeperCloses? ==> s.sweeper.victim in s.keyOf
    ensures forall r <- s.readers :: s.readers[r].ReaderCloses? ==> s.readers[r].victim in s.keyOf
  {
    assert s.main.Closing? ==> s.main.session in Holds(s, Main);
    assert s.main.Draining? ==> s.main.sessions == Holds(s, Main);
    assert s.sweeper.SweeperCloses? ==> s.sweeper.victim in Holds(s, Sweeper);
    forall r | r in s.readers && s.readers[r].ReaderCloses? ensures s.readers[r].victim in s.keyOf {
      assert s.readers[r].victim in Holds(s, Reader(r));
    }
  }

  lemma ReaderKeys(s: State, step: Step)
    requires s.readers.Keys == s.keyOf.Keys && Enabled(s, step)
    ensures Next(s, step).readers.Keys == Next(s, step).keyOf.Keys
  {
    hide Next;
    Parts(s, step);
  }

  lemma DialsFresh(s: State, step: Step)
    requires Enabled(s, step)
    ensures step.Dial? ==> step.dialled !in s.keyOf
    ensures step.InsertSession? ==> s.main.Creating? && s.main.session in s.keyOf
  {
  }

  lemma KeepsKeysSound(s: State, step: Step)
    requires KeysSound(s) && Enabled(s, step)
    ensures KeysSound(Next(s, step))
  {
    hide Next, Enabled, ReadersAfter;
    Parts(s, step);
    ReaderKeys(s, step);
    DialsFresh(s, step);
  }

  lemma KeepsClosedDialled(s: State, step: Step)
    requires Invariant(s) && Enabled(s, step)
    ensures Next(s, step).closed <= Next(s, step).keyOf.Keys
  {
    hide Exclusive, Accounted, Next;
    VictimsAreDialled(s);
    Parts(s, step);
  }

  lemma KeepsTableSound(s: State, step: Step)
    requires Invariant(s) && Enabled(s, step)
    ensures TableSound(Next(s, step))
  {
    hide Exclusive, Accounted, MainSound, KeysSound, Next, Enabled;
    KeepsKeysSound(s, step);
    KeepsClosedDialled(s, step);
  }

  lemma MainKeepsMainSound(s: State, step: Step)
    requires KeysSound(s) && MainSound(s) && Enabled(s, step) && ByMain(step)
    ensures MainSound(MainNext(s, step))
  {
  }

  lemma StaysCancelled(s: State, step: Step)
    requires Enabled(s, step)
    ensures s.cancelled ==> Next(s, step).cancelled
  {
  }

  lemma KeepsMainSound(s: State, step: Step)
    requires KeysSound(s) && MainSound(s) && Enabled(s, step)
    ensures MainSound(Next(s, step))
  {
    hide Enabled, Next, MainNext, KeysSound, MainSound, ByMain;
    if ByMain(step) {
      NextOfMain(s, step);
      MainKeepsMainSound(s, step);
    } else {
      OthersKeepMainSound(s, step);
    }
  }

  lemma NextOfMain(s: State, step: Step)
    requires Enabled(s, step) && ByMain(step)
    ensures Next(s, step) == MainNext(s, step)
  {
  }

  lemma OthersKeepMainSound(s: State, step: Step)
    requires MainSound(s) && Enabled(s, step) && !ByMain(step)
    ensures MainSound(Next(s, step))
  {
    hide Next, Enabled;
    MainStep(s, step);
    Parts(s, step);
    StaysCancelled(s, step);
  }

  lemma MainKeepsUnstarted(s: State, step: Step)
    requires KeysSound(s) && MainSound(s) && UnstartedOnlyWhileCreating(s) && Enabled(s, step) && ByMain(step)
    ensures UnstartedOnlyWhileCreating(MainNext(s, step))
  {
  }

  lemma KeepsUnstarted(s: State, step: Step)
    requires WellFormed(s) && Enabled(s, step)
    ensures UnstartedOnlyWhileCreating(Next(s, step))
  {
    hide Enabled, Next, MainNext, KeysSound, MainSound, UnstartedOnlyWhileCreating, ByMain;
    if ByMain(step) {
      NextOfMain(s, step);
      MainKeepsUnstarted(s, step);
    } else {
      OthersKeepUnstarted(s, step);
    }
  }

  lemma OthersKeepUnstarted(s: State, step: Step)
    requires UnstartedOnlyWhileCreating(s) && Enabled(s, step) && !ByMain(step)
    ensures UnstartedOnlyWhileCreating(Next(s, step))
  {
    hide Next;
    MainStep(s, step);
    Parts(s, step);
  }

  lemma KeepsWellFormed(s: State, step: Step)
    requires Invariant(s) && Enabled(s, step)
    ensures WellFormed(Next(s, step))
  {
    hide Exclusive, Accounted, MainSound, KeysSound, Next, Enabled;
    KeepsTableSound(s, step);
    KeepsMainSound(s, step);
    KeepsUnstarted(s, step);
  }

  /** What was held is still held or has been closed. */
  lemma HeldUntilClosed(s: State, step: Step, id: SessionId)
    requires WellFormed(s) && Enabled(s, step)
    ensures Held(s, id) ==> Held(Next(s, step), id) || id in Next(s, step).closed
  {
    hide Holds, Next, Enabled, KeysSound, MainSound, UnstartedOnlyWhileCreating;
    if id in Holds(s, Main) { HeldByMainUntilClosed(s, step, id); }
    if id in Holds(s, Sweeper) { HeldBySweeperUntilClosed(s, step, id); }
    forall r | r in s.readers
      ensures id in Holds(s, Reader(r)) ==>
        r in Next(s, step).readers && (id in Holds(Next(s, step), Reader(r)) || id in Next(s, step).closed)
    {
      if id in Holds(s, Reader(r)) { HeldByReaderUntilClosed(s, step, r, id); }
      ReadersStay(s, step);
    }
  }

  lemma ReadersStay(s: State, step: Step)
    requires Enabled(s, step)
    ensures s.readers.Keys <= Next(s, step).readers.Keys
  {
    hide Next;
    Parts(s, step);
  }

  lemma HeldByMainUntilClosed(s: State, step: Step, id: SessionId)
    requires Enabled(s, step) && id in Holds(s, Main)
    ensures id in Holds(Next(s, step), Main) || id in Next(s, step).closed
  {
    if !ByMain(step) {
      MainStep(s, step);
    }
  }

  lemma HeldBySweeperUntilClosed(s: State, step: Step, id: SessionId)
    requires Enabled(s, step) && id in Holds(s, Sweeper)
    ensures id in Holds(Next(s, step), Sweeper) || id in Next(s, step).closed
  {
    if !BySweeper(step) {
      SweeperStep(s, step);
    }
  }

  lemma HeldByReaderUntilClosed(s: State, step: Step, r: SessionId, id: SessionId)
    requires KeysSound(s) && UnstartedOnlyWhileCreating(s) && Enabled(s, step) && id in Holds(s, Reader(r))
    ensures id in Holds(Next(s, step), Reader(r)) || id in Next(s, step).closed
  {
    hide Next;
    Parts(s, step);
  }

  lemma ClosedForGood(s: State, step: Step)
    requires Enabled(s, step)
    ensures s.closed <= Next(s, step).closed
  {
    hide Next;
    Parts(s, step);
  }

  lemma ReadersHoldAsReaders(s: State, agent: Agent, id: SessionId)
    requires id in Holds(s, agent)
    ensures Held(s, id)
  {
  }

  lemma InTableUntilHeld(s: State, step: Step, id: SessionId)
    requires WellFormed(s) && Enabled(s, step)
    ensures InTable(s, id) ==> InTable(Next(s, step), id) || Held(Next(s, step), id)
  {
    hide KeysSound, MainSound, Enabled, Next, Holds, InTable, Actor, TakenBy;
    var t := Next(s, step);
    if InTable(s, id) && !InTable(t, id) {
      LeavesTaken(s, step, id);
      AgentHolds(s, step, Actor(step));
      ReadersHoldAsReaders(t, Actor(step), id);
    }
  }

  /** A session's creator goes on only by inserting it. */
  lemma CreatorInserts(s: State, step: Step, id: SessionId)
    requires WellFormed(s) && Enabled(s, step)
    ensures s.main == Creating(id) ==> Next(s, step).main == Creating(id) || InTable(Next(s, step), id)
  {
  }

  lemma DialCreates(s: State, id: SessionId)
    requires Enabled(s, Dial(id))
    ensures Next(s, Dial(id)).main == Creating(id)
  {
  }

  lemma DialledByCreator(s: State, step: Step, id: SessionId)
    requires KeysSound(s) && Enabled(s, step)
    ensures id in Next(s, step).readers ==> id in s.readers || Next(s, step).main == Creating(id)
  {
    hide Next;
    Parts(s, step);
    if step.Dial? { DialCreates(s, step.dialled); }
  }

  /** The reader of a session that is in the table has not run removeSession. */
  lemma ReaderAtWork(s: State, step: Step, id: SessionId)
    requires KeysSound(s) && UnstartedOnlyWhileCreating(s) && Enabled(s, step)
    requires id in s.readers && id in Next(s, step).readers && InTable(Next(s, step), id)
    requires !s.readers[id].Done? && !s.readers[id].ReaderCloses?
    ensures !Next(s, step).readers[id].Done? && !Next(s, step).readers[id].ReaderCloses?
  {
    hide Next;
    Parts(s, step);
  }

  lemma CreatingIsOutside(s: State, id: SessionId)
    requires WellFormed(s) && s.main == Creating(id)
    ensures !InTable(s, id) && id in s.readers && s.readers[id].Unstarted?
  {
  }

  lemma KeepsAccounted(s: State, step: Step, id: SessionId)
    requires WellFormed(s) && Enabled(s, step) && WellFormed(Next(s, step))
    requires id in s.readers ==> Accounted(s, id)
    requires id in Next(s, step).readers
    ensures Accounted(Next(s, step), id)
  {
    hide Held, Next, Enabled, InTable, KeysSound, MainSound, UnstartedOnlyWhileCreating;
    var t := Next(s, step);
    DialledByCreator(s, step, id);
    CreatorInserts(s, step, id);
    if s.main == Creating(id) { CreatingIsOutside(s, id); }
    if t.main == Creating(id) {
      CreatingIsOutside(t, id);
    } else if InTable(t, id) {
      EntersTableFromCreator(s, step, id);
      ReaderAtWork(s, step, id);
    } else {
      HeldUntilClosed(s, step, id);
      ClosedForGood(s, step);
      InTableUntilHeld(s, step, id);
    }
  }

  lemma KeepsInvariant(s: State, step: Step)
    requires Invariant(s) && Enabled(s, step)
    ensures Invariant(Next(s, step))
  {
    hide Next, WellFormed, Exclusive, Accounted, Enabled;
    KeepsWellFormed(s, step);
    KeepsExclusive(s, step);
    forall id | id in Next(s, step).readers ensures Accounted(Next(s, step), id) {
      KeepsAccounted(s, step, id);
    }
  }

  /** No session leaks, in any interleaving. */
  lemma {:induction false} NoSessionLeak(steps: seq<Step>)
    ensures Run(steps).Some? ==> Invariant(Run(steps).value)
  {
    hide Next, WellFormed, Exclusive, Accounted, Enabled;
    if steps == [] {
      InitialIsFine();
    } else if Run(steps).Some? {
      NoSessionLeak(steps[..|steps| - 1]);
      KeepsInvariant(Run(steps[..|steps| - 1]).value, steps[|steps| - 1]);
    }
  }

  lemma InitialIsFine()
    ensures Invariant(INITIAL)
  {
  }

  // --- Shutdown ---

  /** The listener has returned and every other thread has run to its end. */
  predicate Settled(s: State) {
    s.main.Returned? && s.sweeper.Stopped? && forall r <- s.readers :: s.readers[r].Done?
  }

  /** Once the listener has returned and the threads have drained, every socket is closed. */
  lemma SettledMeansClosed(steps: seq<Step>)
    requires Run(steps).Some? && Settled(Run(steps).value)
    ensures Run(steps).value.closed == Run(steps).value.keyOf.Keys
    ensures Run(steps).value.table == map[]
  {
    NoSessionLeak(steps);
    var s := Run(steps).value;
    forall id | id in s.keyOf ensures id in s.closed {
      assert Accounted(s, id);
    }
  }

  /** Steps a thread takes by itself after cancellation; a read ends when its socket is closed. */
  predicate Forced(s: State, step: Step) {
    Enabled(s, step)
    && match step
       case Receive(_) => false
       case PingFails(_) => false
       case Sweep(_) => false
       case Cancel => false
       case ReadFails(r) => r in s.closed
       case _ => true
  }

  function ReaderRank(pc: ReaderPc): int {
    match pc
    case Unstarted => 4
    case Reading => 3
    case AboutToRemove => 2
    case ReaderCloses(_) => 1
    case Done => 0
  }

  function MainRank(pc: MainPc): int {
    match pc
    case Idle => 2
    case Dialing(_) => 13
    case Creating(_) => 8
    case Discarding(_, _) => 6
    case Spawning(_) => 6
    case Writing(_) => 5
    case Removing(_) => 4
    case Closing(_) => 3
    case Draining(sessions) => 1 + |sessions|
    case Returned => 0
  }

  function SweeperRank(pc: SweeperPc): int {
    match pc
    case Waiting => 1
    case Sweeping(keys) => 2 + 2 * |keys|
    case SweeperCloses(_, rest) => 3 + 2 * |rest|
    case Stopped => 0
  }

  ghost function Rank(s: State): int {
    MainRank(s.main) + |s.table| + SweeperRank(s.sweeper) + SumBy(s.readers, ReaderRank)
  }

  lemma RankNonNegative(s: State)
    ensures Rank(s) >= 0
  {
    SumNonNegative(s.readers, ReaderRank);
  }

  lemma {:induction false} AtMostAsManyValues(table: Table)
    ensures |table.Values| <= |table|
    decreases |table|
  {
    if table != map[] {
      var key :| key in table;
      var rest := table - {key};
      forall v | v in table.Values ensures v in rest.Values + {table[key]} {
        var k :| k in table && table[k] == v;
        assert k != key ==> k in rest && rest[k] == v;
      }
      assert table.Values == rest.Values + {table[key]};
      AtMostAsManyValues(rest);
      assert table.Keys == rest.Keys + {key};
    }
  }

  lemma TakingShrinks(table: Table, key: Key)
    ensures |table - {key}| == if key in table then |table| - 1 else |table|
  {
    if key in table {
      assert table.Keys == (table - {key}).Keys + {key};
    } else {
      assert table - {key} == table;
    }
  }

  /** One reader goes down in rank; the table does not grow; the others stay. */
  lemma ReaderDescends(s: State, t: State, r: SessionId)
    requires r in s.readers && r in t.readers && t.readers == s.readers[r := t.readers[r]]
    requires ReaderRank(t.readers[r]) < ReaderRank(s.readers[r])
    requires t.main == s.main && t.sweeper == s.sweeper && |t.table| <= |s.table|
    ensures Rank(t) < Rank(s)
  {
    hide SumBy, ReaderRank;
    SumUpdate(s.readers, r, t.readers[r], ReaderRank);
  }

  lemma ReaderTakesEffect(s: State, r: SessionId)
    requires Enabled(s, ReaderTakes(r))
    ensures var t := Next(s, ReaderTakes(r));
            r in t.readers && t.readers == s.readers[r := t.readers[r]] && ReaderRank(t.readers[r]) < 2
            && t.main == s.main && t.sweeper == s.sweeper
            && (t.table == s.table - {s.keyOf[r]} || t.table == s.table)
  {
  }

  lemma DialledReader(s: State, r: SessionId)
    requires Enabled(s, ReaderTakes(r))
    ensures r in s.keyOf && r in s.readers && ReaderRank(s.readers[r]) == 2
  {
  }

  lemma ReaderTakesDescends(s: State, r: SessionId)
    requires Enabled(s, ReaderTakes(r))
    ensures Rank(Next(s, ReaderTakes(r))) < Rank(s)
  {
    hide Rank, Next, ReaderRank;
    DialledReader(s, r);
    TakingShrinks(s.table, s.keyOf[r]);
    ReaderTakesEffect(s, r);
    ReaderDescends(s, Next(s, ReaderTakes(r)), r);
  }

  lemma ReaderGoesOn(s: State, r: SessionId)
    ensures Enabled(s, ReadFails(r)) ==> Rank(Next(s, ReadFails(r))) < Rank(s)
    ensures Enabled(s, ReaderFinishes(r)) ==> Rank(Next(s, ReaderFinishes(r))) < Rank(s)
  {
    hide Rank;
    if Enabled(s, ReadFails(r)) {
      ReaderDescends(s, Next(s, ReadFails(r)), r);
    }
    if Enabled(s, ReaderFinishes(r)) {
      ReaderDescends(s, Next(s, ReaderFinishes(r)), r);
    }
  }

  lemma SweeperDescends(s: State, t: State)
    requires t.readers == s.readers && t.main == s.main && |t.table| <= |s.table|
    requires SweeperRank(t.sweeper) < SweeperRank(s.sweeper)
    ensures Rank(t) < Rank(s)
  {
    hide SumBy, SweeperRank, MainRank;
  }

  lemma SweeperTakesEffect(s: State, key: Key)
    requires Enabled(s, SweeperTakes(key))
    ensures var t := Next(s, SweeperTakes(key));
            t.readers == s.readers && t.main == s.main && (t.table == s.table - {key} || t.table == s.table)
            && SweeperRank(t.sweeper) <= 3 + 2 * |s.sweeper.keys - {key}|
  {
  }

  lemma SweeperTakesDescends(s: State, key: Key)
    requires Enabled(s, SweeperTakes(key))
    ensures Rank(Next(s, SweeperTakes(key))) < Rank(s)
  {
    hide Rank, Next;
    TakingShrinks(s.table, key);
    SweeperTakesEffect(s, key);
    assert |s.sweeper.keys| == |s.sweeper.keys - {key}| + 1;
    SweeperDescends(s, Next(s, SweeperTakes(key)));
  }

  lemma SweeperStepsDescend(s: State)
    ensures Enabled(s, SweeperFinishes) ==> Rank(Next(s, SweeperFinishes)) < Rank(s)
    ensures Enabled(s, SweepEnds) ==> Rank(Next(s, SweepEnds)) < Rank(s)
    ensures Enabled(s, SweeperStops) ==> Rank(Next(s, SweeperStops)) < Rank(s)
  {
    hide Rank;
    if Enabled(s, SweeperFinishes) { SweeperDescends(s, Next(s, SweeperFinishes)); }
    if Enabled(s, SweepEnds) { SweeperDescends(s, Next(s, SweepEnds)); }
    if Enabled(s, SweeperStops) { SweeperDescends(s, Next(s, SweeperStops)); }
  }

  lemma MainDescends(s: State, t: State)
    requires t.readers == s.readers && t.sweeper == s.sweeper
    requires MainRank(t.main) + |t.table| < MainRank(s.main) + |s.table|
    ensures Rank(t) < Rank(s)
  {
    hide SumBy, SweeperRank, MainRank;
  }

  lemma DialDescends(s: State, id: SessionId)
    requires Enabled(s, Dial(id)) && id !in s.readers
    ensures Rank(MainNext(s, Dial(id))) < Rank(s)
  {
    hide SumBy;
    SumUpdate(s.readers, id, Unstarted, ReaderRank);
  }

  lemma SpawnDescends(s: State)
    requires Enabled(s, Spawn) && s.main.session in s.readers && s.readers[s.main.session].Unstarted?
    ensures Rank(MainNext(s, Spawn)) < Rank(s)
  {
    hide SumBy;
    SumUpdate(s.readers, s.main.session, Reading, ReaderRank);
  }

  lemma InsertDescends(s: State)
    requires MainSound(s) && Enabled(s, InsertSession)
    ensures Rank(MainNext(s, InsertSession)) < Rank(s)
  {
    hide Rank;
    var key := s.keyOf[s.main.session];
    var t := MainNext(s, InsertSession);
    TakingShrinks(t.table, key);
    assert t.table - {key} == s.table;
    MainDescends(s, t);
  }

  lemma MainTakesEffect(s: State)
    requires Enabled(s, MainTakes)
    ensures var t := MainNext(s, MainTakes);
            && t.readers == s.readers && t.sweeper == s.sweeper
            && (t.table == s.table - {s.main.key} || t.table == s.table)
            && MainRank(t.main) < MainRank(s.main)
  {
  }

  lemma MainTakesDescends(s: State)
    requires Enabled(s, MainTakes)
    ensures Rank(MainNext(s, MainTakes)) < Rank(s)
  {
    hide Rank, MainNext, MainRank;
    MainTakesEffect(s);
    TakingShrinks(s.table, s.main.key);
    MainDescends(s, MainNext(s, MainTakes));
  }

  lemma StartDrainingDescends(s: State)
    requires Enabled(s, StartDraining)
    ensures Rank(MainNext(s, StartDraining)) < Rank(s)
  {
    hide Rank;
    AtMostAsManyValues(s.table);
    MainDescends(s, MainNext(s, StartDraining));
  }

  lemma DrainDescends(s: State, id: SessionId)
    requires Enabled(s, Drain(id))
    ensures Rank(MainNext(s, Drain(id))) < Rank(s)
  {
    hide Rank;
    assert s.main.sessions == (s.main.sessions - {id}) + {id};
    MainDescends(s, MainNext(s, Drain(id)));
  }

  lemma PlainStepDescends(s: State, step: Step)
    requires Enabled(s, step)
    requires step in {DialFails, Discard, WriteSucceeds, WriteFails, MainCloses, Return}
    ensures Rank(MainNext(s, step)) < Rank(s)
  {
    hide Rank;
    MainDescends(s, MainNext(s, step));
  }

  lemma MainStepsDescend(s: State, step: Step)
    requires WellFormed(s) && Forced(s, step) && ByMain(step)
    ensures Rank(MainNext(s, step)) < Rank(s)
  {
    hide MainNext, Rank;
    match step
    case Dial(id) => DialDescends(s, id);
    case InsertSession => InsertDescends(s);
    case Spawn => SpawnDescends(s);
    case MainTakes => MainTakesDescends(s);
    case StartDraining => StartDrainingDescends(s);
    case Drain(id) => DrainDescends(s, id);
    case _ => PlainStepDescends(s, step);
  }

  /** Every forced step brings shutdown nearer. */
  lemma ForcedStepsDescend(s: State, step: Step)
    requires WellFormed(s) && Forced(s, step)
    ensures Rank(Next(s, step)) < Rank(s)
  {
    hide WellFormed, Rank, MainNext, ReaderNext, SweeperNext;
    if ByMain(step) {
      MainStepsDescend(s, step);
    } else {
      match step
      case ReadFails(r) => ReaderGoesOn(s, r);
      case ReaderTakes(r) => ReaderTakesDescends(s, r);
      case ReaderFinishes(r) => ReaderGoesOn(s, r);
      case SweeperTakes(key) => SweeperTakesDescends(s, key);
      case _ => SweeperStepsDescend(s);
    }
  }

  /** After cancellation, until all is settled, some thread has a step to take. */
  lemma ShutdownNeverSticks(s: State)
    requires Invariant(s) && s.cancelled && !Settled(s)
    ensures exists step :: Forced(s, step)
  {
    hide Forced, Exclusive, Accounted;
    if !s.main.Returned? {
      MainGoesOn(s);
    } else if !s.sweeper.Stopped? {
      SweeperGoesOn(s);
    } else {
      var r :| r in s.readers && !s.readers[r].Done?;
      ReaderKeepsGoing(s, r);
    }
  }

  lemma ReaderKeepsGoing(s: State, r: SessionId)
    requires WellFormed(s) && s.main.Returned? && s.sweeper.Stopped? && r in s.readers && Accounted(s, r)
    requires !s.readers[r].Done?
    ensures exists step :: Forced(s, step)
  {
    match s.readers[r]
    case Reading =>
      if r in s.closed {
        assert Forced(s, ReadFails(r));
      } else {
        var q :| q in s.readers && r in Holds(s, Reader(q));
        assert Forced(s, ReaderFinishes(q));
      }
    case AboutToRemove => assert Forced(s, ReaderTakes(r));
    case ReaderCloses(_) => assert Forced(s, ReaderFinishes(r));
  }

  lemma MainGoesOn(s: State)
    requires WellFormed(s) && s.cancelled && !s.main.Returned?
    ensures exists step :: Forced(s, step)
  {
    match s.main
    case Idle => assert Forced(s, StartDraining);
    case Dialing(_) => assert Forced(s, DialFails);
    case Creating(_) => assert Forced(s, InsertSession);
    case Spawning(_) => assert Forced(s, Spawn);
    case Writing(_) => assert Forced(s, WriteSucceeds);
    case Removing(_) => assert Forced(s, MainTakes);
    case Closing(_) => assert Forced(s, MainCloses);
    case Draining(sessions) =>
      if sessions == {} {
        assert Forced(s, Return);
      } else {
        var id :| id in sessions;
        assert Forced(s, Drain(id));
      }
  }

  lemma SweeperGoesOn(s: State)
    requires s.cancelled && !s.sweeper.Stopped?
    ensures exists step :: Forced(s, step)
  {
    match s.sweeper
    case Waiting => assert Forced(s, SweeperStops);
    case Sweeping(keys) =>
      if keys == {} {
        assert Forced(s, SweepEnds);
      } else {
        var key :| key in keys;
        assert Forced(s, SweeperTakes(key));
      }
    case SweeperCloses(_, _) => assert Forced(s, SweeperFinishes);
  }

  ghost predicate ForcedRun(steps: seq<Step>, from: nat)
    requires from <= |steps|
  {
    forall k :: from <= k < |steps| ==> Run(steps[..k]).Some? && Forced(Run(steps[..k]).value, steps[k])
  }

  /** So shutdown ends: no run can go on with forced steps for longer than its rank. */
  lemma {:induction false} ShutdownEnds(steps: seq<Step>, from: nat)
    requires from <= |steps| && Run(steps[..from]).Some? && ForcedRun(steps, from)
    ensures Run(steps).Some?
    ensures |steps| - from <= Rank(Run(steps[..from]).value) - Rank(Run(steps).value)
    ensures |steps| - from <= Rank(Run(steps[..from]).value)
    decreases |steps|
  {
    hide Next, Forced, Enabled, Rank, Invariant;
    if |steps| == from {
      assert steps[..from] == steps;
    } else {
      var n := |steps| - 1;
      var before := steps[..n];
      forall k | from <= k < n ensures before[..k] == steps[..k] && before[k] == steps[k] { }
      assert before[..from] == steps[..from];
      ShutdownEnds(before, from);
      NoSessionLeak(before);
      OneForcedStep(steps);
    }
    RankNonNegative(Run(steps).value);
  }

  lemma OneForcedStep(steps: seq<Step>)
    requires steps != []
    requires var before := Run(steps[..|steps| - 1]);
             before.Some? && Invariant(before.value) && Forced(before.value, steps[|steps| - 1])
    ensures Run(steps).Some? && Rank(Run(steps).value) < Rank(Run(steps[..|steps| - 1]).value)
  {
    hide Rank, Exclusive, WellFormed, Accounted, Forced, Enabled, Next;
    ForcedIsEnabled(Run(steps[..|steps| - 1]).value, steps[|steps| - 1]);
    ForcedStepsDescend(Run(steps[..|steps| - 1]).value, steps[|steps| - 1]);
  }

  lemma ForcedIsEnabled(s: State, step: Step)
    requires Forced(s, step)
    ensures Enabled(s, step)
  {
  }

  // --- What the code does and does not promise about removal ---

  /** Only the read loop inserts, so the second look at the table never finds a session. */
  lemma RecheckNeverFires(steps: seq<Step>)
    requires Run(steps).Some? && Run(steps).value.main.Creating?
    ensures var s := Run(steps).value;
            s.main.session in s.keyOf && s.keyOf[s.main.session] !in s.table
            && Next(s, InsertSession).main == Spawning(s.main.session)
  {
    NoSessionLeak(steps);
  }
}
