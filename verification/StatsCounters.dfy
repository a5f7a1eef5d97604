// The engine's session, plugin and global counters (internal/engine/stats.go): every atomic
// operation and every section under a lock is one step, and calls interleave freely.

module StatsCounters {
  import opened Results
  import opened Sums

  datatype Direction = Rx | Tx

  datatype Traffic = Traffic(rx: nat, tx: nat) {
    function In(direction: Direction): nat {
      match direction
      case Rx => rx
      case Tx => tx
    }

    function Plus(direction: Direction, bytes: nat): Traffic {
      match direction
      case Rx => this.(rx := rx + bytes)
      case Tx => this.(tx := tx + bytes)
    }
  }

  datatype Plugin = Plugin(active: int, total: nat, bytes: Traffic)

  datatype Session = Session(plugin: string, bytes: Traffic)

  type SessionId = nat

  const NO_TRAFFIC: Traffic := Traffic(0, 0)

  /** The counters. Plugin names are normalised; the empty name stands for no plugin. */
  datatype Counters = Counters(
    active: int,
    total: nat,
    lastId: nat,
    bytes: Traffic,
    plugins: map<string, Plugin>,
    sessions: map<SessionId, Session>)

  // --- Calls, one step at a time ---

  /** What a running call has done so far, and what it still knows. */
  datatype Call =
    | Starting(name: string)
    | CountedActive(name: string)
    | CountedTotal(name: string)
    | CountedPlugin(name: string)
    | Numbered(name: string, id: SessionId)
    | Ending(id: SessionId)
    | Deleted(name: string)
    | Uncounted(name: string)
    | Adding(id: SessionId, direction: Direction, amount: nat)
    | Attributed(name: string, direction: Direction, amount: nat)
    | AddedToTotal(name: string, direction: Direction, amount: nat)

  function PluginOf(c: Counters, name: string): Plugin {
    if name in c.plugins then c.plugins[name] else Plugin(0, 0, NO_TRAFFIC)
  }

  function PluginStarted(p: Plugin): Plugin {
    p.(active := p.active + 1, total := p.total + 1)
  }

  /** The decrement is guarded. */
  function PluginEnded(p: Plugin): Plugin {
    if p.active > 0 then p.(active := p.active - 1) else p
  }

  /** The next step of a call: the counters after it, and where the call stands, if it goes on. */
  function Advance(c: Counters, call: Call): (Counters, Option<Call>) {
    match call
    case Starting(name) => (c.(active := c.active + 1), Some(CountedActive(name)))
    case CountedActive(name) => (c.(total := c.total + 1), Some(CountedTotal(name)))
    case CountedTotal(name) =>
      (if name == "" then c else c.(plugins := c.plugins[name := PluginStarted(PluginOf(c, name))]),
       Some(CountedPlugin(name)))
    case CountedPlugin(name) => (c.(lastId := c.lastId + 1), Some(Numbered(name, c.lastId + 1)))
    case Numbered(name, id) => (c.(sessions := c.sessions[id := Session(name, NO_TRAFFIC)]), None)
    case Ending(id) =>
      if id in c.sessions then (c.(sessions := c.sessions - {id}), Some(Deleted(c.sessions[id].plugin)))
      else (c, None)
    case Deleted(name) => (c.(active := c.active - 1), if name == "" then None else Some(Uncounted(name)))
    case Uncounted(name) => (c.(plugins := c.plugins[name := PluginEnded(PluginOf(c, name))]), None)
    case Adding(id, direction, amount) =>
      if id in c.sessions then
        var session := c.sessions[id];
        (c.(sessions := c.sessions[id := session.(bytes := session.bytes.Plus(direction, amount))]),
         Some(Attributed(session.plugin, direction, amount)))
      else (c, Some(Attributed("", direction, amount)))
    case Attributed(name, direction, amount) =>
      (c.(bytes := c.bytes.Plus(direction, amount)),
       if name == "" then None else Some(AddedToTotal(name, direction, amount)))
    case AddedToTotal(name, direction, amount) =>
      var p := PluginOf(c, name);
      (c.(plugins := c.plugins[name := p.(bytes := p.bytes.Plus(direction, amount))]), None)
  }

  // --- The object, one call after the other ---

  /** How far a call is from its end. */
  function StepsLeft(call: Call): nat {
    match call
    case Starting(_) => 5
    case CountedActive(_) => 4
    case CountedTotal(_) => 3
    case CountedPlugin(_) => 2
    case Numbered(_, _) => 1
    case Ending(_) => 3
    case Deleted(_) => 2
    case Uncounted(_) => 1
    case Adding(_, _, _) => 3
    case Attributed(_, _, _) => 2
    case AddedToTotal(_, _, _) => 1
  }

  /** A call run to its end without interruption. */
  function Complete(c: Counters, call: Call): Counters
    decreases StepsLeft(call)
  {
    var (after, rest) := Advance(c, call);
    if rest.Some? then Complete(after, rest.value) else after
  }

  lemma CompletedStart(c: Counters, name: string)
    ensures Complete(c, Starting(name))
         == Counters(c.active + 1, c.total + 1, c.lastId + 1, c.bytes,
                     if name == "" then c.plugins else c.plugins[name := PluginStarted(PluginOf(c, name))],
                     c.sessions[c.lastId + 1 := Session(name, NO_TRAFFIC)])
  {
    var one := c.(active := c.active + 1);
    var two := one.(total := c.total + 1);
    var three := if name == "" then two else two.(plugins := c.plugins[name := PluginStarted(PluginOf(c, name))]);
    var four := three.(lastId := c.lastId + 1);
    assert Complete(four, Numbered(name, c.lastId + 1))
        == four.(sessions := c.sessions[c.lastId + 1 := Session(name, NO_TRAFFIC)]);
    assert Complete(three, CountedPlugin(name)) == Complete(four, Numbered(name, c.lastId + 1));
    assert Complete(two, CountedTotal(name)) == Complete(three, CountedPlugin(name));
    assert Complete(one, CountedActive(name)) == Complete(two, CountedTotal(name));
  }

  lemma CompletedEnd(c: Counters, id: SessionId)
    ensures Complete(c, Ending(id))
         == if id !in c.sessions then c
            else
              var name := c.sessions[id].plugin;
              c.(active := c.active - 1,
                 plugins := if name == "" then c.plugins else c.plugins[name := PluginEnded(PluginOf(c, name))],
                 sessions := c.sessions - {id})
  {
    if id in c.sessions {
      var name := c.sessions[id].plugin;
      var one := c.(sessions := c.sessions - {id});
      var two := one.(active := c.active - 1);
      assert Complete(c, Ending(id)) == Complete(one, Deleted(name));
      if name != "" {
        assert Complete(one, Deleted(name)) == Complete(two, Uncounted(name));
      }
    }
  }

  lemma CompletedAttribution(c: Counters, name: string, direction: Direction, amount: nat)
    ensures var p := PluginOf(c, name);
            Complete(c, Attributed(name, direction, amount))
            == c.(bytes := c.bytes.Plus(direction, amount),
               plugins := if name == "" then c.plugins
                          else c.plugins[name := p.(bytes := p.bytes.Plus(direction, amount))])
  {
    var after := c.(bytes := c.bytes.Plus(direction, amount));
    if name != "" {
      assert Complete(c, Attributed(name, direction, amount)) == Complete(after, AddedToTotal(name, direction, amount));
    }
  }

  lemma CompletedAdd(c: Counters, id: SessionId, direction: Direction, amount: nat)
    ensures Complete(c, Adding(id, direction, amount))
         == var total := c.bytes.Plus(direction, amount);
            if id !in c.sessions then c.(bytes := total)
            else
              var session := c.sessions[id];
              var p := PluginOf(c, session.plugin);
              c.(bytes := total,
                 plugins := if session.plugin == "" then c.plugins
                            else c.plugins[session.plugin := p.(bytes := p.bytes.Plus(direction, amount))],
                 sessions := c.sessions[id := session.(bytes := session.bytes.Plus(direction, amount))])
  {
    if id in c.sessions {
      var session := c.sessions[id];
      var one := c.(sessions := c.sessions[id := session.(bytes := session.bytes.Plus(direction, amount))]);
      assert Complete(c, Adding(id, direction, amount)) == Complete(one, Attributed(session.plugin, direction, amount));
      CompletedAttribution(one, session.plugin, direction, amount);
    } else {
      CompletedAttribution(c, "", direction, amount);
    }
  }

  function Registered(c: Counters, name: string): Counters {
    if name == "" then c else c.(plugins := c.plugins[name := PluginOf(c, name)])
  }

  class Stats {
    var activeConnections: int
    var totalConnections: nat
    var nextSessionId: nat
    var totalBytes: Traffic
    var plugins: map<string, Plugin>
    var sessions: map<SessionId, Session>

    function Value(): Counters
      reads this
    {
      Counters(activeConnections, totalConnections, nextSessionId, totalBytes, plugins, sessions)
    }

    constructor ()
      ensures Value() == Counters(0, 0, 0, NO_TRAFFIC, map[], map[])
    {
      activeConnections, totalConnections, nextSessionId := 0, 0, 0;
      totalBytes, plugins, sessions := NO_TRAFFIC, map[], map[];
    }

    method RegisterPlugin(name: string)
      modifies this
      ensures Value() == Registered(old(Value()), name)
    {
      if name == "" { return; }
      EnsurePlugin(name);
    }

    /** pluginStatsLocked creates the entry when it is missing. */
    method EnsurePlugin(name: string)
      modifies this`plugins
      ensures plugins == old(plugins)[name := PluginOf(old(Value()), name)]
    {
      if name !in plugins {
        plugins := plugins[name := Plugin(0, 0, NO_TRAFFIC)];
      }
    }

    method StartSession(name: string) returns (id: SessionId)
      modifies this
      ensures Value() == Complete(old(Value()), Starting(name))
      ensures id == old(nextSessionId) + 1 && id in sessions
    {
      hide Complete;
      CompletedStart(Value(), name);
      activeConnections := activeConnections + 1;
      totalConnections := totalConnections + 1;
      if name != "" {
        EnsurePlugin(name);
        var p := plugins[name];
        plugins := plugins[name := p.(active := p.active + 1, total := p.total + 1)];
      }
      nextSessionId := nextSessionId + 1;
      id := nextSessionId;
      sessions := sessions[id := Session(name, NO_TRAFFIC)];
    }

    method EndSession(id: SessionId)
      modifies this
      ensures Value() == Complete(old(Value()), Ending(id))
    {
      hide Complete;
      CompletedEnd(Value(), id);
      if id !in sessions { return; }
      var name := sessions[id].plugin;
      sessions := sessions - {id};
      activeConnections := activeConnections - 1;
      if name == "" { return; }
      EnsurePlugin(name);
      var p := plugins[name];
      if p.active > 0 {
        plugins := plugins[name := p.(active := p.active - 1)];
      }
    }

    /** AddSessionRx and AddSessionTx. */
    method AddSessionBytes(id: SessionId, direction: Direction, amount: nat)
      modifies this
      ensures Value() == Complete(old(Value()), Adding(id, direction, amount))
    {
      hide Complete;
      CompletedAdd(Value(), id, direction, amount);
      var name := "";
      if id in sessions {
        var session := sessions[id];
        sessions := sessions[id := session.(bytes := session.bytes.Plus(direction, amount))];
        name := session.plugin;
      }
      totalBytes := totalBytes.Plus(direction, amount);
      if name == "" { return; }
      EnsurePlugin(name);
      var p := plugins[name];
      plugins := plugins[name := p.(bytes := p.bytes.Plus(direction, amount))];
    }
  }

  // --- Interleavings ---

  type ThreadId = nat

  /**
    The running calls; for the record, the plugin names of all sessions begun, the sessions as they
    were when they ended, and the bytes added so far that belong to no plugin.
    */
  datatype State = State(
    counters: Counters,
    calls: map<ThreadId, Call>,
    begun: seq<string>,
    ended: map<SessionId, Session>,
    unattributed: Traffic)

  const INITIAL: State := State(Counters(0, 0, 0, NO_TRAFFIC, map[], map[]), map[], [], map[], NO_TRAFFIC)

  datatype Step =
    | Invoke(thread: ThreadId, call: Call)
    | Proceed(thread: ThreadId)
    | Register(name: string)

  predicate Enabled(s: State, step: Step) {
    match step
    case Invoke(t, call) => t !in s.calls && (call.Starting? || call.Ending? || call.Adding?)
    case Proceed(t) => t in s.calls
    case Register(_) => true
  }

  function Next(s: State, step: Step): State
    requires Enabled(s, step)
  {
    match step
    case Invoke(t, call) =>
      s.(calls := s.calls[t := call], begun := if call.Starting? then s.begun + [call.name] else s.begun)
    case Proceed(t) =>
      var call := s.calls[t];
      var (counters, rest) := Advance(s.counters, call);
      State(counters,
            if rest.Some? then s.calls[t := rest.value] else s.calls - {t},
            s.begun,
            if call.Ending? && call.id in s.counters.sessions then s.ended[call.id := s.counters.sessions[call.id]]
            else s.ended,
            if call.Attributed? && call.name == "" then s.unattributed.Plus(call.direction, call.amount)
            else s.unattributed)
    case Register(name) => s.(counters := Registered(s.counters, name))
  }

  function Run(steps: seq<Step>): Option<State> {
    if steps == [] then Some(INITIAL)
    else
      match Run(steps[..|steps| - 1])
      case None => None
      case Some(s) =>
        var step := steps[|steps| - 1];
        if Enabled(s, step) then Some(Next(s, step)) else None
  }

  // --- What is on the way ---

  /** Started and counted but not inserted, or deleted but not yet discounted. */
  function ActiveOnTheWay(call: Call): int {
    match call
    case CountedActive(_) => 1
    case CountedTotal(_) => 1
    case CountedPlugin(_) => 1
    case Numbered(_, _) => 1
    case Deleted(_) => 1
    case _ => 0
  }

  function PluginOnTheWay(plugin: string): Call -> int {
    (call: Call) =>
      match call
      case CountedPlugin(name) => if name == plugin then 1 else 0
      case Numbered(name, _) => if name == plugin then 1 else 0
      case Deleted(name) => if name == plugin then 1 else 0
      case Uncounted(name) => if name == plugin then 1 else 0
      case _ => 0
  }

  function NamedOnTheWay(call: Call): int {
    match call
    case CountedPlugin(name) => if name != "" then 1 else 0
    case Numbered(name, _) => if name != "" then 1 else 0
    case Deleted(name) => if name != "" then 1 else 0
    case Uncounted(name) => if name != "" then 1 else 0
    case _ => 0
  }

  function BytesOnTheWay(direction: Direction): Call -> int {
    (call: Call) => if call.AddedToTotal? && call.direction == direction then call.amount else 0
  }

  /** Attributed to a plugin but not yet added to its bytes. */
  function UncreditedTo(plugin: string, direction: Direction): Call -> int {
    (call: Call) =>
      if (call.Attributed? || call.AddedToTotal?) && call.name == plugin && call.direction == direction
      then call.amount else 0
  }

  function BytesFor(plugin: string, direction: Direction): Session -> int {
    (session: Session) => if session.plugin == plugin then session.bytes.In(direction) else 0
  }

  /** Begun but not yet counted as a connection. */
  function NotYetTotal(call: Call): int {
    if call.Starting? || call.CountedActive? then 1 else 0
  }

  function NotYetNumbered(call: Call): int {
    if call.Starting? || call.CountedActive? || call.CountedTotal? || call.CountedPlugin? then 1 else 0
  }

  function NotYetPluginTotal(plugin: string): Call -> int {
    (call: Call) =>
      if (call.Starting? || call.CountedActive? || call.CountedTotal?) && call.name == plugin then 1 else 0
  }

  function BelongsTo(plugin: string): Session -> int {
    (session: Session) => if session.plugin == plugin then 1 else 0
  }

  function IsNamed(session: Session): int {
    if session.plugin != "" then 1 else 0
  }

  function One(session: Session): int {
    1
  }

  function ActiveIn(p: Plugin): int {
    p.active
  }

  function BytesIn(direction: Direction): Plugin -> int {
    (p: Plugin) => p.bytes.In(direction)
  }

  // --- The invariant ---

  ghost predicate ActiveAccounted(s: State) {
    s.counters.active == SumBy(s.counters.sessions, One) + SumBy(s.calls, ActiveOnTheWay)
  }

  ghost predicate PluginAccounted(s: State, plugin: string) {
    PluginOf(s.counters, plugin).active
    == SumBy(s.counters.sessions, BelongsTo(plugin)) + SumBy(s.calls, PluginOnTheWay(plugin))
  }

  ghost predicate NamedAccounted(s: State) {
    SumBy(s.counters.plugins, ActiveIn) == SumBy(s.counters.sessions, IsNamed) + SumBy(s.calls, NamedOnTheWay)
  }

  ghost predicate BytesAccounted(s: State, direction: Direction) {
    s.counters.bytes.In(direction)
    == SumBy(s.counters.plugins, BytesIn(direction)) + s.unattributed.In(direction)
       + SumBy(s.calls, BytesOnTheWay(direction))
  }

  /** The bytes of a plugin are those of its live and ended sessions, less what is on the way. */
  ghost predicate PluginBytesAccounted(s: State, plugin: string, direction: Direction) {
    PluginOf(s.counters, plugin).bytes.In(direction) + SumBy(s.calls, UncreditedTo(plugin, direction))
    == SumBy(s.counters.sessions, BytesFor(plugin, direction)) + SumBy(s.ended, BytesFor(plugin, direction))
  }

  /** Every session begun is counted once, and gets one id. */
  ghost predicate TotalsAccounted(s: State) {
    && s.counters.total + SumBy(s.calls, NotYetTotal) == |s.begun|
    && s.counters.lastId + SumBy(s.calls, NotYetNumbered) == |s.begun|
  }

  /** The connections of a plugin are the sessions begun under its name. */
  ghost predicate PluginTotalAccounted(s: State, plugin: string) {
    PluginOf(s.counters, plugin).total + SumBy(s.calls, NotYetPluginTotal(plugin)) == multiset(s.begun)[plugin]
  }

  predicate IdsHandedOut(s: State) {
    (forall id <- s.ended :: id <= s.counters.lastId && id !in s.counters.sessions)
    && (forall id <- s.counters.sessions :: id <= s.counters.lastId)
    && (forall t <- s.calls :: s.calls[t].Numbered? ==>
          s.calls[t].id <= s.counters.lastId && s.calls[t].id !in s.counters.sessions && s.calls[t].id !in s.ended)
  }

  predicate IdsDistinct(s: State) {
    forall t, u :: t in s.calls && u in s.calls && t != u && s.calls[t].Numbered? && s.calls[u].Numbered? ==>
      s.calls[t].id != s.calls[u].id
  }

  predicate NamesKnown(s: State) {
    forall t <- s.calls :: s.calls[t].Uncounted? || s.calls[t].AddedToTotal? ==> s.calls[t].name != ""
  }

  /** Ids are handed out once; calls that go on with a plugin have one. */
  predicate IdsFresh(s: State) {
    IdsHandedOut(s) && IdsDistinct(s) && NamesKnown(s)
  }

  ghost predicate Invariant(s: State) {
    IdsFresh(s)
    && ActiveAccounted(s)
    && (forall plugin :: plugin != "" ==> PluginAccounted(s, plugin))
    && NamedAccounted(s)
    && (forall direction :: BytesAccounted(s, direction))
    && (forall plugin, direction :: plugin != "" ==> PluginBytesAccounted(s, plugin, direction))
    && TotalsAccounted(s)
    && (forall plugin :: plugin != "" ==> PluginTotalAccounted(s, plugin))
  }

  // --- Every step keeps it ---

  lemma CallsAfterProceeding(s: State, t: ThreadId, f: Call -> int)
    requires t in s.calls
    ensures var rest := Advance(s.counters, s.calls[t]).1;
            SumBy(Next(s, Proceed(t)).calls, f)
            == SumBy(s.calls, f) - f(s.calls[t]) + if rest.Some? then f(rest.value) else 0
  {
    hide Advance;
    var rest := Advance(s.counters, s.calls[t]).1;
    if rest.Some? {
      SumUpdate(s.calls, t, rest.value, f);
    } else {
      SumRemove(s.calls, t, f);
    }
  }

  lemma CallsAfterInvoking(s: State, t: ThreadId, call: Call, f: Call -> int)
    requires Enabled(s, Invoke(t, call)) && f(call) == 0
    ensures SumBy(Next(s, Invoke(t, call)).calls, f) == SumBy(s.calls, f)
  {
    SumUpdate(s.calls, t, call, f);
  }

  /** The sessions a step of a call leaves. */
  lemma SessionsAfter(c: Counters, call: Call, f: Session -> int)
    ensures SumBy(Advance(c, call).0.sessions, f)
         == SumBy(c.sessions, f)
            + (if call.Numbered? then
                 f(Session(call.name, NO_TRAFFIC)) - (if call.id in c.sessions then f(c.sessions[call.id]) else 0)
               else if call.Ending? && call.id in c.sessions then -f(c.sessions[call.id])
               else if call.Adding? && call.id in c.sessions then
                 f(Advance(c, call).0.sessions[call.id]) - f(c.sessions[call.id])
               else 0)
  {
    if call.Numbered? {
      SumUpdate(c.sessions, call.id, Session(call.name, NO_TRAFFIC), f);
    } else if call.Ending? && call.id in c.sessions {
      SumRemove(c.sessions, call.id, f);
    } else if call.Adding? && call.id in c.sessions {
      SumUpdate(c.sessions, call.id, Advance(c, call).0.sessions[call.id], f);
    }
  }

  /** The plugins a step of a call leaves, counted by a measure that is zero on a new plugin. */
  lemma PluginsAfter(c: Counters, call: Call, f: Plugin -> int)
    requires f(Plugin(0, 0, NO_TRAFFIC)) == 0
    ensures var name := if call.CountedTotal? || call.Uncounted? || call.AddedToTotal? then call.name else "";
            var after := Advance(c, call).0;
            SumBy(after.plugins, f) - SumBy(c.plugins, f)
            == if call.Uncounted? || call.AddedToTotal? || (call.CountedTotal? && name != "")
               then f(PluginOf(after, name)) - f(PluginOf(c, name)) else 0
  {
    if call.CountedTotal? && call.name != "" {
      SumUpdate(c.plugins, call.name, PluginStarted(PluginOf(c, call.name)), f);
    } else if call.Uncounted? {
      SumUpdate(c.plugins, call.name, PluginEnded(PluginOf(c, call.name)), f);
    } else if call.AddedToTotal? {
      SumUpdate(c.plugins, call.name, PluginOf(Advance(c, call).0, call.name), f);
    }
  }

  lemma RegisteringAdds(c: Counters, name: string, f: Plugin -> int)
    requires f(Plugin(0, 0, NO_TRAFFIC)) == 0
    ensures SumBy(Registered(c, name).plugins, f) == SumBy(c.plugins, f)
    ensures forall plugin :: PluginOf(Registered(c, name), plugin) == PluginOf(c, plugin)
  {
    SumUpdate(c.plugins, name, PluginOf(c, name), f);
  }

  lemma ProceedingKeepsIdsHandedOut(s: State, t: ThreadId)
    requires IdsHandedOut(s) && IdsDistinct(s) && t in s.calls
    ensures IdsHandedOut(Next(s, Proceed(t)))
  {
  }

  lemma KeepsIdsHandedOut(s: State, step: Step)
    requires IdsHandedOut(s) && IdsDistinct(s) && Enabled(s, step)
    ensures IdsHandedOut(Next(s, step))
  {
    if step.Proceed? {
      ProceedingKeepsIdsHandedOut(s, step.thread);
    }
  }

  lemma KeepsIdsDistinct(s: State, step: Step)
    requires IdsHandedOut(s) && IdsDistinct(s) && Enabled(s, step)
    ensures IdsDistinct(Next(s, step))
  {
  }

  lemma KeepsNamesKnown(s: State, step: Step)
    requires NamesKnown(s) && Enabled(s, step)
    ensures NamesKnown(Next(s, step))
  {
  }

  lemma KeepsIdsFresh(s: State, step: Step)
    requires IdsFresh(s) && Enabled(s, step)
    ensures IdsFresh(Next(s, step))
  {
    hide Next, Enabled, IdsHandedOut, IdsDistinct, NamesKnown;
    KeepsIdsHandedOut(s, step);
    KeepsIdsDistinct(s, step);
    KeepsNamesKnown(s, step);
  }

  lemma KeepsActive(s: State, step: Step)
    requires IdsFresh(s) && ActiveAccounted(s) && Enabled(s, step)
    ensures ActiveAccounted(Next(s, step))
  {
    hide SumBy;
    match step
    case Invoke(t, call) => CallsAfterInvoking(s, t, call, ActiveOnTheWay);
    case Register(_) =>
    case Proceed(t) =>
      CallsAfterProceeding(s, t, ActiveOnTheWay);
      SessionsAfter(s.counters, s.calls[t], One);
  }

  /** What a step of a call does to the entry of a plugin. */
  lemma PluginAfter(c: Counters, call: Call, plugin: string)
    requires plugin != ""
    ensures var before, after := PluginOf(c, plugin), PluginOf(Advance(c, call).0, plugin);
            && after.total == before.total + (if call == CountedTotal(plugin) then 1 else 0)
            && after.active == (if call == CountedTotal(plugin) then before.active + 1
                                else if call == Uncounted(plugin) && before.active > 0 then before.active - 1
                                else before.active)
            && forall direction ::
                 after.bytes.In(direction)
                 == before.bytes.In(direction)
                    + if call.AddedToTotal? && call.name == plugin && call.direction == direction
                      then call.amount else 0
  {
  }

  lemma ProceedingAdvances(s: State, t: ThreadId)
    requires t in s.calls
    ensures Next(s, Proceed(t)).counters == Advance(s.counters, s.calls[t]).0
  {
  }

  /** When a call comes to its guarded decrement, the count is positive: the guard never fires. */
  lemma GuardNeverFires(s: State, t: ThreadId)
    requires Invariant(s) && t in s.calls && s.calls[t].Uncounted?
    ensures var name := s.calls[t].name;
            name in s.counters.plugins && s.counters.plugins[name].active > 0
  {
    var name := s.calls[t].name;
    assert PluginAccounted(s, name);
    SumNonNegative(s.counters.sessions, BelongsTo(name));
    SumAtLeast(s.calls, t, PluginOnTheWay(name));
  }

  lemma KeepsPlugin(s: State, step: Step, plugin: string)
    requires Invariant(s) && Enabled(s, step) && plugin != ""
    ensures PluginAccounted(Next(s, step), plugin)
  {
    hide SumBy;
    assert PluginAccounted(s, plugin);
    match step
    case Invoke(t, call) => CallsAfterInvoking(s, t, call, PluginOnTheWay(plugin));
    case Register(name) => RegisteringAdds(s.counters, name, ActiveIn);
    case Proceed(t) => ProceedingKeepsPlugin(s, t, plugin);
  }

  lemma ProceedingKeepsPlugin(s: State, t: ThreadId, plugin: string)
    requires Invariant(s) && t in s.calls && plugin != "" && PluginAccounted(s, plugin)
    ensures PluginAccounted(Next(s, Proceed(t)), plugin)
  {
    hide SumBy, Next, PluginOf, IdsDistinct;
    if s.calls[t] == Uncounted(plugin) { GuardedPlugin(s, t, plugin); }
    ProceedingAdvances(s, t);
    PluginAfter(s.counters, s.calls[t], plugin);
    CallsAfterProceeding(s, t, PluginOnTheWay(plugin));
    SessionsAfter(s.counters, s.calls[t], BelongsTo(plugin));
  }

  lemma GuardedPlugin(s: State, t: ThreadId, plugin: string)
    requires Invariant(s) && t in s.calls && s.calls[t] == Uncounted(plugin)
    ensures PluginOf(s.counters, plugin).active > 0
  {
    GuardNeverFires(s, t);
  }

  lemma KeepsNamed(s: State, step: Step)
    requires Invariant(s) && Enabled(s, step)
    ensures NamedAccounted(Next(s, step))
  {
    hide SumBy;
    match step
    case Invoke(t, call) => CallsAfterInvoking(s, t, call, NamedOnTheWay);
    case Register(name) => RegisteringAdds(s.counters, name, ActiveIn);
    case Proceed(t) =>
      if s.calls[t].Uncounted? { GuardNeverFires(s, t); }
      CallsAfterProceeding(s, t, NamedOnTheWay);
      SessionsAfter(s.counters, s.calls[t], IsNamed);
      PluginsAfter(s.counters, s.calls[t], ActiveIn);
  }

  lemma KeepsBytes(s: State, step: Step, direction: Direction)
    requires IdsFresh(s) && BytesAccounted(s, direction) && Enabled(s, step)
    ensures BytesAccounted(Next(s, step), direction)
  {
    hide SumBy;
    match step
    case Invoke(t, call) => CallsAfterInvoking(s, t, call, BytesOnTheWay(direction));
    case Register(name) => RegisteringAdds(s.counters, name, BytesIn(direction));
    case Proceed(t) =>
      CallsAfterProceeding(s, t, BytesOnTheWay(direction));
      PluginsAfter(s.counters, s.calls[t], BytesIn(direction));
  }

  lemma CallsAfterStarting(s: State, t: ThreadId, call: Call, f: Call -> int)
    requires Enabled(s, Invoke(t, call))
    ensures SumBy(Next(s, Invoke(t, call)).calls, f) == SumBy(s.calls, f) + f(call)
  {
    SumUpdate(s.calls, t, call, f);
  }

  lemma KeepsTotals(s: State, step: Step)
    requires TotalsAccounted(s) && Enabled(s, step)
    ensures TotalsAccounted(Next(s, step))
  {
    hide SumBy;
    match step
    case Invoke(t, call) =>
      CallsAfterStarting(s, t, call, NotYetTotal);
      CallsAfterStarting(s, t, call, NotYetNumbered);
    case Register(_) =>
    case Proceed(t) =>
      CallsAfterProceeding(s, t, NotYetTotal);
      CallsAfterProceeding(s, t, NotYetNumbered);
  }

  lemma KeepsPluginTotal(s: State, step: Step, plugin: string)
    requires PluginTotalAccounted(s, plugin) && Enabled(s, step) && plugin != ""
    ensures PluginTotalAccounted(Next(s, step), plugin)
  {
    hide SumBy;
    match step
    case Invoke(t, call) => CallsAfterStarting(s, t, call, NotYetPluginTotal(plugin));
    case Register(name) => RegisteringAdds(s.counters, name, ActiveIn);
    case Proceed(t) => ProceedingKeepsPluginTotal(s, t, plugin);
  }

  lemma ProceedingKeepsPluginTotal(s: State, t: ThreadId, plugin: string)
    requires PluginTotalAccounted(s, plugin) && t in s.calls && plugin != ""
    ensures PluginTotalAccounted(Next(s, Proceed(t)), plugin)
  {
    hide SumBy, PluginOf;
    ProceedingAdvances(s, t);
    PluginAfter(s.counters, s.calls[t], plugin);
    CallsAfterProceeding(s, t, NotYetPluginTotal(plugin));
  }

  lemma EndedAfter(s: State, t: ThreadId, f: Session -> int)
    requires IdsHandedOut(s) && t in s.calls
    ensures var call := s.calls[t];
            SumBy(Next(s, Proceed(t)).ended, f)
            == SumBy(s.ended, f)
               + if call.Ending? && call.id in s.counters.sessions then f(s.counters.sessions[call.id]) else 0
  {
    hide Advance;
    var call := s.calls[t];
    if call.Ending? && call.id in s.counters.sessions {
      SumUpdate(s.ended, call.id, s.counters.sessions[call.id], f);
    }
  }

  lemma KeepsPluginBytes(s: State, step: Step, plugin: string, direction: Direction)
    requires IdsFresh(s) && PluginBytesAccounted(s, plugin, direction) && Enabled(s, step) && plugin != ""
    ensures PluginBytesAccounted(Next(s, step), plugin, direction)
  {
    hide SumBy;
    match step
    case Invoke(t, call) => CallsAfterInvoking(s, t, call, UncreditedTo(plugin, direction));
    case Register(name) => RegisteringAdds(s.counters, name, ActiveIn);
    case Proceed(t) => ProceedingKeepsPluginBytes(s, t, plugin, direction);
  }

  lemma ProceedingKeepsPluginBytes(s: State, t: ThreadId, plugin: string, direction: Direction)
    requires IdsFresh(s) && PluginBytesAccounted(s, plugin, direction) && t in s.calls && plugin != ""
    ensures PluginBytesAccounted(Next(s, Proceed(t)), plugin, direction)
  {
    hide SumBy, Next, PluginOf, IdsDistinct;
    ProceedingAdvances(s, t);
    PluginAfter(s.counters, s.calls[t], plugin);
    CallsAfterProceeding(s, t, UncreditedTo(plugin, direction));
    SessionsAfter(s.counters, s.calls[t], BytesFor(plugin, direction));
    EndedAfter(s, t, BytesFor(plugin, direction));
  }

  /** In every interleaving of calls, nothing is lost and nothing is counted twice. */
  lemma {:induction false} CountersConserve(steps: seq<Step>)
    ensures Run(steps).Some? ==> Invariant(Run(steps).value)
  {
    hide Next, Enabled, IdsFresh, ActiveAccounted, PluginAccounted, NamedAccounted, BytesAccounted;
    hide PluginBytesAccounted, TotalsAccounted, PluginTotalAccounted;
    if steps == [] {
      NothingCounted();
    } else if Run(steps).Some? {
      var before, last := Run(steps[..|steps| - 1]).value, steps[|steps| - 1];
      CountersConserve(steps[..|steps| - 1]);
      KeepsIdsFresh(before, last);
      KeepsActive(before, last);
      KeepsNamed(before, last);
      forall plugin | plugin != "" ensures PluginAccounted(Next(before, last), plugin) {
        KeepsPlugin(before, last, plugin);
      }
      forall direction ensures BytesAccounted(Next(before, last), direction) {
        KeepsBytes(before, last, direction);
      }
      forall plugin, direction | plugin != "" ensures PluginBytesAccounted(Next(before, last), plugin, direction) {
        KeepsPluginBytes(before, last, plugin, direction);
      }
      KeepsTotals(before, last);
      forall plugin | plugin != "" ensures PluginTotalAccounted(Next(before, last), plugin) {
        KeepsPluginTotal(before, last, plugin);
      }
    }
  }

  lemma NothingCounted()
    ensures Invariant(INITIAL)
  {
  }

  // --- What follows ---

  lemma {:induction false} SessionsSplit(sessions: map<SessionId, Session>)
    ensures SumBy(sessions, One) == |sessions|
    ensures SumBy(sessions, One) == SumBy(sessions, IsNamed) + SumBy(sessions, BelongsTo(""))
    decreases |sessions|
  {
    if sessions != map[] {
      var id :| id in sessions;
      SumRemove(sessions, id, One);
      SumRemove(sessions, id, IsNamed);
      SumRemove(sessions, id, BelongsTo(""));
      assert sessions.Keys == (sessions - {id}).Keys + {id};
      SessionsSplit(sessions - {id});
    }
  }

  /**
    With no call running: the active connections are the live sessions, and those of the plugins
    together with the sessions that have none; every byte is a plugin's or unattributed; and a
    plugin's bytes are those of its sessions, live and ended, its total the sessions begun under its name.
    */
  lemma CountersAtRest(steps: seq<Step>)
    requires Run(steps).Some? && Run(steps).value.calls == map[]
    ensures var s := Run(steps).value;
            s.counters.active == |s.counters.sessions|
            && s.counters.active == SumBy(s.counters.plugins, ActiveIn) + SumBy(s.counters.sessions, BelongsTo(""))
            && (forall name <- s.counters.plugins :: name != "" ==>
                  s.counters.plugins[name].active == SumBy(s.counters.sessions, BelongsTo(name)))
            && (forall name <- s.counters.plugins, direction :: name != "" ==>
                  s.counters.plugins[name].bytes.In(direction)
                  == SumBy(s.counters.sessions, BytesFor(name, direction)) + SumBy(s.ended, BytesFor(name, direction)))
            && s.counters.total == s.counters.lastId == |s.begun|
            && (forall name <- s.counters.plugins :: name != "" ==>
                  s.counters.plugins[name].total == multiset(s.begun)[name])
            && s.counters.bytes.rx == SumBy(s.counters.plugins, BytesIn(Rx)) + s.unattributed.rx
            && s.counters.bytes.tx == SumBy(s.counters.plugins, BytesIn(Tx)) + s.unattributed.tx
  {
    CountersConserve(steps);
    var s := Run(steps).value;
    SessionsSplit(s.counters.sessions);
    assert BytesAccounted(s, Rx) && BytesAccounted(s, Tx);
    forall name | name in s.counters.plugins && name != ""
      ensures s.counters.plugins[name].active == SumBy(s.counters.sessions, BelongsTo(name))
    {
      assert PluginAccounted(s, name);
    }
    forall name | name in s.counters.plugins && name != ""
      ensures s.counters.plugins[name].total == multiset(s.begun)[name]
    {
      assert PluginTotalAccounted(s, name);
    }
    forall name, direction | name in s.counters.plugins && name != ""
      ensures s.counters.plugins[name].bytes.In(direction)
           == SumBy(s.counters.sessions, BytesFor(name, direction)) + SumBy(s.ended, BytesFor(name, direction))
    {
      assert PluginBytesAccounted(s, name, direction);
    }
  }

  /** While calls run: the active count exceeds the live sessions by the calls half way through. */
  lemma ActiveWhileRunning(steps: seq<Step>)
    requires Run(steps).Some?
    ensures var s := Run(steps).value;
            s.counters.active == |s.counters.sessions| + SumBy(s.calls, ActiveOnTheWay)
            && s.counters.active >= |s.counters.sessions|
  {
    CountersConserve(steps);
    SessionsSplit(Run(steps).value.counters.sessions);
    SumNonNegative(Run(steps).value.calls, ActiveOnTheWay);
  }

  /** Without the guard the counters would be the same in every run. */
  lemma GuardUnobservable(steps: seq<Step>, t: ThreadId)
    requires Run(steps).Some? && t in Run(steps).value.calls && Run(steps).value.calls[t].Uncounted?
    ensures var s := Run(steps).value;
            var p := PluginOf(s.counters, s.calls[t].name);
            Next(s, Proceed(t)).counters.plugins == s.counters.plugins[s.calls[t].name := p.(active := p.active - 1)]
  {
    CountersConserve(steps);
    GuardNeverFires(Run(steps).value, t);
  }

  /** A registered plugin has an entry, a new one of zeros; nothing else changes, and no name is no plugin. */
  lemma RegisteredPlugins(c: Counters, name: string, other: string)
    ensures name == "" ==> Registered(c, name) == c
    ensures name != "" ==> name in Registered(c, name).plugins
    ensures name != "" && name !in c.plugins ==> Registered(c, name).plugins[name] == Plugin(0, 0, Traffic(0, 0))
    ensures other in c.plugins ==>
      other in Registered(c, name).plugins && Registered(c, name).plugins[other] == c.plugins[other]
    ensures Registered(c, name).(plugins := c.plugins) == c
  {
  }

  lemma RegisteringIsAStep(s: State, name: string)
    ensures Enabled(s, Register(name)) && Next(s, Register(name)) == s.(counters := Registered(s.counters, name))
  {
  }

  // --- Uninterrupted calls ---

  lemma RunGoesOn(steps: seq<Step>, step: Step)
    requires Run(steps).Some? && Enabled(Run(steps).value, step)
    ensures Run(steps + [step]) == Some(Next(Run(steps).value, step))
  {
    hide Enabled, Next;
    assert (steps + [step])[..|steps|] == steps;
  }

  function Proceeds(t: ThreadId, n: nat): seq<Step> {
    if n == 0 then [] else [Proceed(t)] + Proceeds(t, n - 1)
  }

  /** A running call that nobody interrupts. */
  lemma {:induction false} CallCompletes(steps: seq<Step>, t: ThreadId) returns (n: nat)
    requires Run(steps).Some? && t in Run(steps).value.calls
    ensures Run(steps + Proceeds(t, n)).Some?
    ensures var s, after := Run(steps).value, Run(steps + Proceeds(t, n)).value;
            after.counters == Complete(s.counters, s.calls[t]) && after.calls == s.calls - {t}
    decreases StepsLeft(Run(steps).value.calls[t])
  {
    hide Run;
    var s := Run(steps).value;
    RunGoesOn(steps, Proceed(t));
    var (counters, rest) := Advance(s.counters, s.calls[t]);
    if rest.None? {
      n := 1;
      assert Proceeds(t, 1) == [Proceed(t)] + Proceeds(t, 0);
      assert [Proceed(t)] + [] == [Proceed(t)];
    } else {
      var m := CallCompletes(steps + [Proceed(t)], t);
      n := m + 1;
      assert steps + [Proceed(t)] + Proceeds(t, m) == steps + Proceeds(t, n);
      assert s.calls[t := rest.value] - {t} == s.calls - {t};
    }
  }

  lemma NothingRun()
    ensures Run([]) == Some(INITIAL)
  {
  }

  /** From every reachable state a call can be made, and be run to its end: it does what the object's method does. */
  lemma CallsCanBeMade(steps: seq<Step>, t: ThreadId, call: Call) returns (more: seq<Step>)
    requires Run(steps).Some? && t !in Run(steps).value.calls && (call.Starting? || call.Ending? || call.Adding?)
    ensures Run(steps + more).Some?
    ensures var s, after := Run(steps).value, Run(steps + more).value;
            after.counters == Complete(s.counters, call) && after.calls == s.calls
  {
    hide Run, Complete;
    var s := Run(steps).value;
    RunGoesOn(steps, Invoke(t, call));
    var n := CallCompletes(steps + [Invoke(t, call)], t);
    more := [Invoke(t, call)] + Proceeds(t, n);
    assert steps + [Invoke(t, call)] + Proceeds(t, n) == steps + more;
    assert s.calls[t := call] - {t} == s.calls;
  }
}
