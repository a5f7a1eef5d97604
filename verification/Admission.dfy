// WebSocket admission control: a connection limiter with idempotent release
// closures, behind a fixed-window rate limiter whose windows are pruned.

module Admission {
  import opened Sums

  type Ip = string

  /** Nanoseconds; 0 stands for Go's zero time. */
  type Instant = int

  const MINUTE: int := 60_000_000_000
  const WINDOW_TTL: int := 2 * MINUTE

  /** The three configured limits; one that is not positive is off. */
  datatype Limits = Limits(ratePerMinute: int, connections: int, connectionsPerIp: int)

  datatype Window = Window(start: Instant, count: int)

  /** The variables a release closure has captured. */
  datatype Grant = Grant(ip: Ip, released: bool)

  datatype State = State(
    active: int,
    activeByIp: map<Ip, int>,
    rateByIp: map<Ip, Window>,
    lastRatePrune: Instant,
    grants: seq<Grant>)

  datatype Outcome = Granted(id: nat) | RateLimited | Full | IpFull

  /** An index into a map that yields 0 for a missing key. */
  function Lookup(m: map<Ip, int>, ip: Ip): int {
    if ip in m then m[ip] else 0
  }

  predicate Expired(window: Window, now: Instant) {
    now - window.start >= WINDOW_TTL
  }

  function Unexpired(windows: map<Ip, Window>, now: Instant): map<Ip, Window> {
    map ip | ip in windows && !Expired(windows[ip], now) :: windows[ip]
  }

  /** pruneWebSocketRateWindowsLocked. */
  function Prune(s: State, now: Instant): State {
    if s.lastRatePrune == 0 then
      s.(lastRatePrune := now)
    else if now - s.lastRatePrune < MINUTE then
      s
    else
      s.(lastRatePrune := now, rateByIp := Unexpired(s.rateByIp, now))
  }

  /** The window a request is counted in, with the request counted. */
  function CountedWindow(s: State, ip: Ip, now: Instant): Window {
    if ip !in s.rateByIp || now - s.rateByIp[ip].start >= MINUTE then Window(now, 1)
    else s.rateByIp[ip].(count := s.rateByIp[ip].count + 1)
  }

  /** The rate limiter. */
  function CountRequest(limits: Limits, s: State, ip: Ip, now: Instant, pruning: bool): State {
    if limits.ratePerMinute <= 0 then
      s
    else
      var pruned := if pruning then Prune(s, now) else s;
      pruned.(rateByIp := pruned.rateByIp[ip := CountedWindow(pruned, ip, now)])
  }

  predicate OverRate(limits: Limits, s: State, ip: Ip) {
    limits.ratePerMinute > 0 && ip in s.rateByIp && s.rateByIp[ip].count > limits.ratePerMinute
  }

  /** The connection limiter. */
  function Connect(limits: Limits, s: State, ip: Ip): (State, Outcome) {
    if limits.connections > 0 && s.active >= limits.connections then
      (s, Full)
    else if limits.connectionsPerIp > 0 && Lookup(s.activeByIp, ip) >= limits.connectionsPerIp then
      (s, IpFull)
    else
      (s.(active := s.active + 1,
          activeByIp := s.activeByIp[ip := Lookup(s.activeByIp, ip) + 1],
          grants := s.grants + [Grant(ip, false)]),
       Granted(|s.grants|))
  }

  /** admitWebSocket; with pruning off it is the limiter that never forgets a window. */
  function Admit(limits: Limits, s: State, ip: Ip, now: Instant, pruning: bool): (State, Outcome) {
    var counted := CountRequest(limits, s, ip, now, pruning);
    if OverRate(limits, counted, ip) then (counted, RateLimited) else Connect(limits, counted, ip)
  }

  /** The release closure of a grant. */
  function Release(s: State, id: nat): State
    requires id < |s.grants|
  {
    var Grant(ip, released) := s.grants[id];
    if released then
      s
    else
      s.(grants := s.grants[id := Grant(ip, true)],
         active := if s.active > 0 then s.active - 1 else s.active,
         activeByIp := if Lookup(s.activeByIp, ip) <= 1 then s.activeByIp - {ip}
                       else s.activeByIp[ip := s.activeByIp[ip] - 1])
  }

  const START := State(0, map[], map[], 0, [])

  /** websocketSecurityState, with the closures it has handed out. */
  class WebSocketSecurity {
    const limits: Limits
    var active: int
    var activeByIp: map<Ip, int>
    var rateByIp: map<Ip, Window>
    var lastRatePrune: Instant
    var grants: seq<Grant>

    constructor (limits: Limits)
      ensures this.limits == limits && Contents() == START
    {
      this.limits := limits;
      active, activeByIp, rateByIp, lastRatePrune, grants := 0, map[], map[], 0, [];
    }

    ghost function Contents(): State
      reads this
    {
      State(active, activeByIp, rateByIp, lastRatePrune, grants)
    }

    method PruneRateWindows(now: Instant)
      modifies this`rateByIp, this`lastRatePrune
      ensures Contents() == Prune(old(Contents()), now)
    {
      if lastRatePrune == 0 {
        lastRatePrune := now;
        return;
      }
      if now - lastRatePrune < MINUTE {
        return;
      }
      lastRatePrune := now;
      var ips := rateByIp.Keys;
      while ips != {}
        invariant ips <= old(rateByIp).Keys && lastRatePrune == now
        invariant rateByIp == map ip | ip in old(rateByIp) && (ip in ips || !Expired(old(rateByIp)[ip], now))
                              :: old(rateByIp)[ip]
        decreases ips
      {
        var ip :| ip in ips;
        if Expired(rateByIp[ip], now) {
          rateByIp := rateByIp - {ip};
        }
        ips := ips - {ip};
      }
      assert rateByIp == Unexpired(old(rateByIp), now);
    }

    method AdmitWebSocket(ip: Ip, now: Instant) returns (outcome: Outcome)
      modifies this
      ensures (Contents(), outcome) == Admit(limits, old(Contents()), ip, now, true)
    {
      if limits.ratePerMinute > 0 {
        PruneRateWindows(now);
        var window := Window(now, 0);
        if ip in rateByIp && now - rateByIp[ip].start < MINUTE {
          window := rateByIp[ip];
        }
        window := window.(count := window.count + 1);
        rateByIp := rateByIp[ip := window];
        if window.count > limits.ratePerMinute {
          return RateLimited;
        }
      }
      if limits.connections > 0 && active >= limits.connections {
        return Full;
      }
      if limits.connectionsPerIp > 0 && Lookup(activeByIp, ip) >= limits.connectionsPerIp {
        return IpFull;
      }
      active := active + 1;
      activeByIp := activeByIp[ip := Lookup(activeByIp, ip) + 1];
      outcome := Granted(|grants|);
      grants := grants + [Grant(ip, false)];
    }

    method ReleaseWebSocket(id: nat)
      requires id < |grants|
      modifies this
      ensures Contents() == Release(old(Contents()), id)
    {
      var ip := grants[id].ip;
      if grants[id].released {
        return;
      }
      grants := grants[id := Grant(ip, true)];
      if active > 0 {
        active := active - 1;
      }
      if Lookup(activeByIp, ip) <= 1 {
        activeByIp := activeByIp - {ip};
        return;
      }
      activeByIp := activeByIp[ip := activeByIp[ip] - 1];
    }
  }

  // ---------------------------------------------------------------------- runs

  /** Events in lock order; a release names the grant whose closure is called, any number of times. */
  datatype Event = Request(ip: Ip, now: Instant) | Close(id: nat)

  /** One event; closing what was never granted is impossible and changes nothing. */
  function Apply(limits: Limits, s: State, e: Event, pruning: bool): State {
    match e
    case Request(ip, now) => Admit(limits, s, ip, now, pruning).0
    case Close(id) => if id < |s.grants| then Release(s, id) else s
  }

  function Run(limits: Limits, s: State, events: seq<Event>, pruning: bool): State
    decreases |events|
  {
    if events == [] then s else Run(limits, Apply(limits, s, events[0], pruning), events[1..], pruning)
  }

  /** The outcomes of the requests of a run, in order. */
  function Outcomes(limits: Limits, s: State, events: seq<Event>, pruning: bool): seq<Outcome>
    decreases |events|
  {
    if events == [] then
      []
    else
      (match events[0]
       case Request(ip, now) => [Admit(limits, s, ip, now, pruning).1]
       case Close(_) => [])
      + Outcomes(limits, Apply(limits, s, events[0], pruning), events[1..], pruning)
  }

  // -------------------------------------------------------------- conservation

  /** The grants not released yet. */
  function Live(grants: seq<Grant>): nat {
    if grants == [] then 0 else Live(grants[..|grants| - 1]) + (if grants[|grants| - 1].released then 0 else 1)
  }

  /** The grants of one address not released yet. */
  function LiveOf(grants: seq<Grant>, ip: Ip): nat {
    if grants == [] then
      0
    else
      var last := grants[|grants| - 1];
      LiveOf(grants[..|grants| - 1], ip) + (if last.ip == ip && !last.released then 1 else 0)
  }

  function Itself(n: int): int {
    n
  }

  ghost predicate WithinLimits(limits: Limits, s: State) {
    && (limits.connections > 0 ==> s.active <= limits.connections)
    && (limits.connectionsPerIp > 0 ==> forall ip <- s.activeByIp :: s.activeByIp[ip] <= limits.connectionsPerIp)
  }

  /** What the limiter conserves. */
  ghost predicate Conserved(limits: Limits, s: State) {
    && s.active == Live(s.grants)
    && s.active == SumBy(s.activeByIp, Itself)
    && (forall ip :: Lookup(s.activeByIp, ip) == LiveOf(s.grants, ip))
    && (forall ip <- s.activeByIp :: s.activeByIp[ip] > 0)
    && WithinLimits(limits, s)
  }

  lemma {:induction false} LiveAfterRelease(grants: seq<Grant>, id: nat, ip: Ip)
    requires id < |grants| && !grants[id].released
    ensures var after := grants[id := Grant(grants[id].ip, true)];
            && Live(after) == Live(grants) - 1
            && LiveOf(after, ip) == LiveOf(grants, ip) - (if ip == grants[id].ip then 1 else 0)
    decreases |grants|
  {
    var after := grants[id := Grant(grants[id].ip, true)];
    var last := |grants| - 1;
    if id == last {
      assert after[..last] == grants[..last];
    } else {
      LiveAfterRelease(grants[..last], id, ip);
      assert after[..last] == grants[..last][id := Grant(grants[id].ip, true)];
    }
  }

  lemma LiveAfterGrant(grants: seq<Grant>, ip: Ip, other: Ip)
    ensures Live(grants + [Grant(ip, false)]) == Live(grants) + 1
    ensures LiveOf(grants + [Grant(ip, false)], other) == LiveOf(grants, other) + (if other == ip then 1 else 0)
  {
    assert (grants + [Grant(ip, false)])[..|grants|] == grants;
  }

  lemma ConnectConserves(limits: Limits, s: State, ip: Ip)
    requires Conserved(limits, s)
    ensures Conserved(limits, Connect(limits, s, ip).0)
  {
    hide Live, LiveOf;
    var (after, outcome) := Connect(limits, s, ip);
    if outcome.Granted? {
      SumUpdate(s.activeByIp, ip, Lookup(s.activeByIp, ip) + 1, Itself);
      forall other
        ensures Lookup(after.activeByIp, other) == LiveOf(after.grants, other)
      {
        LiveAfterGrant(s.grants, ip, other);
        assert Lookup(s.activeByIp, other) == LiveOf(s.grants, other);
      }
      LiveAfterGrant(s.grants, ip, ip);
    }
  }

  lemma CountConserves(limits: Limits, s: State, ip: Ip, now: Instant, pruning: bool)
    requires Conserved(limits, s)
    ensures Conserved(limits, CountRequest(limits, s, ip, now, pruning))
  {
    hide CountedWindow, Unexpired;
  }

  lemma AdmitConserves(limits: Limits, s: State, ip: Ip, now: Instant, pruning: bool)
    requires Conserved(limits, s)
    ensures Conserved(limits, Admit(limits, s, ip, now, pruning).0)
  {
    hide Conserved, CountRequest, Connect, OverRate;
    CountConserves(limits, s, ip, now, pruning);
    ConnectConserves(limits, CountRequest(limits, s, ip, now, pruning), ip);
  }

  /** Neither guard of the release closure ever holds a real release back. */
  lemma ReleaseIsExact(limits: Limits, s: State, id: nat)
    requires Conserved(limits, s) && id < |s.grants| && !s.grants[id].released
    ensures var ip, after := s.grants[id].ip, Release(s, id);
            && after.active == s.active - 1
            && Lookup(after.activeByIp, ip) == Lookup(s.activeByIp, ip) - 1
            && (forall other | other != ip :: Lookup(after.activeByIp, other) == Lookup(s.activeByIp, other))
            && Release(after, id) == after
  {
    var ip := s.grants[id].ip;
    LiveAfterRelease(s.grants, id, ip);
    assert Lookup(s.activeByIp, ip) == LiveOf(s.grants, ip);
  }

  lemma ReleaseConserves(limits: Limits, s: State, id: nat)
    requires Conserved(limits, s) && id < |s.grants|
    ensures Conserved(limits, Release(s, id))
  {
    if !s.grants[id].released {
      var ip, after := s.grants[id].ip, Release(s, id);
      ReleaseIsExact(limits, s, id);
      forall other
        ensures Lookup(after.activeByIp, other) == LiveOf(after.grants, other)
      {
        LiveAfterRelease(s.grants, id, other);
        assert Lookup(s.activeByIp, other) == LiveOf(s.grants, other);
      }
      LiveAfterRelease(s.grants, id, ip);
      SumRemove(s.activeByIp, ip, Itself);
      SumUpdate(s.activeByIp, ip, Lookup(s.activeByIp, ip) - 1, Itself);
    }
  }

  lemma StartConserved(limits: Limits)
    ensures Conserved(limits, START)
  {
  }

  /** Over every run of requests and arbitrarily repeated releases. */
  lemma {:induction false} RunConserves(limits: Limits, s: State, events: seq<Event>, pruning: bool)
    requires Conserved(limits, s)
    ensures Conserved(limits, Run(limits, s, events, pruning))
    decreases |events|
  {
    hide Conserved, Admit, Release;
    if events != [] {
      match events[0] {
        case Request(ip, now) => AdmitConserves(limits, s, ip, now, pruning);
        case Close(id) =>
          if id < |s.grants| {
            ReleaseConserves(limits, s, id);
          }
      }
      RunConserves(limits, Apply(limits, s, events[0], pruning), events[1..], pruning);
    }
  }

  /**
   * In every state a limiter reaches: the active count is the number of
   * unreleased grants and the sum of the per-address counts, each of which is
   * positive and counts the unreleased grants of its address, and no limit that
   * is on is exceeded.
   */
  lemma AdmissionConservation(limits: Limits, events: seq<Event>)
    ensures var s := Run(limits, START, events, true);
            && s.active == Live(s.grants) == SumBy(s.activeByIp, Itself)
            && (forall ip :: Lookup(s.activeByIp, ip) == LiveOf(s.grants, ip))
            && (forall ip <- s.activeByIp :: s.activeByIp[ip] > 0)
            && WithinLimits(limits, s)
  {
    StartConserved(limits);
    RunConserves(limits, START, events, true);
  }

  // ------------------------------------------------------------------- pruning

  /** Every request is at most slack older than the latest one before it. */
  predicate AtMostLate(events: seq<Event>, latest: Instant, slack: int) {
    events == []
    || match events[0]
       case Request(_, now) =>
         now >= latest - slack && AtMostLate(events[1..], if now > latest then now else latest, slack)
       case Close(_) => AtMostLate(events[1..], latest, slack)
  }

  /** The time of the first request; any time will do before it. */
  function FirstTime(events: seq<Event>): Instant {
    if events == [] then 0
    else match events[0]
      case Request(_, now) => now
      case Close(_) => FirstTime(events[1..])
  }

  /** The pruned limiter lacks windows only that are too old to matter. */
  ghost predicate Forgets(p: State, u: State, latest: Instant) {
    && p.active == u.active && p.activeByIp == u.activeByIp && p.grants == u.grants
    && (forall ip <- p.rateByIp :: ip in u.rateByIp && u.rateByIp[ip] == p.rateByIp[ip])
    && (forall ip <- u.rateByIp :: ip in p.rateByIp || u.rateByIp[ip].start + WINDOW_TTL <= latest)
  }

  lemma PruneForgets(p: State, u: State, now: Instant, latest: Instant)
    requires Forgets(p, u, latest) && now <= latest
    ensures Forgets(Prune(p, now), u, latest)
  {
  }

  lemma CountForgets(limits: Limits, p: State, u: State, ip: Ip, now: Instant, latest: Instant)
    requires Forgets(p, u, latest) && latest - MINUTE <= now <= latest
    ensures var p', u' := CountRequest(limits, p, ip, now, true), CountRequest(limits, u, ip, now, false);
            Forgets(p', u', latest) && OverRate(limits, p', ip) == OverRate(limits, u', ip)
  {
    if limits.ratePerMinute > 0 {
      PruneForgets(p, u, now, latest);
      assert CountedWindow(Prune(p, now), ip, now) == CountedWindow(u, ip, now);
    }
  }

  lemma AdmitForgets(limits: Limits, p: State, u: State, ip: Ip, now: Instant, latest: Instant)
    requires Forgets(p, u, latest) && latest - MINUTE <= now <= latest
    ensures Admit(limits, p, ip, now, true).1 == Admit(limits, u, ip, now, false).1
    ensures Forgets(Admit(limits, p, ip, now, true).0, Admit(limits, u, ip, now, false).0, latest)
  {
    hide CountRequest, OverRate;
    CountForgets(limits, p, u, ip, now, latest);
  }

  lemma {:induction false} RunForgets(limits: Limits, p: State, u: State, events: seq<Event>, latest: Instant)
    requires Forgets(p, u, latest) && AtMostLate(events, latest, MINUTE)
    ensures Outcomes(limits, p, events, true) == Outcomes(limits, u, events, false)
    decreases |events|
  {
    hide Admit;
    if events != [] {
      match events[0]
      case Request(ip, now) =>
        var newest := if now > latest then now else latest;
        AdmitForgets(limits, p, u, ip, now, newest);
        RunForgets(limits, Admit(limits, p, ip, now, true).0, Admit(limits, u, ip, now, false).0, events[1..], newest);
      case Close(id) =>
        RunForgets(limits, Apply(limits, p, events[0], true), Apply(limits, u, events[0], false), events[1..], latest);
    }
  }

  /**
   * As long as no request is more than one minute older than the latest one
   * before it, no outcome of any run shows whether windows are pruned.
   */
  lemma PruningUnobservable(limits: Limits, events: seq<Event>)
    requires AtMostLate(events, FirstTime(events), MINUTE)
    ensures Outcomes(limits, START, events, true) == Outcomes(limits, START, events, false)
  {
    RunForgets(limits, START, START, events, FirstTime(events));
  }

  lemma RequestFirst(limits: Limits, s: State, e: Event, rest: seq<Event>, pruning: bool, latest: Instant, slack: int)
    requires e.Request?
    ensures Outcomes(limits, s, [e] + rest, pruning)
         == [Admit(limits, s, e.ip, e.now, pruning).1] + Outcomes(limits, Apply(limits, s, e, pruning), rest, pruning)
    ensures AtMostLate([e] + rest, latest, slack)
         <==> e.now >= latest - slack && AtMostLate(rest, if e.now > latest then e.now else latest, slack)
  {
    hide Admit;
    assert ([e] + rest)[1..] == rest;
  }

  lemma {:induction false} SlackGrows(events: seq<Event>, latest: Instant, slack: int, more: int)
    requires AtMostLate(events, latest, slack) && slack <= more
    ensures AtMostLate(events, latest, more)
    decreases |events|
  {
    if events != [] {
      match events[0]
      case Request(_, now) => SlackGrows(events[1..], if now > latest then now else latest, slack, more);
      case Close(_) => SlackGrows(events[1..], latest, slack, more);
    }
  }

  /**
   * One minute is all the slack there is: for every larger one there is a run
   * on which the pruned limiter admits a request that the other rejects.
   */
  lemma PruningObservable(extra: int) returns (limits: Limits, events: seq<Event>)
    requires 0 < extra
    ensures AtMostLate(events, FirstTime(events), MINUTE + extra)
    ensures Outcomes(limits, START, events, true) == [Granted(0), Granted(1), Granted(2)]
    ensures Outcomes(limits, START, events, false) == [Granted(0), Granted(1), RateLimited]
  {
    var late := if extra < MINUTE then extra else MINUTE;
    limits := Limits(1, 0, 0);
    var a, b, c := Request("a", 1), Request("b", 1 + WINDOW_TTL), Request("a", 1 + MINUTE - late);
    events := [a, b, c];
    var slack := MINUTE + late;
    assert [a] + ([b] + ([c] + [])) == events;
    RequestFirst(limits, START, a, [b] + ([c] + []), true, 1, slack);
    RequestFirst(limits, START, a, [b] + ([c] + []), false, 1, slack);
    var p, u := Apply(limits, START, a, true), Apply(limits, START, a, false);
    RequestFirst(limits, p, b, [c] + [], true, 1, slack);
    RequestFirst(limits, u, b, [c] + [], false, 1, slack);
    RequestFirst(limits, Apply(limits, p, b, true), c, [], true, b.now, slack);
    RequestFirst(limits, Apply(limits, u, b, false), c, [], false, b.now, slack);
    SlackGrows(events, FirstTime(events), slack, MINUTE + extra);
  }

  /** No run whose requests are at most that late shows whether windows are pruned. */
  ghost predicate HidesPruning(slack: int) {
    forall limits, events | AtMostLate(events, FirstTime(events), slack) ::
      Outcomes(limits, START, events, true) == Outcomes(limits, START, events, false)
  }

  /** The exact clock assumption behind the two-minute lifetime of a one-minute window. */
  lemma PruningHidden(slack: int)
    ensures HidesPruning(slack) <==> slack <= MINUTE
  {
    if slack <= MINUTE {
      forall limits, events | AtMostLate(events, FirstTime(events), slack)
        ensures Outcomes(limits, START, events, true) == Outcomes(limits, START, events, false)
      {
        SlackGrows(events, FirstTime(events), slack, MINUTE);
        PruningUnobservable(limits, events);
      }
    } else {
      var limits, events := PruningObservable(slack - MINUTE);
    }
  }

  // ------------------------------------------------------- the sliding window

  /** The number of connections of one address granted at times in [from, to). */
  function GrantedIn(limits: Limits, s: State, events: seq<Event>, pruning: bool, ip: Ip, from: Instant, to: Instant)
    : nat
    decreases |events|
  {
    if events == [] then
      0
    else
      (if && events[0].Request? && events[0].ip == ip && from <= events[0].now < to
          && Admit(limits, s, ip, events[0].now, pruning).1.Granted? then 1 else 0)
      + GrantedIn(limits, Apply(limits, s, events[0], pruning), events[1..], pruning, ip, from, to)
  }

  lemma {:induction false} SameGrants(limits: Limits, p: State, u: State, events: seq<Event>, latest: Instant,
                                      ip: Ip, from: Instant, to: Instant)
    requires Forgets(p, u, latest) && AtMostLate(events, latest, MINUTE)
    ensures GrantedIn(limits, p, events, true, ip, from, to) == GrantedIn(limits, u, events, false, ip, from, to)
    decreases |events|
  {
    hide Admit;
    if events != [] {
      match events[0]
      case Request(other, now) =>
        var newest := if now > latest then now else latest;
        AdmitForgets(limits, p, u, other, now, newest);
        SameGrants(limits, Admit(limits, p, other, now, true).0, Admit(limits, u, other, now, false).0, events[1..],
                   newest, ip, from, to);
      case Close(id) =>
        SameGrants(limits, Apply(limits, p, events[0], true), Apply(limits, u, events[0], false), events[1..],
                   latest, ip, from, to);
    }
  }

  /**
   * How many grants of one address since from the current window of the address
   * allows for: the window that was open at from leaves room for all but its
   * first request, and every later window starts at least a minute after the
   * one before it.
   */
  function Allowance(limit: int, from: Instant, window: Window): int {
    var counted := if window.count < limit then window.count else limit;
    if window.start < from then counted - 1
    else limit - 1 + limit * ((window.start - from) / MINUTE) + counted
  }

  /** The grants since from that the limiter's state accounts for. */
  ghost predicate Accounts(limit: int, s: State, ip: Ip, from: Instant, granted: nat, latest: Instant) {
    && (latest < from ==> granted == 0)
    && (ip !in s.rateByIp ==> granted == 0)
    && (ip in s.rateByIp ==> && 1 <= s.rateByIp[ip].count
                             && s.rateByIp[ip].start <= latest
                             && granted <= Allowance(limit, from, s.rateByIp[ip]))
  }

  lemma Multiply(limit: int, less: int, more: int)
    requires 0 <= limit && less <= more
    ensures limit * less <= limit * more
  {
  }

  lemma MinuteLater(x: int, y: int)
    requires 0 <= x && x + MINUTE <= y
    ensures x / MINUTE + 1 <= y / MINUTE
  {
  }

  /** A new window allows for one grant more than the window it replaces. */
  lemma NewWindowAllowance(limit: int, from: Instant, window: Window, now: Instant)
    requires limit > 0 && now - window.start >= MINUTE && from <= now
    ensures Allowance(limit, from, window) + 1 <= Allowance(limit, from, Window(now, 1))
  {
    if from <= window.start {
      MinuteLater(window.start - from, now - from);
      Multiply(limit, (window.start - from) / MINUTE + 1, (now - from) / MINUTE);
    } else {
      Multiply(limit, 0, (now - from) / MINUTE);
    }
  }

  lemma AllowanceGrows(limit: int, from: Instant, window: Window)
    requires limit > 0 && window.count >= 1
    ensures var more := window.(count := window.count + 1);
            && Allowance(limit, from, window) <= Allowance(limit, from, more)
            && (window.count < limit ==> Allowance(limit, from, window) + 1 <= Allowance(limit, from, more))
  {
  }

  /** Counting one request keeps the account, whether or not it is then granted. */
  lemma CountAccounts(limits: Limits, s: State, ip: Ip, from: Instant, granted: nat, latest: Instant, now: Instant)
    requires limits.ratePerMinute > 0 && latest <= now
    requires Accounts(limits.ratePerMinute, s, ip, from, granted, latest)
    ensures var counted := CountRequest(limits, s, ip, now, false);
            var limit := limits.ratePerMinute;
            && (Accounts(limit, counted, ip, from, granted, now))
            && (!OverRate(limits, counted, ip) && from <= now ==> Accounts(limit, counted, ip, from, granted + 1, now))
  {
    var limit := limits.ratePerMinute;
    FirstAllowance(limit, from, now);
    hide Allowance;
    if ip in s.rateByIp {
      var window := s.rateByIp[ip];
      if now - window.start < MINUTE {
        AllowanceGrows(limit, from, window);
      } else if from <= now {
        NewWindowAllowance(limit, from, window, now);
      }
    }
  }

  lemma FirstAllowance(limit: int, from: Instant, now: Instant)
    requires limit > 0
    ensures 0 <= Allowance(limit, from, Window(now, 1))
    ensures from <= now ==> 1 <= Allowance(limit, from, Window(now, 1))
  {
    if from <= now {
      Multiply(limit, 0, (now - from) / MINUTE);
    }
  }

  /** A window that starts less than k minutes after from allows for no more than the bound. */
  lemma AllowanceBound(limit: int, from: Instant, window: Window, k: nat)
    requires limit > 0 && window.start < from + k * MINUTE
    ensures Allowance(limit, from, window) <= (k + 1) * limit - 1
  {
    if from <= window.start {
      assert (window.start - from) / MINUTE <= k - 1;
      Multiply(limit, (window.start - from) / MINUTE, k - 1);
    } else {
      Multiply(limit, 0, k);
    }
  }

  lemma AdmitRates(limits: Limits, s: State, ip: Ip, now: Instant)
    ensures var (after, outcome) := Admit(limits, s, ip, now, false);
            && after.rateByIp == CountRequest(limits, s, ip, now, false).rateByIp
            && (outcome.Granted? ==> !OverRate(limits, CountRequest(limits, s, ip, now, false), ip))
            && (limits.ratePerMinute > 0 ==>
                  && ip in after.rateByIp
                  && (after.rateByIp[ip].start == now
                       || (ip in s.rateByIp && after.rateByIp[ip].start == s.rateByIp[ip].start))
                  && forall other | other != ip ::
                       && (other in after.rateByIp <==> other in s.rateByIp)
                       && (other in s.rateByIp ==> after.rateByIp[other] == s.rateByIp[other]))
  {
  }

  /** One request against the account of an address. */
  lemma RequestAccounts(limits: Limits, s: State, other: Ip, now: Instant, latest: Instant,
                        ip: Ip, from: Instant, k: nat, granted: nat)
    returns (more: nat)
    requires limits.ratePerMinute > 0 && latest <= now
    requires Accounts(limits.ratePerMinute, s, ip, from, granted, latest)
    requires granted <= (k + 1) * limits.ratePerMinute - 1
    ensures more == if && other == ip && from <= now < from + k * MINUTE
                       && Admit(limits, s, other, now, false).1.Granted? then granted + 1 else granted
    ensures Accounts(limits.ratePerMinute, Admit(limits, s, other, now, false).0, ip, from, more, now)
    ensures more <= (k + 1) * limits.ratePerMinute - 1
  {
    var after := Admit(limits, s, other, now, false).0;
    AdmitRates(limits, s, other, now);
    more := granted;
    if other == ip {
      CountAccounts(limits, s, ip, from, granted, latest, now);
      if from <= now < from + k * MINUTE && Admit(limits, s, other, now, false).1.Granted? {
        more := granted + 1;
        AllowanceBound(limits.ratePerMinute, from, after.rateByIp[ip], k);
      }
    }
  }

  lemma {:induction false} RunAccounts(limits: Limits, s: State, events: seq<Event>, latest: Instant,
                                       ip: Ip, from: Instant, k: nat, granted: nat)
    requires limits.ratePerMinute > 0 && AtMostLate(events, latest, 0)
    requires Accounts(limits.ratePerMinute, s, ip, from, granted, latest)
    requires granted <= (k + 1) * limits.ratePerMinute - 1
    ensures granted + GrantedIn(limits, s, events, false, ip, from, from + k * MINUTE)
         <= (k + 1) * limits.ratePerMinute - 1
    decreases |events|
  {
    hide Admit, Accounts, Release;
    if events != [] {
      match events[0]
      case Request(other, now) =>
        var more := RequestAccounts(limits, s, other, now, latest, ip, from, k, granted);
        RunAccounts(limits, Admit(limits, s, other, now, false).0, events[1..], now, ip, from, k, more);
      case Close(id) =>
        CloseAccounts(limits, s, id, latest, ip, from, granted);
        RunAccounts(limits, Apply(limits, s, events[0], false), events[1..], latest, ip, from, k, granted);
    }
  }

  lemma CloseAccounts(limits: Limits, s: State, id: nat, latest: Instant, ip: Ip, from: Instant, granted: nat)
    requires Accounts(limits.ratePerMinute, s, ip, from, granted, latest)
    ensures Accounts(limits.ratePerMinute, Apply(limits, s, Close(id), false), ip, from, granted, latest)
  {
  }

  /**
   * With times that never decrease, any half-open interval of k minutes grants
   * at most (k + 1) * ratePerMinute - 1 connections to one address, on every
   * run of the pruning limiter.
   */
  lemma SlidingWindowBound(limits: Limits, events: seq<Event>, ip: Ip, from: Instant, k: nat)
    requires limits.ratePerMinute > 0 && AtMostLate(events, FirstTime(events), 0)
    ensures GrantedIn(limits, START, events, true, ip, from, from + k * MINUTE)
         <= (k + 1) * limits.ratePerMinute - 1
  {
    var latest := FirstTime(events);
    SlackGrows(events, latest, 0, MINUTE);
    SameGrants(limits, START, START, events, latest, ip, from, from + k * MINUTE);
    Multiply(limits.ratePerMinute, 1, k + 1);
    RunAccounts(limits, START, events, latest, ip, from, k, 0);
  }

  // ---------------------------------------------------- the bound is the best one

  /** n requests of one address at one time. */
  function Burst(ip: Ip, now: Instant, n: nat): (events: seq<Event>)
    ensures |events| == n
  {
    if n == 0 then [] else [Request(ip, now)] + Burst(ip, now, n - 1)
  }

  /** Bursts of limit requests each, one a minute. */
  function Bursts(ip: Ip, first: Instant, limit: nat, minutes: nat): seq<Event>
    decreases minutes
  {
    if minutes == 0 then [] else Burst(ip, first, limit) + Bursts(ip, first + MINUTE, limit, minutes - 1)
  }

  lemma {:induction false} BurstInOrder(ip: Ip, now: Instant, n: nat, rest: seq<Event>, latest: Instant)
    requires latest <= now && AtMostLate(rest, now, 0)
    ensures n > 0 ==> AtMostLate(Burst(ip, now, n) + rest, latest, 0)
    decreases n
  {
    if n > 0 {
      BurstInOrder(ip, now, n - 1, rest, now);
      var more := Burst(ip, now, n - 1) + rest;
      assert n == 1 ==> more == rest;
      assert Burst(ip, now, n) + rest == [Request(ip, now)] + more;
      assert ([Request(ip, now)] + more)[1..] == more;
    }
  }

  lemma {:induction false} BurstsInOrder(ip: Ip, first: Instant, limit: nat, minutes: nat, latest: Instant)
    requires limit > 0 && latest <= first
    ensures AtMostLate(Bursts(ip, first, limit, minutes), latest, 0)
    decreases minutes
  {
    if minutes > 0 {
      BurstsInOrder(ip, first + MINUTE, limit, minutes - 1, first);
      BurstInOrder(ip, first, limit, Bursts(ip, first + MINUTE, limit, minutes - 1), latest);
    }
  }

  /** A burst that fits into the current window of its address is granted in full. */
  lemma {:induction false} BurstGranted(limits: Limits, s: State, ip: Ip, now: Instant, n: nat, rest: seq<Event>,
                                        from: Instant, to: Instant)
    returns (after: State)
    requires limits.ratePerMinute > 0 && limits.connections <= 0 && limits.connectionsPerIp <= 0
    requires from <= now < to
    requires ip in s.rateByIp && now - s.rateByIp[ip].start < MINUTE
    requires s.rateByIp[ip].count + n <= limits.ratePerMinute
    ensures ip in after.rateByIp && after.rateByIp[ip] == s.rateByIp[ip].(count := s.rateByIp[ip].count + n)
    ensures GrantedIn(limits, s, Burst(ip, now, n) + rest, false, ip, from, to)
         == n + GrantedIn(limits, after, rest, false, ip, from, to)
    decreases n
  {
    after := s;
    if n == 0 {
      assert Burst(ip, now, 0) + rest == rest;
    } else {
      var more := Burst(ip, now, n - 1) + rest;
      assert Burst(ip, now, n) + rest == [Request(ip, now)] + more;
      assert ([Request(ip, now)] + more)[1..] == more;
      after := BurstGranted(limits, Admit(limits, s, ip, now, false).0, ip, now, n - 1, rest, from, to);
    }
  }

  /** So is one that opens a new window. */
  lemma NewWindowGranted(limits: Limits, s: State, ip: Ip, now: Instant, n: nat, rest: seq<Event>,
                         from: Instant, to: Instant)
    returns (after: State)
    requires 0 < n <= limits.ratePerMinute && limits.connections <= 0 && limits.connectionsPerIp <= 0
    requires from <= now < to
    requires ip in s.rateByIp ==> now - s.rateByIp[ip].start >= MINUTE
    ensures ip in after.rateByIp && after.rateByIp[ip] == Window(now, n)
    ensures GrantedIn(limits, s, Burst(ip, now, n) + rest, false, ip, from, to)
         == n + GrantedIn(limits, after, rest, false, ip, from, to)
  {
    var more := Burst(ip, now, n - 1) + rest;
    assert Burst(ip, now, n) + rest == [Request(ip, now)] + more;
    assert ([Request(ip, now)] + more)[1..] == more;
    after := BurstGranted(limits, Admit(limits, s, ip, now, false).0, ip, now, n - 1, rest, from, to);
  }

  lemma {:induction false} BurstsGranted(limits: Limits, s: State, ip: Ip, first: Instant, minutes: nat,
                                         from: Instant, to: Instant)
    requires limits.ratePerMinute > 0 && limits.connections <= 0 && limits.connectionsPerIp <= 0
    requires from <= first && first + minutes * MINUTE < to + MINUTE
    requires ip in s.rateByIp ==> first - s.rateByIp[ip].start >= MINUTE
    ensures GrantedIn(limits, s, Bursts(ip, first, limits.ratePerMinute, minutes), false, ip, from, to)
         == minutes * limits.ratePerMinute
    decreases minutes
  {
    hide Admit, Burst, GrantedIn;
    NothingGranted(limits, s, ip, from, to);
    if minutes > 0 {
      var more := Bursts(ip, first + MINUTE, limits.ratePerMinute, minutes - 1);
      var after := NewWindowGranted(limits, s, ip, first, limits.ratePerMinute, more, from, to);
      BurstsGranted(limits, after, ip, first + MINUTE, minutes - 1, from, to);
      assert minutes * limits.ratePerMinute == limits.ratePerMinute + (minutes - 1) * limits.ratePerMinute;
    }
  }

  lemma NothingGranted(limits: Limits, s: State, ip: Ip, from: Instant, to: Instant)
    ensures GrantedIn(limits, s, [], false, ip, from, to) == 0
  {
  }

  /** No smaller bound holds: for every rate and every k there is a run that reaches this one. */
  lemma SlidingWindowBoundReached(rate: nat, k: nat) returns (limits: Limits, events: seq<Event>)
    requires rate > 0 && k > 0
    ensures limits.ratePerMinute == rate && AtMostLate(events, FirstTime(events), 0)
    ensures GrantedIn(limits, START, events, true, "a", 2, 2 + k * MINUTE) == (k + 1) * rate - 1
  {
    limits := Limits(rate, 0, 0);
    var to := 2 + k * MINUTE;
    var later := Bursts("a", 1 + MINUTE, rate, k);
    var filling := Burst("a", 2, rate - 1) + later;
    events := [Request("a", 1)] + filling;
    assert events[1..] == filling;
    BurstsInOrder("a", 1 + MINUTE, rate, k, 2);
    BurstsInOrder("a", 1 + MINUTE, rate, k, 1);
    BurstInOrder("a", 2, rate - 1, later, 1);
    assert rate == 1 ==> filling == later;
    var s := Admit(limits, START, "a", 1, false).0;
    var after := BurstGranted(limits, s, "a", 2, rate - 1, later, 2, to);
    BurstsGranted(limits, after, "a", 1 + MINUTE, k, 2, to);
    SlackGrows(events, 1, 0, MINUTE);
    SameGrants(limits, START, START, events, 1, "a", 2, to);
  }
}
