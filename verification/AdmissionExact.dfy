// Exactly which requests are admitted, and for how long the limiter remembers an address.

module AdmissionExact {
  import opened Sums
  import opened Admission

  /** Times are in nanoseconds. */
  lemma OneMinute()
    ensures MINUTE == 60 * 1_000_000_000 && WINDOW_TTL == 120 * 1_000_000_000
  {
  }

  // --- The decision on one request ---

  /** The requests the current window of the address has counted, this one included. */
  function Counted(s: State, ip: Ip, now: Instant, pruning: bool): int {
    CountedWindow(if pruning then Prune(s, now) else s, ip, now).count
  }

  /**
   * A request is granted unless its window has counted more than the rate, or
   * as many grants are unreleased as there may be connections, altogether or
   * from its address; a limit of zero or less is off.
   */
  lemma AdmitExactly(limits: Limits, events: seq<Event>, ip: Ip, now: Instant)
    ensures var s := Run(limits, START, events, true);
            Admit(limits, s, ip, now, true).1
            == if limits.ratePerMinute > 0 && Counted(s, ip, now, true) > limits.ratePerMinute then RateLimited
               else if limits.connections > 0 && Live(s.grants) >= limits.connections then Full
               else if limits.connectionsPerIp > 0 && LiveOf(s.grants, ip) >= limits.connectionsPerIp then IpFull
               else Granted(|s.grants|)
    ensures var s := Run(limits, START, events, true);
            var (after, outcome) := Admit(limits, s, ip, now, true);
            after.grants == if outcome.Granted? then s.grants + [Grant(ip, false)] else s.grants
  {
    hide Run;
    AdmissionConservation(limits, events);
    var s := Run(limits, START, events, true);
    assert Lookup(s.activeByIp, ip) == LiveOf(s.grants, ip);
  }

  /** In every run a grant is released if and only if its closure has been called. */
  lemma {:induction false} ReleasedByClosing(limits: Limits, s: State, events: seq<Event>, id: nat, pruning: bool)
    requires id < |s.grants|
    ensures var after := Run(limits, s, events, pruning).grants;
            && id < |after| && after[id].ip == s.grants[id].ip
            && (after[id].released <==> s.grants[id].released || Close(id) in events)
    decreases |events|
  {
    hide Apply;
    if events != [] {
      assert events == [events[0]] + events[1..];
      ReleasedByOne(limits, s, events[0], id, pruning);
      ReleasedByClosing(limits, Apply(limits, s, events[0], pruning), events[1..], id, pruning);
    }
  }

  lemma ReleasedByOne(limits: Limits, s: State, event: Event, id: nat, pruning: bool)
    requires id < |s.grants|
    ensures var after := Apply(limits, s, event, pruning).grants;
            && id < |after| && after[id].ip == s.grants[id].ip
            && (after[id].released <==> s.grants[id].released || event == Close(id))
  {
  }

  /** With the rate limit off no address is remembered. */
  lemma {:induction false} NothingRemembered(limits: Limits, s: State, events: seq<Event>, pruning: bool)
    requires limits.ratePerMinute <= 0
    ensures var after := Run(limits, s, events, pruning);
            after.rateByIp == s.rateByIp && after.lastRatePrune == s.lastRatePrune
    decreases |events|
  {
    if events != [] {
      NothingRemembered(limits, Apply(limits, s, events[0], pruning), events[1..], pruning);
    }
  }

  // --- The limits are reached ---

  lemma {:induction false} FillsUp(limits: Limits, s: State, ip: Ip, now: Instant, n: nat)
    requires limits.ratePerMinute <= 0 && Conserved(limits, s)
    requires limits.connections > 0 ==> s.active + n <= limits.connections
    requires limits.connectionsPerIp > 0 ==> LiveOf(s.grants, ip) + n <= limits.connectionsPerIp
    ensures var after := Run(limits, s, Burst(ip, now, n), true);
            && Conserved(limits, after) && after.active == s.active + n
            && LiveOf(after.grants, ip) == LiveOf(s.grants, ip) + n
    ensures Outcomes(limits, s, Burst(ip, now, n), true) == seq(n, i requires 0 <= i => Granted(|s.grants| + i))
    decreases n
  {
    hide Conserved;
    if n > 0 {
      var one := GrantsOne(limits, s, ip, now);
      FillsUp(limits, one, ip, now, n - 1);
      assert Burst(ip, now, n)[1..] == Burst(ip, now, n - 1);
    }
  }

  lemma GrantsOne(limits: Limits, s: State, ip: Ip, now: Instant) returns (after: State)
    requires limits.ratePerMinute <= 0 && Conserved(limits, s)
    requires limits.connections > 0 ==> s.active + 1 <= limits.connections
    requires limits.connectionsPerIp > 0 ==> LiveOf(s.grants, ip) + 1 <= limits.connectionsPerIp
    ensures Admit(limits, s, ip, now, true) == (after, Granted(|s.grants|))
    ensures Conserved(limits, after) && after.active == s.active + 1 && |after.grants| == |s.grants| + 1
    ensures LiveOf(after.grants, ip) == LiveOf(s.grants, ip) + 1
  {
    after := Admit(limits, s, ip, now, true).0;
    AdmitConserves(limits, s, ip, now, true);
    LiveAfterGrant(s.grants, ip, ip);
  }

  /** Every positive limit lets exactly as many connections in, and then turns the next one away. */
  lemma LimitsReached(n: nat, ip: Ip, now: Instant)
    requires n > 0
    ensures Outcomes(Limits(0, n, 0), START, Burst(ip, now, n), true) == seq(n, i requires 0 <= i => Granted(i))
    ensures var s := Run(Limits(0, n, 0), START, Burst(ip, now, n), true);
            s.active == n && Admit(Limits(0, n, 0), s, ip, now, true).1 == Full
    ensures Outcomes(Limits(0, 0, n), START, Burst(ip, now, n), true) == seq(n, i requires 0 <= i => Granted(i))
    ensures var s := Run(Limits(0, 0, n), START, Burst(ip, now, n), true);
            s.active == n && Admit(Limits(0, 0, n), s, ip, now, true).1 == IpFull
  {
    hide Outcomes, Run, Burst, Admit;
    LimitReached(Limits(0, n, 0), n, ip, now);
    LimitReached(Limits(0, 0, n), n, ip, now);
  }

  lemma LimitReached(limits: Limits, n: nat, ip: Ip, now: Instant)
    requires n > 0 && (limits == Limits(0, n, 0) || limits == Limits(0, 0, n))
    ensures Outcomes(limits, START, Burst(ip, now, n), true) == seq(n, i requires 0 <= i => Granted(i))
    ensures var s := Run(limits, START, Burst(ip, now, n), true);
            s.active == n && Admit(limits, s, ip, now, true).1 == if limits.connections > 0 then Full else IpFull
  {
    hide Outcomes, Run, Burst;
    StartConserved(limits);
    assert LiveOf(START.grants, ip) == 0;
    FillsUp(limits, START, ip, now, n);
    var s := Run(limits, START, Burst(ip, now, n), true);
    assert Lookup(s.activeByIp, ip) == LiveOf(s.grants, ip);
    var outcomes := Outcomes(limits, START, Burst(ip, now, n), true);
    assert outcomes == seq(n, i requires 0 <= i => Granted(i));
  }

  // --- How long an address is remembered ---

  /** No window is older than this when requests come in order. */
  ghost predicate Fresh(s: State, latest: Instant) {
    if s.lastRatePrune == 0 then s.rateByIp == map[]
    else
      && s.lastRatePrune <= latest < s.lastRatePrune + MINUTE
      && forall ip <- s.rateByIp :: s.rateByIp[ip].start > s.lastRatePrune - 2 * MINUTE
  }

  lemma RequestKeepsFresh(limits: Limits, s: State, ip: Ip, now: Instant, latest: Instant)
    requires limits.ratePerMinute > 0 && Fresh(s, latest) && latest <= now && now > 0
    ensures Fresh(Admit(limits, s, ip, now, true).0, now)
  {
    PruneKeepsFresh(s, now, latest);
    var counted := CountRequest(limits, s, ip, now, true);
    assert Fresh(counted, now);
    assert Admit(limits, s, ip, now, true).0.rateByIp == counted.rateByIp;
  }

  lemma PruneKeepsFresh(s: State, now: Instant, latest: Instant)
    requires Fresh(s, latest) && latest <= now && now > 0
    ensures Fresh(Prune(s, now), now) && Prune(s, now).lastRatePrune > now - MINUTE
  {
  }

  /** The time of the last request. */
  function LastTime(events: seq<Event>, latest: Instant): Instant
    decreases |events|
  {
    if events == [] then latest
    else match events[0]
      case Request(_, now) => LastTime(events[1..], now)
      case Close(_) => LastTime(events[1..], latest)
  }

  lemma {:induction false} RunKeepsFresh(limits: Limits, s: State, events: seq<Event>, latest: Instant)
    requires limits.ratePerMinute > 0 && latest > 0 && Fresh(s, latest) && AtMostLate(events, latest, 0)
    ensures Fresh(Run(limits, s, events, true), LastTime(events, latest))
    decreases |events|
  {
    hide Admit, Fresh;
    if events != [] {
      match events[0]
      case Request(ip, now) =>
        RequestKeepsFresh(limits, s, ip, now, latest);
        RunKeepsFresh(limits, Admit(limits, s, ip, now, true).0, events[1..], now);
      case Close(id) =>
        CloseKeepsFresh(limits, s, id, latest);
        RunKeepsFresh(limits, Apply(limits, s, events[0], true), events[1..], latest);
    }
  }

  lemma CloseKeepsFresh(limits: Limits, s: State, id: nat, latest: Instant)
    requires Fresh(s, latest)
    ensures Fresh(Apply(limits, s, Close(id), true), latest)
  {
  }

  /** After requests in order, every address still remembered opened its window less than three minutes ago. */
  lemma MemoryBound(limits: Limits, events: seq<Event>)
    requires limits.ratePerMinute > 0 && FirstTime(events) > 0 && AtMostLate(events, FirstTime(events), 0)
    ensures var s := Run(limits, START, events, true);
            forall ip <- s.rateByIp ::
              LastTime(events, FirstTime(events)) - s.rateByIp[ip].start <= 3 * MINUTE - 2
  {
    RunKeepsFresh(limits, START, events, FirstTime(events));
  }

  lemma InOrder(events: seq<Event>)
    requires events == [Request("a", 1), Request("b", 2 * MINUTE), Request("c", 3 * MINUTE - 1)]
    ensures FirstTime(events) == 1 && LastTime(events, 1) == 3 * MINUTE - 1 && AtMostLate(events, 1, 0)
  {
    var b, c := Request("b", 2 * MINUTE), Request("c", 3 * MINUTE - 1);
    assert events[1..] == [b, c] && [b, c][1..] == [c] && [c][1..] == [];
    assert AtMostLate([c], 2 * MINUTE, 0) && LastTime([c], 2 * MINUTE) == 3 * MINUTE - 1;
    assert AtMostLate([b, c], 1, 0) && LastTime([b, c], 1) == 3 * MINUTE - 1;
  }

  /** And some address is remembered for that long. */
  lemma MemoryBoundReached(limits: Limits)
    requires limits.ratePerMinute > 0
    ensures var events := [Request("a", 1), Request("b", 2 * MINUTE), Request("c", 3 * MINUTE - 1)];
            var s := Run(limits, START, events, true);
            && AtMostLate(events, FirstTime(events), 0) && "a" in s.rateByIp
            && LastTime(events, FirstTime(events)) - s.rateByIp["a"].start == 3 * MINUTE - 2
  {
    var a, b, c := Request("a", 1), Request("b", 2 * MINUTE), Request("c", 3 * MINUTE - 1);
    var events := [a, b, c];
    assert events[1..] == [b, c] && [b, c][1..] == [c] && [c][1..] == [];
    InOrder(events);
    var s1 := Admit(limits, START, "a", 1, true).0;
    assert s1.lastRatePrune == 1 && s1.rateByIp == map["a" := Window(1, 1)];
    var s2 := Admit(limits, s1, "b", 2 * MINUTE, true).0;
    assert s2.lastRatePrune == 2 * MINUTE && "a" in s2.rateByIp && s2.rateByIp["a"] == Window(1, 1);
    var s3 := Admit(limits, s2, "c", 3 * MINUTE - 1, true).0;
    assert "a" in s3.rateByIp && s3.rateByIp["a"] == Window(1, 1);
    assert Run(limits, START, events, true) == Run(limits, s1, [b, c], true);
    assert Run(limits, s1, [b, c], true) == Run(limits, s2, [c], true);
    assert Run(limits, s2, [c], true) == Run(limits, s3, [], true);
  }
}
