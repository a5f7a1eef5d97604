// The rate limit when times may arrive out of order: they are read before the lock is taken.

module AdmissionLate {
  import opened Admission

  /** What a window can have granted at times in [from, to), given its start and its requests so far. */
  function Share(limit: int, from: Instant, to: Instant, window: Window): int {
    var counted := if window.count < limit then window.count else limit;
    if from <= window.start < to then counted else counted - 1
  }

  /**
   * What one address can have been granted in [from, to): its windows start at
   * least a minute apart, and the request that opens a window before from or
   * from to on is outside.
   */
  function LateAllowance(limit: int, from: Instant, to: Instant, window: Window): int {
    if window.start <= from - MINUTE then 0
    else if window.start < from then Share(limit, from, to, window)
    else limit - 1 + limit * ((window.start - from) / MINUTE) + Share(limit, from, to, window)
  }

  /** The grants in [from, to) that the limiter's state accounts for. */
  ghost predicate LateAccounts(limit: int, s: State, ip: Ip, from: Instant, to: Instant, granted: nat,
                               latest: Instant)
  {
    if ip in s.rateByIp then
      && 1 <= s.rateByIp[ip].count
      && s.rateByIp[ip].start <= latest
      && granted <= LateAllowance(limit, from, to, s.rateByIp[ip])
    else
      granted == 0
  }

  lemma ShareBounds(limit: int, from: Instant, to: Instant, window: Window)
    requires limit > 0 && window.count >= 1
    ensures 0 <= Share(limit, from, to, window) <= limit
    ensures !(from <= window.start < to) ==> Share(limit, from, to, window) <= limit - 1
  {
  }

  /** The windows from the start of the interval on allow for whole multiples of the limit. */
  lemma LaterMultiple(limit: int, from: Instant, start: Instant, now: Instant)
    requires limit > 0 && now - start >= MINUTE
    ensures from <= start ==> limit * ((start - from) / MINUTE) + limit <= limit * ((now - from) / MINUTE)
    ensures from <= now ==> 0 <= limit * ((now - from) / MINUTE)
  {
    if from <= start {
      MinuteLater(start - from, now - from);
      Multiply(limit, (start - from) / MINUTE + 1, (now - from) / MINUTE);
    }
    if from <= now {
      Multiply(limit, 0, (now - from) / MINUTE);
    }
  }

  /** A window that follows another allows for what that one allowed for, and its own first request. */
  lemma NewWindowFollows(limit: int, from: Instant, to: Instant, window: Window, now: Instant)
    requires limit > 0 && from <= to && now - window.start >= MINUTE && window.count >= 1
    ensures LateAllowance(limit, from, to, window) + (if from <= now < to then 1 else 0)
         <= LateAllowance(limit, from, to, Window(now, 1))
  {
    hide Share;
    LaterMultiple(limit, from, window.start, now);
    ShareBounds(limit, from, to, window);
    OneRequest(limit, from, to, now);
  }

  lemma OneRequest(limit: int, from: Instant, to: Instant, now: Instant)
    requires limit > 0
    ensures Share(limit, from, to, Window(now, 1)) == if from <= now < to then 1 else 0
  {
  }

  /** One more request in a window allows for one more grant, while the window has room for it. */
  lemma WindowGrows(limit: int, from: Instant, to: Instant, window: Window, now: Instant)
    requires limit > 0 && from <= to && now - window.start < MINUTE && window.count >= 1
    ensures LateAllowance(limit, from, to, window) + (if from <= now < to && window.count < limit then 1 else 0)
         <= LateAllowance(limit, from, to, window.(count := window.count + 1))
  {
  }

  lemma FirstWindow(limit: int, from: Instant, to: Instant, now: Instant)
    requires limit > 0 && from <= to
    ensures (if from <= now < to then 1 else 0) <= LateAllowance(limit, from, to, Window(now, 1))
  {
    if from <= now {
      Multiply(limit, 0, (now - from) / MINUTE);
    }
  }

  lemma CountAccountsLate(limits: Limits, s: State, ip: Ip, from: Instant, to: Instant, granted: nat,
                          latest: Instant, now: Instant)
    requires limits.ratePerMinute > 0 && from <= to
    requires LateAccounts(limits.ratePerMinute, s, ip, from, to, granted, latest)
    ensures var counted := CountRequest(limits, s, ip, now, false);
            var newest := if now > latest then now else latest;
            var more := if !OverRate(limits, counted, ip) && from <= now < to then granted + 1 else granted;
            && LateAccounts(limits.ratePerMinute, counted, ip, from, to, more, newest)
            && LateAccounts(limits.ratePerMinute, counted, ip, from, to, granted, newest)
  {
    hide LateAllowance;
    var limit := limits.ratePerMinute;
    if ip !in s.rateByIp {
      FirstWindow(limit, from, to, now);
    } else if now - s.rateByIp[ip].start >= MINUTE {
      NewWindowFollows(limit, from, to, s.rateByIp[ip], now);
    } else {
      WindowGrows(limit, from, to, s.rateByIp[ip], now);
    }
  }

  /** A window that starts less than k + 1 minutes after from allows for no more than the bound. */
  lemma LateAllowanceBound(limit: int, from: Instant, window: Window, k: nat)
    requires limit > 0 && window.start < from + (k + 1) * MINUTE
    ensures LateAllowance(limit, from, from + k * MINUTE, window) <= (k + 2) * limit - 2
  {
    Multiply(limit, 1, k + 1);
    assert (k + 2) * limit == limit * k + 2 * limit && (k + 1) * limit == limit * k + limit;
    if from <= window.start < from + k * MINUTE {
      assert (window.start - from) / MINUTE <= k - 1;
      Multiply(limit, (window.start - from) / MINUTE, k - 1);
      assert limit * (k - 1) == limit * k - limit;
    } else if from <= window.start {
      assert (window.start - from) / MINUTE <= k;
      Multiply(limit, (window.start - from) / MINUTE, k);
    }
  }

  /** One request against the account of an address. */
  lemma RequestAccountsLate(limits: Limits, s: State, other: Ip, now: Instant, latest: Instant,
                            ip: Ip, from: Instant, k: nat, granted: nat)
    returns (more: nat)
    requires limits.ratePerMinute > 0 && latest - MINUTE <= now
    requires LateAccounts(limits.ratePerMinute, s, ip, from, from + k * MINUTE, granted, latest)
    requires granted <= (k + 2) * limits.ratePerMinute - 2
    ensures more == if && other == ip && from <= now < from + k * MINUTE
                       && Admit(limits, s, other, now, false).1.Granted? then granted + 1 else granted
    ensures LateAccounts(limits.ratePerMinute, Admit(limits, s, other, now, false).0, ip, from, from + k * MINUTE,
                         more, if now > latest then now else latest)
    ensures more <= (k + 2) * limits.ratePerMinute - 2
  {
    hide LateAllowance, OverRate, CountRequest, Admit;
    var after := Admit(limits, s, other, now, false).0;
    AdmitRates(limits, s, other, now);
    more := granted;
    if other == ip {
      CountAccountsLate(limits, s, ip, from, from + k * MINUTE, granted, latest, now);
      if from <= now < from + k * MINUTE && Admit(limits, s, other, now, false).1.Granted? {
        more := granted + 1;
        LateAllowanceBound(limits.ratePerMinute, from, after.rateByIp[ip], k);
      }
    }
  }

  lemma {:induction false} RunAccountsLate(limits: Limits, s: State, events: seq<Event>, latest: Instant,
                                           ip: Ip, from: Instant, k: nat, granted: nat)
    requires limits.ratePerMinute > 0 && AtMostLate(events, latest, MINUTE)
    requires LateAccounts(limits.ratePerMinute, s, ip, from, from + k * MINUTE, granted, latest)
    requires granted <= (k + 2) * limits.ratePerMinute - 2
    ensures granted + GrantedIn(limits, s, events, false, ip, from, from + k * MINUTE)
         <= (k + 2) * limits.ratePerMinute - 2
    decreases |events|
  {
    hide Admit, LateAccounts, Release;
    if events != [] {
      match events[0]
      case Request(other, now) =>
        var more := RequestAccountsLate(limits, s, other, now, latest, ip, from, k, granted);
        RunAccountsLate(limits, Admit(limits, s, other, now, false).0, events[1..],
                        if now > latest then now else latest, ip, from, k, more);
      case Close(id) =>
        CloseAccountsLate(limits, s, id, ip, from, from + k * MINUTE, granted, latest);
        RunAccountsLate(limits, Apply(limits, s, events[0], false), events[1..], latest, ip, from, k, granted);
    }
  }

  lemma CloseAccountsLate(limits: Limits, s: State, id: nat, ip: Ip, from: Instant, to: Instant, granted: nat,
                          latest: Instant)
    requires LateAccounts(limits.ratePerMinute, s, ip, from, to, granted, latest)
    ensures LateAccounts(limits.ratePerMinute, Apply(limits, s, Close(id), false), ip, from, to, granted, latest)
  {
  }

  /**
   * With requests at most one minute older than the latest before them, any
   * half-open interval of k minutes grants at most (k + 2) * ratePerMinute - 2
   * connections to one address, on every run of the pruning limiter.
   */
  lemma LateWindowBound(limits: Limits, events: seq<Event>, ip: Ip, from: Instant, k: nat)
    requires limits.ratePerMinute > 0 && AtMostLate(events, FirstTime(events), MINUTE)
    ensures GrantedIn(limits, START, events, true, ip, from, from + k * MINUTE)
         <= (k + 2) * limits.ratePerMinute - 2
  {
    var latest := FirstTime(events);
    SameGrants(limits, START, START, events, latest, ip, from, from + k * MINUTE);
    Multiply(limits.ratePerMinute, 2, k + 2);
    RunAccountsLate(limits, START, events, latest, ip, from, k, 0);
  }

  // ---------------------------------------------------- the bound is the best one

  /** Bursts that open windows of their own, with more events behind them. */
  lemma {:induction false} BurstsThen(limits: Limits, s: State, ip: Ip, first: Instant, minutes: nat, rest: seq<Event>,
                                      from: Instant, to: Instant)
    returns (after: State)
    requires limits.ratePerMinute > 0 && limits.connections <= 0 && limits.connectionsPerIp <= 0
    requires from <= first && first + minutes * MINUTE < to + MINUTE
    requires ip in s.rateByIp && first - s.rateByIp[ip].start >= MINUTE
    ensures ip in after.rateByIp && first + minutes * MINUTE - after.rateByIp[ip].start >= MINUTE
    ensures GrantedIn(limits, s, Bursts(ip, first, limits.ratePerMinute, minutes) + rest, false, ip, from, to)
         == minutes * limits.ratePerMinute + GrantedIn(limits, after, rest, false, ip, from, to)
    decreases minutes
  {
    hide Admit, Burst, GrantedIn;
    if minutes == 0 {
      after := s;
      assert Bursts(ip, first, limits.ratePerMinute, 0) + rest == rest;
    } else {
      var burst := Burst(ip, first, limits.ratePerMinute);
      var more := Bursts(ip, first + MINUTE, limits.ratePerMinute, minutes - 1);
      assert burst + more + rest == burst + (more + rest);
      var one := NewWindowGranted(limits, s, ip, first, limits.ratePerMinute, more + rest, from, to);
      after := BurstsThen(limits, one, ip, first + MINUTE, minutes - 1, rest, from, to);
      assert minutes * limits.ratePerMinute == limits.ratePerMinute + (minutes - 1) * limits.ratePerMinute;
    }
  }

  lemma {:induction false} LowerLatest(events: seq<Event>, latest: Instant, lower: Instant, slack: int)
    requires AtMostLate(events, latest, slack) && lower <= latest
    ensures AtMostLate(events, lower, slack)
    decreases |events|
  {
    if events != [] {
      match events[0]
      case Request(_, now) =>
        LowerLatest(events[1..], if now > latest then now else latest, if now > lower then now else lower, slack);
      case Close(_) => LowerLatest(events[1..], latest, lower, slack);
    }
  }

  /** Requests all at one time, with more events behind them. */
  lemma {:induction false} BurstAtMostLate(ip: Ip, now: Instant, n: nat, rest: seq<Event>, latest: Instant, slack: nat)
    requires latest - slack <= now
    requires AtMostLate(rest, if now > latest then now else latest, slack)
    ensures AtMostLate(Burst(ip, now, n) + rest, latest, slack)
    decreases n
  {
    var newest := if now > latest then now else latest;
    if n == 0 {
      assert Burst(ip, now, 0) + rest == rest;
      LowerLatest(rest, newest, latest, slack);
    } else {
      BurstAtMostLate(ip, now, n - 1, rest, newest, slack);
      var more := Burst(ip, now, n - 1) + rest;
      assert Burst(ip, now, n) + rest == [Request(ip, now)] + more;
      assert ([Request(ip, now)] + more)[1..] == more;
    }
  }

  lemma {:induction false} BurstsAtMostLate(ip: Ip, first: Instant, limit: nat, minutes: nat, rest: seq<Event>,
                                            latest: Instant, slack: nat)
    requires latest <= first && AtMostLate(rest, first + minutes * MINUTE, slack)
    ensures AtMostLate(Bursts(ip, first, limit, minutes) + rest, latest, slack)
    decreases minutes
  {
    hide Burst, AtMostLate;
    if minutes == 0 {
      assert Bursts(ip, first, limit, 0) + rest == rest;
      LowerLatest(rest, first, latest, slack);
    } else {
      var burst, more := Burst(ip, first, limit), Bursts(ip, first + MINUTE, limit, minutes - 1);
      assert burst + more + rest == burst + (more + rest);
      BurstsAtMostLate(ip, first + MINUTE, limit, minutes - 1, rest, first, slack);
      BurstAtMostLate(ip, first, limit, more + rest, latest, slack);
    }
  }

  /** A request that opens a window at the end of the interval or later, and late ones that it lets in. */
  function LateTail(rate: nat, k: nat): seq<Event>
    requires rate > 0
  {
    [Request("a", 1 + (k + 1) * MINUTE)] + Burst("a", 1 + k * MINUTE, rate - 1)
  }

  /** A request that is too late for the interval opens a window and is not counted. */
  lemma WindowOpened(limits: Limits, s: State, ip: Ip, now: Instant, rest: seq<Event>, from: Instant, to: Instant)
    returns (after: State)
    requires limits.ratePerMinute > 0 && limits.connections <= 0 && limits.connectionsPerIp <= 0 && to <= now
    requires ip in s.rateByIp && now - s.rateByIp[ip].start >= MINUTE
    ensures ip in after.rateByIp && after.rateByIp[ip] == Window(now, 1)
    ensures GrantedIn(limits, s, [Request(ip, now)] + rest, false, ip, from, to)
         == GrantedIn(limits, after, rest, false, ip, from, to)
  {
    after := Admit(limits, s, ip, now, false).0;
    assert ([Request(ip, now)] + rest)[1..] == rest;
  }

  lemma LateTailGranted(limits: Limits, s: State, k: nat)
    requires limits.ratePerMinute > 0 && limits.connections <= 0 && limits.connectionsPerIp <= 0 && k > 0
    requires "a" in s.rateByIp && 1 + (k + 1) * MINUTE - s.rateByIp["a"].start >= MINUTE
    ensures GrantedIn(limits, s, LateTail(limits.ratePerMinute, k), false, "a", 2, 2 + k * MINUTE)
         == limits.ratePerMinute - 1
  {
    hide Burst, Admit, GrantedIn;
    var belated := Burst("a", 1 + k * MINUTE, limits.ratePerMinute - 1);
    var reopened := WindowOpened(limits, s, "a", 1 + (k + 1) * MINUTE, belated, 2, 2 + k * MINUTE);
    assert belated + [] == belated;
    var after := BurstGranted(limits, reopened, "a", 1 + k * MINUTE, limits.ratePerMinute - 1, [], 2, 2 + k * MINUTE);
    NothingGranted(limits, after, "a", 2, 2 + k * MINUTE);
  }

  lemma LateTailAtMostLate(rate: nat, k: nat, latest: Instant)
    requires rate > 0 && latest <= 1 + (k + 1) * MINUTE
    ensures AtMostLate(LateTail(rate, k), latest, MINUTE)
  {
    var belated := Burst("a", 1 + k * MINUTE, rate - 1);
    assert ([Request("a", 1 + (k + 1) * MINUTE)] + belated)[1..] == belated;
    BurstAtMostLate("a", 1 + k * MINUTE, rate - 1, [], 1 + (k + 1) * MINUTE, MINUTE);
    assert belated + [] == belated;
  }

  /** No smaller bound holds: for every rate and every k there is a run that reaches this one. */
  lemma LateWindowBoundReached(rate: nat, k: nat) returns (limits: Limits, events: seq<Event>)
    requires rate > 0 && k > 0
    ensures limits.ratePerMinute == rate && AtMostLate(events, FirstTime(events), MINUTE)
    ensures GrantedIn(limits, START, events, true, "a", 2, 2 + k * MINUTE) == (k + 2) * rate - 2
  {
    hide LateTail, Bursts, Burst;
    limits := Limits(rate, 0, 0);
    var to := 2 + k * MINUTE;
    var tail := LateTail(rate, k);
    var later := Bursts("a", 1 + MINUTE, rate, k) + tail;
    var filling := Burst("a", 2, rate - 1) + later;
    events := [Request("a", 1)] + filling;
    assert events[1..] == filling;
    LateTailAtMostLate(rate, k, 1 + (k + 1) * MINUTE);
    BurstsAtMostLate("a", 1 + MINUTE, rate, k, tail, 2, MINUTE);
    BurstAtMostLate("a", 2, rate - 1, later, 1, MINUTE);
    var s := Admit(limits, START, "a", 1, false).0;
    var filled := BurstGranted(limits, s, "a", 2, rate - 1, later, 2, to);
    var after := BurstsThen(limits, filled, "a", 1 + MINUTE, k, tail, 2, to);
    LateTailGranted(limits, after, k);
    SameGrants(limits, START, START, events, 1, "a", 2, to);
  }
}
