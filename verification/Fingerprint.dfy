// The streaming statistics of Plugin Studio on when a flow or a port was seen:
// how many ticks, in how many bursts, and the longest of them.

module Fingerprint {

  /** The fields updateFingerprintWindow works on. */
  datatype Window = Window(
    firstTick: int,
    lastTick: int,
    activeTicks: int,
    burstCount: int,
    currentStreak: int,
    maxConsecutiveTicks: int)

  const START := Window(0, 0, 0, 0, 0, 0)

  function Update(w: Window, tick: int): Window {
    var first := if w.firstTick == 0 then tick else w.firstTick;
    if w.lastTick == tick then
      w.(firstTick := first)
    else
      var adjacent := w.lastTick != 0 && w.lastTick == tick - 1;
      var streak := if adjacent then w.currentStreak + 1 else 1;
      Window(first, tick, w.activeTicks + 1, if adjacent then w.burstCount else w.burstCount + 1, streak,
             if streak > w.maxConsecutiveTicks then streak else w.maxConsecutiveTicks)
  }

  class FingerprintWindow {
    var firstTick: int
    var lastTick: int
    var activeTicks: int
    var burstCount: int
    var currentStreak: int
    var maxConsecutiveTicks: int

    constructor ()
      ensures Contents() == START
    {
      firstTick, lastTick, activeTicks, burstCount, currentStreak, maxConsecutiveTicks := 0, 0, 0, 0, 0, 0;
    }

    ghost function Contents(): Window
      reads this
    {
      Window(firstTick, lastTick, activeTicks, burstCount, currentStreak, maxConsecutiveTicks)
    }

    /** updateFingerprintWindow. */
    method UpdateWindow(tick: int)
      modifies this
      ensures Contents() == Update(old(Contents()), tick)
    {
      if firstTick == 0 {
        firstTick := tick;
      }
      if lastTick == tick {
        return;
      }
      if lastTick == 0 {
        burstCount := burstCount + 1;
        currentStreak := 1;
      } else if lastTick == tick - 1 {
        currentStreak := currentStreak + 1;
      } else {
        burstCount := burstCount + 1;
        currentStreak := 1;
      }
      if currentStreak > maxConsecutiveTicks {
        maxConsecutiveTicks := currentStreak;
      }
      lastTick := tick;
      activeTicks := activeTicks + 1;
    }
  }

  function UpdateAll(ticks: seq<int>): Window {
    if ticks == [] then START else Update(UpdateAll(ticks[..|ticks| - 1]), ticks[|ticks| - 1])
  }

  /** The scanner's clock: positive ticks that never go back. */
  predicate Clock(ticks: seq<int>) {
    && (forall i | 0 <= i < |ticks| :: ticks[i] > 0)
    && (forall i, j | 0 <= i < j < |ticks| :: ticks[i] <= ticks[j])
  }

  function Seen(ticks: seq<int>): set<int> {
    set tick | tick in ticks
  }

  predicate StartsBurst(seen: set<int>, tick: int) {
    tick in seen && tick - 1 !in seen
  }

  /** Where a run of consecutive ticks starts. */
  function BurstStarts(seen: set<int>): set<int> {
    set tick | tick in seen && StartsBurst(seen, tick)
  }

  /** The n ticks up to last were all seen. */
  ghost predicate Run(seen: set<int>, last: int, n: int) {
    forall tick | last - n < tick <= last :: tick in seen
  }

  /** n is the length of the longest run. */
  ghost predicate Longest(seen: set<int>, n: int) {
    && (exists last :: Run(seen, last, n))
    && (forall last, m | m > 0 && Run(seen, last, m) :: m <= n)
  }

  ghost predicate Extremes(w: Window, seen: set<int>) {
    && w.firstTick in seen && w.lastTick in seen
    && (forall tick <- seen :: 0 < w.firstTick <= tick <= w.lastTick)
  }

  /** What the statistics mean. */
  ghost predicate Describes(w: Window, seen: set<int>) {
    && Extremes(w, seen)
    && w.activeTicks == |seen|
    && w.burstCount == |BurstStarts(seen)|
    && Longest(seen, w.maxConsecutiveTicks)
  }

  /** The current streak is the run of ticks that ends now. */
  ghost predicate Streak(w: Window, seen: set<int>) {
    w.currentStreak >= 1 && Run(seen, w.lastTick, w.currentStreak) && w.lastTick - w.currentStreak !in seen
  }

  lemma StartsGrow(seen: set<int>, tick: int)
    requires tick !in seen && tick + 1 !in seen
    ensures tick !in BurstStarts(seen)
    ensures BurstStarts(seen + {tick}) == BurstStarts(seen) + (if tick - 1 in seen then {} else {tick})
  {
    forall t
      ensures t in BurstStarts(seen + {tick}) <==> t in BurstStarts(seen) + (if tick - 1 in seen then {} else {tick})
    {
    }
  }

  lemma StreakGrows(w: Window, seen: set<int>, tick: int)
    requires Streak(w, seen) && 0 < w.lastTick < tick && (forall t <- seen :: t <= w.lastTick)
    ensures Streak(Update(w, tick), seen + {tick})
  {
  }

  /** A run in the larger set that is not one in the smaller ends with the new tick. */
  lemma LongestGrows(seen: set<int>, tick: int, n: int, streak: int)
    requires Longest(seen, n) && forall t <- seen :: t < tick
    requires streak >= 1 && Run(seen + {tick}, tick, streak) && tick - streak !in seen + {tick}
    ensures Longest(seen + {tick}, if streak > n then streak else n)
  {
    var more := seen + {tick};
    forall last, m | m > 0 && Run(more, last, m)
      ensures m <= if streak > n then streak else n
    {
      assert last in more;
      if last == tick {
        assert m > streak ==> tick - streak in more;
      } else {
        assert forall t | last - m < t <= last :: t in more;
        assert Run(seen, last, m);
      }
    }
    var longest :| Run(seen, longest, n);
    assert Run(more, longest, n);
  }

  lemma UpdateLongest(w: Window, seen: set<int>, tick: int)
    requires Longest(seen, w.maxConsecutiveTicks) && tick != w.lastTick && forall t <- seen :: t < tick
    requires Streak(Update(w, tick), seen + {tick})
    ensures Longest(seen + {tick}, Update(w, tick).maxConsecutiveTicks)
  {
    LongestGrows(seen, tick, w.maxConsecutiveTicks, Update(w, tick).currentStreak);
  }

  lemma CountsGrow(w: Window, seen: set<int>, tick: int)
    requires Extremes(w, seen) && w.lastTick < tick
    ensures Extremes(Update(w, tick), seen + {tick})
    ensures |seen + {tick}| == |seen| + 1
    ensures Update(w, tick).burstCount - w.burstCount == |BurstStarts(seen + {tick})| - |BurstStarts(seen)|
  {
    hide BurstStarts;
    StartsGrow(seen, tick);
  }

  lemma UpdateDescribes(w: Window, seen: set<int>, tick: int)
    requires Describes(w, seen) && Streak(w, seen) && w.lastTick <= tick
    ensures Describes(Update(w, tick), seen + {tick}) && Streak(Update(w, tick), seen + {tick})
  {
    hide BurstStarts, Longest, Streak;
    if tick == w.lastTick {
      assert seen + {tick} == seen;
    } else {
      CountsGrow(w, seen, tick);
      StreakGrows(w, seen, tick);
      UpdateLongest(w, seen, tick);
    }
  }

  lemma FirstDescribes(tick: int, seen: set<int>)
    requires tick > 0 && seen == {tick}
    ensures Describes(Update(START, tick), seen) && Streak(Update(START, tick), seen)
  {
    assert BurstStarts(seen) == {tick};
    assert Run(seen, tick, 1);
    forall last, n | n > 0 && Run(seen, last, n)
      ensures n <= 1
    {
      assert last in seen;
      assert n > 1 ==> last - 1 in seen;
    }
  }

  lemma {:induction false} StreamDescribes(ticks: seq<int>)
    requires ticks != [] && Clock(ticks)
    ensures Describes(UpdateAll(ticks), Seen(ticks)) && Streak(UpdateAll(ticks), Seen(ticks))
    decreases |ticks|
  {
    hide Describes, Streak, Update, Seen;
    var front, tick := ticks[..|ticks| - 1], ticks[|ticks| - 1];
    assert ticks == front + [tick];
    SeenGrows(front, tick);
    if front == [] {
      assert UpdateAll(front) == START;
      FirstDescribes(tick, Seen(ticks));
    } else {
      StreamDescribes(front);
      LastSeen(UpdateAll(front), front, tick);
      UpdateDescribes(UpdateAll(front), Seen(front), tick);
    }
  }

  lemma SeenGrows(front: seq<int>, tick: int)
    ensures Seen(front + [tick]) == Seen(front) + {tick}
    ensures Seen([]) == {}
  {
  }

  lemma LastSeen(w: Window, front: seq<int>, tick: int)
    requires Describes(w, Seen(front)) && Clock(front + [tick])
    ensures w.lastTick <= tick
  {
    var i :| 0 <= i < |front| && front[i] == w.lastTick;
    assert (front + [tick])[i] == w.lastTick && (front + [tick])[|front|] == tick;
  }

  /** Before the first tick everything is zero. */
  lemma NothingObserved()
    ensures UpdateAll([]) == Window(0, 0, 0, 0, 0, 0)
  {
  }

  /**
   * For every clock: the active ticks are the different ticks, the bursts are
   * the maximal runs of consecutive ticks, the longest run has the reported
   * length, and the first and last ticks are the extremes.
   */
  lemma RunStatistics(ticks: seq<int>)
    requires ticks != [] && Clock(ticks)
    ensures Describes(UpdateAll(ticks), Seen(ticks))
    ensures UpdateAll(ticks).firstTick == ticks[0] && UpdateAll(ticks).lastTick == ticks[|ticks| - 1]
  {
    StreamDescribes(ticks);
    var w := UpdateAll(ticks);
    assert ticks[0] in Seen(ticks) && ticks[|ticks| - 1] in Seen(ticks);
    var i :| 0 <= i < |ticks| && ticks[i] == w.firstTick;
    var j :| 0 <= j < |ticks| && ticks[j] == w.lastTick;
  }
}
