/** The grid cycles start on (internal/client/app/loop.go, Run, nextStart, interval). */
module Grid {

  const DEFAULT_INTERVAL: int := 60000

  /** interval: the applied document's, or the default when it names none. */
  function Interval(configured: int): (r: int)
    ensures r > 0 && r == if configured > 0 then configured else 60000
  {
    if configured <= 0 then DEFAULT_INTERVAL else configured
  }

  /** nextStart. */
  method NextStart(prev: int, interval: int, now: int) returns (next: int, wait: int)
    requires interval > 0
    ensures next == Next(prev, interval, now) && wait == next - now
    ensures 0 <= wait <= interval
  {
    next := prev + interval;
    var late := now - next;
    if late > 0 {
      var skipped := (late + interval - 1) / interval;
      Skipped(late, interval);
      next := next + skipped * interval;
    }
    wait := next - now;
    if wait > interval {
      next, wait := now + interval, interval;
    }
  }

  function Next(prev: int, interval: int, now: int): int
    requires interval > 0
  {
    var tick := prev + interval;
    var ahead := if now > tick then tick + (now - tick + interval - 1) / interval * interval else tick;
    if ahead - now > interval then now + interval else ahead
  }

  /** The skipped ticks cover the lateness, and no tick too many is skipped. */
  lemma Skipped(late: int, interval: int)
    requires interval > 0 && late > 0
    ensures var skipped := (late + interval - 1) / interval;
            skipped >= 1 && late <= skipped * interval < late + interval
  {
    var n := late + interval - 1;
    assert n == n / interval * interval + n % interval;
    if n / interval < 1 {
      NoTick(n / interval, interval);
    }
  }

  lemma NoTick(k: int, interval: int)
    requires interval > 0 && k <= 0
    ensures k * interval <= 0
  {
  }

  /** The k-th tick after prev. */
  function Tick(prev: int, interval: int, k: int): int {
    prev + k * interval
  }

  lemma TicksRise(prev: int, interval: int, j: int, k: int)
    requires interval > 0 && j < k
    ensures Tick(prev, interval, j) + interval <= Tick(prev, interval, k)
  {
    assert (k - j) * interval >= interval by {
      assert (k - j - 1) * interval >= 0 by {
        NoTick(j + 1 - k, interval);
        assert (k - j - 1) * interval == -((j + 1 - k) * interval);
      }
    }
    assert k * interval == j * interval + (k - j) * interval;
  }

  /** The tick Next names, when the clock has not stepped back behind prev. */
  function Steps(prev: int, interval: int, now: int): int
    requires interval > 0
  {
    var late := now - (prev + interval);
    if late > 0 then 1 + (late + interval - 1) / interval else 1
  }

  /** The next start is the first tick after prev that is not past, exactly as long
      as the clock has not stepped back before prev; otherwise it is one interval
      from now, so a step back costs one late cycle and no more. */
  lemma NextIsTheFirstTickAhead(prev: int, interval: int, now: int)
    requires interval > 0
    ensures now >= prev ==>
              var k := Steps(prev, interval, now);
              && k >= 1 && Next(prev, interval, now) == Tick(prev, interval, k) && now <= Tick(prev, interval, k)
              && forall j :: 1 <= j < k ==> Tick(prev, interval, j) < now
    ensures now < prev ==> Next(prev, interval, now) == now + interval < Tick(prev, interval, 1)
  {
    var late := now - (prev + interval);
    if now >= prev {
      var k := Steps(prev, interval, now);
      if late > 0 {
        Skipped(late, interval);
        assert Tick(prev, interval, k) == prev + interval + (k - 1) * interval;
        forall j | 1 <= j < k ensures Tick(prev, interval, j) < now {
          TicksRise(prev, interval, j, k);
        }
      }
    }
  }

  // ---- a run ----

  /** The scheduled starts of a run: `nows` is the clock after each cycle. */
  function Starts(first: int, interval: int, nows: seq<int>): seq<int>
    requires interval > 0
    ensures |Starts(first, interval, nows)| == |nows| + 1
  {
    if nows == [] then [first]
    else
      var before := Starts(first, interval, nows[..|nows| - 1]);
      before + [Next(before[|before| - 1], interval, nows[|nows| - 1])]
  }

  /** Run's loop, the cycles and the sleeps apart. */
  method Schedule(first: int, interval: int, nows: seq<int>) returns (starts: seq<int>)
    requires interval > 0
    ensures starts == Starts(first, interval, nows)
  {
    var start := first;
    starts := [start];
    for i := 0 to |nows|
      invariant starts == Starts(first, interval, nows[..i]) && start == starts[i]
    {
      assert nows[..i + 1][..i] == nows[..i];
      var wait;
      start, wait := NextStart(start, interval, nows[i]);
      starts := starts + [start];
    }
    assert nows[..|nows|] == nows;
  }

  /** No cycle ends before it was due to start: the clock does not go back, and a
      sleep is not cut short. */
  ghost predicate Steady(first: int, interval: int, nows: seq<int>)
    requires interval > 0
  {
    forall i :: 0 <= i < |nows| ==> Starts(first, interval, nows)[i] <= nows[i]
  }

  lemma StartsPrefix(first: int, interval: int, nows: seq<int>)
    requires interval > 0 && nows != []
    ensures Starts(first, interval, nows)[..|nows|] == Starts(first, interval, nows[..|nows| - 1])
    ensures Steady(first, interval, nows) ==> Steady(first, interval, nows[..|nows| - 1])
  {
    var all, init := Starts(first, interval, nows), Starts(first, interval, nows[..|nows| - 1]);
    if Steady(first, interval, nows) {
      forall i | 0 <= i < |nows| - 1 ensures init[i] <= nows[..|nows| - 1][i] {
        assert all[i] == init[i];
      }
    }
  }

  ghost predicate OnGrid(first: int, interval: int, start: int) {
    exists k: nat :: start == Tick(first, interval, k)
  }

  /** From a tick of the grid the next start is a later tick of it. */
  lemma NextIsOnTheGrid(first: int, interval: int, prev: int, now: int)
    requires interval > 0 && OnGrid(first, interval, prev) && prev <= now
    ensures OnGrid(first, interval, Next(prev, interval, now)) && prev < Next(prev, interval, now)
  {
    NextIsTheFirstTickAhead(prev, interval, now);
    var j: nat :| prev == Tick(first, interval, j);
    var k := Steps(prev, interval, now);
    assert (j + k) * interval == j * interval + k * interval;
    assert Next(prev, interval, now) == Tick(first, interval, j + k);
    TicksRise(prev, interval, 0, k);
  }

  /** Over a whole run under one interval every cycle is scheduled on the grid of the
      first start, later than the one before it: lateness never turns into drift. */
  lemma {:induction false} RunsStayOnTheGrid(first: int, interval: int, nows: seq<int>, i: nat)
    requires interval > 0 && Steady(first, interval, nows) && i <= |nows|
    ensures OnGrid(first, interval, Starts(first, interval, nows)[i])
    ensures i < |nows| ==> Starts(first, interval, nows)[i] < Starts(first, interval, nows)[i + 1]
  {
    var starts, n := Starts(first, interval, nows), |nows|;
    if n == 0 {
      assert starts[0] == Tick(first, interval, 0);
    } else {
      StartsPrefix(first, interval, nows);
      var init := Starts(first, interval, nows[..n - 1]);
      assert starts[..n] == init;
      RunsStayOnTheGrid(first, interval, nows[..n - 1], if i < n - 1 then i else n - 1);
      if i >= n - 1 {
        NextIsOnTheGrid(first, interval, starts[n - 1], nows[n - 1]);
      }
    }
  }
}
