/** backend/pkg/exec/exec.go: `sometimes`, a fixed-window rate limiter. */
module RateLimiter {
  import opened Wrappers

  type Time = int

  /** window is None for Go's zero time. */
  datatype Limiter = Limiter(count: int, window: Option<Time>)

  const FRESH := Limiter(0, None)

  function Window(s: Limiter, interval: int, now: Time): Limiter
  {
    if s.window.None? then (if interval > 0 then Limiter(s.count, Some(now)) else Limiter(0, Some(now)))
    else if now - s.window.value < interval then s
    else Limiter(0, Some(now))
  }

  function Called(s: Limiter, threshold: int, interval: int, now: Time): Limiter
  {
    var w := Window(s, interval, now);
    if w.count < threshold then w.(count := w.count + 1) else w
  }

  predicate Runs(s: Limiter, threshold: int, interval: int, now: Time)
  {
    Window(s, interval, now).count < threshold
  }

  class Sometimes {
    const threshold: int
    const interval: int
    var count: int
    var window: Option<Time>

    constructor (threshold: int, interval: int)
      ensures this.threshold == threshold && this.interval == interval
      ensures Limiter(count, window) == FRESH
    {
      this.threshold, this.interval, count, window := threshold, interval, 0, None;
    }

    /** `ran` says whether f was called. */
    method Do(now: Time) returns (ran: bool)
      modifies this
      ensures var before := Limiter(old(count), old(window));
        && Limiter(count, window) == Called(before, threshold, interval, now)
        && ran == Runs(before, threshold, interval, now)
    {
      if window.None? {
        window := Some(now);
      }
      var inWindow := now - window.value < interval;
      if !inWindow {
        window := Some(now);
        count := 0;
      }
      ran := count < threshold;
      if ran {
        count := count + 1;
      }
    }
  }

  // ------------------------------------------------------------ runs

  function After(s: Limiter, threshold: int, interval: int, times: seq<Time>): Limiter
    decreases |times|
  {
    if times == [] then s else After(Called(s, threshold, interval, times[0]), threshold, interval, times[1..])
  }

  /** How often f is called. */
  function Calls(s: Limiter, threshold: int, interval: int, times: seq<Time>): nat
    decreases |times|
  {
    if times == [] then 0
    else (if Runs(s, threshold, interval, times[0]) then 1 else 0)
         + Calls(Called(s, threshold, interval, times[0]), threshold, interval, times[1..])
  }

  predicate Monotone(times: seq<Time>)
  {
    forall i, j :: 0 <= i < j < |times| ==> times[i] <= times[j]
  }

  function Max0(n: int): nat
  {
    if n < 0 then 0 else n
  }

  /** The window is open, and its opening call already counted. */
  ghost predicate Open(s: Limiter, threshold: int, from: Time)
  {
    s.window.Some? && s.window.value <= from && 0 <= s.count <= Max0(threshold) && (threshold >= 1 ==> s.count >= 1)
  }

  lemma DoKeepsOpen(s: Limiter, threshold: int, interval: int, now: Time)
    requires interval > 0 && (s == FRESH || Open(s, threshold, now))
    ensures Open(Called(s, threshold, interval, now), threshold, now)
  {
  }

  lemma ScaledUp(k: nat, a: int, b: int)
    requires a <= b
    ensures k * a <= k * b
  {
  }

  lemma QuotientAtLeast(x: int, interval: int, a: int)
    requires interval > 0 && interval * a <= x
    ensures a <= x / interval
  {
    var q := x / interval;
    assert x == interval * q + x % interval;
    assert x < interval * (q + 1);
    if q + 1 <= a {
      ScaledUp(interval, q + 1, a);
      assert false;
    }
  }

  /** threshold calls for each interval begun since the window opened. */
  function Budget(k: nat, elapsed: int, interval: int): int
    requires interval > 0
  {
    k * (elapsed / interval + 1)
  }

  lemma BudgetCoversOneWindow(k: nat, elapsed: int, interval: int)
    requires interval > 0 && elapsed >= 0
    ensures k <= Budget(k, elapsed, interval)
  {
  }

  lemma BudgetOfLaterWindow(k: nat, elapsed: int, later: int, interval: int)
    requires interval > 0 && later + interval <= elapsed
    ensures Budget(k, later, interval) + k <= Budget(k, elapsed, interval)
  {
    var q := later / interval;
    assert later == interval * q + later % interval;
    assert interval * (q + 1) == interval * q + interval;
    QuotientAtLeast(elapsed, interval, q + 1);
    ScaledUp(k, q + 2, elapsed / interval + 1);
    assert k * (q + 2) == k * (q + 1) + k;
  }

  lemma {:induction false} CallsFromOpen(s: Limiter, threshold: int, interval: int, times: seq<Time>, end: Time)
    requires interval > 0 && Monotone(times) && Open(s, threshold, if times == [] then end else times[0])
    requires times != [] ==> times[|times| - 1] <= end
    ensures Calls(s, threshold, interval, times)
      <= Budget(Max0(threshold), end - s.window.value, interval) - s.count
    decreases |times|
  {
    if times == [] {
      BudgetCoversOneWindow(Max0(threshold), end - s.window.value, interval);
    } else {
      var now := times[0];
      var s' := Called(s, threshold, interval, now);
      DoKeepsOpen(s, threshold, interval, now);
      assert times[1..] != [] ==> times[1..][|times[1..]| - 1] == times[|times| - 1];
      assert s'.window.value <= if times[1..] == [] then end else times[1..][0];
      CallsFromOpen(s', threshold, interval, times[1..], end);
      if now - s.window.value >= interval {
        BudgetOfLaterWindow(Max0(threshold), end - s.window.value, end - now, interval);
      }
    }
  }

  /**
   Rate bound: by time `end`, f has been called at most threshold times for each interval
   begun since the first call of Do.
   */
  lemma RateBound(threshold: int, interval: int, times: seq<Time>, end: Time)
    requires interval > 0 && times != [] && Monotone(times) && times[|times| - 1] <= end
    ensures Calls(FRESH, threshold, interval, times) <= Max0(threshold) * ((end - times[0]) / interval + 1)
  {
    var s' := Called(FRESH, threshold, interval, times[0]);
    DoKeepsOpen(FRESH, threshold, interval, times[0]);
    assert times[1..] != [] ==> times[1..][|times[1..]| - 1] == times[|times| - 1];
    CallsFromOpen(s', threshold, interval, times[1..], end);
  }

  lemma {:induction false} CallsWithinWindow(s: Limiter, threshold: int, interval: int, times: seq<Time>)
    requires interval > 0 && Monotone(times) && s.window.Some? && 0 <= s.count <= Max0(threshold)
    requires forall i :: 0 <= i < |times| ==> times[i] - s.window.value < interval
    ensures Calls(s, threshold, interval, times) <= Max0(threshold) - s.count
    decreases |times|
  {
    if times != [] {
      CallsWithinWindow(Called(s, threshold, interval, times[0]), threshold, interval, times[1..]);
    }
  }

  lemma {:induction false} CallsInSpan(s: Limiter, threshold: int, interval: int, times: seq<Time>, first: Time)
    requires interval > 0 && Monotone(times) && times != [] && first <= times[0]
    requires Open(s, threshold, times[0]) && times[|times| - 1] - first < interval
    ensures Calls(s, threshold, interval, times) <= 2 * Max0(threshold) - s.count
    decreases |times|
  {
    var s' := Called(s, threshold, interval, times[0]);
    DoKeepsOpen(s, threshold, interval, times[0]);
    if times[0] - s.window.value >= interval {
      CallsWithinWindow(s', threshold, interval, times[1..]);
    } else if |times| > 1 {
      assert times[1..][|times[1..]| - 1] == times[|times| - 1];
      CallsInSpan(s', threshold, interval, times[1..], first);
    }
  }

  lemma {:induction false} HistoryOpens(s: Limiter, threshold: int, interval: int, history: seq<Time>, now: Time)
    requires interval > 0 && Monotone(history + [now])
    requires s == FRESH || Open(s, threshold, (history + [now])[0])
    ensures var s' := After(s, threshold, interval, history); s' == FRESH || Open(s', threshold, now)
    decreases |history|
  {
    if history != [] {
      DoKeepsOpen(s, threshold, interval, history[0]);
      assert (history + [now])[1..] == history[1..] + [now];
      assert (history + [now])[0] == history[0];
      HistoryOpens(Called(s, threshold, interval, history[0]), threshold, interval, history[1..], now);
    }
  }

  lemma BurstOnFresh(threshold: int, interval: int, burst: seq<Time>)
    requires interval > 0 && threshold >= 1 && burst != [] && Monotone(burst)
    requires forall i :: 0 <= i < |burst| ==> burst[i] - burst[0] < interval
    ensures Calls(FRESH, threshold, interval, burst) <= threshold
  {
    var justOpened := Limiter(0, Some(burst[0]));
    assert Called(FRESH, threshold, interval, burst[0]) == Called(justOpened, threshold, interval, burst[0]);
    CallsWithinWindow(justOpened, threshold, interval, burst);
  }

  lemma MonotoneParts(history: seq<Time>, burst: seq<Time>)
    requires burst != [] && Monotone(history + burst)
    ensures Monotone(burst) && Monotone(history + [burst[0]])
  {
    var all := history + burst;
    forall i, j | 0 <= i < j < |burst| ensures burst[i] <= burst[j] {
      assert all[|history| + i] <= all[|history| + j];
    }
    forall i, j | 0 <= i < j < |history + [burst[0]]|
      ensures (history + [burst[0]])[i] <= (history + [burst[0]])[j]
    {
      assert all[i] <= all[j];
    }
  }

  /**
   Over any history, a burst of calls that fits in less than one interval runs f at most
   2 * threshold - 1 times: two windows can meet in it, but not the first call of both.
   */
  lemma BurstBound(threshold: int, interval: int, history: seq<Time>, burst: seq<Time>)
    requires interval > 0 && threshold >= 1 && burst != [] && Monotone(history + burst)
    requires burst[|burst| - 1] - burst[0] < interval
    ensures Calls(After(FRESH, threshold, interval, history), threshold, interval, burst) <= 2 * threshold - 1
  {
    var s := After(FRESH, threshold, interval, history);
    MonotoneParts(history, burst);
    HistoryOpens(FRESH, threshold, interval, history, burst[0]);
    if s == FRESH {
      forall i | 0 <= i < |burst| ensures burst[i] - burst[0] < interval {
        assert i < |burst| - 1 ==> burst[i] <= burst[|burst| - 1];
      }
      BurstOnFresh(threshold, interval, burst);
    } else {
      CallsInSpan(s, threshold, interval, burst, burst[0]);
    }
  }

  // ------------------------------------------------------------ what the limiter lets through

  /** A window that is over opens again: the next call runs f. */
  lemma WindowReopens(s: Limiter, threshold: int, interval: int, now: Time)
    requires threshold >= 1 && s.window.Some? && now >= s.window.value + interval
    ensures Runs(s, threshold, interval, now)
    ensures Called(s, threshold, interval, now) == Limiter(1, Some(now))
  {
  }

  /** The window was opened by one of the calls. */
  lemma {:induction false} WindowIsACall(s: Limiter, threshold: int, interval: int, times: seq<Time>)
    ensures var s' := After(s, threshold, interval, times);
      s'.window == s.window || (s'.window.Some? && s'.window.value in times)
    decreases |times|
  {
    if times != [] {
      WindowIsACall(Called(s, threshold, interval, times[0]), threshold, interval, times[1..]);
    }
  }

  /** After any history, a call that comes an interval or more after all others runs f. */
  lemma IdleThenRuns(threshold: int, interval: int, history: seq<Time>, now: Time)
    requires threshold >= 1 && interval > 0 && forall t :: t in history ==> t + interval <= now
    ensures Runs(After(FRESH, threshold, interval, history), threshold, interval, now)
  {
    WindowIsACall(FRESH, threshold, interval, history);
    if history == [] {
    } else {
      OpenedByFirst(FRESH, threshold, interval, history);
      WindowReopens(After(FRESH, threshold, interval, history), threshold, interval, now);
    }
  }

  lemma {:induction false} OpenedByFirst(s: Limiter, threshold: int, interval: int, times: seq<Time>)
    requires times != [] || s.window.Some?
    ensures After(s, threshold, interval, times).window.Some?
    decreases |times|
  {
    if times != [] {
      OpenedByFirst(Called(s, threshold, interval, times[0]), threshold, interval, times[1..]);
    }
  }

  function Min(a: int, b: int): int
  {
    if a < b then a else b
  }

  /** Inside a window f runs for every call until the threshold is used up, and then for none. */
  lemma {:induction false} CallsInWindow(s: Limiter, threshold: int, interval: int, times: seq<Time>)
    requires s.window.Some? && 0 <= s.count <= threshold
    requires forall i :: 0 <= i < |times| ==> times[i] - s.window.value < interval
    ensures Calls(s, threshold, interval, times) == Min(|times|, threshold - s.count)
    decreases |times|
  {
    if times != [] {
      CallsInWindow(Called(s, threshold, interval, times[0]), threshold, interval, times[1..]);
    }
  }

  /**
   After any history, the first `threshold` calls from an idle interval on all run f, and no
   other in that window does.
   */
  lemma WindowRunsThreshold(threshold: int, interval: int, history: seq<Time>, times: seq<Time>)
    requires threshold >= 1 && interval > 0 && times != []
    requires forall t :: t in history ==> t + interval <= times[0]
    requires forall i :: 0 <= i < |times| ==> times[i] - times[0] < interval
    ensures Calls(After(FRESH, threshold, interval, history), threshold, interval, times) == Min(|times|, threshold)
  {
    var s := After(FRESH, threshold, interval, history);
    IdleThenRuns(threshold, interval, history, times[0]);
    WindowIsACall(FRESH, threshold, interval, history);
    if history != [] {
      OpenedByFirst(FRESH, threshold, interval, history);
    }
    assert Called(s, threshold, interval, times[0]) == Limiter(1, Some(times[0]));
    CallsInWindow(Limiter(1, Some(times[0])), threshold, interval, times[1..]);
  }

  function Repeat(n: nat, t: Time): (times: seq<Time>)
    ensures |times| == n && forall i :: 0 <= i < n ==> times[i] == t
  {
    seq(n, _ => t)
  }

  /** Calls at one instant inside an open window use up what is left of the threshold. */
  lemma {:induction false} CallsAtOnce(s: Limiter, threshold: int, interval: int, n: nat, t: Time, more: seq<Time>)
    requires s.window.Some? && t - s.window.value < interval && 0 <= s.count && s.count + n <= threshold
    ensures Calls(s, threshold, interval, Repeat(n, t) + more)
         == n + Calls(Limiter(s.count + n, s.window), threshold, interval, more)
    decreases n
  {
    if n == 0 {
      assert Repeat(0, t) + more == more;
    } else {
      var times := Repeat(n, t) + more;
      assert times[0] == t && times[1..] == Repeat(n - 1, t) + more;
      CallsAtOnce(Limiter(s.count + 1, s.window), threshold, interval, n - 1, t, more);
    }
  }

  /**
   The bound is reached for every threshold and every interval of at least two ticks: one call
   opens a window, the rest of its threshold comes in its last tick, a whole threshold in the next.
   */
  lemma BurstBoundIsTight(threshold: int, interval: int)
    requires threshold >= 1 && interval >= 2
    ensures var burst := Repeat(threshold - 1, interval - 1) + Repeat(threshold, interval);
      && Monotone([0] + burst) && burst[|burst| - 1] - burst[0] < interval
      && Calls(After(FRESH, threshold, interval, [0]), threshold, interval, burst) == 2 * threshold - 1
  {
    var justOpened := Limiter(1, Some(0));
    assert [0][1..] == [];
    assert After(FRESH, threshold, interval, [0]) == justOpened;
    CallsAtOnce(justOpened, threshold, interval, threshold - 1, interval - 1, Repeat(threshold, interval));
    var full, reopened := Limiter(threshold, Some(0)), Limiter(1, Some(interval));
    var next := Repeat(threshold, interval);
    assert next[0] == interval && next[1..] == Repeat(threshold - 1, interval) + [];
    assert Called(full, threshold, interval, interval) == reopened;
    CallsAtOnce(reopened, threshold, interval, threshold - 1, interval, []);
  }
}
