/** The sliding-window rate limiter of one caller: two counters in Redis and a weighted estimate. */
module RateLimit {

  datatype Config = Config(limit: nat, windowSecs: nat)

  /** A Redis counter and the millisecond at which it expires. */
  datatype Counter = Counter(count: nat, expiresAt: nat)

  /** The counters of one base key, by window number. */
  type Counters = map<nat, Counter>

  function WindowMs(c: Config): nat {
    c.windowSecs * 1000
  }

  lemma DivNat(n: int, d: int)
    requires n >= 0 && d > 0
    ensures n / d >= 0
  {
  }

  function Div(n: nat, d: nat): (q: nat)
    requires d > 0
    ensures q == n / d
  {
    DivNat(n, d);
    n / d
  }

  function Window(c: Config, now: nat): nat
    requires c.windowSecs > 0
  {
    Div(now, WindowMs(c))
  }

  /** GET: an expired key reads as zero. */
  function Read(s: Counters, w: nat, now: nat): nat {
    if w in s && now < s[w].expiresAt then s[w].count else 0
  }

  datatype Verdict = Verdict(counters: Counters, remaining: nat)

  /** The weighted share of the previous window, with the exact rational weight. */
  function Carried(c: Config, previous: nat, now: nat): nat
    requires c.windowSecs > 0
  {
    Div(previous * (WindowMs(c) - now % WindowMs(c)), WindowMs(c))
  }

  /** The script: count this request, keep the counter for two windows, and compare the estimate with the limit. */
  function Script(c: Config, s: Counters, current: nat, previous: nat, now: nat): Verdict
    requires c.windowSecs > 0
  {
    var count := Read(s, current, now) + 1;
    var s' := s[current := Counter(count, now + 2 * WindowMs(c))];
    var estimated := count + Carried(c, Read(s', previous, now), now);
    Verdict(s', if estimated > c.limit then 0 else c.limit - estimated)
  }

  function Check(c: Config, s: Counters, now: nat): Verdict
    requires c.windowSecs > 0
  {
    var w := Window(c, now);
    Script(c, s, w, if w == 0 then 0 else w - 1, now)
  }

  class RateLimiter {
    var counters: Counters

    constructor ()
      ensures counters == map[]
    {
      counters := map[];
    }

    /** One request: admitted when something remains of the limit. */
    method Serve(c: Config, now: nat) returns (admitted: bool)
      requires c.windowSecs > 0
      modifies this
      ensures counters == Check(c, old(counters), now).counters
      ensures admitted <==> Check(c, old(counters), now).remaining > 0
    {
      var windowMs := c.windowSecs * 1000;
      var current := Div(now, windowMs);
      var previous := if current == 0 then 0 else current - 1;

      var count := Read(counters, current, now) + 1;
      counters := counters[current := Counter(count, now + c.windowSecs * 2 * 1000)];
      var carried := Read(counters, previous, now);
      var timeInWindow := now % windowMs;
      MulLe(0, carried, windowMs - timeInWindow);
      var estimated := count + Div(carried * (windowMs - timeInWindow), windowMs);
      admitted := estimated <= c.limit && c.limit - estimated > 0;
    }
  }

  // ---- request streams ----

  /** A stream of request times that never goes back, all after the first window since the epoch. */
  ghost predicate Stream(c: Config, times: seq<nat>) {
    && c.windowSecs > 0
    && (forall i | 0 <= i < |times| :: WindowMs(c) <= times[i])
    && (forall i, j | 0 <= i < j < |times| :: times[i] <= times[j])
  }

  function Replay(c: Config, times: seq<nat>): Counters
    requires c.windowSecs > 0
  {
    if times == [] then map[] else Check(c, Replay(c, times[..|times| - 1]), times[|times| - 1]).counters
  }

  /** Is the last request of the stream admitted? */
  predicate LastAdmitted(c: Config, times: seq<nat>)
    requires c.windowSecs > 0 && times != []
  {
    Check(c, Replay(c, times[..|times| - 1]), times[|times| - 1]).remaining > 0
  }

  /** Requests, admitted or not, that fall into window `w`. */
  function CountIn(c: Config, times: seq<nat>, w: nat): nat
    requires c.windowSecs > 0
  {
    if times == [] then 0
    else CountIn(c, times[..|times| - 1], w) + if Window(c, times[|times| - 1]) == w then 1 else 0
  }

  /** Requests admitted at a time from `lo` up to but not including `hi`. */
  function AdmittedIn(c: Config, times: seq<nat>, lo: nat, hi: nat): nat
    requires c.windowSecs > 0
  {
    if times == [] then 0
    else
      AdmittedIn(c, times[..|times| - 1], lo, hi)
      + if lo <= times[|times| - 1] < hi && LastAdmitted(c, times) then 1 else 0
  }

  lemma WindowBounds(c: Config, t: nat)
    requires c.windowSecs > 0
    ensures Window(c, t) * WindowMs(c) <= t < Window(c, t) * WindowMs(c) + WindowMs(c)
    ensures t == Window(c, t) * WindowMs(c) + t % WindowMs(c)
  {
  }

  lemma InWindow(c: Config, t: nat, w: nat)
    requires c.windowSecs > 0 && w * WindowMs(c) <= t < w * WindowMs(c) + WindowMs(c)
    ensures Window(c, t) == w && t % WindowMs(c) == t - w * WindowMs(c)
  {
    DivUnique(t, WindowMs(c), w);
  }

  lemma DivUnique(n: int, d: int, q: int)
    requires d > 0 && q * d <= n < q * d + d
    ensures n / d == q && n % d == n - q * d
  {
    var r := n - q * d;
    assert n / d * d + n % d == n;
    if n / d < q {
      MulLe(n / d + 1, q, d);
    } else if n / d > q {
      MulLe(q + 1, n / d, d);
    }
  }

  lemma MulLe(a: int, b: int, d: int)
    requires a <= b && d >= 0
    ensures a * d <= b * d
  {
  }

  lemma DivLe(a: int, b: int, d: int)
    requires a <= b && d > 0
    ensures a / d <= b / d
  {
    if a / d > b / d {
      MulLe(b / d + 1, a / d, d);
    }
  }

  lemma StreamFront(c: Config, times: seq<nat>)
    requires Stream(c, times) && times != []
    ensures Stream(c, times[..|times| - 1])
  {
  }

  /** A counter is still there for as long as its window is the current or the previous one: it expires after two windows. */
  lemma {:induction false} CountersCount(c: Config, times: seq<nat>, now: nat, w: nat)
    requires Stream(c, times) && (forall i | 0 <= i < |times| :: times[i] <= now)
    requires Window(c, now) == w || Window(c, now) == w + 1
    ensures Read(Replay(c, times), w, now) == CountIn(c, times, w)
  {
    if times != [] {
      var front, t := times[..|times| - 1], times[|times| - 1];
      StreamFront(c, times);
      if Window(c, t) == w {
        CountersCount(c, front, t, w);
        WindowBounds(c, t);
        WindowBounds(c, now);
        MulLe(Window(c, now), w + 1, WindowMs(c));
        assert (w + 1) * WindowMs(c) == w * WindowMs(c) + WindowMs(c);
      } else {
        CountersCount(c, front, now, w);
      }
    }
  }

  /** A request is admitted when the requests of its window up to it, and the weighted share of the previous window, stay below the limit. */
  lemma AdmittedWhen(c: Config, times: seq<nat>)
    requires Stream(c, times) && times != []
    ensures var now := times[|times| - 1];
            var w := Window(c, now);
            && w > 0
            && (LastAdmitted(c, times) <==>
                  CountIn(c, times, w) + Carried(c, CountIn(c, times, w - 1), now) < c.limit)
  {
    hide Carried, Replay;
    var front, now := times[..|times| - 1], times[|times| - 1];
    var w := Window(c, now);
    StreamFront(c, times);
    DivUnique(WindowMs(c), WindowMs(c), 1);
    DivLe(WindowMs(c), now, WindowMs(c));
    CountersCount(c, front, now, w);
    CountersCount(c, front, now, w - 1);
  }

  lemma {:induction false} AdmittedAreCounted(c: Config, times: seq<nat>, lo: nat, hi: nat, w: nat)
    requires c.windowSecs > 0 && w * WindowMs(c) <= lo && hi <= w * WindowMs(c) + WindowMs(c)
    ensures AdmittedIn(c, times, lo, hi) <= CountIn(c, times, w)
  {
    if times != [] {
      AdmittedAreCounted(c, times[..|times| - 1], lo, hi, w);
      if lo <= times[|times| - 1] < hi {
        InWindow(c, times[|times| - 1], w);
      }
    }
  }

  /** Among the admitted requests of a range within one window, the last one saw a counter of at least their number. */
  lemma {:induction false} LastOfMany(c: Config, times: seq<nat>, lo: nat, hi: nat, w: nat) returns (n: nat)
    requires c.windowSecs > 0 && w * WindowMs(c) <= lo && hi <= w * WindowMs(c) + WindowMs(c)
    requires AdmittedIn(c, times, lo, hi) > 0
    ensures 0 < n <= |times| && LastAdmitted(c, times[..n]) && lo <= times[n - 1] < hi
    ensures AdmittedIn(c, times, lo, hi) <= CountIn(c, times[..n], w)
  {
    var front, t := times[..|times| - 1], times[|times| - 1];
    if lo <= t < hi && LastAdmitted(c, times) {
      n := |times|;
      assert times[..n] == times;
      AdmittedAreCounted(c, times, lo, hi, w);
    } else {
      n := LastOfMany(c, front, lo, hi, w);
      assert front[..n] == times[..n];
    }
  }

  lemma StreamPrefix(c: Config, times: seq<nat>, n: nat)
    requires Stream(c, times) && n <= |times|
    ensures Stream(c, times[..n])
  {
  }

  /** No window admits the limit or more. */
  lemma WindowBound(c: Config, times: seq<nat>, lo: nat, hi: nat, w: nat)
    requires Stream(c, times) && w * WindowMs(c) <= lo && hi <= w * WindowMs(c) + WindowMs(c)
    ensures AdmittedIn(c, times, lo, hi) < c.limit || AdmittedIn(c, times, lo, hi) == 0
  {
    if AdmittedIn(c, times, lo, hi) > 0 {
      var n := LastOfMany(c, times, lo, hi, w);
      StreamPrefix(c, times, n);
      InWindow(c, times[n - 1], w);
      AdmittedWhen(c, times[..n]);
    }
  }

  lemma {:induction false} LaterRequestsAreElsewhere(c: Config, times: seq<nat>, n: nat, w: nat)
    requires Stream(c, times) && 0 < n <= |times| && Window(c, times[n - 1]) > w
    ensures CountIn(c, times, w) == CountIn(c, times[..n], w)
    decreases |times|
  {
    if n == |times| {
      assert times[..n] == times;
    } else {
      var front := times[..|times| - 1];
      StreamFront(c, times);
      LaterRequestsAreElsewhere(c, front, n, w);
      assert front[..n] == times[..n];
      DivLe(times[n - 1], times[|times| - 1], WindowMs(c));
    }
  }

  lemma {:induction false} AdmittedSplit(c: Config, times: seq<nat>, lo: nat, mid: nat, hi: nat)
    requires c.windowSecs > 0 && lo <= mid <= hi
    ensures AdmittedIn(c, times, lo, hi) == AdmittedIn(c, times, lo, mid) + AdmittedIn(c, times, mid, hi)
  {
    if times != [] {
      AdmittedSplit(c, times[..|times| - 1], lo, mid, hi);
    }
  }

  function CeilDiv(n: nat, d: nat): nat
    requires d > 0
  {
    Div(n + d - 1, d)
  }

  /** Rounding the weighted share down leaves the complement rounded up. */
  lemma ComplementRoundsUp(a: nat, x: nat, d: nat)
    requires d > 0 && x <= d
    ensures a * (d - x) >= 0
    ensures a * (d - x) / d == a - (a * x + d - 1) / d
  {
    MulLe(0, a, d - x);
    var q := (a * x + d - 1) / d;
    var r := (a * x + d - 1) % d;
    assert q * d == a * x + d - 1 - r;
    assert a * (d - x) == a * d - a * x;
    assert (a - q) * d == a * d - q * d;
    DivUnique(a * (d - x), d, a - q);
  }

  lemma MulMono(a: int, b: int, x: int, y: int)
    requires 0 <= a <= b && 0 <= x <= y
    ensures 0 <= a * x <= b * y
  {
  }

  /** With `p` requests counted in the previous window and an estimate below the limit, `a` of those and `b` of these fit the bound. */
  lemma Estimate(a: nat, b: nat, p: nat, limit: nat, y: nat, x: nat, d: nat)
    requires d > 0 && y <= x <= d && a <= p && a < limit
    requires p * (d - y) >= 0 && b + p * (d - y) / d < limit
    ensures (limit - 1) * x >= 0
    ensures a + b <= limit - 1 + CeilDiv((limit - 1) * x, d)
  {
    MulMono(a, p, d - x, d - y);
    DivLe(a * (d - x), p * (d - y), d);
    ComplementRoundsUp(a, x, d);
    MulMono(a, limit - 1, x, x);
    DivLe(a * x + d - 1, (limit - 1) * x + d - 1, d);
  }

  /**
    The sliding bound: an interval of one window's length that starts `x` milliseconds into a window admits at most
    `limit - 1` requests and the fraction `x` of a further `limit - 1`, rounded up.
   */
  lemma IntervalBound(c: Config, times: seq<nat>, k: nat, x: nat)
    requires Stream(c, times) && c.limit > 0 && x < WindowMs(c)
    ensures (c.limit - 1) * x >= 0
    ensures AdmittedIn(c, times, k * WindowMs(c) + x, k * WindowMs(c) + x + WindowMs(c))
         <= c.limit - 1 + CeilDiv((c.limit - 1) * x, WindowMs(c))
  {
    hide AdmittedIn, CountIn, LastAdmitted, Window, CeilDiv;
    var d := WindowMs(c);
    var start := k * d + x;
    var border := k * d + d;
    assert (k + 1) * d == border;
    MulMono(0, c.limit - 1, 0, x);
    AdmittedSplit(c, times, start, border, start + d);
    WindowBound(c, times, start, border, k);
    var a, b := AdmittedIn(c, times, start, border), AdmittedIn(c, times, border, start + d);
    if b > 0 {
      var n := LastOfMany(c, times, border, start + d, k + 1);
      var now := times[n - 1];
      InWindow(c, now, k + 1);
      StreamPrefix(c, times, n);
      AdmittedWhen(c, times[..n]);
      AdmittedAreCounted(c, times, start, border, k);
      LaterRequestsAreElsewhere(c, times, n, k);
      var p := CountIn(c, times[..n], k);
      var y := now - border;
      assert now % d == y;
      MulMono(0, p, 0, d - y);
      Estimate(a, b, p, c.limit, y, x, d);
    }
  }

  // ---- the decision in plain numbers ----

  /** Requests, admitted or not, at a time from `lo` up to but not including `hi`. */
  function Requests(times: seq<nat>, lo: int, hi: int): nat {
    if times == [] then 0
    else Requests(times[..|times| - 1], lo, hi) + if lo <= times[|times| - 1] < hi then 1 else 0
  }

  lemma {:induction false} CountInIsRequests(c: Config, times: seq<nat>, w: nat)
    requires c.windowSecs > 0
    ensures CountIn(c, times, w) == Requests(times, w * (c.windowSecs * 1000), w * (c.windowSecs * 1000) + c.windowSecs * 1000)
  {
    if times != [] {
      var t := times[|times| - 1];
      CountInIsRequests(c, times[..|times| - 1], w);
      WindowBounds(c, t);
      if w * WindowMs(c) <= t < w * WindowMs(c) + WindowMs(c) {
        InWindow(c, t, w);
      }
    }
  }

  /**
    Of a request at `now`, in the window of `W` milliseconds that starts at `start`: what is left of the limit after the requests
    of this window and the share of those of the window before, weighted by how much of this window is still to come.
   */
  function LeftOver(c: Config, times: seq<nat>, W: nat, start: int, now: int): int
    requires W > 0
  {
    c.limit - (Requests(times, start, start + W) + Requests(times, start - W, start) * (W - (now - start)) / W)
  }

  /** The limiter admits a request exactly when something is left of the limit, and reports what is left. */
  lemma DecidesExactly(c: Config, times: seq<nat>)
    requires Stream(c, times) && times != []
    ensures var W, now := c.windowSecs * 1000, times[|times| - 1];
            var left := LeftOver(c, times, W, now - now % W, now);
            && (LastAdmitted(c, times) <==> left > 0)
            && Check(c, Replay(c, times[..|times| - 1]), now).remaining == if left < 0 then 0 else left
  {
    var front, now, W := times[..|times| - 1], times[|times| - 1], c.windowSecs * 1000;
    var w := Window(c, now);
    AdmittedWhen(c, times);
    WindowBounds(c, now);
    assert now - now % W == w * W && (w - 1) * W == w * W - W;
    CountInIsRequests(c, times, w);
    CountInIsRequests(c, times, w - 1);
    StreamFront(c, times);
    CountersCount(c, front, now, w);
    CountersCount(c, front, now, w - 1);
    hide Replay, CountIn, Requests;
  }
}
