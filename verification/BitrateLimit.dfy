/** The sliding-window bitrate limiter: a lazily pruned queue and the violation clock it drives. */
module BitrateLimits {
  import opened Codes
  import opened WrapArithmetic

  const CLEANUP_INTERVAL_MS: int := 1000
  const MIN_WINDOW_MS: int := 1000

  datatype Point = Point(time: int, bytes: nat)

  /** maxKbps 0 means unlimited. The tolerance is a real: its rounding as a float is not modelled. */
  datatype Config = Config(maxKbps: int, windowMs: int, tolerance: real, thresholdMs: int)

  datatype Verdict = Ok | Violation | Disconnect

  datatype Window = Window(queue: seq<Point>, total: int, lastCleanup: int)

  datatype Clock = Clock(inViolation: bool, since: int)

  datatype Limiter = Limiter(config: Config, window: Window, clock: Clock)

  predicate ValidParams(maxKbps: int, timeoutSec: int, windowMs: int, tolerance: real) {
    maxKbps >= 0 && timeoutSec > 0 && windowMs > 0 && tolerance >= 1.0
  }

  predicate ValidConfig(c: Config) { ValidParams(c.maxKbps, c.thresholdMs, c.windowMs, c.tolerance) }

  function Max(a: int, b: int): int { if a >= b then a else b }

  function Sum(q: seq<Point>): (n: nat) { if q == [] then 0 else q[0].bytes + Sum(q[1..]) }

  /** The pruning loop: drops from the front while the front is older than the cutoff. */
  function DropOld(q: seq<Point>, cutoff: int): (r: seq<Point>)
    ensures |r| <= |q|
    ensures r != [] ==> r[0].time >= cutoff
  {
    if q != [] && q[0].time < cutoff then DropOld(q[1..], cutoff) else q
  }

  /** What is left is a suffix, and everything dropped was old. */
  lemma {:induction false} DropOldIsSuffix(q: seq<Point>, cutoff: int)
    ensures var r := DropOld(q, cutoff);
            r == q[|q| - |r|..] && forall i :: 0 <= i < |q| - |r| ==> q[i].time < cutoff
  {
    if q != [] && q[0].time < cutoff {
      DropOldIsSuffix(q[1..], cutoff);
      assert forall i :: 1 <= i < |q| ==> q[i] == q[1..][i - 1];
    }
  }

  function Pruned(w: Window, cutoff: int): Window {
    var q := DropOld(w.queue, cutoff);
    w.(queue := q, total := w.total - Sum(w.queue[..|w.queue| - |q|]))
  }

  function Pushed(w: Window, p: Point): Window { w.(queue := w.queue + [p], total := w.total + p.bytes) }

  /** The queue side of a check: push, then prune, at most once per second when a limit is set. */
  function Observe(c: Config, w: Window, p: Point): Window {
    if c.maxKbps == 0 then Pruned(Pushed(w, p), p.time - c.windowMs)
    else if p.time - w.lastCleanup > CLEANUP_INTERVAL_MS then
      Pruned(Pushed(w, p), p.time - c.windowMs).(lastCleanup := p.time)
    else Pushed(w, p)
  }

  function EffectiveWindow(c: Config, w: Window, now: int): (e: int)
    requires c.windowMs > 0
    ensures e > 0
  {
    if w.queue != [] && now - w.queue[0].time < c.windowMs
    then Max(MIN_WINDOW_MS, now - w.queue[0].time)
    else c.windowMs
  }

  function Kbps(bytes: int, windowMs: int): int
    requires windowMs > 0
  {
    bytes * 8 * 1000 / windowMs / 1000
  }

  function SpikeLimit(c: Config): int { (c.maxKbps as real * c.tolerance).Floor }

  predicate Exceeds(c: Config, w: Window, now: int)
    requires c.windowMs > 0
  {
    c.maxKbps != 0 && Kbps(w.total, EffectiveWindow(c, w, now)) > SpikeLimit(c)
  }

  /** The clock starts at the first exceeding check and stops at the first compliant one. */
  function ClockStep(k: Clock, exceeds: bool, now: int): Clock {
    if exceeds == k.inViolation then k else if exceeds then Clock(true, now) else Clock(false, 0)
  }

  function Judge(k: Clock, now: int, thresholdMs: int): Verdict {
    if !k.inViolation then Ok else if now - k.since >= thresholdMs then Disconnect else Violation
  }

  function Fresh(c: Config, now: int): Limiter { Limiter(c, Window([], 0, now), Clock(false, 0)) }

  function CheckSpec(l: Limiter, p: Point): (r: (Limiter, Verdict))
    requires l.config.windowMs > 0
    ensures r.0.config == l.config
  {
    var w := Observe(l.config, l.window, p);
    if l.config.maxKbps == 0 then (l.(window := w), Ok)
    else
      var k := ClockStep(l.clock, Exceeds(l.config, w, p.time), p.time);
      (Limiter(l.config, w, k), Judge(k, p.time, l.config.thresholdMs))
  }

  // ----- runs -----

  /** The limiter after the checks `h`, one per point, starting from init() at time `start`. */
  function After(c: Config, start: int, h: seq<Point>): (l: Limiter)
    requires c.windowMs > 0
    ensures l.config == c
  {
    if h == [] then Fresh(c, start) else CheckSpec(After(c, start, h[..|h| - 1]), h[|h| - 1]).0
  }

  function VerdictAt(c: Config, start: int, h: seq<Point>, k: nat): Verdict
    requires c.windowMs > 0 && k < |h|
  {
    CheckSpec(After(c, start, h[..k]), h[k]).1
  }

  /** The window alone; the clock has no influence on it. */
  function WindowAfter(c: Config, start: int, h: seq<Point>): Window {
    if h == [] then Window([], 0, start) else Observe(c, WindowAfter(c, start, h[..|h| - 1]), h[|h| - 1])
  }

  /** Which checks of the run find the rate above the spike limit. */
  function Flags(c: Config, start: int, h: seq<Point>): (f: seq<bool>)
    requires c.windowMs > 0
    ensures |f| == |h|
  {
    if h == [] then []
    else Flags(c, start, h[..|h| - 1]) + [Exceeds(c, WindowAfter(c, start, h), h[|h| - 1].time)]
  }

  predicate Ordered(start: int, h: seq<Point>) {
    && (h != [] ==> start <= h[0].time)
    && forall i, j :: 0 <= i <= j < |h| ==> h[i].time <= h[j].time
  }

  // ----- the lazy window -----

  lemma {:induction false} SumSplit(q: seq<Point>, k: nat)
    requires k <= |q|
    ensures Sum(q) == Sum(q[..k]) + Sum(q[k..])
  {
    if k > 0 {
      SumSplit(q[1..], k - 1);
      assert q[1..][..k - 1] == q[..k][1..] && q[1..][k - 1..] == q[k..];
    } else {
      assert q[..0] == [] && q[0..] == q;
    }
  }

  lemma {:induction false} DropOldAppend(q: seq<Point>, p: Point, cutoff: int)
    requires p.time >= cutoff
    ensures DropOld(q + [p], cutoff) == DropOld(q, cutoff) + [p]
  {
    if q != [] && q[0].time < cutoff {
      DropOldAppend(q[1..], p, cutoff);
      assert (q + [p])[1..] == q[1..] + [p];
    }
  }

  lemma {:induction false} DropOldTwice(q: seq<Point>, c1: int, c2: int)
    requires c1 <= c2
    ensures DropOld(DropOld(q, c1), c2) == DropOld(q, c2)
  {
    if q != [] && q[0].time < c1 {
      DropOldTwice(q[1..], c1, c2);
    }
  }

  /** The queue is the part of the history from the cutoff on, and the total its sum. */
  ghost predicate IsSince(w: Window, h: seq<Point>, cutoff: int) {
    w.queue == DropOld(h, cutoff) && w.total == Sum(w.queue)
  }

  lemma PushKeepsSince(w: Window, h: seq<Point>, p: Point, cutoff: int)
    requires IsSince(w, h, cutoff) && cutoff <= p.time
    ensures IsSince(Pushed(w, p), h + [p], cutoff)
  {
    DropOldAppend(h, p, cutoff);
    var q := w.queue + [p];
    SumSplit(q, |w.queue|);
    assert q[..|w.queue|] == w.queue && q[|w.queue|..] == [p];
  }

  lemma PruneMovesCutoff(w: Window, h: seq<Point>, cutoff: int, later: int)
    requires IsSince(w, h, cutoff) && cutoff <= later
    ensures IsSince(Pruned(w, later), h, later)
  {
    DropOldTwice(h, cutoff, later);
    DropOldIsSuffix(w.queue, later);
    SumSplit(w.queue, |w.queue| - |DropOld(w.queue, later)|);
  }

  lemma PruneKeepsNewest(w: Window, h: seq<Point>, p: Point, cutoff: int)
    requires IsSince(Pruned(w, cutoff), h + [p], cutoff) && cutoff <= p.time
    ensures Pruned(w, cutoff).queue != []
    ensures forall t :: IsSince(Pruned(w, cutoff).(lastCleanup := t), h + [p], cutoff)
  {
    hide Sum, DropOld, Pruned;
    DropOldAppend(h, p, cutoff);
  }

  /** Queue and total after the checks `h`: exactly the points since (last cleanup - window), and their sum. */
  ghost predicate LazyWindow(c: Config, w: Window, h: seq<Point>) {
    && IsSince(w, h, w.lastCleanup - c.windowMs)
    && (h != [] ==> 0 <= h[|h| - 1].time - w.lastCleanup <= CLEANUP_INTERVAL_MS && w.queue != [])
  }

  lemma ObserveKeepsWindow(c: Config, w: Window, h: seq<Point>, p: Point)
    requires LazyWindow(c, w, h) && c.maxKbps > 0 && c.windowMs > 0 && w.lastCleanup <= p.time
    ensures LazyWindow(c, Observe(c, w, p), h + [p])
  {
    hide Sum, DropOld, IsSince, Pruned;
    var cutoff := w.lastCleanup - c.windowMs;
    PushKeepsSince(w, h, p, cutoff);
    if p.time - w.lastCleanup > CLEANUP_INTERVAL_MS {
      PruneMovesCutoff(Pushed(w, p), h + [p], cutoff, p.time - c.windowMs);
      PruneKeepsNewest(Pushed(w, p), h, p, p.time - c.windowMs);
    }
  }

  /** Over every run: the queue is the history suffix since (last cleanup - window) and its sum is the total. */
  lemma {:induction false} WindowIsSuffix(c: Config, start: int, h: seq<Point>)
    requires ValidConfig(c) && c.maxKbps > 0 && Ordered(start, h)
    ensures var w := WindowAfter(c, start, h);
            LazyWindow(c, w, h) && (h == [] ==> w.lastCleanup == start)
  {
    if h != [] {
      var n := |h| - 1;
      WindowIsSuffix(c, start, h[..n]);
      assert h[..n] + [h[n]] == h;
      var w := WindowAfter(c, start, h[..n]);
      assert w.lastCleanup <= h[n].time by {
        if n > 0 { assert h[..n][n - 1].time <= h[n].time; }
      }
      ObserveKeepsWindow(c, w, h[..n], h[n]);
    }
  }

  /** Its front is never more than the window plus one cleanup interval old. */
  lemma FrontAge(c: Config, start: int, h: seq<Point>)
    requires ValidConfig(c) && c.maxKbps > 0 && Ordered(start, h) && h != []
    ensures var q := WindowAfter(c, start, h).queue;
            q != [] && h[|h| - 1].time - q[0].time <= c.windowMs + CLEANUP_INTERVAL_MS
  {
    WindowIsSuffix(c, start, h);
  }

  lemma DivMonotone(a: int, b: int, x: int, y: int)
    requires a >= b >= 0 && 0 < x <= y
    ensures a / x >= b / y >= 0
  {
    var q := b / y;
    assert b == y * q + b % y;
    IntScale(x, y, q);
    QuotientBound(q, x, a);
  }

  /** The bitrate over exactly the last window, with nothing stale in it. */
  function ExactKbps(h: seq<Point>, windowMs: int, now: int): int
    requires windowMs > 0
  {
    Kbps(Sum(DropOld(h, now - windowMs)), windowMs)
  }

  function ComputedKbps(c: Config, start: int, h: seq<Point>): int
    requires c.windowMs > 0 && h != []
  {
    var w := WindowAfter(c, start, h);
    Kbps(w.total, EffectiveWindow(c, w, h[|h| - 1].time))
  }

  lemma KbpsMonotone(a: int, b: int, x: int, y: int)
    requires a >= b >= 0 && 0 < x <= y
    ensures Kbps(a, x) >= Kbps(b, y)
  {
    DivMonotone(a * 8 * 1000, b * 8 * 1000, x, y);
    DivMonotone(a * 8 * 1000 / x, b * 8 * 1000 / y, 1000, 1000);
  }

  /** Laziness never hides traffic: with a window of a second or more the computed rate is at least the exact one. */
  lemma LazyDominatesExact(c: Config, start: int, h: seq<Point>)
    requires ValidConfig(c) && c.maxKbps > 0 && Ordered(start, h) && h != [] && c.windowMs >= MIN_WINDOW_MS
    ensures ComputedKbps(c, start, h) >= ExactKbps(h, c.windowMs, h[|h| - 1].time)
  {
    hide Kbps, Sum, WindowAfter;
    var w, now := WindowAfter(c, start, h), h[|h| - 1].time;
    WindowIsSuffix(c, start, h);
    DropOldTwice(h, w.lastCleanup - c.windowMs, now - c.windowMs);
    var exact := DropOld(w.queue, now - c.windowMs);
    DropOldIsSuffix(w.queue, now - c.windowMs);
    SumSplit(w.queue, |w.queue| - |exact|);
    KbpsMonotone(w.total, Sum(exact), EffectiveWindow(c, w, now), c.windowMs);
  }

  /** Below a second it can: the one-second floor spreads a burst over more than the window. */
  lemma ShortWindowUndershoots(c: Config, start: int)
    requires ValidConfig(c) && c.maxKbps > 0 && c.windowMs < MIN_WINDOW_MS
    ensures var h := [Point(start, 1000 * c.windowMs)];
            Ordered(start, h) && ComputedKbps(c, start, h) < ExactKbps(h, c.windowMs, start)
  {
    var p := Point(start, 1000 * c.windowMs);
    BurstKbps(c.windowMs);
    SinglePoint(c, start, p);
  }

  lemma SinglePoint(c: Config, start: int, p: Point)
    requires ValidConfig(c) && c.maxKbps > 0 && p.time == start
    ensures ComputedKbps(c, start, [p]) == Kbps(p.bytes, MIN_WINDOW_MS)
    ensures ExactKbps([p], c.windowMs, start) == Kbps(p.bytes, c.windowMs)
  {
    hide Kbps;
    assert [p][..0] == [];
    assert WindowAfter(c, start, [p]) == Window([p], p.bytes, start);
    assert DropOld([p], start - c.windowMs) == [p] && Sum([p]) == p.bytes;
  }

  lemma BurstKbps(w: int)
    requires 0 < w < 1000
    ensures Kbps(1000 * w, 1000) == 8 * w && Kbps(1000 * w, w) == 8000
  {
    assert 1000 * w * 8 * 1000 == 8000000 * w;
    assert 8000000 * w / w == 8000000;
  }

  // ----- no false alarms -----

  /** Every block of consecutive points stays within the configured rate, over its own span or a second. */
  ghost predicate Compliant(h: seq<Point>, maxKbps: int) {
    forall i, j :: 0 <= i <= j < |h| ==> 8 * Sum(h[i..j + 1]) <= maxKbps * Max(MIN_WINDOW_MS, h[j].time - h[i].time)
  }

  lemma KbpsTimesWindow(bytes: int, e: int)
    requires bytes >= 0 && e > 0
    ensures Kbps(bytes, e) * e <= 8 * bytes
  {
    var q := bytes * 8 * 1000 / e;
    assert q * e <= bytes * 8 * 1000;
    var n := q / 1000;
    assert n * 1000 <= q;
    assert n * 1000 * e <= q * e;
    assert n * e * 1000 == n * 1000 * e;
  }

  lemma RealCancel(a: real, b: real, x: real)
    requires x > 0.0 && a * x <= b * x
    ensures a <= b
  {
  }

  lemma RealScale(a: real, b: real, m: real)
    requires m >= 0.0 && a >= b
    ensures m * a >= m * b
  {
  }

  /** A rate n that costs at most m over (w + slack) passes a tolerance that covers the slack. */
  lemma FloorBound(n: int, m: int, w: int, slack: int, tolerance: real)
    requires m >= 0 && w > 0 && n * w <= m * (w + slack)
    requires tolerance * w as real >= (w + slack) as real
    ensures n <= (m as real * tolerance).Floor
  {
    var x := m as real * tolerance;
    RealScale(tolerance * w as real, (w + slack) as real, m as real);
    assert x * w as real == m as real * (tolerance * w as real);
    assert (n * w) as real == n as real * w as real;
    assert (m * (w + slack)) as real == m as real * (w + slack) as real;
    RealCancel(n as real, x, w as real);
  }

  /** If the block in the queue is compliant and no older than the bound, the computed rate is under the spike limit. */
  lemma CompliantBlockPasses(c: Config, w: Window, now: int)
    requires ValidConfig(c) && w.queue != [] && w.total >= 0
    requires 8 * w.total <= c.maxKbps * Max(MIN_WINDOW_MS, now - w.queue[0].time)
    requires now - w.queue[0].time <= c.windowMs + CLEANUP_INTERVAL_MS
    requires c.tolerance * c.windowMs as real >= (c.windowMs + CLEANUP_INTERVAL_MS) as real
    ensures !Exceeds(c, w, now)
  {
    var e, age := EffectiveWindow(c, w, now), now - w.queue[0].time;
    KbpsTimesWindow(w.total, e);
    hide Kbps;
    if age < c.windowMs {
      RealScale(c.tolerance, 1.0, e as real);
      FloorBound(Kbps(w.total, e), c.maxKbps, e, 0, c.tolerance);
    } else {
      IntScale(Max(MIN_WINDOW_MS, age), c.windowMs + CLEANUP_INTERVAL_MS, c.maxKbps);
      FloorBound(Kbps(w.total, e), c.maxKbps, e, CLEANUP_INTERVAL_MS, c.tolerance);
    }
  }

  lemma IntScale(a: int, b: int, m: int)
    requires m >= 0 && a <= b
    ensures m * a <= m * b
  {
  }

  lemma CompliantNeverExceeds(c: Config, start: int, h: seq<Point>, k: nat)
    requires ValidConfig(c) && c.maxKbps > 0 && Ordered(start, h) && Compliant(h, c.maxKbps) && k < |h|
    requires c.tolerance * c.windowMs as real >= (c.windowMs + CLEANUP_INTERVAL_MS) as real
    ensures !Exceeds(c, WindowAfter(c, start, h[..k + 1]), h[k].time)
  {
    hide Exceeds, WindowAfter, Sum, DropOld;
    var g := h[..k + 1];
    WindowIsSuffix(c, start, g);
    FrontAge(c, start, g);
    var w := WindowAfter(c, start, g);
    DropOldIsSuffix(g, w.lastCleanup - c.windowMs);
    var d := k + 1 - |w.queue|;
    assert w.queue == h[d..k + 1] && w.queue[0] == h[d];
    CompliantBlockPasses(c, w, h[k].time);
  }

  /** A compliant stream is never flagged if the tolerance covers one second of staleness: tolerance >= (window + 1000) / window. */
  lemma NeverFalseAlarm(c: Config, start: int, h: seq<Point>, k: nat)
    requires ValidConfig(c) && c.maxKbps > 0 && Ordered(start, h) && Compliant(h, c.maxKbps) && k < |h|
    requires c.tolerance * c.windowMs as real >= (c.windowMs + CLEANUP_INTERVAL_MS) as real
    ensures VerdictAt(c, start, h, k) == Ok
  {
    hide Exceeds, WindowAfter, VerdictAt;
    CompliantNeverExceeds(c, start, h, k);
    assert !Flags(c, start, h[..k + 1])[k];
    FlagsPrefix(c, start, h, k + 1);
    DisconnectIsExact(c, start, h, k);
  }

  /** The shipped window and default tolerance sit exactly on that bound. */
  lemma DefaultsMeetTheBound(c: Config)
    requires c.windowMs == 5000
    ensures c.tolerance >= 1.2 <==> c.tolerance * c.windowMs as real >= (c.windowMs + CLEANUP_INTERVAL_MS) as real
  {
  }

  // ----- the bound is needed -----

  /** One point of b bytes every millisecond from time 0. */
  function Steady(n: nat, b: nat): seq<Point> { seq(n, i requires 0 <= i < n => Point(i, b)) }

  lemma {:induction false} SteadySum(q: seq<Point>, b: nat)
    requires forall i :: 0 <= i < |q| ==> q[i].bytes == b
    ensures Sum(q) == b * |q|
  {
    if q != [] {
      SteadySum(q[1..], b);
      assert b * |q| == b + b * (|q| - 1);
    }
  }

  /** The block rule counts both ends, so 1001 points must fit into a second. */
  lemma SteadyIsCompliant(n: nat, b: nat, maxKbps: nat)
    requires 8008 * b <= 1000 * maxKbps
    ensures Compliant(Steady(n, b), maxKbps)
  {
    hide Sum;
    var h := Steady(n, b);
    forall i, j | 0 <= i <= j < |h|
      ensures 8 * Sum(h[i..j + 1]) <= maxKbps * Max(MIN_WINDOW_MS, h[j].time - h[i].time)
    {
      SteadySum(h[i..j + 1], b);
      SteadyBlock(b, maxKbps, j - i);
    }
  }

  lemma SteadyBlock(b: nat, maxKbps: nat, k: nat)
    requires 8008 * b <= 1000 * maxKbps
    ensures 8 * (b * (k + 1)) <= maxKbps * Max(MIN_WINDOW_MS, k)
  {
    var m := Max(MIN_WINDOW_MS, k);
    IntScale(8008 * b, 1000 * maxKbps, m);
    IntScale(1000 * (k + 1), 1001 * m, 8 * b);
    assert 8 * b * (1000 * (k + 1)) == 1000 * (8 * (b * (k + 1)));
    assert 8 * b * (1001 * m) == m * (8008 * b);
    assert m * (1000 * maxKbps) == 1000 * (maxKbps * m);
  }

  /** It is cleaned up every 1001 ms. */
  lemma {:induction false} SteadyCleanup(c: Config, n: nat, b: nat)
    requires c.maxKbps > 0 && n > 0
    ensures WindowAfter(c, 0, Steady(n, b)).lastCleanup == (n - 1) / 1001 * 1001
  {
    hide Sum, DropOld;
    var h := Steady(n, b);
    assert h[..n - 1] == Steady(n - 1, b);
    if n > 1 {
      SteadyCleanup(c, n - 1, b);
    } else {
      assert h[..0] == [];
    }
  }

  /** The number of points up to the check just before a cleanup is due, once the stream is longer than the window. */
  function LazyPoints(windowMs: nat): nat { ((windowMs + 1000) / 1001 + 1) * 1001 }

  /** There the queue reaches back a second more than the window, and all of it is divided by the window. */
  lemma SteadyWindow(c: Config, b: nat)
    requires ValidConfig(c) && c.maxKbps > 0
    ensures var n := LazyPoints(c.windowMs);
            var w := WindowAfter(c, 0, Steady(n, b));
            w.total == b * (c.windowMs + 1001) && EffectiveWindow(c, w, n - 1) == c.windowMs
  {
    hide Sum, WindowAfter, DropOld;
    var n := LazyPoints(c.windowMs);
    var h := Steady(n, b);
    WindowIsSuffix(c, 0, h);
    SteadyCleanup(c, n, b);
    var w := WindowAfter(c, 0, h);
    var cutoff := n - 1001 - c.windowMs;
    assert w.lastCleanup == n - 1001;
    DropOldIsSuffix(h, cutoff);
    assert h[cutoff].time == cutoff;
    SteadySum(w.queue, b);
  }

  /**
   * For every window and every limit: a steady stream that is compliant, and yet fast enough that the extra second in
   * the queue carries it past the tolerance, is flagged.
   */
  lemma SteadyFalseAlarm(c: Config, b: nat)
    requires ValidConfig(c) && c.maxKbps > 0 && 8008 * b <= 1000 * c.maxKbps
    requires (c.maxKbps as real * c.tolerance + 1.0) * c.windowMs as real <= (8 * (b * (c.windowMs + 1001))) as real
    ensures var h := Steady(LazyPoints(c.windowMs), b);
            Ordered(0, h) && Compliant(h, c.maxKbps) && VerdictAt(c, 0, h, |h| - 1) != Ok
  {
    hide WindowAfter, VerdictAt, Compliant, Exceeds, LazyPoints;
    var n := LazyPoints(c.windowMs);
    var h := Steady(n, b);
    SteadyIsCompliant(n, b, c.maxKbps);
    SteadyExceeds(c, b);
    assert Flags(c, 0, h)[n - 1];
    DisconnectIsExact(c, 0, h, n - 1);
  }

  lemma SteadyExceeds(c: Config, b: nat)
    requires ValidConfig(c) && c.maxKbps > 0
    requires (c.maxKbps as real * c.tolerance + 1.0) * c.windowMs as real <= (8 * (b * (c.windowMs + 1001))) as real
    ensures var n := LazyPoints(c.windowMs);
            n > 0 && Exceeds(c, WindowAfter(c, 0, Steady(n, b)), n - 1)
  {
    hide WindowAfter, Kbps;
    SteadyWindow(c, b);
    KbpsAbove(b * (c.windowMs + 1001), c.windowMs, c.maxKbps as real * c.tolerance);
  }

  lemma KbpsAbove(bytes: nat, w: int, x: real)
    requires w > 0 && (x + 1.0) * w as real <= (8 * bytes) as real
    ensures Kbps(bytes, w) > x.Floor
  {
    var f := x.Floor;
    RealScale(x + 1.0, (f + 1) as real, w as real);
    assert ((f + 1) * w) as real == (f + 1) as real * w as real;
    assert (f + 1) * w <= 8 * bytes;
    assert w * (1000 * (f + 1)) == 1000 * ((f + 1) * w);
    QuotientBound(1000 * (f + 1), w, bytes * 8 * 1000);
    QuotientBound(f + 1, 1000, bytes * 8 * 1000 / w);
  }

  /**
   * So the tolerance that rules out false alarms can hardly be lowered: at any window, for a limit of any multiple of
   * 8008 kbit/s, every tolerance 0.2 percent or more below (window + 1000) / window flags a compliant stream.
   */
  lemma LowerToleranceFalseAlarms(c: Config, q: nat)
    requires ValidConfig(c) && q > 0 && c.maxKbps == 8008 * q
    requires 1.002 * c.tolerance * c.windowMs as real <= (c.windowMs + CLEANUP_INTERVAL_MS) as real
    ensures var h := Steady(LazyPoints(c.windowMs), 1000 * q);
            Ordered(0, h) && Compliant(h, c.maxKbps) && VerdictAt(c, 0, h, |h| - 1) != Ok
  {
    var w, tol := c.windowMs, c.tolerance;
    RoomForOne(q as real, w as real, tol);
    assert (8 * (1000 * q * (w + 1001))) as real == 8000.0 * q as real * (w as real + 1001.0);
    SteadyFalseAlarm(c, 1000 * q);
  }

  lemma RoomForOne(q: real, w: real, tol: real)
    requires q >= 1.0 && w > 0.0 && 1.002 * tol * w <= w + 1000.0
    ensures (8008.0 * q * tol + 1.0) * w <= 8000.0 * q * (w + 1001.0)
  {
    var x := tol * w;
    assert 8008.0 * x <= 7993.0 * (w + 1000.0);
    RealScale(7993.0 * (w + 1000.0), 8008.0 * x, q);
    RealScale(q, 1.0, 7.0 * w + 15000.0);
    assert (8008.0 * q * tol + 1.0) * w == q * (8008.0 * x) + w;
    assert 8000.0 * q * (w + 1001.0) == q * (7993.0 * (w + 1000.0)) + q * (7.0 * w + 15000.0);
  }

  // ----- the violation clock -----

  /** Where the maximal unbroken run of exceeding checks that ends at k began. */
  function RunStart(flags: seq<bool>, k: nat): (s: nat)
    requires k < |flags| && flags[k]
    ensures s <= k
    ensures forall i :: s <= i <= k ==> flags[i]
    ensures s == 0 || !flags[s - 1]
  {
    if k == 0 || !flags[k - 1] then k else RunStart(flags, k - 1)
  }

  lemma {:induction false} FlagsPrefix(c: Config, start: int, h: seq<Point>, n: nat)
    requires c.windowMs > 0 && n <= |h|
    ensures Flags(c, start, h[..n]) == Flags(c, start, h)[..n]
    decreases |h|
  {
    if n < |h| {
      FlagsPrefix(c, start, h[..|h| - 1], n);
      assert h[..|h| - 1][..n] == h[..n];
    } else {
      assert h[..n] == h;
    }
  }

  /** The clock the flags and times alone would give. */
  ghost predicate ClockOf(k: Clock, flags: seq<bool>, h: seq<Point>)
    requires |flags| == |h|
  {
    var n := |flags| - 1;
    if n < 0 then !k.inViolation
    else k.inViolation == flags[n] && (flags[n] ==> k.since == h[RunStart(flags, n)].time)
  }

  lemma {:induction false} RunStartPrefix(flags: seq<bool>, f: seq<bool>, k: nat)
    requires k < |f| <= |flags| && f == flags[..|f|] && f[k]
    ensures RunStart(f, k) == RunStart(flags, k)
  {
  }

  lemma {:induction false} StateOfRun(c: Config, start: int, h: seq<Point>)
    requires c.windowMs > 0 && c.maxKbps > 0
    ensures After(c, start, h).window == WindowAfter(c, start, h)
    ensures ClockOf(After(c, start, h).clock, Flags(c, start, h), h)
  {
    if h != [] {
      hide Exceeds, Observe;
      var n := |h| - 1;
      var g, f, flags := h[..n], Flags(c, start, h[..n]), Flags(c, start, h);
      StateOfRun(c, start, g);
      assert f == flags[..n];
      if n > 0 && f[n - 1] {
        RunStartPrefix(flags, f, n - 1);
      }
    }
  }

  /** Disconnect exactly when the check exceeds and its unbroken run of exceeding checks is at least the threshold old. */
  lemma DisconnectIsExact(c: Config, start: int, h: seq<Point>, k: nat)
    requires c.windowMs > 0 && c.maxKbps > 0 && k < |h|
    ensures var flags := Flags(c, start, h);
            && (VerdictAt(c, start, h, k) == Ok <==> !flags[k])
            && (VerdictAt(c, start, h, k) == Disconnect <==>
                flags[k] && h[k].time - h[RunStart(flags, k)].time >= c.thresholdMs)
  {
    var g := h[..k + 1];
    StateOfRun(c, start, g);
    FlagsPrefix(c, start, h, k + 1);
    assert g[..k] == h[..k];
    if Flags(c, start, h)[k] {
      RunStartPrefix(Flags(c, start, h), Flags(c, start, g), k);
    }
    VerdictIsJudgement(c, start, g);
  }

  lemma VerdictIsJudgement(c: Config, start: int, g: seq<Point>)
    requires c.windowMs > 0 && c.maxKbps > 0 && g != []
    ensures VerdictAt(c, start, g, |g| - 1) == Judge(After(c, start, g).clock, g[|g| - 1].time, c.thresholdMs)
  {
  }

  // ----- no limit -----

  /** Without a limit every check is OK, and the queue is the exact window of the last point: it never grows stale. */
  lemma {:induction false} UnlimitedKeepsExactWindow(c: Config, start: int, h: seq<Point>)
    requires ValidConfig(c) && c.maxKbps == 0 && Ordered(start, h) && h != []
    ensures var n := |h| - 1;
            IsSince(WindowAfter(c, start, h), h, h[n].time - c.windowMs) && VerdictAt(c, start, h, n) == Ok
  {
    hide Sum, DropOld, Pruned;
    var n := |h| - 1;
    var g, p := h[..n], h[n];
    var w := WindowAfter(c, start, g);
    assert g + [p] == h;
    var cutoff := if n == 0 then p.time - c.windowMs else g[n - 1].time - c.windowMs;
    if n == 0 {
      EmptyIsSince(cutoff, start);
    } else {
      UnlimitedKeepsExactWindow(c, start, g);
    }
    PushKeepsSince(w, g, p, cutoff);
    PruneMovesCutoff(Pushed(w, p), h, cutoff, p.time - c.windowMs);
  }

  lemma EmptyIsSince(cutoff: int, start: int)
    ensures IsSince(Window([], 0, start), [], cutoff)
  {
  }

  // ----- no overload is missed -----

  /** A check is not OK exactly when the rate computed over its lazy window is above the spike limit. */
  lemma VerdictIsByRate(c: Config, start: int, h: seq<Point>, k: nat)
    requires c.windowMs > 0 && c.maxKbps > 0 && k < |h|
    ensures VerdictAt(c, start, h, k) == Ok <==>
            ComputedKbps(c, start, h[..k + 1]) <= (c.maxKbps as real * c.tolerance).Floor
  {
    hide WindowAfter, VerdictAt, Kbps, EffectiveWindow;
    FlagsPrefix(c, start, h, k + 1);
    DisconnectIsExact(c, start, h, k);
  }

  /** Traffic above the spike limit in the exact window is never answered OK, from the very first check on. */
  lemma OverloadIsFlagged(c: Config, start: int, h: seq<Point>, k: nat)
    requires ValidConfig(c) && c.maxKbps > 0 && c.windowMs >= MIN_WINDOW_MS && Ordered(start, h) && k < |h|
    requires ExactKbps(h[..k + 1], c.windowMs, h[k].time) > SpikeLimit(c)
    ensures VerdictAt(c, start, h, k) != Ok
  {
    hide ExactKbps, ComputedKbps, VerdictAt;
    var g := h[..k + 1];
    assert forall i :: 0 <= i <= k ==> g[i] == h[i];
    LazyDominatesExact(c, start, g);
    VerdictIsByRate(c, start, h, k);
  }

  /** And if it stays above for the threshold, the stream is disconnected. */
  lemma LastingOverloadDisconnects(c: Config, start: int, h: seq<Point>, i: nat, j: nat)
    requires ValidConfig(c) && c.maxKbps > 0 && c.windowMs >= MIN_WINDOW_MS && Ordered(start, h) && i <= j < |h|
    requires forall k :: i <= k <= j ==> ExactKbps(h[..k + 1], c.windowMs, h[k].time) > SpikeLimit(c)
    requires h[j].time - h[i].time >= c.thresholdMs
    ensures VerdictAt(c, start, h, j) == Disconnect
  {
    hide ExactKbps, VerdictAt, Flags;
    var flags := Flags(c, start, h);
    forall k | i <= k <= j ensures flags[k] {
      OverloadIsFlagged(c, start, h, k);
      DisconnectIsExact(c, start, h, k);
    }
    DisconnectIsExact(c, start, h, j);
    assert RunStart(flags, j) <= i;
  }

  // ----- the class -----

  class BitrateLimit {
    var config: Config
    var queue: seq<Point>
    var total: int
    var inViolation: bool
    var violationStart: int
    var lastCleanup: int

    ghost function State(): Limiter
      reads this
    {
      Limiter(config, Window(queue, total, lastCleanup), Clock(inViolation, violationStart))
    }

    constructor ()
      ensures config == Config(0, 5000, 2.0, 30000) && State() == Fresh(config, 0)
    {
      config := Config(0, 5000, 2.0, 30000);
      queue, total, inViolation, violationStart, lastCleanup := [], 0, false, 0, 0;
    }

    method Init(maxKbps: int, timeoutSec: int, windowMs: int, tolerance: real, now: int) returns (ret: int)
      modifies this
      ensures ret == SLS_OK <==> maxKbps >= 0 && timeoutSec > 0 && windowMs > 0 && tolerance >= 1.0
      ensures ret == SLS_OK || ret == SLS_ERROR
      ensures ret == SLS_ERROR ==> State() == old(State())
      ensures ret == SLS_OK ==>
                ValidConfig(config) && State() == Fresh(Config(maxKbps, windowMs, tolerance, timeoutSec * 1000), now)
    {
      if maxKbps < 0 || timeoutSec <= 0 || windowMs <= 0 || tolerance < 1.0 {
        return SLS_ERROR;
      }
      config := Config(maxKbps, windowMs, tolerance, timeoutSec * 1000);
      queue, total := [], 0;
      inViolation, violationStart, lastCleanup := false, 0, now;
      ret := SLS_OK;
    }

    method Cleanup(now: int)
      modifies this`queue, this`total
      ensures State().window == Pruned(old(State()).window, now - config.windowMs)
    {
      ghost var q0, t0 := queue, total;
      var cutoff := now - config.windowMs;
      ghost var k := 0;
      assert q0[..0] == [];
      while |queue| > 0 && queue[0].time < cutoff
        invariant 0 <= k <= |q0| && queue == q0[k..]
        invariant DropOld(queue, cutoff) == DropOld(q0, cutoff)
        invariant total == t0 - Sum(q0[..k])
        decreases |queue|
      {
        SumSplit(q0[..k + 1], k);
        assert q0[..k + 1][..k] == q0[..k] && q0[..k + 1][k..] == [q0[k]];
        total := total - queue[0].bytes;
        queue := queue[1..];
        k := k + 1;
      }
    }

    method Check(bytes: nat, now: int) returns (v: Verdict)
      requires config.windowMs > 0
      modifies this
      ensures (State(), v) == CheckSpec(old(State()), Point(now, bytes))
    {
      hide Sum, DropOld, Pruned, Kbps, SpikeLimit;
      queue := queue + [Point(now, bytes)];
      total := total + bytes;
      if config.maxKbps == 0 {
        Cleanup(now);
        return Ok;
      }
      if now - lastCleanup > CLEANUP_INTERVAL_MS {
        Cleanup(now);
        lastCleanup := now;
      }
      ghost var w := State().window;
      assert w == Observe(config, old(State()).window, Point(now, bytes));
      var effective := config.windowMs;
      if |queue| > 0 {
        var actual := now - queue[0].time;
        if actual < config.windowMs {
          effective := Max(MIN_WINDOW_MS, actual);
        }
      }
      assert effective == EffectiveWindow(config, w, now);
      if Kbps(total, effective) > SpikeLimit(config) {
        if !inViolation {
          inViolation, violationStart := true, now;
        }
        v := if now - violationStart >= config.thresholdMs then Disconnect else Violation;
      } else {
        if inViolation {
          inViolation, violationStart := false, 0;
        }
        v := Ok;
      }
    }
  }
}
