/** The escalating log limiter: the first lines of a window verbatim, then at most one per interval. */
module LogRateLimits {
  import opened Codes
  import opened WrapArithmetic

  const CLEANUP_EVERY: nat := 100
  const KEPT_WINDOWS: int := 10

  datatype Params = Params(windowMs: int, threshold: int, minIntervalMs: int)

  datatype Stats = Stats(first: int, last: int, lastLogged: int, count: int, suppressed: int)

  datatype Option<T> = None | Some(value: T)

  datatype Decision = Decision(stats: Stats, reported: Stats, log: bool)

  predicate OpensWindow(p: Params, s: Option<Stats>, now: int) {
    s.None? || now - s.value.first > p.windowMs
  }

  /** should_log() for one key: the entry kept, the figures handed to the caller, and the verdict. */
  function Decide(p: Params, s: Option<Stats>, now: int): Decision {
    if OpensWindow(p, s, now) then
      var opening := Stats(now, now, now, 1, 0);
      Decision(opening, opening, true)
    else
      var s1 := s.value.(count := s.value.count + 1, last := now);
      if s1.count <= p.threshold || now - s1.lastLogged >= p.minIntervalMs then
        var s2 := s1.(lastLogged := now);
        Decision(s2.(suppressed := 0), s2, true)
      else
        var s2 := s1.(suppressed := s1.suppressed + 1);
        Decision(s2, s2, false)
  }

  predicate Expired(p: Params, s: Stats, now: int) { s.last < now - p.windowMs * KEPT_WINDOWS }

  function Cleaned(p: Params, s: Option<Stats>, now: int): Option<Stats> {
    if s.Some? && Expired(p, s.value, now) then None else s
  }

  // ----- one key's history -----

  datatype Op = Event(now: int) | Cleanup(now: int)

  /** What really happened, by the clock alone: when the current window opened, its events and lines, the time of the
      last line, the events suppressed since, and the totals. */
  datatype Facts = Facts(
    windowStart: int, inWindow: nat, lines: nat, lastLine: int, sinceLine: nat, events: nat, logged: nat, suppressed: nat)

  /** The key's entry beside the facts. */
  datatype Ledger = Ledger(stats: Option<Stats>, f: Facts)

  const Start := Ledger(None, Facts(0, 0, 0, 0, 0, 0, 0, 0))

  /** A window opens with the first event of all and with every event more than a window after the last opening. */
  predicate Opens(p: Params, f: Facts, now: int) { f.events == 0 || now - f.windowStart > p.windowMs }

  function Happened(p: Params, f: Facts, now: int, log: bool): Facts {
    var opens := Opens(p, f, now);
    Facts(if opens then now else f.windowStart,
          if opens then 1 else f.inWindow + 1,
          (if opens then 0 else f.lines) + (if log then 1 else 0),
          if log then now else f.lastLine,
          if log then 0 else f.sinceLine + 1,
          f.events + 1,
          if log then f.logged + 1 else f.logged,
          if log then f.suppressed else f.suppressed + 1)
  }

  function Post(p: Params, l: Ledger, op: Op): Ledger {
    match op
    case Cleanup(now) => l.(stats := Cleaned(p, l.stats, now))
    case Event(now) =>
      var d := Decide(p, l.stats, now);
      Ledger(Some(d.stats), Happened(p, l.f, now, d.log))
  }

  function Run(p: Params, l: Ledger, ops: seq<Op>): Ledger
    decreases |ops|
  {
    if ops == [] then l else Run(p, Post(p, l, ops[0]), ops[1..])
  }

  predicate InOrder(ops: seq<Op>, from: int)
    decreases |ops|
  {
    ops == [] || (from <= ops[0].now && InOrder(ops[1..], ops[0].now))
  }

  function Verbatim(p: Params): int { if p.threshold >= 1 then p.threshold else 1 }

  /** The time that lines beyond the verbatim ones take up. */
  function Spent(p: Params, lines: int): int { p.minIntervalMs * (lines - Verbatim(p)) }

  /** The entry says what happened; it is missing only when there was nothing yet or its window is over. */
  ghost predicate Inv(p: Params, l: Ledger, now: int) {
    && l.f.logged + l.f.suppressed == l.f.events
    && (l.stats.None? ==> Opens(p, l.f, now))
    && (l.stats.Some? ==>
          var s := l.stats.value;
          && l.f.events > 0 && s.first == l.f.windowStart && s.count == l.f.inWindow
          && s.lastLogged == l.f.lastLine && s.suppressed == l.f.sinceLine
          && s.first <= s.lastLogged <= s.last <= now
          && s.lastLogged - s.first <= p.windowMs
          && l.f.lines <= s.count
          && Spent(p, l.f.lines) <= s.lastLogged - s.first)
  }

  lemma PostKeepsInv(p: Params, l: Ledger, op: Op, from: int)
    requires p.windowMs >= 0 && p.minIntervalMs > 0 && Inv(p, l, from) && from <= op.now
    ensures Inv(p, Post(p, l, op), op.now)
  {
    hide Spent;
    SpentByOneMore(p, 0);
    SpentByOneMore(p, l.f.lines);
  }

  lemma SpentByOneMore(p: Params, lines: int)
    requires p.minIntervalMs > 0
    ensures Spent(p, lines + 1) == Spent(p, lines) + p.minIntervalMs
    ensures lines < Verbatim(p) ==> Spent(p, lines + 1) <= 0
  {
    MultipleIsFar(lines + 1 - Verbatim(p), p.minIntervalMs);
  }

  lemma {:induction false} RunKeepsInv(p: Params, l: Ledger, ops: seq<Op>, from: int)
    requires p.windowMs >= 0 && p.minIntervalMs > 0 && Inv(p, l, from) && InOrder(ops, from)
    ensures Inv(p, Run(p, l, ops), if ops == [] then from else ops[|ops| - 1].now)
    decreases |ops|
  {
    if ops != [] {
      PostKeepsInv(p, l, ops[0], from);
      RunKeepsInv(p, Post(p, l, ops[0]), ops[1..], ops[0].now);
    }
  }

  /** However hot the key runs: at most max(1, threshold) + window / interval lines per window, and every event is either. */
  lemma LinesAreBounded(p: Params, ops: seq<Op>, from: int)
    requires p.windowMs >= 0 && p.minIntervalMs > 0 && InOrder(ops, from)
    ensures var l := Run(p, Start, ops);
            && (l.stats.Some? ==> l.f.lines <= Verbatim(p) + p.windowMs / p.minIntervalMs)
            && l.f.logged + l.f.suppressed == l.f.events
  {
    RunKeepsInv(p, Start, ops, from);
    var l := Run(p, Start, ops);
    if l.stats.Some? {
      QuotientBound(l.f.lines - Verbatim(p), p.minIntervalMs, p.windowMs);
    }
  }

  /**
   * When a line is written, by what happened: on the event that opens a window, on the first `threshold` events of a
   * window, and whenever the last line is `minIntervalMs` old; and at no other time.
   */
  lemma LogsExactlyWhen(p: Params, ops: seq<Op>, from: int, now: int)
    requires p.windowMs >= 0 && p.minIntervalMs > 0 && InOrder(ops, from)
    requires if ops == [] then from <= now else ops[|ops| - 1].now <= now
    ensures var l := Run(p, Start, ops);
            && (Decide(p, l.stats, now).log <==>
                || l.f.events == 0 || now - l.f.windowStart > p.windowMs
                || l.f.inWindow < p.threshold || now - l.f.lastLine >= p.minIntervalMs)
            && Decide(p, l.stats, now).reported.count == Happened(p, l.f, now, true).inWindow
  {
    hide Run;
    RunKeepsInv(p, Start, ops, from);
  }

  /** A line reports exactly the events suppressed since the previous one, unless it opens a window while some were pending. */
  lemma ReportIsExactIff(p: Params, l: Ledger, now: int, from: int)
    requires Inv(p, l, from) && Decide(p, l.stats, now).log
    ensures Decide(p, l.stats, now).reported.suppressed == l.f.sinceLine <==>
            !OpensWindow(p, l.stats, now) || l.f.sinceLine == 0
  {
  }

  /** Two events at once with a threshold of 1, then one a window later: its line says 0 suppressed, one was. */
  lemma WindowOpeningForgets()
    ensures var p := Params(60000, 1, 10000);
            var l := Run(p, Start, [Event(0), Event(0)]);
            l.f.sinceLine == 1 && Decide(p, l.stats, 60001).log && Decide(p, l.stats, 60001).reported.suppressed == 0
  {
  }

  // ----- cleanup is invisible -----

  /** What the callers see: verdict and figures, event by event. */
  function Seen(p: Params, s: Option<Stats>, ops: seq<Op>): seq<(bool, Stats)>
    decreases |ops|
  {
    if ops == [] then []
    else
      match ops[0]
      case Event(now) =>
        var d := Decide(p, s, now);
        [(d.log, d.reported)] + Seen(p, Some(d.stats), ops[1..])
      case Cleanup(now) => Seen(p, Cleaned(p, s, now), ops[1..])
  }

  function EventsOf(ops: seq<Op>): seq<Op>
    decreases |ops|
  {
    if ops == [] then [] else (if ops[0].Event? then [ops[0]] else []) + EventsOf(ops[1..])
  }

  /** Equal, or erased in one history with its window already over in the other. */
  ghost predicate Alike(p: Params, a: Option<Stats>, b: Option<Stats>, now: int) {
    && (b.Some? ==> b.value.first <= b.value.last <= now)
    && (a == b || (a.None? && b.Some? && now - b.value.first > p.windowMs))
  }

  /** No cleanup ever cuts a live window short: the callers cannot tell a run with cleanups from the same run without. */
  lemma {:induction false} CleanupIsInvisible(p: Params, a: Option<Stats>, b: Option<Stats>, ops: seq<Op>, from: int)
    requires p.windowMs >= 0 && InOrder(ops, from) && Alike(p, a, b, from)
    ensures Seen(p, a, ops) == Seen(p, b, EventsOf(ops))
    decreases |ops|
  {
    if ops != [] {
      match ops[0] {
        case Event(now) =>
          var d := Decide(p, b, now);
          assert Decide(p, a, now) == d;
          CleanupIsInvisible(p, Some(d.stats), Some(d.stats), ops[1..], now);
          assert EventsOf(ops)[1..] == EventsOf(ops[1..]);
        case Cleanup(now) =>
          CleanupIsInvisible(p, Cleaned(p, a, now), b, ops[1..], now);
          assert EventsOf(ops) == EventsOf(ops[1..]);
      }
    }
  }

  // ----- the class -----

  function Find(m: map<Key, Stats>, k: Key): Option<Stats> { if k in m then Some(m[k]) else None }

  function CleanedMap(p: Params, m: map<Key, Stats>, now: int): map<Key, Stats> {
    map k | k in m && !Expired(p, m[k], now) :: m[k]
  }

  /** The process-wide count of calls since the last cleanup, shared by all limiters. */
  class CallCounter {
    var calls: nat

    constructor ()
      ensures calls == 0
    {
      calls := 0;
    }
  }

  /** A cleanup erases exactly the keys that have been silent for more than ten windows. */
  lemma CleanupIsExact(p: Params, m: map<Key, Stats>, now: int, k: Key)
    ensures k in CleanedMap(p, m, now) <==> k in m && now - m[k].last <= 10 * p.windowMs
  {
  }

  class LogRateLimiter {
    const counter: CallCounter
    var params: Params
    var events: map<Key, Stats>

    constructor (p: Params, counter: CallCounter)
      ensures params == p && events == map[] && this.counter == counter
    {
      this.counter := counter;
      params, events := p, map[];
    }

    method CleanupOldEntries(now: int)
      modifies this`events
      ensures events == CleanedMap(params, old(events), now)
    {
      var todo := events.Keys;
      while todo != {}
        invariant todo <= events.Keys <= old(events).Keys
        invariant forall k :: k in events ==> events[k] == old(events)[k]
        invariant forall k :: k in old(events) && k !in todo ==> (k in events <==> !Expired(params, old(events)[k], now))
        decreases todo
      {
        var k :| k in todo;
        if events[k].last < now - params.windowMs * KEPT_WINDOWS {
          events := events - {k};
        }
        todo := todo - {k};
      }
    }

    /** Every hundredth call, of any limiter, cleans up its own limiter first. Only this key's entry is decided on. */
    method ShouldLog(key: Key, now: int) returns (log: bool, stats: Stats)
      modifies this`events, counter
      ensures var m := if old(counter.calls) + 1 >= CLEANUP_EVERY then CleanedMap(params, old(events), now) else old(events);
              var d := Decide(params, Find(m, key), now);
              events == m[key := d.stats] && stats == d.reported && log == d.log
      ensures counter.calls == if old(counter.calls) + 1 >= CLEANUP_EVERY then 0 else old(counter.calls) + 1
    {
      counter.calls := counter.calls + 1;
      if counter.calls >= CLEANUP_EVERY {
        counter.calls := 0;
        CleanupOldEntries(now);
      }
      if key !in events || now - events[key].first > params.windowMs {
        stats := Stats(now, now, now, 1, 0);
        events := events[key := stats];
        return true, stats;
      }
      var s := events[key].(count := events[key].count + 1, last := now);
      if s.count <= params.threshold || now - s.lastLogged >= params.minIntervalMs {
        stats := s.(lastLogged := now);
        events := events[key := stats.(suppressed := 0)];
        return true, stats;
      }
      stats := s.(suppressed := s.suppressed + 1);
      events := events[key := stats];
      log := false;
    }
  }
}
