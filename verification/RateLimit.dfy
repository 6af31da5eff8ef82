/**
 * The per-IP webhook limiter in front of player-key validation: a sliding log of dispatch times per source address,
 * trimmed at one window when checked and garbage-collected at two, plus the bounded set of validations in flight.
 */
module RateLimits {
  import opened Codes

  type Ip = string

  const MAX_IPS: nat := 100000
  const GC_INTERVAL_MS: int := 1000
  const MAX_PENDING: nat := 1024

  /** limit -1 switches the limiter off. */
  datatype Params = Params(limit: int, windowMs: nat)

  type Table = map<Ip, seq<int>>

  datatype State = State(table: Table, lastGc: int, pending: set<Key>)

  function Trim(q: seq<int>, cutoff: int): (r: seq<int>)
    ensures |r| <= |q|
  {
    if q != [] && q[0] < cutoff then Trim(q[1..], cutoff) else q
  }

  lemma {:induction false} TrimIsSuffix(q: seq<int>, cutoff: int)
    ensures var r := Trim(q, cutoff);
            r == q[|q| - |r|..] && forall i :: 0 <= i < |q| - |r| ==> q[i] < cutoff
  {
    if q != [] && q[0] < cutoff {
      TrimIsSuffix(q[1..], cutoff);
      assert forall i :: 1 <= i < |q| ==> q[i] == q[1..][i - 1];
    }
  }

  function Gc(t: Table, cutoff: int): Table { map ip | ip in t && Trim(t[ip], cutoff) != [] :: Trim(t[ip], cutoff) }

  predicate Ignored(p: Params, ip: Ip) { p.limit == -1 || ip == "" }

  /** is_rate_limited(): collects when due, trims this address, compares. */
  function Checked(p: Params, s: State, ip: Ip, now: int): State {
    if Ignored(p, ip) then s
    else
      var s1 := if now - s.lastGc < GC_INTERVAL_MS then s
                else s.(table := Gc(s.table, now - 2 * p.windowMs), lastGc := now);
      if ip in s1.table then s1.(table := s1.table[ip := Trim(s1.table[ip], now - p.windowMs)]) else s1
  }

  predicate Limited(p: Params, checked: State, ip: Ip) {
    !Ignored(p, ip) && ip in checked.table && |checked.table[ip]| >= p.limit
  }

  /** update_rate_limit(): the table after making room, if room had to be made. */
  function Room(p: Params, t: Table, ip: Ip, now: int): Table {
    if ip !in t && |t| >= MAX_IPS then Gc(t, now - 2 * p.windowMs) else t
  }

  /** False only for a new address that finds the table full of live ones: it then goes untracked. */
  predicate Tracked(p: Params, t: Table, ip: Ip, now: int) {
    ip in t || |Room(p, t, ip, now)| < MAX_IPS
  }

  function Recorded(p: Params, s: State, ip: Ip, now: int): State {
    if Ignored(p, ip) then s
    else
      var t := Room(p, s.table, ip, now);
      if !Tracked(p, s.table, ip, now) then s.(table := t)
      else s.(table := t[ip := (if ip in t then t[ip] else []) + [now]])
  }

  /** validate_player_key() past the format check, from `ip` for `key`: checked at one time, charged at a later one. */
  datatype Attempt =
    | Validate(ip: Ip, key: Key, cached: bool, urlFits: bool, checkAt: int, dispatchAt: int)
    | Resolve(key: Key)

  /** The attempt gets as far as being charged to its address; the webhook then goes out unless its URL is too long. */
  predicate Dispatches(p: Params, s: State, a: Attempt) {
    && a.Validate?
    && !Limited(p, Checked(p, s, a.ip, a.checkAt), a.ip)
    && !a.cached
    && a.key !in s.pending && |s.pending| < MAX_PENDING
  }

  function Step(p: Params, s: State, a: Attempt): State {
    match a
    case Validate(ip, key, _, urlFits, checkAt, dispatchAt) =>
      var c := Checked(p, s, ip, checkAt);
      if Dispatches(p, s, a) then
        Recorded(p, c, ip, dispatchAt).(pending := if urlFits then s.pending + {key} else s.pending)
      else c
    case Resolve(key) => s.(pending := s.pending - {key})
  }

  function Run(p: Params, s: State, run: seq<Attempt>): State
    decreases |run|
  {
    if run == [] then s else Run(p, Step(p, s, run[0]), run[1..])
  }

  function Logged(p: Params, s: State, a: Attempt, ip: Ip, h: seq<int>, onlySent: bool): seq<int> {
    if Dispatches(p, s, a) && a.ip == ip && (onlySent ==> a.urlFits) then h + [a.dispatchAt] else h
  }

  /** When this address was charged for a webhook, or only when one was sent, after `h`; whether or not the limiter could record it. */
  function DispatchTimes(p: Params, s: State, run: seq<Attempt>, ip: Ip, h: seq<int>, onlySent: bool): seq<int>
    decreases |run|
  {
    if run == [] then h
    else DispatchTimes(p, Step(p, s, run[0]), run[1..], ip, Logged(p, s, run[0], ip, h, onlySent), onlySent)
  }

  predicate InOrder(run: seq<Attempt>, from: int)
    decreases |run|
  {
    run == [] || (
      if run[0].Validate? then from <= run[0].checkAt <= run[0].dispatchAt && InOrder(run[1..], run[0].dispatchAt)
      else InOrder(run[1..], from))
  }

  /** This attempt, if it is a dispatch of `ip`, finds room to be recorded. */
  predicate Fits(p: Params, s: State, a: Attempt, ip: Ip) {
    Dispatches(p, s, a) && a.ip == ip ==> Tracked(p, Checked(p, s, a.ip, a.checkAt).table, a.ip, a.dispatchAt)
  }

  /** No dispatch of `ip` finds the table full; what happens to other addresses does not matter. */
  predicate AlwaysTracked(p: Params, s: State, run: seq<Attempt>, ip: Ip)
    decreases |run|
  {
    run == [] || (Fits(p, s, run[0], ip) && AlwaysTracked(p, Step(p, s, run[0]), run[1..], ip))
  }

  // ----- the bound -----

  /** What the limiter really allows per window: an address it does not know yet is let through even at limit 0. */
  function Allowed(p: Params): (n: int)
    ensures n >= 1 && n >= p.limit
  {
    if p.limit >= 1 then p.limit else 1
  }

  /** Any Allowed + 1 consecutive dispatches span more than a window. */
  ghost predicate Spaced(p: Params, h: seq<int>) {
    forall i, j :: 0 <= i <= j < |h| && i + Allowed(p) <= j ==> h[i] + p.windowMs < h[j]
  }

  function QueueOf(t: Table, ip: Ip): seq<int> { if ip in t then t[ip] else [] }

  /** The queue is what is left of the history once everything more than a window old is gone, or a little more. */
  ghost predicate Remembers(p: Params, q: seq<int>, h: seq<int>, now: int) {
    && |q| <= |h| && q == h[|h| - |q|..]
    && forall i :: 0 <= i < |h| - |q| ==> h[i] < now - p.windowMs
  }

  lemma TrimRemembers(p: Params, q: seq<int>, h: seq<int>, from: int, now: int, cutoff: int)
    requires Remembers(p, q, h, from) && from <= now && cutoff <= now - p.windowMs
    ensures Remembers(p, q, h, now) && Remembers(p, Trim(q, cutoff), h, now)
  {
    TrimIsSuffix(q, cutoff);
    assert forall i :: |h| - |q| <= i < |h| ==> h[i] == q[i - (|h| - |q|)];
  }

  lemma CheckRemembers(p: Params, s: State, ip: Ip, who: Ip, h: seq<int>, from: int, now: int)
    requires Remembers(p, QueueOf(s.table, ip), h, from) && from <= now
    ensures Remembers(p, QueueOf(Checked(p, s, who, now).table, ip), h, now)
  {
    hide Remembers, Trim;
    var q := QueueOf(s.table, ip);
    var t1 := if now - s.lastGc < GC_INTERVAL_MS then s.table else Gc(s.table, now - 2 * p.windowMs);
    var q1 := QueueOf(t1, ip);
    TrimRemembers(p, q, h, from, now, now - 2 * p.windowMs);
    assert q1 == q || q1 == Trim(q, now - 2 * p.windowMs);
    TrimRemembers(p, q1, h, now, now, now - p.windowMs);
  }

  lemma RecordRemembers(p: Params, s: State, ip: Ip, who: Ip, h: seq<int>, from: int, now: int)
    requires Remembers(p, QueueOf(s.table, ip), h, from) && from <= now && !Ignored(p, who)
    requires who == ip ==> Tracked(p, s.table, who, now)
    ensures Remembers(p, QueueOf(Recorded(p, s, who, now).table, ip), if ip == who then h + [now] else h, now)
  {
    hide Trim;
    var q := QueueOf(s.table, ip);
    var q1 := QueueOf(Room(p, s.table, who, now), ip);
    TrimRemembers(p, q, h, from, now, now - 2 * p.windowMs);
    assert q1 == q || q1 == Trim(q, now - 2 * p.windowMs);
  }

  lemma DispatchKeepsSpacing(p: Params, q: seq<int>, h: seq<int>, checkAt: int, dispatchAt: int)
    requires Spaced(p, h) && checkAt <= dispatchAt
    requires Remembers(p, q, h, checkAt) && |q| < Allowed(p)
    ensures Spaced(p, h + [dispatchAt])
  {
  }

  lemma AttemptKeepsSpacing(p: Params, s: State, a: Attempt, ip: Ip, h: seq<int>, from: int)
    requires p.limit != -1 && ip != "" && a.Validate? && from <= a.checkAt <= a.dispatchAt
    requires Remembers(p, QueueOf(s.table, ip), h, from) && Spaced(p, h) && Fits(p, s, a, ip)
    ensures Remembers(p, QueueOf(Step(p, s, a).table, ip), Logged(p, s, a, ip, h, false), a.dispatchAt)
    ensures Spaced(p, Logged(p, s, a, ip, h, false))
  {
    var c := Checked(p, s, a.ip, a.checkAt);
    CheckRemembers(p, s, ip, a.ip, h, from, a.checkAt);
    if Dispatches(p, s, a) {
      if !Ignored(p, a.ip) {
        RecordRemembers(p, c, ip, a.ip, h, a.checkAt, a.dispatchAt);
      }
      if a.ip == ip {
        DispatchKeepsSpacing(p, QueueOf(c.table, ip), h, a.checkAt, a.dispatchAt);
      }
    }
  }

  /** A run from any remembered state keeps one address's dispatches spaced. */
  lemma {:induction false} RunKeepsSpacing(p: Params, s: State, run: seq<Attempt>, ip: Ip, h: seq<int>, from: int)
    requires p.limit != -1 && ip != "" && InOrder(run, from) && AlwaysTracked(p, s, run, ip)
    requires Remembers(p, QueueOf(s.table, ip), h, from) && Spaced(p, h)
    ensures Spaced(p, DispatchTimes(p, s, run, ip, h, false))
    decreases |run|
  {
    if run != [] {
      var a, s' := run[0], Step(p, s, run[0]);
      if a.Resolve? {
        RunKeepsSpacing(p, s', run[1..], ip, h, from);
      } else {
        AttemptKeepsSpacing(p, s, a, ip, h, from);
        RunKeepsSpacing(p, s', run[1..], ip, Logged(p, s, a, ip, h, false), a.dispatchAt);
      }
    }
  }

  function CountIn(h: seq<int>, lo: int, hi: int): nat {
    if h == [] then 0
    else CountIn(h[..|h| - 1], lo, hi) + if lo <= h[|h| - 1] <= hi then 1 else 0
  }

  lemma {:induction false} CountTail(h: seq<int>, lo: int, hi: int, m: int)
    requires m <= |h| && forall i :: 0 <= i < m && i < |h| ==> h[i] < lo
    ensures CountIn(h, lo, hi) <= if m <= 0 then |h| else |h| - m
  {
    if h != [] && m < |h| {
      CountTail(h[..|h| - 1], lo, hi, m);
    } else if h != [] {
      CountTail(h[..|h| - 1], lo, hi, m - 1);
    }
  }

  lemma {:induction false} SpacedBound(p: Params, h: seq<int>, a: int)
    requires Spaced(p, h)
    ensures CountIn(h, a, a + p.windowMs) <= Allowed(p)
  {
    if h != [] {
      var n := |h| - 1;
      if a <= h[n] <= a + p.windowMs {
        CountTail(h, a, a + p.windowMs, n + 1 - Allowed(p));
      } else {
        SpacedBound(p, h[..n], a);
      }
    }
  }

  /** No address that is always tracked dispatches more than max(1, limit) webhooks in any closed window. */
  lemma RateIsBounded(p: Params, run: seq<Attempt>, ip: Ip, lastGc: int, from: int, a: int)
    requires p.limit != -1 && ip != "" && InOrder(run, from) && AlwaysTracked(p, State(map[], lastGc, {}), run, ip)
    ensures CountIn(DispatchTimes(p, State(map[], lastGc, {}), run, ip, [], true), a, a + p.windowMs) <= Allowed(p)
  {
    var s := State(map[], lastGc, {});
    RunKeepsSpacing(p, s, run, ip, [], from);
    SpacedBound(p, DispatchTimes(p, s, run, ip, [], false), a);
    SentIsCharged(p, s, run, ip, [], [], a, a + p.windowMs);
  }

  /** Every webhook sent was charged for. */
  lemma {:induction false} SentIsCharged(
    p: Params, s: State, run: seq<Attempt>, ip: Ip, sent: seq<int>, charged: seq<int>, lo: int, hi: int)
    requires CountIn(sent, lo, hi) <= CountIn(charged, lo, hi)
    ensures CountIn(DispatchTimes(p, s, run, ip, sent, true), lo, hi)
         <= CountIn(DispatchTimes(p, s, run, ip, charged, false), lo, hi)
    decreases |run|
  {
    if run != [] {
      hide Dispatches, Step;
      SentIsCharged(p, Step(p, s, run[0]), run[1..], ip,
                    Logged(p, s, run[0], ip, sent, true), Logged(p, s, run[0], ip, charged, false), lo, hi);
    }
  }

  // ----- and nobody is refused early -----

  ghost predicate Sorted(h: seq<int>, upto: int) {
    && (forall i, j :: 0 <= i <= j < |h| ==> h[i] <= h[j])
    && forall i :: 0 <= i < |h| ==> h[i] <= upto
  }

  lemma {:induction false} CountAll(h: seq<int>, lo: int, hi: int, m: nat)
    requires m <= |h| && (forall i :: 0 <= i < m ==> h[i] < lo) && forall i :: m <= i < |h| ==> lo <= h[i] <= hi
    ensures CountIn(h, lo, hi) == |h| - m
  {
    if h != [] {
      CountAll(h[..|h| - 1], lo, hi, if m == |h| then m - 1 else m);
    }
  }

  lemma {:induction false} TrimmedFront(q: seq<int>, cutoff: int)
    ensures Trim(q, cutoff) != [] ==> Trim(q, cutoff)[0] >= cutoff
  {
    if q != [] && q[0] < cutoff {
      TrimmedFront(q[1..], cutoff);
    }
  }

  /** What the check counts is exactly the charges of the closed window that ends now. */
  lemma CheckedCounts(p: Params, s: State, ip: Ip, h: seq<int>, from: int, now: int)
    requires !Ignored(p, ip) && Remembers(p, QueueOf(s.table, ip), h, from) && Sorted(h, from) && from <= now
    ensures |QueueOf(Checked(p, s, ip, now).table, ip)| == CountIn(h, now - p.windowMs, now)
  {
    CheckRemembers(p, s, ip, ip, h, from, now);
    hide Trim, Gc;
    var q := QueueOf(Checked(p, s, ip, now).table, ip);
    var t1 := if now - s.lastGc < GC_INTERVAL_MS then s.table else Gc(s.table, now - 2 * p.windowMs);
    TrimmedFront(QueueOf(t1, ip), now - p.windowMs);
    assert q != [] ==> q[0] == h[|h| - |q|];
    CountAll(h, now - p.windowMs, now, |h| - |q|);
  }

  /** With a limit of at least 1 an address is refused if and only if it was charged `limit` times in the window that ends now. */
  lemma LimitedIff(p: Params, s: State, ip: Ip, h: seq<int>, from: int, now: int)
    requires p.limit >= 1 && ip != ""
    requires Remembers(p, QueueOf(s.table, ip), h, from) && Sorted(h, from) && from <= now
    ensures Limited(p, Checked(p, s, ip, now), ip) <==> CountIn(h, now - p.windowMs, now) >= p.limit
  {
    hide Checked, CountIn;
    CheckedCounts(p, s, ip, h, from, now);
  }

  lemma {:induction false} RunKeepsMemory(p: Params, s: State, run: seq<Attempt>, ip: Ip, h: seq<int>, from: int)
    requires p.limit != -1 && ip != "" && InOrder(run, from) && AlwaysTracked(p, s, run, ip)
    requires Remembers(p, QueueOf(s.table, ip), h, from) && Spaced(p, h) && Sorted(h, from)
    ensures var h' := DispatchTimes(p, s, run, ip, h, false);
            Remembers(p, QueueOf(Run(p, s, run).table, ip), h', EndTime(run, from)) && Sorted(h', EndTime(run, from))
    decreases |run|
  {
    hide Spaced, Remembers, Dispatches, Sorted, Fits, Step, QueueOf;
    if run != [] {
      var a, s' := run[0], Step(p, s, run[0]);
      LoggedSorted(p, s, a, ip, h, from);
      if a.Resolve? {
        ResolveKeepsTable(p, s, a.key);
        RunKeepsMemory(p, s', run[1..], ip, h, from);
      } else {
        AttemptKeepsSpacing(p, s, a, ip, h, from);
        RunKeepsMemory(p, s', run[1..], ip, Logged(p, s, a, ip, h, false), a.dispatchAt);
      }
    }
  }

  lemma LoggedSorted(p: Params, s: State, a: Attempt, ip: Ip, h: seq<int>, from: int)
    requires Sorted(h, from) && (a.Validate? ==> from <= a.checkAt <= a.dispatchAt)
    ensures Logged(p, s, a, ip, h, false) == h || a.Validate?
    ensures Sorted(Logged(p, s, a, ip, h, false), if a.Validate? then a.dispatchAt else from)
  {
  }

  lemma ResolveKeepsTable(p: Params, s: State, key: Key)
    ensures Step(p, s, Resolve(key)).table == s.table
  {
  }

  function EndTime(run: seq<Attempt>, from: int): int
    decreases |run|
  {
    if run == [] then from else EndTime(run[1..], if run[0].Validate? then run[0].dispatchAt else from)
  }

  /**
   * Over every run in which the address is always tracked, its next validation is charged if and only if its key is
   * neither cached nor in flight, there is room in flight, and fewer than `limit` charges fall into the window that
   * ends at the check.
   */
  lemma DispatchesIff(p: Params, run: seq<Attempt>, lastGc: int, from: int, a: Attempt)
    requires p.limit >= 1 && a.Validate? && a.ip != "" && InOrder(run, from) && EndTime(run, from) <= a.checkAt
    requires AlwaysTracked(p, State(map[], lastGc, {}), run, a.ip)
    ensures var s := Run(p, State(map[], lastGc, {}), run);
            var h := DispatchTimes(p, State(map[], lastGc, {}), run, a.ip, [], false);
            Dispatches(p, s, a) <==>
            && CountIn(h, a.checkAt - p.windowMs, a.checkAt) < p.limit
            && !a.cached && a.key !in s.pending && |s.pending| < 1024
  {
    hide Run, DispatchTimes, Limited;
    var s0 := State(map[], lastGc, {});
    RunKeepsMemory(p, s0, run, a.ip, [], from);
    LimitedIff(p, Run(p, s0, run), a.ip, DispatchTimes(p, s0, run, a.ip, [], false), EndTime(run, from), a.checkAt);
  }

  lemma {:induction false} TrimEmptiesOld(q: seq<int>, cutoff: int)
    requires Sorted(q, if q == [] then 0 else q[|q| - 1])
    ensures Trim(q, cutoff) != [] <==> q != [] && q[|q| - 1] >= cutoff
  {
    if q != [] && q[0] < cutoff {
      TrimEmptiesOld(q[1..], cutoff);
    }
  }

  /** A check that finds the second over forgets exactly the other addresses with no charge in the last two windows. */
  lemma IdleAddressesAreCollected(p: Params, s: State, ip: Ip, now: int, other: Ip)
    requires !Ignored(p, ip) && now - s.lastGc >= 1000 && other != ip && other in s.table
    requires var q := s.table[other]; Sorted(q, if q == [] then 0 else q[|q| - 1])
    ensures other in Checked(p, s, ip, now).table <==>
            s.table[other] != [] && s.table[other][|s.table[other]| - 1] >= now - 2 * p.windowMs
  {
    hide Trim;
    TrimEmptiesOld(s.table[other], now - 2 * p.windowMs);
  }

  // ----- where the bound stops -----

  /** One validation from `ip`, answered before the next. */
  function RoundTrip(ip: Ip, key: Key, t: int): seq<Attempt> { [Validate(ip, key, false, true, t, t), Resolve(key)] }

  function RoundTrips(ip: Ip, key: Key, t: int, m: nat): seq<Attempt> {
    if m == 0 then [] else RoundTrip(ip, key, t) + RoundTrips(ip, key, t, m - 1)
  }

  /** The table holds as many addresses as it may, none of them old enough to collect at time t, and not this one. */
  ghost predicate FullWithout(p: Params, s: State, ip: Ip, t: int) {
    ip !in s.table && |Gc(s.table, t - 2 * p.windowMs)| >= MAX_IPS && s.pending == {}
  }

  lemma {:induction false} TrimTwice(q: seq<int>, cutoff: int)
    ensures Trim(Trim(q, cutoff), cutoff) == Trim(q, cutoff)
  {
    if q != [] && q[0] < cutoff {
      TrimTwice(q[1..], cutoff);
    }
  }

  lemma GcTwice(t: Table, cutoff: int)
    ensures Gc(Gc(t, cutoff), cutoff) == Gc(t, cutoff)
  {
    hide Trim;
    forall ip | ip in t ensures Trim(Trim(t[ip], cutoff), cutoff) == Trim(t[ip], cutoff) {
      TrimTwice(t[ip], cutoff);
    }
  }

  lemma RoundTripWhenFull(p: Params, s: State, ip: Ip, key: Key, t: int)
    requires p.limit != -1 && ip != "" && FullWithout(p, s, ip, t)
    ensures var a := Validate(ip, key, false, true, t, t);
            Dispatches(p, s, a) && FullWithout(p, Step(p, Step(p, s, a), Resolve(key)), ip, t)
  {
    hide Gc;
    var cutoff := t - 2 * p.windowMs;
    GcTwice(s.table, cutoff);
    GcShrinks(s.table, cutoff);
    GcShrinks(Gc(s.table, cutoff), cutoff);
    var c := Checked(p, s, ip, t);
    assert c.table == s.table || c.table == Gc(s.table, cutoff);
    assert Recorded(p, c, ip, t).table == Gc(s.table, cutoff);
    assert s.pending + {key} - {key} == {};
  }

  lemma GcShrinks(t: Table, cutoff: int)
    ensures Gc(t, cutoff).Keys <= t.Keys && |Gc(t, cutoff)| <= |t|
  {
    var gone := t.Keys - Gc(t, cutoff).Keys;
    assert Gc(t, cutoff).Keys + gone == t.Keys;
    assert |t.Keys| == |Gc(t, cutoff).Keys| + |gone|;
  }

  /** An address that a full table cannot take dispatches as often as it asks, all in the same instant. */
  lemma {:induction false} UntrackedIsNeverLimited(p: Params, s: State, ip: Ip, key: Key, t: int, m: nat, h: seq<int>)
    requires p.limit != -1 && ip != "" && FullWithout(p, s, ip, t)
    ensures DispatchTimes(p, s, RoundTrips(ip, key, t, m), ip, h, true) == h + seq(m, _ => t)
    decreases m
  {
    if m > 0 {
      hide FullWithout;
      var a, b := Validate(ip, key, false, true, t, t), Resolve(key);
      var run, rest := RoundTrips(ip, key, t, m), RoundTrips(ip, key, t, m - 1);
      assert run[0] == a && run[1..][0] == b && run[1..][1..] == rest;
      RoundTripWhenFull(p, s, ip, key, t);
      UntrackedIsNeverLimited(p, Step(p, Step(p, s, a), b), ip, key, t, m - 1, h + [t]);
      assert DispatchTimes(p, s, run, ip, h, true) == DispatchTimes(p, Step(p, s, a), run[1..], ip, h + [t], true);
    }
  }

  /** n addresses, told apart by their length. */
  function Address(i: nat): Ip { seq(i + 1, _ => 'x') }

  function Crowd(n: nat, key: Key, t: int): seq<Attempt> {
    if n == 0 then [] else Crowd(n - 1, key, t) + RoundTrip(Address(n - 1), key, t)
  }

  function CrowdTable(n: nat, t: int): Table {
    if n == 0 then map[] else CrowdTable(n - 1, t)[Address(n - 1) := [t]]
  }

  lemma {:induction false} CrowdTableIs(n: nat, t: int)
    ensures |CrowdTable(n, t)| == n
    ensures forall ip :: ip in CrowdTable(n, t) ==> 1 <= |ip| <= n && CrowdTable(n, t)[ip] == [t]
  {
    if n > 0 {
      CrowdTableIs(n - 1, t);
      assert |Address(n - 1)| == n && Address(n - 1) !in CrowdTable(n - 1, t);
      assert CrowdTable(n, t).Keys == CrowdTable(n - 1, t).Keys + {Address(n - 1)};
    }
  }

  lemma {:induction false} RunAppend(p: Params, s: State, a: seq<Attempt>, b: seq<Attempt>, ip: Ip, h: seq<int>)
    ensures Run(p, s, a + b) == Run(p, Run(p, s, a), b)
    ensures DispatchTimes(p, s, a + b, ip, h, true)
         == DispatchTimes(p, Run(p, s, a), b, ip, DispatchTimes(p, s, a, ip, h, true), true)
    decreases |a|
  {
    if a == [] {
      assert a + b == b;
    } else {
      assert (a + b)[0] == a[0] && (a + b)[1..] == a[1..] + b;
      RunAppend(p, Step(p, s, a[0]), a[1..], b, ip, Logged(p, s, a[0], ip, h, true));
    }
  }

  /** A known-fresh address with room for it: one round trip adds it to the table. */
  lemma NewcomerIsRecorded(p: Params, table: Table, who: Ip, key: Key, t: int, ip: Ip)
    requires p.limit != -1 && who != "" && who != ip && who !in table && |table| < MAX_IPS
    ensures Run(p, State(table, t, {}), RoundTrip(who, key, t)) == State(table[who := [t]], t, {})
    ensures DispatchTimes(p, State(table, t, {}), RoundTrip(who, key, t), ip, [], true) == []
  {
    var s, a, b := State(table, t, {}), Validate(who, key, false, true, t, t), Resolve(key);
    assert RoundTrip(who, key, t)[1..] == [b] && [b][1..] == [];
    assert Checked(p, s, who, t) == s && Dispatches(p, s, a);
    assert [] + [t] == [t] && {} + {key} == {key} && {key} - {key} == {};
    var s1 := State(table[who := [t]], t, {key});
    assert Step(p, s, a) == s1;
    assert Run(p, s1, [b]) == Run(p, Step(p, s1, b), []);
    assert DispatchTimes(p, s1, [b], ip, [], true) == DispatchTimes(p, Step(p, s1, b), [], ip, [], true);
  }

  lemma CrowdGrows(n: nat, key: Key, t: int)
    requires n > 0
    ensures Crowd(n, key, t) == Crowd(n - 1, key, t) + RoundTrip(Address(n - 1), key, t)
    ensures CrowdTable(n, t) == CrowdTable(n - 1, t)[Address(n - 1) := [t]] && |Address(n - 1)| == n
  {
  }

  lemma NobodyYet(p: Params, key: Key, t: int, ip: Ip)
    ensures Run(p, State(map[], t, {}), Crowd(0, key, t)) == State(CrowdTable(0, t), t, {})
    ensures DispatchTimes(p, State(map[], t, {}), Crowd(0, key, t), ip, [], true) == []
  {
  }

  lemma {:induction false} CrowdFillsTable(p: Params, n: nat, key: Key, t: int, ip: Ip)
    requires p.limit != -1 && n <= MAX_IPS < |ip|
    ensures Run(p, State(map[], t, {}), Crowd(n, key, t)) == State(CrowdTable(n, t), t, {})
    ensures DispatchTimes(p, State(map[], t, {}), Crowd(n, key, t), ip, [], true) == []
  {
    hide Run, DispatchTimes, RoundTrip, Address, Crowd, CrowdTable;
    if n == 0 {
      NobodyYet(p, key, t, ip);
    } else {
      CrowdGrows(n, key, t);
      CrowdFillsTable(p, n - 1, key, t, ip);
      CrowdTableIs(n - 1, t);
      var s, who := State(map[], t, {}), Address(n - 1);
      RunAppend(p, s, Crowd(n - 1, key, t), RoundTrip(who, key, t), ip, []);
      NewcomerIsRecorded(p, CrowdTable(n - 1, t), who, key, t, ip);
    }
  }

  lemma CrowdIsFull(p: Params, n: nat, ip: Ip, t: int)
    requires n == MAX_IPS < |ip|
    ensures FullWithout(p, State(CrowdTable(n, t), t, {}), ip, t)
  {
    CrowdTableIs(n, t);
    hide CrowdTable;
    assert Gc(CrowdTable(n, t), t - 2 * p.windowMs) == CrowdTable(n, t);
  }

  ghost predicate AllAt(run: seq<Attempt>, t: int) {
    forall i :: 0 <= i < |run| && run[i].Validate? ==> run[i].checkAt == t == run[i].dispatchAt
  }

  lemma {:induction false} OneInstantInOrder(run: seq<Attempt>, t: int)
    requires AllAt(run, t)
    ensures InOrder(run, t)
    decreases |run|
  {
    if run != [] {
      OneInstantInOrder(run[1..], t);
    }
  }

  lemma {:induction false} CrowdInOrder(n: nat, key: Key, t: int)
    ensures AllAt(Crowd(n, key, t), t)
  {
    if n > 0 {
      CrowdInOrder(n - 1, key, t);
    }
  }

  lemma {:induction false} RoundTripsAt(ip: Ip, key: Key, t: int, m: nat)
    ensures AllAt(RoundTrips(ip, key, t, m), t)
    decreases m
  {
    if m > 0 {
      RoundTripsAt(ip, key, t, m - 1);
    }
  }

  /**
   * From the empty state, in one instant: 100000 addresses ask once each, and a further one then dispatches any number
   * of webhooks, whatever the limit. Being tracked is needed for the bound.
   */
  lemma FullTableLiftsTheLimit(p: Params, n: nat, ip: Ip, key: Key, t: int, m: nat)
    requires p.limit != -1 && n == MAX_IPS < |ip|
    ensures var run := Crowd(n, key, t) + RoundTrips(ip, key, t, m);
            InOrder(run, t) && DispatchTimes(p, State(map[], t, {}), run, ip, [], true) == seq(m, _ => t)
  {
    hide Run, DispatchTimes, InOrder, Crowd, RoundTrips, CrowdTable, FullWithout;
    CrowdInOrder(n, key, t);
    RoundTripsAt(ip, key, t, m);
    OneInstantInOrder(Crowd(n, key, t) + RoundTrips(ip, key, t, m), t);
    CrowdFillsTable(p, n, key, t, ip);
    var s := State(CrowdTable(n, t), t, {});
    CrowdIsFull(p, n, ip, t);
    UntrackedIsNeverLimited(p, s, ip, key, t, m, []);
    RunAppend(p, State(map[], t, {}), Crowd(n, key, t), RoundTrips(ip, key, t, m), ip, []);
    assert [] + seq(m, _ => t) == seq(m, _ => t);
  }

  /** The other edge: at limit 0 an unknown address gets one request through, and none of the next ones within the window. */
  lemma ZeroLimitLetsOneThrough(windowMs: nat, s: State, a: Attempt, b: Attempt)
    requires a.Validate? && b.Validate? && a.ip == b.ip && a.ip != "" && !a.cached
    requires a.ip !in s.table && a.key !in s.pending && |s.pending| < MAX_PENDING
    requires a.checkAt <= a.dispatchAt <= b.checkAt <= a.dispatchAt + windowMs
    requires Fits(Params(0, windowMs), s, a, a.ip)
    ensures var p := Params(0, windowMs);
            Dispatches(p, s, a) && !Dispatches(p, Step(p, s, a), b)
  {
    var p := Params(0, windowMs);
    var c := Checked(p, s, a.ip, a.checkAt);
    assert a.ip !in c.table;
    assert Step(p, s, a).table[a.ip] == [a.dispatchAt];
  }

  /** At most one validation per key is in flight, and never more than the cap. */
  lemma {:induction false} PendingBounded(p: Params, s: State, run: seq<Attempt>)
    requires |s.pending| <= MAX_PENDING
    ensures |Run(p, s, run).pending| <= 1024
    decreases |run|
  {
    if run != [] {
      if run[0].Resolve? && run[0].key !in s.pending {
        assert s.pending - {run[0].key} == s.pending;
      }
      PendingBounded(p, Step(p, s, run[0]), run[1..]);
    }
  }

  /** Whether a validation of `key` is in flight after the run: one was sent and not resolved since. */
  predicate InFlight(p: Params, s: State, run: seq<Attempt>, key: Key, flying: bool)
    decreases |run|
  {
    if run == [] then flying
    else
      var a := run[0];
      InFlight(p, Step(p, s, a), run[1..], key,
               if a.key != key then flying else if a.Resolve? then false else flying || (Dispatches(p, s, a) && a.urlFits))
  }

  lemma {:induction false} PendingIsInFlight(p: Params, s: State, run: seq<Attempt>, key: Key)
    ensures key in Run(p, s, run).pending <==> InFlight(p, s, run, key, key in s.pending)
    decreases |run|
  {
    if run != [] {
      PendingIsInFlight(p, Step(p, s, run[0]), run[1..], key);
      StepMovesPending(p, s, run[0], key);
    }
  }

  lemma StepMovesPending(p: Params, s: State, a: Attempt, key: Key)
    ensures key in Step(p, s, a).pending <==>
            if a.key != key then key in s.pending
            else !a.Resolve? && (key in s.pending || (Dispatches(p, s, a) && a.urlFits))
  {
    hide Trim, Gc, Room;
  }

  class RateLimiter {
    const params: Params
    var table: map<Ip, seq<int>>
    var lastGc: int
    var pending: set<Key>

    function Abs(): State
      reads this
    {
      State(table, lastGc, pending)
    }

    constructor (p: Params)
      ensures params == p && Abs() == State(map[], 0, {})
    {
      params := p;
      table, lastGc, pending := map[], 0, {};
    }

    /** Pops the front of one address's log while it is older than the cutoff. */
    static method TrimFront(q: seq<int>, cutoff: int) returns (r: seq<int>)
      ensures r == Trim(q, cutoff)
    {
      r := q;
      while r != [] && r[0] < cutoff
        invariant Trim(r, cutoff) == Trim(q, cutoff)
        decreases |r|
      {
        r := r[1..];
      }
    }

    /** The map-wide scan: trims every address and erases the empty ones. */
    method Collect(cutoff: int)
      modifies this`table
      ensures table == Gc(old(table), cutoff)
    {
      hide Trim;
      var todo := table.Keys;
      while todo != {}
        invariant todo <= table.Keys <= old(table).Keys
        invariant forall ip :: ip in todo ==> table[ip] == old(table)[ip]
        invariant forall ip :: ip in old(table) && ip !in todo ==>
                    (ip in table <==> Trim(old(table)[ip], cutoff) != [])
                    && (ip in table ==> table[ip] == Trim(old(table)[ip], cutoff))
        decreases todo
      {
        var ip :| ip in todo;
        var q := TrimFront(table[ip], cutoff);
        table := if q == [] then table - {ip} else table[ip := q];
        todo := todo - {ip};
      }
    }

    method IsRateLimited(ip: Ip, now: int) returns (limited: bool)
      modifies this`table, this`lastGc
      ensures Abs() == Checked(params, old(Abs()), ip, now)
      ensures limited == Limited(params, Abs(), ip)
    {
      hide Trim, Gc;
      if params.limit == -1 || ip == "" {
        return false;
      }
      if now - lastGc >= GC_INTERVAL_MS {
        lastGc := now;
        Collect(now - 2 * params.windowMs);
      }
      if ip !in table {
        return false;
      }
      var q := TrimFront(table[ip], now - params.windowMs);
      table := table[ip := q];
      limited := |q| >= params.limit;
    }

    method Update(ip: Ip, now: int)
      modifies this`table
      ensures Abs() == Recorded(params, old(Abs()), ip, now)
    {
      hide Trim, Gc;
      if params.limit == -1 || ip == "" {
        return;
      }
      if ip !in table && |table| >= MAX_IPS {
        Collect(now - 2 * params.windowMs);
        if |table| >= MAX_IPS {
          return;
        }
      }
      table := table[ip := (if ip in table then table[ip] else []) + [now]];
    }

    /** start_player_key_validation() after a cache miss. */
    method Attempt(ip: Ip, key: Key, cached: bool, urlFits: bool, checkAt: int, dispatchAt: int) returns (sent: bool)
      modifies this
      ensures var a := Validate(ip, key, cached, urlFits, checkAt, dispatchAt);
              sent == (Dispatches(params, old(Abs()), a) && urlFits) && Abs() == Step(params, old(Abs()), a)
    {
      hide Trim, Gc, Checked, Recorded;
      sent := false;
      var limited := IsRateLimited(ip, checkAt);
      if limited || cached || key in pending || |pending| >= MAX_PENDING {
        return;
      }
      Update(ip, dispatchAt);
      if !urlFits {
        return;
      }
      pending := pending + {key};
      sent := true;
    }
  }
}
