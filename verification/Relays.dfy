/** Relay retry bookkeeping: the pusher's reconnect queue and the puller's round-robin. */
module Pushers {
  import opened Codes

  type Url = string

  /** The return codes as the 32 bits that reconnect_all() ORs together. */
  const OK: bv32 := 0
  const ERROR: bv32 := 0xFF00_0000

  type Queue = map<Url, int>

  /** One housekeeping pass: its time, the retry interval, whether the stream lost its publisher, and what connect() answers. */
  datatype Pass = Pass(now: int, intervalSec: int, noPublisher: bool, connect: map<Url, bv32>)

  function Answer(p: Pass, u: Url): bv32 { if u in p.connect then p.connect[u] else ERROR }

  predicate Due(p: Pass, begun: int) { p.now - begun >= p.intervalSec * 1000 }

  predicate Attempts(q: Queue, p: Pass, u: Url)
    requires u in q
  {
    Due(p, q[u]) && !p.noPublisher
  }

  predicate Connects(q: Queue, p: Pass, u: Url)
    requires u in q
  {
    Attempts(q, p, u) && Answer(p, u) == OK
  }

  /** The queue a pass leaves: minus the connected, with everything due stamped now. */
  function After(q: Queue, p: Pass): Queue {
    map u | u in q && !Connects(q, p, u) :: if Due(p, q[u]) then p.now else q[u]
  }

  /** The iteration order of the map: every key once. */
  ghost predicate Order(order: seq<Url>, q: Queue) {
    && (forall u :: u in order <==> u in q)
    && forall i, j :: 0 <= i < j < |order| ==> order[i] != order[j]
  }

  /** Among the first n entries nothing attempted failed, and none was passed over before the first attempt. */
  ghost predicate OkUpTo(order: seq<Url>, q: Queue, p: Pass, n: nat)
    requires Order(order, q) && n <= |order|
  {
    && (n > 0 ==> Attempts(q, p, order[0]))
    && forall i :: 0 <= i < n && Attempts(q, p, order[i]) ==> Connects(q, p, order[i])
  }

  ghost predicate ReportsOk(order: seq<Url>, q: Queue, p: Pass)
    requires Order(order, q)
  {
    OkUpTo(order, q, p, |order|)
  }

  /** What a pass leaves of an entry, by its age, the publisher and the answer. */
  lemma PassIsExact(q: Queue, p: Pass, u: Url)
    requires u in q
    ensures var due, q' := p.now - q[u] >= 1000 * p.intervalSec, After(q, p);
            && (u !in q' <==> due && !p.noPublisher && u in p.connect && p.connect[u] == 0)
            && (u in q' ==> q'[u] == if due then p.now else q[u])
  {
  }

  /** Without a publisher a pass connects nothing, stamps every due entry now, and reports OK only of an empty queue. */
  lemma NoPublisherNoConnect(order: seq<Url>, q: Queue, p: Pass)
    requires Order(order, q) && p.noPublisher
    ensures After(q, p).Keys == q.Keys
    ensures forall u :: u in q && p.now - q[u] >= 1000 * p.intervalSec ==> After(q, p)[u] == p.now
    ensures ReportsOk(order, q, p) <==> q == map[]
  {
    if order != [] {
      assert order[0] in q;
    }
  }

  /** An emptied queue is always reported as OK. */
  lemma EmptiedMeansOk(order: seq<Url>, q: Queue, p: Pass)
    requires Order(order, q) && After(q, p) == map[]
    ensures ReportsOk(order, q, p)
  {
    forall u | u in q
      ensures Connects(q, p, u)
    {
      assert u !in After(q, p);
    }
  }

  /**
   * The converse fails exactly when the first entry is attempted, every attempt connects and some entry is not due:
   * OK is then reported with that URL still queued.
   */
  lemma OkWithUrlsLeft(order: seq<Url>, q: Queue, p: Pass)
    requires Order(order, q)
    ensures ReportsOk(order, q, p) && After(q, p) != map[] <==>
            && order != [] && Attempts(q, p, order[0])
            && (forall u :: u in q && Attempts(q, p, u) ==> Connects(q, p, u))
            && exists u :: u in q && !Due(p, q[u])
  {
    if ReportsOk(order, q, p) && After(q, p) != map[] {
      var u :| u in After(q, p);
      var i :| 0 <= i < |order| && order[i] == u;
      assert !Attempts(q, p, order[i]) && Attempts(q, p, order[0]);
      forall v | v in q && Attempts(q, p, v) ensures Connects(q, p, v) {
        var j :| 0 <= j < |order| && order[j] == v;
      }
    } else if exists u :: u in q && !Due(p, q[u]) {
      var u :| u in q && !Due(p, q[u]);
      assert u in After(q, p);
    }
  }

  lemma OkWithUrlsLeftExample()
    ensures var q := map["a" := 0, "b" := 9000];
            var p := Pass(10000, 10, false, map["a" := OK]);
            Order(["a", "b"], q) && ReportsOk(["a", "b"], q, p) && After(q, p) == map["b" := 9000]
  {
  }

  class PusherManager {
    var queue: map<Url, int>

    constructor ()
      ensures queue == map[]
    {
      queue := map[];
    }

    /** `ret` carries over from one entry to the next, which is what makes a skipped entry count as the last attempt did. */
    method ReconnectAll(order: seq<Url>, p: Pass) returns (allRet: bv32)
      requires Order(order, queue)
      modifies this
      ensures queue == After(old(queue), p)
      ensures allRet == OK <==> ReportsOk(order, old(queue), p)
    {
      hide OkUpTo, Partly;
      ghost var q := queue;
      Begin(order, q, p);
      var ret := ERROR;
      allRet := OK;
      var i := 0;
      while i < |order|
        invariant 0 <= i <= |order|
        invariant Partly(queue, order, q, p, i)
        invariant allRet == OK <==> OkUpTo(order, q, p, i)
        invariant i == 0 ==> ret == ERROR
        invariant i > 0 && OkUpTo(order, q, p, i) ==> ret == OK
      {
        PartlyHere(queue, order, q, p, i);
        var url := order[i];
        if p.now - queue[url] >= p.intervalSec * 1000 {
          if p.noPublisher {
            queue := queue[url := p.now];
          } else {
            ret := Answer(p, url);
            queue := if ret != OK then queue[url := p.now] else queue - {url};
          }
        }
        OkStep(order, q, p, i);
        OrIsOk(allRet, ret);
        allRet := allRet | ret;
        i := i + 1;
      }
      PartlyDone(queue, order, q, p);
    }
  }

  lemma Begin(order: seq<Url>, q: Queue, p: Pass)
    requires Order(order, q)
    ensures OkUpTo(order, q, p, 0) && Partly(q, order, q, p, 0)
  {
  }

  /** The entry the loop is at is untouched, and doing it moves the boundary. */
  lemma PartlyHere(queue: Queue, order: seq<Url>, q: Queue, p: Pass, i: nat)
    requires Order(order, q) && i < |order| && Partly(queue, order, q, p, i)
    ensures order[i] in queue && queue[order[i]] == q[order[i]]
    ensures Connects(q, p, order[i]) ==> Partly(queue - {order[i]}, order, q, p, i + 1)
    ensures !Connects(q, p, order[i]) && Due(p, q[order[i]]) ==> Partly(queue[order[i] := p.now], order, q, p, i + 1)
    ensures !Due(p, q[order[i]]) ==> Partly(queue, order, q, p, i + 1)
  {
  }

  lemma PartlyDone(queue: Queue, order: seq<Url>, q: Queue, p: Pass)
    requires Order(order, q) && Partly(queue, order, q, p, |order|)
    ensures queue == After(q, p)
  {
  }

  lemma OkStep(order: seq<Url>, q: Queue, p: Pass, i: nat)
    requires Order(order, q) && i < |order|
    ensures OkUpTo(order, q, p, i + 1) <==>
            && OkUpTo(order, q, p, i)
            && (if Attempts(q, p, order[i]) then Connects(q, p, order[i]) else i > 0)
  {
  }

  /** The queue once the first n entries are done. */
  ghost predicate Partly(queue: Queue, order: seq<Url>, q: Queue, p: Pass, n: nat)
    requires Order(order, q) && n <= |order|
  {
    && (forall u :: u in queue ==> u in q)
    && forall i :: 0 <= i < |order| ==>
         var u := order[i];
         if i < n && Connects(q, p, u) then u !in queue
         else u in queue && queue[u] == if i < n && Due(p, q[u]) then p.now else q[u]
  }

  lemma OrIsOk(a: bv32, b: bv32)
    ensures a | b == 0 <==> a == 0 && b == 0
  {
  }
}

module Pullers {
  import opened Codes
  import opened WrapArithmetic

  /** What one upstream does when tried: its URL may not fit, or connect() returns a code. */
  datatype Outcome = UrlTooLong | Connect(code: int)

  predicate Fails(o: Outcome) { o.Connect? && o.code != SLS_OK }

  /** A manager that never connected starts as if it had last used the last upstream. */
  function Stored(cur: int, n: nat): (c: nat)
    requires n > 0 && -1 <= cur < n
    ensures c < n
  {
    if cur == -1 then n - 1 else cur
  }

  /** The k-th upstream a call tries, counting from 0. */
  function Candidate(cur: nat, n: nat, k: nat): (i: nat)
    requires cur < n
    ensures i < n
  {
    Wrap(cur + 1 + k, n)
  }

  /** How many upstreams a call tries: up to the first that does not simply fail, and never more than all. */
  function Tried(cur: nat, outcomes: seq<Outcome>, k: nat): (t: nat)
    requires cur < |outcomes| && k < |outcomes|
    ensures k < t <= |outcomes|
    decreases |outcomes| - k
  {
    if k + 1 == |outcomes| || !Fails(outcomes[Candidate(cur, |outcomes|, k)]) then k + 1
    else Tried(cur, outcomes, k + 1)
  }

  /** All but the last one tried failed; the last did not, unless it was the n-th. */
  lemma {:induction false} StopsAtFirstSuccess(cur: nat, outcomes: seq<Outcome>, k: nat)
    requires cur < |outcomes| && k < |outcomes|
    ensures var n, t := |outcomes|, Tried(cur, outcomes, k);
            && (forall j :: k <= j < t - 1 ==> Fails(outcomes[Candidate(cur, n, j)]))
            && (t < n ==> !Fails(outcomes[Candidate(cur, n, t - 1)]))
    decreases |outcomes| - k
  {
    if k + 1 < |outcomes| && Fails(outcomes[Candidate(cur, |outcomes|, k)]) {
      StopsAtFirstSuccess(cur, outcomes, k + 1);
    }
  }

  /** No upstream is tried twice in one call. */
  lemma CandidatesDistinct(cur: nat, n: nat, j: nat, k: nat)
    requires cur < n && j < k < n
    ensures Candidate(cur, n, j) != Candidate(cur, n, k)
  {
    var base := cur + 1;
    WrapInjective(base + j, base + k, n);
  }

  /** The last one tried, when all n are, is the stored index itself: the loop's own exit. */
  lemma LastCandidateIsCurrent(cur: nat, n: nat)
    requires cur < n
    ensures Candidate(cur, n, n - 1) == cur
  {
  }

  /** One step of the rotation. */
  lemma NextCandidate(cur: nat, n: nat, k: nat)
    requires cur < n
    ensures Candidate(cur, n, k + 1) == if Candidate(cur, n, k) + 1 == n then 0 else Candidate(cur, n, k) + 1
  {
    WrapAdvance(cur + 1 + k, 1, n);
  }

  lemma FirstCandidate(cur: nat, n: nat)
    requires cur < n
    ensures Candidate(cur, n, 0) == if cur + 1 == n then 0 else cur + 1
  {
  }

  /** A manager that never connected turns to upstream 0 first, any other to the one after where it stopped. */
  lemma StartsAtTheNext(cur: int, n: nat)
    requires n > 0 && -1 <= cur < n
    ensures Candidate(Stored(cur, n), n, 0) == if cur + 1 == n then 0 else cur + 1
  {
    FirstCandidate(Stored(cur, n), n);
  }

  /** Whether the call runs into a URL that does not fit, which ends it without moving the stored index. */
  predicate Aborts(cur: nat, outcomes: seq<Outcome>)
    requires cur < |outcomes|
  {
    outcomes[Candidate(cur, |outcomes|, Tried(cur, outcomes, 0) - 1)].UrlTooLong?
  }

  /** By how many upstreams a call moves the stored index. */
  function Moves(cur: nat, outcomes: seq<Outcome>): nat
    requires cur < |outcomes|
  {
    if Aborts(cur, outcomes) then 0 else Tried(cur, outcomes, 0)
  }

  /** The stored index after a call: where it stopped. */
  function NextIndex(cur: nat, outcomes: seq<Outcome>): (c: nat)
    requires cur < |outcomes|
    ensures c < |outcomes|
  {
    if Aborts(cur, outcomes) then cur else Candidate(cur, |outcomes|, Tried(cur, outcomes, 0) - 1)
  }

  ghost predicate Calls(calls: seq<seq<Outcome>>, n: nat) { forall i :: 0 <= i < |calls| ==> |calls[i]| == n }

  function IndexAfter(cur: nat, n: nat, calls: seq<seq<Outcome>>): (c: nat)
    requires cur < n && Calls(calls, n)
    ensures c < n
  {
    if calls == [] then cur
    else
      var m := |calls| - 1;
      NextIndex(IndexAfter(cur, n, calls[..m]), calls[m])
  }

  function TotalMoves(cur: nat, n: nat, calls: seq<seq<Outcome>>): nat
    requires cur < n && Calls(calls, n)
  {
    if calls == [] then 0
    else
      var m := |calls| - 1;
      TotalMoves(cur, n, calls[..m]) + Moves(IndexAfter(cur, n, calls[..m]), calls[m])
  }

  /** After any sequence of calls the stored index has gone round by the sum of their moves: a call resumes where the last stopped. */
  lemma {:induction false} CallsRotate(cur: nat, n: nat, calls: seq<seq<Outcome>>)
    requires cur < n && Calls(calls, n)
    ensures IndexAfter(cur, n, calls) == Wrap(cur + TotalMoves(cur, n, calls), n)
  {
    if calls == [] {
      DivModUnique(cur, 0, cur, n);
    } else {
      var m := |calls| - 1;
      var c, total := IndexAfter(cur, n, calls[..m]), TotalMoves(cur, n, calls[..m]);
      CallsRotate(cur, n, calls[..m]);
      var t := Moves(c, calls[m]);
      WrapAdvance(cur + total, t, n);
      WrapAdvance(c, t, n);
      DivModUnique(c, 0, c, n);
    }
  }

  /** The first upstream a call turns to connects. */
  predicate ConnectsAtOnce(cur: nat, outcomes: seq<Outcome>)
    requires cur < |outcomes|
  {
    var o := outcomes[Candidate(cur, |outcomes|, 0)];
    o.Connect? && o.code == SLS_OK
  }

  /** Calls that each connect at once use the upstreams in turn: m of them move on by exactly m. */
  lemma {:induction false} ImmediateSuccessesRotate(cur: nat, n: nat, calls: seq<seq<Outcome>>)
    requires cur < n && Calls(calls, n)
    requires forall i :: 0 <= i < |calls| ==> ConnectsAtOnce(IndexAfter(cur, n, calls[..i]), calls[i])
    ensures TotalMoves(cur, n, calls) == |calls| && IndexAfter(cur, n, calls) == Wrap(cur + |calls|, n)
  {
    hide Wrap, Candidate;
    CallsRotate(cur, n, calls);
    if calls != [] {
      var m := |calls| - 1;
      assert forall i :: 0 <= i < m ==> calls[..m][..i] == calls[..i];
      ImmediateSuccessesRotate(cur, n, calls[..m]);
      assert Moves(IndexAfter(cur, n, calls[..m]), calls[m]) == 1;
    }
  }

  /** A success after a failure moves on by both: from index 0 of three, past a dead upstream 1 to upstream 2. */
  lemma OneSuccessCanMoveTwo()
    ensures Moves(0, [Connect(SLS_OK), Connect(SLS_ERROR), Connect(SLS_OK)]) == 2
    ensures NextIndex(0, [Connect(SLS_OK), Connect(SLS_ERROR), Connect(SLS_OK)]) == 2
  {
    var outcomes := [Connect(SLS_OK), Connect(SLS_ERROR), Connect(SLS_OK)];
    assert Tried(0, outcomes, 0) == Tried(0, outcomes, 1) == 2;
  }

  class PullerManager {
    var cur: int

    constructor ()
      ensures cur == -1
    {
      cur := -1;
    }

    /** outcomes[i] is what upstream i does if this call tries it. */
    method ConnectLoop(outcomes: seq<Outcome>) returns (ret: int, tried: seq<nat>)
      requires -1 <= cur && (outcomes != [] ==> cur < |outcomes|)
      modifies this
      ensures outcomes == [] ==> ret == SLS_ERROR && tried == [] && cur == old(cur)
      ensures outcomes != [] ==>
                && |tried| == Tried(Stored(old(cur), |outcomes|), outcomes, 0)
                && (forall k :: 0 <= k < |tried| ==> tried[k] == Candidate(Stored(old(cur), |outcomes|), |outcomes|, k))
                && cur == NextIndex(Stored(old(cur), |outcomes|), outcomes)
                && var last := outcomes[tried[|tried| - 1]];
                   if last.UrlTooLong? then ret == SLS_ERROR && cur == Stored(old(cur), |outcomes|)
                   else ret == last.code && cur == tried[|tried| - 1]
    {
      if outcomes == [] {
        return SLS_ERROR, [];
      }
      if cur == -1 {
        cur := |outcomes| - 1;
      }
      ret, tried := TryFrom(cur, outcomes);
      if outcomes[tried[|tried| - 1]].Connect? {
        cur := tried[|tried| - 1];
      }
    }

    /** The while(true) loop, from the stored index round to it. */
    static method TryFrom(cur: nat, outcomes: seq<Outcome>) returns (ret: int, tried: seq<nat>)
      requires cur < |outcomes|
      ensures |tried| == Tried(cur, outcomes, 0)
      ensures forall k :: 0 <= k < |tried| ==> tried[k] == Candidate(cur, |outcomes|, k)
      ensures ret == match outcomes[Candidate(cur, |outcomes|, |tried| - 1)] { case UrlTooLong => SLS_ERROR case Connect(code) => code }
    {
      var n := |outcomes|;
      FirstCandidate(cur, n);
      LastCandidateIsCurrent(cur, n);
      hide Candidate;
      tried := [];
      var index := cur + 1;
      while true
        invariant |tried| < n && 0 <= index <= n
        invariant Candidate(cur, n, |tried|) == if index == n then 0 else index
        invariant forall k :: 0 <= k < |tried| ==> tried[k] == Candidate(cur, n, k)
        invariant Tried(cur, outcomes, 0) == Tried(cur, outcomes, |tried|)
        decreases n - |tried|
      {
        if index >= n {
          index := 0;
        }
        ghost var k := |tried|;
        tried := tried + [index];
        if outcomes[index].UrlTooLong? {
          return SLS_ERROR, tried;
        }
        ret := outcomes[index].code;
        if ret == SLS_OK {
          return;
        }
        CurrentComesLast(cur, n, k);
        if index == cur {
          return;
        }
        NextCandidate(cur, n, k);
        index := index + 1;
      }
    }
  }

  lemma CurrentComesLast(cur: nat, n: nat, k: nat)
    requires cur < n && k < n
    ensures Candidate(cur, n, k) == cur <==> k == n - 1
  {
  }
}
