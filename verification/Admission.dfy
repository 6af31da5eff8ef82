/**
 * Admission over whole runs of any number of listeners that share one publisher map: by what right a role came to own
 * its key, how it lost it, and who gets kicked.
 */
module Admissions {
  import opened Codes
  import opened Listeners
  import PlayerKeys

  // ----- the pending lists -----

  ghost predicate DistinctKeys(ps: seq<HeldPublisher>) {
    forall i, j :: 0 <= i < j < |ps| ==> ps[i].key != ps[j].key
  }

  ghost predicate PendingBounded(b: Books, gated: bool) {
    DistinctKeys(b.publishers) && |b.publishers| <= if gated then 1024 else 0
  }

  lemma SettleKeepsAtMostOne(b: Books, p: HeldPublisher, e: Env)
    ensures var ps := Settle(b, p, e).publishers;
            ps == b.publishers || exists p': HeldPublisher :: p'.key == p.key && ps == b.publishers + [p']
  {
  }

  lemma {:induction false} DriveKeepsDistinct(b: Books, todo: seq<HeldPublisher>, e: Env)
    requires DistinctKeys(b.publishers + todo)
    ensures var ps := DrivePublishers(b, todo, e).publishers;
            DistinctKeys(ps) && |ps| <= |b.publishers| + |todo|
    decreases |todo|
  {
    if todo == [] {
      assert b.publishers + [] == b.publishers;
    } else {
      hide Settle;
      var b' := Settle(b, todo[0], e);
      SettleKeepsAtMostOne(b, todo[0], e);
      var before, after := b.publishers + todo, b'.publishers + todo[1..];
      if b'.publishers == b.publishers {
        assert forall i :: 0 <= i < |after| ==> after[i] == before[if i < |b.publishers| then i else i + 1];
      } else {
        assert forall i :: 0 <= i < |after| ==> after[i].key == before[i].key;
      }
      DriveKeepsDistinct(b', todo[1..], e);
    }
  }

  lemma {:induction false} PlayersLeaveTheRest(b: Books, todo: seq<HeldPlayer>, e: Env)
    ensures var b' := DrivePlayers(b, todo, e);
            && b'.owners == b.owners && b'.lastRecv == b.lastRecv
            && b'.kicks == b.kicks && b'.publishers == b.publishers
    decreases |todo|
  {
    if todo != [] {
      PlayersLeaveTheRest(SettlePlayer(b, todo[0], e), todo[1..], e);
    }
  }

  /** For everything but players and sockets a tick is its publisher half. */
  lemma TickIsDrive(b: Books, e: Env)
    ensures var b', b1 := Tick(b, e), DrivePublishers(b.(publishers := []), b.publishers, e);
            && b'.owners == b1.owners && b'.lastRecv == b1.lastRecv
            && b'.kicks == b1.kicks && b'.publishers == b1.publishers
  {
    var b1 := DrivePublishers(b.(publishers := []), b.publishers, e);
    PlayersLeaveTheRest(b1.(players := []), b1.players, e);
  }

  lemma AcceptKeepsPendingBounded(b: Books, gated: bool, op: Op)
    requires PendingBounded(b, gated) && op.Publisher?
    ensures PendingBounded(Step(b, gated, op), gated)
  {
    hide Settle, FinishPublisher;
    var p := HeldPublisher(op.sock, op.key, true, true, op.env.now + AUTH_DEADLINE_MS);
    SettleKeepsAtMostOne(b, p, op.env);
    FinishIgnoresPending(b, b.publishers, p, op.env);
  }

  lemma StepKeepsPendingBounded(b: Books, gated: bool, op: Op)
    requires PendingBounded(b, gated)
    ensures PendingBounded(Step(b, gated, op), gated)
  {
    hide FinishPublisher, Tick;
    if op.Publisher? {
      AcceptKeepsPendingBounded(b, gated, op);
    }
    if op.WorkerTick? {
      assert [] + b.publishers == b.publishers;
      DriveKeepsDistinct(b.(publishers := []), b.publishers, op.env);
      TickIsDrive(b, op.env);
    }
  }

  // ----- who gets into the map -----

  /** This call asked the webhook about socket s for key k. */
  predicate Asks(op: Op, k: Key, s: Sock) { op.Publisher? && op.key == k && op.sock == s && op.dispatched }

  /** Call m looks at the answer to what was asked at call i: the call itself, and every later tick. */
  predicate Polls(h: seq<Op>, i: nat, m: nat)
    requires m < |h|
  {
    (h[m].Publisher? && m == i) || h[m].WorkerTick?
  }

  ghost predicate Unanswered(h: seq<Op>, i: nat, n: nat, s: Sock)
    requires n <= |h|
  {
    forall m :: i <= m < n && Polls(h, i, m) ==> s !in h[m].env.answers
  }

  predicate InTime(deadline: int, now: int) { deadline > 0 ==> now < deadline }

  /** Asked at call i, and the first poll that found an answer, at call j and before the deadline, found a yes. */
  ghost predicate Approved(h: seq<Op>, i: nat, j: nat, k: Key, s: Sock) {
    && i <= j < |h|
    && Asks(h[i], k, s) && Unanswered(h, i, j, s)
    && Polls(h, i, j) && s in h[j].env.answers && h[j].env.answers[s]
    && InTime(h[i].env.now + AUTH_DEADLINE_MS, h[j].env.now)
  }

  /** The last call of h, one listener's history, gives role r the right to key k. */
  ghost predicate Entitled(gated: bool, h: seq<Op>, k: Key, r: Role) {
    h != [] && var n := |h| - 1;
    match r
    case Relay(s) => h[n] == RelayJoins(k, s)
    case Broadcaster(s) =>
      if gated then exists i: nat :: Approved(h, i, n, k, s)
      else h[n].Publisher? && h[n].key == k && h[n].sock == s
  }

  /** Nobody in `base` was replaced, and whoever came on top was entitled to it. */
  ghost predicate Gains(gated: bool, h: seq<Op>, base: map<Key, Role>, owners: map<Key, Role>) {
    && (forall k :: k in base ==> k in owners && owners[k] == base[k])
    && (forall k :: k in owners && k !in base ==> Entitled(gated, h, k, owners[k]))
  }

  /** A pending entry that can still pass was asked about at some call, with its deadline, and has had no answer since. */
  ghost predicate Waiting(h: seq<Op>, p: HeldPublisher) {
    p.requested ==> exists i: nat :: WaitsSince(h, p, i)
  }

  ghost predicate WaitsSince(h: seq<Op>, p: HeldPublisher, i: nat) {
    && i < |h| && Asks(h[i], p.key, p.sock) && Unanswered(h, i, |h|, p.sock)
    && p.deadline == h[i].env.now + AUTH_DEADLINE_MS
  }

  ghost predicate AllWaiting(h: seq<Op>, ps: seq<HeldPublisher>) {
    forall i :: 0 <= i < |ps| ==> Waiting(h, ps[i])
  }

  lemma WaitingExtends(h: seq<Op>, op: Op, p: HeldPublisher)
    requires Waiting(h, p) && (op.WorkerTick? ==> p.sock !in op.env.answers)
    ensures Waiting(h + [op], p)
  {
    if p.requested {
      var i: nat :| WaitsSince(h, p, i);
      var h' := h + [op];
      assert forall m :: 0 <= m < |h| ==> h'[m] == h[m] && Polls(h', i, m) == Polls(h, i, m);
      assert WaitsSince(h', p, i);
    }
  }

  lemma AllWaitingExtends(h: seq<Op>, op: Op, ps: seq<HeldPublisher>)
    requires AllWaiting(h, ps) && !op.WorkerTick?
    ensures AllWaiting(h + [op], ps)
  {
    hide Waiting;
    forall i | 0 <= i < |ps| ensures Waiting(h + [op], ps[i]) {
      WaitingExtends(h, op, ps[i]);
    }
  }

  /** The poll of a tick, recorded as the last call of h + [tick]. */
  lemma SettleGains(h: seq<Op>, base: map<Key, Role>, b: Books, p: HeldPublisher, e: Env)
    requires Waiting(h, p)
    requires var h' := h + [WorkerTick(e)];
             Gains(true, h', base, b.owners) && AllWaiting(h', b.publishers)
    ensures var h', b' := h + [WorkerTick(e)], Settle(b, p, e);
            Gains(true, h', base, b'.owners) && AllWaiting(h', b'.publishers)
  {
    hide Entitled, Waiting, WaitsSince;
    var h' := h + [WorkerTick(e)];
    match CheckHttp(p, e) {
      case Passed => PassedIsEntitled(h, p, e);
      case Dead =>
      case Hold(p') => HeldIsWaiting(h, p, e);
    }
  }

  lemma ApprovedIsEntitled(h: seq<Op>, i: nat, k: Key, s: Sock)
    requires h != [] && Approved(h, i, |h| - 1, k, s)
    ensures Entitled(true, h, k, Broadcaster(s))
  {
    hide Approved;
  }

  lemma PassedIsEntitled(h: seq<Op>, p: HeldPublisher, e: Env)
    requires Waiting(h, p) && CheckHttp(p, e).Passed?
    ensures Entitled(true, h + [WorkerTick(e)], p.key, Broadcaster(p.sock))
  {
    var i: nat :| WaitsSince(h, p, i);
    var h' := h + [WorkerTick(e)];
    assert forall m :: 0 <= m < |h| ==> h'[m] == h[m] && Polls(h', i, m) == Polls(h, i, m);
    ApprovedIsEntitled(h', i, p.key, p.sock);
  }

  lemma HeldIsWaiting(h: seq<Op>, p: HeldPublisher, e: Env)
    requires Waiting(h, p) && CheckHttp(p, e).Hold?
    ensures Waiting(h + [WorkerTick(e)], CheckHttp(p, e).held)
  {
    if p.sock !in e.answers {
      WaitingExtends(h, WorkerTick(e), p);
    }
  }

  lemma {:induction false} DriveGains(h: seq<Op>, base: map<Key, Role>, b: Books, todo: seq<HeldPublisher>, e: Env)
    requires AllWaiting(h, todo)
    requires var h' := h + [WorkerTick(e)];
             Gains(true, h', base, b.owners) && AllWaiting(h', b.publishers)
    ensures var h', b' := h + [WorkerTick(e)], DrivePublishers(b, todo, e);
            Gains(true, h', base, b'.owners) && AllWaiting(h', b'.publishers)
    decreases |todo|
  {
    hide Gains, Waiting, Settle;
    if todo != [] {
      SettleGains(h, base, b, todo[0], e);
      DriveGains(h, base, Settle(b, todo[0], e), todo[1..], e);
    }
  }

  /** A gated accept: the same poll, at the call that asked. */
  lemma AcceptGains(h: seq<Op>, b: Books, op: Op)
    requires op.Publisher? && AllWaiting(h, b.publishers)
    ensures var h', b' := h + [op], Step(b, true, op);
            Gains(true, h', b.owners, b'.owners) && AllWaiting(h', b'.publishers)
  {
    hide Entitled, Waiting, KeyPending;
    AllWaitingExtends(h, op, b.publishers);
    if op.dispatched {
      AskedNow(h, op);
    }
  }

  lemma AskedNow(h: seq<Op>, op: Op)
    requires op.Publisher? && op.dispatched
    ensures var p := HeldPublisher(op.sock, op.key, true, true, op.env.now + AUTH_DEADLINE_MS);
            match CheckHttp(p, op.env)
            case Passed => Entitled(true, h + [op], op.key, Broadcaster(op.sock))
            case Dead => true
            case Hold(p') => Waiting(h + [op], p')
  {
    var p := HeldPublisher(op.sock, op.key, true, true, op.env.now + AUTH_DEADLINE_MS);
    var h' := h + [op];
    assert h'[|h|] == op;
    if CheckHttp(p, op.env).Passed? {
      ApprovedIsEntitled(h', |h|, op.key, op.sock);
    } else if op.sock !in op.env.answers {
      assert WaitsSince(h', p, |h|);
    }
  }

  /** One call of a listener: an owner it keeps is the one it had, an owner it gains is entitled by this very call. */
  ghost predicate Entries(gated: bool, h: seq<Op>, base: map<Key, Role>, owners: map<Key, Role>) {
    forall k :: k in owners ==> if k in base then owners[k] == base[k] else Entitled(gated, h, k, owners[k])
  }

  lemma StepEntries(gated: bool, h: seq<Op>, b: Books, op: Op)
    requires AllWaiting(h, b.publishers) && PendingBounded(b, gated)
    ensures var h', b' := h + [op], Step(b, gated, op);
            Entries(gated, h', b.owners, b'.owners) && AllWaiting(h', b'.publishers)
  {
    if gated && op.Publisher? {
      hide Entitled, Waiting, AcceptPublisher;
      AcceptGains(h, b, op);
    } else if op.WorkerTick? {
      hide Entitled, Waiting, Tick;
      TickIsDrive(b, op.env);
      if gated {
        DriveGains(h, b.owners, b.(publishers := []), b.publishers, op.env);
      }
    } else {
      hide Waiting, FinishPublisher;
      assert Step(b, gated, op).publishers == b.publishers by { QuietStep(b, gated, op); }
      AllWaitingExtends(h, op, b.publishers);
      QuietEntries(gated, h, b, op);
    }
  }

  lemma QuietStep(b: Books, gated: bool, op: Op)
    requires !op.WorkerTick? && !(gated && op.Publisher?)
    ensures Step(b, gated, op).publishers == b.publishers
  {
  }

  lemma QuietEntries(gated: bool, h: seq<Op>, b: Books, op: Op)
    requires !op.WorkerTick? && !(gated && op.Publisher?)
    ensures Entries(gated, h + [op], b.owners, Step(b, gated, op).owners)
  {
    assert (h + [op])[|h|] == op;
  }

  /** What listener l itself was called for, in order. */
  function Mine(calls: seq<Call>, l: Id): seq<Op> {
    if calls == [] then []
    else
      var c := calls[|calls| - 1];
      Mine(calls[..|calls| - 1], l) + if c.listener == l then [c.op] else []
  }

  /** Each listener's pending list, after the calls, is bounded and waits on that listener's own requests. */
  lemma {:induction false} ListenersWait(gates: set<Id>, calls: seq<Call>, l: Id)
    ensures var b := BooksOf(Run(EmptyNet, gates, calls), l);
            AllWaiting(Mine(calls, l), b.publishers) && PendingBounded(b, l in gates)
  {
    hide Step, Waiting;
    if calls != [] {
      var m := |calls| - 1;
      ListenersWait(gates, calls[..m], l);
      var b, c := BooksOf(Run(EmptyNet, gates, calls[..m]), l), calls[m];
      if c.listener == l {
        StepEntries(l in gates, Mine(calls[..m], l), b, c.op);
        StepKeepsPendingBounded(b, l in gates, c.op);
      } else {
        assert Mine(calls, l) == Mine(calls[..m], l);
      }
    }
  }

  /** Call j found key k free and entitled r to it, going by what the listener it was made to had seen until then. */
  ghost predicate EnteredAt(gates: set<Id>, calls: seq<Call>, j: nat, k: Key, r: Role) {
    && j < |calls|
    && k !in Run(EmptyNet, gates, calls[..j]).owners
    && var l := calls[j].listener; Entitled(l in gates, Mine(calls[..j + 1], l), k, r)
  }

  lemma EnteredExtends(gates: set<Id>, calls: seq<Call>, m: nat, j: nat, k: Key, r: Role)
    requires m <= |calls| && EnteredAt(gates, calls[..m], j, k, r)
    ensures EnteredAt(gates, calls, j, k, r)
  {
    assert calls[..m][..j] == calls[..j] && calls[..m][..j + 1] == calls[..j + 1];
  }

  /**
   * In every run of any number of listeners, every owner got its key at a call that found it free: a relay by
   * registering, a broadcaster by coming for it and, where there is a webhook, by a request of its own that was
   * answered yes, first time and in time. Every listener's pending keys are distinct and at most 1024, none without a
   * webhook.
   */
  lemma {:induction false} AdmissionIsSafe(gates: set<Id>, calls: seq<Call>)
    ensures var n := Run(EmptyNet, gates, calls);
            && (forall k :: k in n.owners ==> exists j: nat :: EnteredAt(gates, calls, j, k, n.owners[k]))
            && (forall l :: PendingBounded(BooksOf(n, l), l in gates))
  {
    hide Step, EnteredAt, PendingBounded;
    forall l ensures PendingBounded(BooksOf(Run(EmptyNet, gates, calls), l), l in gates) {
      ListenersWait(gates, calls, l);
    }
    if calls != [] {
      var m := |calls| - 1;
      AdmissionIsSafe(gates, calls[..m]);
      var n, n' := Run(EmptyNet, gates, calls[..m]), Run(EmptyNet, gates, calls);
      forall k | k in n'.owners ensures exists j: nat :: EnteredAt(gates, calls, j, k, n'.owners[k]) {
        LastCallEntries(gates, calls, k);
        if k in n.owners {
          var j: nat :| EnteredAt(gates, calls[..m], j, k, n.owners[k]);
          EnteredExtends(gates, calls, m, j, k, n.owners[k]);
        }
      }
    }
  }

  lemma LastCallEntries(gates: set<Id>, calls: seq<Call>, k: Key)
    requires calls != [] && k in Run(EmptyNet, gates, calls).owners
    ensures var m, r := |calls| - 1, Run(EmptyNet, gates, calls).owners[k];
            var n := Run(EmptyNet, gates, calls[..m]);
            if k in n.owners then r == n.owners[k] else EnteredAt(gates, calls, m, k, r)
  {
    hide Step, Entitled;
    var m := |calls| - 1;
    var l := calls[m].listener;
    var b := BooksOf(Run(EmptyNet, gates, calls[..m]), l);
    ListenersWait(gates, calls[..m], l);
    StepEntries(l in gates, Mine(calls[..m], l), b, calls[m].op);
    assert calls[..m + 1] == calls;
  }

  // ----- nobody entitled is kept out -----

  /** An accept that settles at once on a free key: no webhook, or an answer already there and the pending checks passed. */
  lemma FreeKeyIsGranted(b: Books, gated: bool, s: Sock, key: Key, dispatched: bool, e: Env)
    requires key !in b.owners
    requires gated ==> MayWait(b.publishers, key) && dispatched && s in e.answers && e.answers[s]
    ensures var b' := AcceptPublisher(b, gated, s, key, dispatched, e);
            && b'.owners == b.owners[key := Broadcaster(s)] && b'.handedOff == b.handedOff + [s]
            && b'.closed == b.closed && b'.publishers == b.publishers
  {
  }

  /** An accept that has to wait for its answer is held, for four seconds at most. */
  lemma UnansweredIsHeld(b: Books, s: Sock, key: Key, e: Env)
    requires MayWait(b.publishers, key) && s !in e.answers
    ensures AcceptPublisher(b, true, s, key, true, e)
         == b.(publishers := b.publishers + [HeldPublisher(s, key, true, true, e.now + 4000)])
  {
  }

  ghost predicate SaidYes(p: HeldPublisher, e: Env) {
    p.requested && InTime(p.deadline, e.now) && p.sock in e.answers && e.answers[p.sock]
  }

  ghost predicate StillOpen(p: HeldPublisher, e: Env) {
    p.requested && InTime(p.deadline, e.now) && p.sock !in e.answers
  }

  lemma {:induction false} DriveKeepsHandedOff(b: Books, todo: seq<HeldPublisher>, e: Env, s: Sock)
    requires s in b.handedOff
    ensures s in DrivePublishers(b, todo, e).handedOff
    decreases |todo|
  {
    if todo != [] {
      DriveKeepsHandedOff(Settle(b, todo[0], e), todo[1..], e, s);
    }
  }

  lemma {:induction false} DriveAdmits(b: Books, todo: seq<HeldPublisher>, e: Env, i: nat)
    requires DistinctKeys(todo) && i < |todo| && SaidYes(todo[i], e) && todo[i].key !in b.owners
    ensures var b', p := DrivePublishers(b, todo, e), todo[i];
            p.key in b'.owners && b'.owners[p.key] == Broadcaster(p.sock) && p.sock in b'.handedOff
    decreases |todo|
  {
    var b1, p := Settle(b, todo[0], e), todo[i];
    if i == 0 {
      DriveNeverReplaces(b1, todo[1..], e, p.key);
      DriveKeepsHandedOff(b1, todo[1..], e, p.sock);
    } else {
      assert todo[1..][i - 1] == p && p.key !in b1.owners;
      DriveAdmits(b1, todo[1..], e, i - 1);
    }
  }

  lemma {:induction false} DriveKeepsOpen(b: Books, todo: seq<HeldPublisher>, e: Env, p: HeldPublisher)
    requires StillOpen(p, e) && (p in todo || p in b.publishers)
    ensures p in DrivePublishers(b, todo, e).publishers
    decreases |todo|
  {
    if todo != [] {
      DriveKeepsOpen(Settle(b, todo[0], e), todo[1..], e, p);
    }
  }

  lemma {:induction false} PlayersKeepHandedOff(b: Books, todo: seq<HeldPlayer>, e: Env, s: Sock)
    requires s in b.handedOff
    ensures s in DrivePlayers(b, todo, e).handedOff
    decreases |todo|
  {
    if todo != [] {
      PlayersKeepHandedOff(SettlePlayer(b, todo[0], e), todo[1..], e, s);
    }
  }

  /** A tick registers every pending publisher that has its yes in time, if the key is free. */
  lemma TickAdmits(b: Books, e: Env, i: nat)
    requires DistinctKeys(b.publishers) && i < |b.publishers|
    requires SaidYes(b.publishers[i], e) && b.publishers[i].key !in b.owners
    ensures var b', p := Tick(b, e), b.publishers[i];
            p.key in b'.owners && b'.owners[p.key] == Broadcaster(p.sock) && p.sock in b'.handedOff
  {
    DriveAdmits(b.(publishers := []), b.publishers, e, i);
    TickIsDrive(b, e);
    var b1 := DrivePublishers(b.(publishers := []), b.publishers, e);
    PlayersKeepHandedOff(b1.(players := []), b1.players, e, b.publishers[i].sock);
  }

  predicate MayWait(ps: seq<HeldPublisher>, k: Key) { |ps| < 1024 && !KeyPending(ps, k) }

  /** Call i asked for socket s and key k and had to wait; up to now no tick of that listener has seen an answer or the deadline. */
  ghost predicate OpenSince(gates: set<Id>, calls: seq<Call>, i: nat, k: Key, s: Sock) {
    i < |calls| && var c := calls[i];
    && c.listener in gates && Asks(c.op, k, s) && s !in c.op.env.answers
    && MayWait(BooksOf(Run(EmptyNet, gates, calls[..i]), c.listener).publishers, k)
    && forall m :: i < m < |calls| && calls[m].listener == c.listener && calls[m].op.WorkerTick? ==>
         s !in calls[m].op.env.answers && InTime(c.op.env.now + 4000, calls[m].op.env.now)
  }

  lemma StepKeepsOpen(b: Books, gated: bool, op: Op, p: HeldPublisher)
    requires p in b.publishers && (op.WorkerTick? ==> StillOpen(p, op.env))
    ensures p in Step(b, gated, op).publishers
  {
    hide KeyPending, StillOpen;
    if op.WorkerTick? {
      DriveKeepsOpen(b.(publishers := []), b.publishers, op.env, p);
      TickIsDrive(b, op.env);
    }
  }

  /** So long it stays in the pending list. */
  lemma {:induction false} OpenIsPending(gates: set<Id>, calls: seq<Call>, i: nat, k: Key, s: Sock)
    requires OpenSince(gates, calls, i, k, s)
    ensures var c := calls[i];
            HeldPublisher(s, k, true, true, c.op.env.now + 4000) in BooksOf(Run(EmptyNet, gates, calls), c.listener).publishers
  {
    hide Step, KeyPending;
    var m, l := |calls| - 1, calls[i].listener;
    var p := HeldPublisher(s, k, true, true, calls[i].op.env.now + 4000);
    var b := BooksOf(Run(EmptyNet, gates, calls[..m]), l);
    if i == m {
      assert Step(b, true, calls[i].op) == AcceptPublisher(b, true, s, k, true, calls[i].op.env) by { AskIsAccept(b, calls[i].op); }
      UnansweredIsHeld(b, s, k, calls[i].op.env);
    } else {
      assert calls[..m][..i] == calls[..i];
      assert OpenSince(gates, calls[..m], i, k, s);
      OpenIsPending(gates, calls[..m], i, k, s);
      if calls[m].listener == l {
        StepKeepsOpen(b, true, calls[m].op, p);
      }
    }
  }

  lemma AskIsAccept(b: Books, op: Op)
    requires op.Publisher? && op.dispatched
    ensures Step(b, true, op) == AcceptPublisher(b, true, op.sock, op.key, true, op.env)
  {
  }

  /**
   * The converse of AdmissionIsSafe, after any run: a publisher that is waiting for its answer and gets its yes in time
   * owns its key after that very tick, if the key is free by then, and is handed to a worker.
   */
  lemma YesIsAdmitted(gates: set<Id>, calls: seq<Call>, i: nat, k: Key, s: Sock, e: Env)
    requires OpenSince(gates, calls, i, k, s) && k !in Run(EmptyNet, gates, calls).owners
    requires s in e.answers && e.answers[s] && InTime(calls[i].op.env.now + 4000, e.now)
    ensures var l := calls[i].listener;
            var n := NetStep(Run(EmptyNet, gates, calls), gates, Call(l, WorkerTick(e)));
            k in n.owners && n.owners[k] == Broadcaster(s) && s in BooksOf(n, l).handedOff
  {
    hide Run, Tick;
    var l := calls[i].listener;
    var b := BooksOf(Run(EmptyNet, gates, calls), l);
    OpenIsPending(gates, calls, i, k, s);
    ListenersWait(gates, calls, l);
    var j :| 0 <= j < |b.publishers| && b.publishers[j] == HeldPublisher(s, k, true, true, calls[i].op.env.now + 4000);
    TickAdmits(b, e, j);
  }

  // ----- players -----

  /** A player that a tick lets in from the pending list had an approving answer, still valid, as its key's latest. */
  lemma PlayersInWereApproved(
    b: Books, todo: seq<HeldPlayer>, e: Env, x: Sock, ops: seq<PlayerKeys.Op>, ttl: nat, from: int, lastSweep: int)
    requires PlayerKeys.Legal(PlayerKeys.State(map[], lastSweep), ops, ttl, from)
    requires e.cache == PlayerKeys.Run(PlayerKeys.State(map[], lastSweep), ops, ttl).cache
    requires x !in b.handedOff && x in DrivePlayers(b, todo, e).handedOff
    ensures exists i, j :: 0 <= i < |todo| && 0 <= j < |ops| && todo[i].sock == x && x in e.admit
              && ApprovedBy(ops, j, todo[i].playerKey, e.now, ttl)
  {
    hide PlayerKeys.Run, PlayerKeys.Legal, DrivePlayers;
    PlayersAreSettled(b, todo, e, x, HeldPlayer(0, "", 0));
    var i :| 0 <= i < |todo| && todo[i].sock == x && LetsIn(todo[i], e);
    var j := PlayerKeys.HitIsLatestAnswer(ops, ttl, from, lastSweep, todo[i].playerKey, e.now);
    assert ApprovedBy(ops, j, todo[i].playerKey, e.now, ttl);
  }

  ghost predicate ApprovedBy(ops: seq<PlayerKeys.Op>, j: nat, k: Key, now: int, ttl: nat) {
    PlayerKeys.Latest(ops, j, k) && PlayerKeys.Approves(ops[j].response) && now < ops[j].now + ttl
  }

  /** And one let in at the door by its key, likewise. */
  lemma PlayerInWasApproved(
    b: Books, s: Sock, k: Key, admitted: bool, e: Env, ops: seq<PlayerKeys.Op>, ttl: nat, from: int, lastSweep: int)
    requires PlayerKeys.Legal(PlayerKeys.State(map[], lastSweep), ops, ttl, from)
    requires e.cache == PlayerKeys.Run(PlayerKeys.State(map[], lastSweep), ops, ttl).cache
    requires AcceptPlayer(b, s, k, Keyed, admitted, e).handedOff != b.handedOff
    ensures admitted && exists j: nat :: ApprovedBy(ops, j, k, e.now, ttl)
  {
    hide PlayerKeys.Run, PlayerKeys.Legal;
    PlayerAtTheDoor(b, s, k, Keyed, admitted, e);
    var j := PlayerKeys.HitIsLatestAnswer(ops, ttl, from, lastSweep, k, e.now);
    assert ApprovedBy(ops, j, k, e.now, ttl);
  }

  /** Call i held socket s for player key k; up to now no tick of that listener has seen an answer or the deadline. */
  ghost predicate HeldSince(gates: set<Id>, calls: seq<Call>, i: nat, k: Key, s: Sock) {
    i < |calls| && var c := calls[i];
    && c.op.Player? && c.op.sock == s && c.op.playerKey == k && c.op.door.Keyed? && Silent(c.op.env, k)
    && |BooksOf(Run(EmptyNet, gates, calls[..i]), c.listener).players| < 1024
    && forall m :: i < m < |calls| && calls[m].listener == c.listener && calls[m].op.WorkerTick? ==>
         Silent(calls[m].op.env, k) && calls[m].op.env.now < c.op.env.now + c.op.env.timeoutMs + 2000
  }

  lemma {:induction false} DriveLeavesPlayers(b: Books, todo: seq<HeldPublisher>, e: Env)
    ensures DrivePublishers(b, todo, e).players == b.players
    decreases |todo|
  {
    if todo != [] {
      DriveLeavesPlayers(Settle(b, todo[0], e), todo[1..], e);
    }
  }

  lemma StepKeepsHeld(b: Books, gated: bool, op: Op, p: HeldPlayer)
    requires p in b.players && (op.WorkerTick? ==> KeepsWaiting(p, op.env))
    ensures p in Step(b, gated, op).players
  {
    hide KeyPending, KeepsWaiting;
    if op.WorkerTick? {
      var b1 := DrivePublishers(b.(publishers := []), b.publishers, op.env);
      DriveLeavesPlayers(b.(publishers := []), b.publishers, op.env);
      PlayersAreSettled(b1.(players := []), b1.players, op.env, 0, p);
    }
  }

  /** A held player stays held until its answer is in the cache or its time, the webhook's and two seconds more, is up. */
  lemma {:induction false} HeldPlayerWaits(gates: set<Id>, calls: seq<Call>, i: nat, k: Key, s: Sock)
    requires HeldSince(gates, calls, i, k, s)
    ensures var c := calls[i];
            HeldPlayer(s, k, c.op.env.now + c.op.env.timeoutMs + 2000) in BooksOf(Run(EmptyNet, gates, calls), c.listener).players
  {
    hide Step, Silent;
    var m, c := |calls| - 1, calls[i];
    var p := HeldPlayer(s, k, c.op.env.now + c.op.env.timeoutMs + 2000);
    var b := BooksOf(Run(EmptyNet, gates, calls[..m]), c.listener);
    if i == m {
      DoorIsAccept(b, c.listener in gates, c.op);
      PlayerAtTheDoor(b, s, k, c.op.door, c.op.admitted, c.op.env);
    } else {
      assert calls[..m][..i] == calls[..i];
      assert HeldSince(gates, calls[..m], i, k, s);
      HeldPlayerWaits(gates, calls[..m], i, k, s);
      if calls[m].listener == c.listener {
        StepKeepsHeld(b, c.listener in gates, calls[m].op, p);
      }
    }
  }

  /** And the tick that finds its key approved lets it in, if the stream has room. */
  lemma AnswerLetsIn(gates: set<Id>, calls: seq<Call>, i: nat, k: Key, s: Sock, e: Env)
    requires HeldSince(gates, calls, i, k, s) && Says(e, k, true) && s in e.admit
    ensures var l := calls[i].listener;
            s in BooksOf(NetStep(Run(EmptyNet, gates, calls), gates, Call(l, WorkerTick(e))), l).handedOff
  {
    hide Run;
    var l := calls[i].listener;
    HeldPlayerWaits(gates, calls, i, k, s);
    var b := BooksOf(Run(EmptyNet, gates, calls), l);
    var b1 := DrivePublishers(b.(publishers := []), b.publishers, e);
    DriveLeavesPlayers(b.(publishers := []), b.publishers, e);
    var j :| 0 <= j < |b.players| && b.players[j].sock == s && b.players[j].playerKey == k;
    assert LetsIn(b.players[j], e);
    PlayersAreSettled(b1.(players := []), b1.players, e, s, b.players[j]);
  }

  lemma DoorIsAccept(b: Books, gated: bool, op: Op)
    requires op.Player?
    ensures Step(b, gated, op) == AcceptPlayer(b, op.sock, op.playerKey, op.door, op.admitted, op.env)
  {
  }

  // ----- who loses a key -----

  lemma {:induction false} DriveNeverReplaces(b: Books, todo: seq<HeldPublisher>, e: Env, k: Key)
    requires k in b.owners
    ensures var owners := DrivePublishers(b, todo, e).owners;
            k in owners && owners[k] == b.owners[k]
    decreases |todo|
  {
    if todo != [] {
      DriveNeverReplaces(Settle(b, todo[0], e), todo[1..], e, k);
    }
  }

  lemma OnlyLeavingFrees(b: Books, gated: bool, op: Op, k: Key)
    requires k in b.owners && op != Leaves(k, b.owners[k])
    ensures var owners := Step(b, gated, op).owners;
            k in owners && owners[k] == b.owners[k]
  {
    if op.WorkerTick? {
      DriveNeverReplaces(b.(publishers := []), b.publishers, op.env, k);
      TickIsDrive(b, op.env);
    }
  }

  /** A key changes hands only through absence, and only its owner's own teardown makes it absent. */
  lemma {:induction false} OwnerLeavesByItself(n: Net, gates: set<Id>, calls: seq<Call>, k: Key)
    requires k in n.owners
    requires var owners := Run(n, gates, calls).owners; k in owners ==> owners[k] != n.owners[k]
    ensures exists j :: 0 <= j < |calls| && calls[j].op == Leaves(k, n.owners[k])
  {
    hide Step;
    var m := |calls| - 1;
    var n' := Run(n, gates, calls[..m]);
    if k in n'.owners && n'.owners[k] == n.owners[k] {
      if calls[m].op != Leaves(k, n.owners[k]) {
        OnlyLeavingFrees(BooksOf(n', calls[m].listener), calls[m].listener in gates, calls[m].op, k);
      }
    } else {
      OwnerLeavesByItself(n, gates, calls[..m], k);
    }
  }

  /** Relays come and go the same way: a free key is theirs for the asking, and an owner's teardown frees its key. */
  lemma RolesComeAndGo(n: Net, gates: set<Id>, l: Id, k: Key, s: Sock, r: Role)
    ensures NetStep(n, gates, Call(l, RelayJoins(k, s))).owners == if k in n.owners then n.owners else n.owners[k := Relay(s)]
    ensures var owners := NetStep(n, gates, Call(l, Leaves(k, r))).owners;
            owners == if k in n.owners && n.owners[k] == r then n.owners - {k} else n.owners
  {
  }

  // ----- who gets kicked -----

  /** Clock readings are positive, and one role's media stamps never go back. */
  ghost predicate StampsInOrder(h: seq<Call>) {
    && (forall i :: 0 <= i < |h| && h[i].op.Recv? ==> h[i].op.at > 0)
    && forall i, j :: 0 <= i < j < |h| && h[i].op.Recv? && h[j].op.Recv? && h[i].op.role == h[j].op.role ==>
         h[i].op.at <= h[j].op.at
  }

  /** Role r received media at time t. */
  ghost predicate ReceivedAt(h: seq<Call>, r: Role, t: int) {
    exists i :: 0 <= i < |h| && h[i].op == Recv(r, t)
  }

  /** The stamps are the latest receipts of the history. */
  ghost predicate Heard(h: seq<Call>, lastRecv: map<Role, int>) {
    && (forall r, t :: ReceivedAt(h, r, t) ==> r in lastRecv && t <= lastRecv[r])
    && forall r :: r in lastRecv ==> ReceivedAt(h, r, lastRecv[r]) && lastRecv[r] > 0
  }

  /** Role r received media no more than a second before `now`. */
  ghost predicate ReceivedLately(h: seq<Call>, r: Role, now: int) {
    exists t :: ReceivedAt(h, r, t) && now - t <= 1000
  }

  lemma RecentIsReceivedLately(h: seq<Call>, lastRecv: map<Role, int>, r: Role, now: int)
    requires Heard(h, lastRecv)
    ensures Recent(lastRecv, r, now) <==> ReceivedLately(h, r, now)
  {
    hide ReceivedAt;
  }

  lemma StampsMove(b: Books, gated: bool, op: Op)
    ensures Step(b, gated, op).lastRecv == if op.Recv? then b.lastRecv[op.role := op.at] else b.lastRecv
  {
    if op.WorkerTick? {
      DriveIsFair(b.(publishers := []), b.publishers, op.env, |b.kicks|);
      TickIsDrive(b, op.env);
    }
  }

  lemma ReceiptsGrow(h: seq<Call>, c: Call, r: Role, t: int)
    ensures ReceivedAt(h + [c], r, t) <==> ReceivedAt(h, r, t) || c.op == Recv(r, t)
  {
    var h' := h + [c];
    if c.op == Recv(r, t) {
      assert h'[|h|].op == Recv(r, t);
    }
    if ReceivedAt(h, r, t) {
      var i :| 0 <= i < |h| && h[i].op == Recv(r, t);
      assert h'[i].op == Recv(r, t);
    }
  }

  lemma LatestIsLast(h: seq<Call>, c: Call, t: int)
    requires StampsInOrder(h + [c]) && c.op.Recv? && ReceivedAt(h, c.op.role, t)
    ensures t <= c.op.at
  {
    var i :| 0 <= i < |h| && h[i].op == Recv(c.op.role, t);
    var h' := h + [c];
    assert h'[i] == h[i] && h'[|h|] == c;
  }

  /** The stamps in the map are what the run of calls says they are. */
  lemma {:induction false} RunHears(gates: set<Id>, calls: seq<Call>)
    requires StampsInOrder(calls)
    ensures Heard(calls, Run(EmptyNet, gates, calls).lastRecv)
  {
    if calls == [] {
      assert forall r, t :: !ReceivedAt([], r, t);
    } else {
      hide Step, Heard;
      var m := |calls| - 1;
      var h, c := calls[..m], calls[m];
      assert h + [c] == calls;
      RunHears(gates, h);
      StampsMove(BooksOf(Run(EmptyNet, gates, h), c.listener), c.listener in gates, c.op);
      HeardExtends(h, c, Run(EmptyNet, gates, h).lastRecv);
    }
  }

  lemma HeardExtends(h: seq<Call>, c: Call, lastRecv: map<Role, int>)
    requires StampsInOrder(h + [c]) && Heard(h, lastRecv)
    ensures Heard(h + [c], if c.op.Recv? then lastRecv[c.op.role := c.op.at] else lastRecv)
  {
    hide ReceivedAt;
    assert (h + [c])[|h|] == c;
    forall r, t ensures ReceivedAt(h + [c], r, t) <==> ReceivedAt(h, r, t) || c.op == Recv(r, t) {
      ReceiptsGrow(h, c, r, t);
    }
    if c.op.Recv? {
      forall t | ReceivedAt(h, c.op.role, t) ensures t <= c.op.at {
        LatestIsLast(h, c, t);
      }
    }
  }

  /**
   * An authorised newcomer finds the key taken and is closed. The owner is spared if it came in behind the look-up or is
   * a broadcaster heard within a second, and kicked otherwise.
   */
  lemma TakeoverIsExact(gates: set<Id>, calls: seq<Call>, l: Id, s: Sock, key: Key, e: Env)
    requires StampsInOrder(calls) && key in Run(EmptyNet, gates, calls).owners
    ensures var b := BooksOf(Run(EmptyNet, gates, calls), l);
            var b', r := FinishPublisher(b, s, key, e), b.owners[key];
            var spared := key in e.missed || (r.Broadcaster? && ReceivedLately(calls, r, e.now));
            && b'.kicks == (if spared then b.kicks else b.kicks + [Kick(r, e.now)])
            && b'.closed == b.closed + [s] && b'.handedOff == b.handedOff && b'.owners == b.owners
  {
    hide Run, ReceivedLately, Recent;
    var b := BooksOf(Run(EmptyNet, gates, calls), l);
    RunHears(gates, calls);
    RecentIsReceivedLately(calls, b.lastRecv, b.owners[key], e.now);
  }

  ghost predicate Fair(k: Kick, lastRecv: map<Role, int>) {
    k.target.Broadcaster? ==> !Recent(lastRecv, k.target, k.at)
  }

  /** The kicks from the n-th on spare the recently heard. */
  ghost predicate FairFrom(b: Books, n: nat, now: int) {
    && n <= |b.kicks|
    && forall i :: n <= i < |b.kicks| ==> Fair(b.kicks[i], b.lastRecv) && b.kicks[i].at == now
  }

  lemma {:induction false} DriveIsFair(b: Books, todo: seq<HeldPublisher>, e: Env, n: nat)
    requires FairFrom(b, n, e.now)
    ensures var b' := DrivePublishers(b, todo, e);
            FairFrom(b', n, e.now) && b'.lastRecv == b.lastRecv && b.kicks <= b'.kicks
    decreases |todo|
  {
    if todo != [] {
      DriveIsFair(Settle(b, todo[0], e), todo[1..], e, n);
    }
  }

  lemma StepIsFair(b: Books, gated: bool, op: Op)
    ensures var b' := Step(b, gated, op);
            && b.kicks <= b'.kicks
            && forall i :: |b.kicks| <= i < |b'.kicks| ==>
                 (op.Publisher? || op.WorkerTick?) && b'.kicks[i].at == op.env.now && Fair(b'.kicks[i], b.lastRecv)
  {
    if op.WorkerTick? {
      DriveIsFair(b.(publishers := []), b.publishers, op.env, |b.kicks|);
      TickIsDrive(b, op.env);
    }
  }

  /** A kick at the time of call c whose target is a relay, or a broadcaster silent for more than a second by then. */
  ghost predicate Deserved(h: seq<Call>, c: Call, k: Kick) {
    && (c.op.Publisher? || c.op.WorkerTick?) && k.at == c.op.env.now
    && (k.target.Broadcaster? ==> !ReceivedLately(h, k.target, k.at))
  }

  /** After any run, the kicks of the next call, of any listener, hit no broadcaster that received media in the second before. */
  lemma ActiveBroadcastersAreSpared(gates: set<Id>, calls: seq<Call>, c: Call)
    requires StampsInOrder(calls)
    ensures var n, n' := Run(EmptyNet, gates, calls), NetStep(Run(EmptyNet, gates, calls), gates, c);
            n.kicks <= n'.kicks && forall i :: |n.kicks| <= i < |n'.kicks| ==> Deserved(calls, c, n'.kicks[i])
  {
    hide Step, Run, Heard, StampsInOrder, Recent, ReceivedLately;
    RunHears(gates, calls);
    var n := Run(EmptyNet, gates, calls);
    var n' := NetStep(n, gates, c);
    StepIsFair(BooksOf(n, c.listener), c.listener in gates, c.op);
    forall i | |n.kicks| <= i < |n'.kicks| ensures Deserved(calls, c, n'.kicks[i]) {
      assert Fair(n'.kicks[i], n.lastRecv);
      RecentIsReceivedLately(calls, n.lastRecv, n'.kicks[i].target, n'.kicks[i].at);
    }
  }
}
