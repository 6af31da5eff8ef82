/**
 * The listeners: which accepted socket is held, closed or handed to a worker, what a takeover does, and what a worker
 * tick settles. One call or one worker tick is one step here; the steps inside a registration and a teardown are
 * interleaved in module Teardown.
 */
module Listeners {
  import opened Codes
  import PlayerKeys

  type Sock = nat

  const MAX_PENDING_PLAYERS: nat := 1024
  const MAX_PENDING_PUBLISHERS: nat := 1024
  const ACTIVE_WINDOW_MS: int := 1000
  const AUTH_DEADLINE_MS: int := 4000
  const HOLD_GRACE_MS: int := 2000

  /** A publisher awaiting its webhook. `open` goes false when a refusal closes the socket ahead of the entry. */
  datatype HeldPublisher = HeldPublisher(sock: Sock, key: Key, open: bool, requested: bool, deadline: int)

  datatype HeldPlayer = HeldPlayer(sock: Sock, playerKey: Key, deadline: int)

  /** Who can own a key. Only an external broadcaster is shielded from takeover. */
  datatype Role = Broadcaster(sock: Sock) | Relay(sock: Sock)

  datatype Kick = Kick(target: Role, at: int)

  datatype Books = Books(
    publishers: seq<HeldPublisher>,
    players: seq<HeldPlayer>,
    closed: seq<Sock>,
    handedOff: seq<Sock>,
    owners: map<Key, Role>,
    lastRecv: map<Role, int>,
    kicks: seq<Kick>)

  const Empty := Books([], [], [], [], map[], map[], [])

  /** What the outside world decides for one call: the time, the webhook replies that have arrived, the keys whose owner
      came in between this call's look-up and its insertion, the player-key cache, the players a stream still has room
      for, and the key timeout. */
  datatype Env = Env(
    now: int, answers: map<Sock, bool>, missed: set<Key>,
    cache: PlayerKeys.Cache, admit: set<Sock>, timeoutMs: int)

  function Close(b: Books, s: Sock): Books { b.(closed := b.closed + [s]) }

  /** has_recent_recv_data(); a stamp of 0 means never. */
  predicate Recent(lastRecv: map<Role, int>, r: Role, now: int) {
    r in lastRecv && lastRecv[r] != 0 && now - lastRecv[r] <= ACTIVE_WINDOW_MS
  }

  // ----- publishers -----

  /** One poll of check_http_passed() and is_invalid(). */
  datatype Poll = Passed | Dead | Hold(held: HeldPublisher)

  function CheckHttp(p: HeldPublisher, e: Env): Poll {
    if p.deadline > 0 && e.now >= p.deadline then Dead
    else if !p.requested then Dead
    else if p.sock !in e.answers then Hold(p)
    else if e.answers[p.sock] then Passed
    else Hold(p.(open := false, requested := false, deadline := 0))
  }

  /** finish_publisher_accept(): refuse, kick and refuse, fail to insert, or register. */
  function FinishPublisher(b: Books, s: Sock, key: Key, e: Env): Books {
    if key in b.owners && key !in e.missed then
      var r := b.owners[key];
      if r.Broadcaster? && Recent(b.lastRecv, r, e.now) then Close(b, s)
      else Close(b.(kicks := b.kicks + [Kick(r, e.now)]), s)
    else if key in b.owners then Close(b, s)
    else b.(owners := b.owners[key := Broadcaster(s)], handedOff := b.handedOff + [s])
  }

  function Settle(b: Books, p: HeldPublisher, e: Env): Books {
    match CheckHttp(p, e)
    case Passed => FinishPublisher(b, p.sock, p.key, e)
    case Dead => if p.open then Close(b, p.sock) else b
    case Hold(p') =>
      var b1 := if p.open && !p'.open then Close(b, p.sock) else b;
      b1.(publishers := b.publishers + [p'])
  }

  /** Settles `todo` in order; what stays pending is appended to b.publishers. */
  function DrivePublishers(b: Books, todo: seq<HeldPublisher>, e: Env): Books
    decreases |todo|
  {
    if todo == [] then b else DrivePublishers(Settle(b, todo[0], e), todo[1..], e)
  }

  predicate KeyPending(ps: seq<HeldPublisher>, key: Key) { exists i :: 0 <= i < |ps| && ps[i].key == key }

  /** The publisher path of handler(), from the pending checks on. */
  function AcceptPublisher(b: Books, gated: bool, s: Sock, key: Key, dispatched: bool, e: Env): Books
  {
    if gated && (|b.publishers| >= MAX_PENDING_PUBLISHERS || KeyPending(b.publishers, key)) then Close(b, s)
    else if !gated then FinishPublisher(b, s, key, e)
    else if !dispatched then Close(b, s)
    else Settle(b, HeldPublisher(s, key, true, true, e.now + AUTH_DEADLINE_MS), e)
  }

  // ----- players -----

  /** What the checks before the key cache make of a player: no key asked for, turned away, or a key to look up. */
  datatype Door = Open | Barred | Keyed

  datatype Validation = NotNeeded | KeyOk | KeyBad | Unknown

  /** validate_player_key(), as far as the caller sees it. */
  function Validate(door: Door, cache: PlayerKeys.Cache, playerKey: Key, now: int): Validation {
    match door
    case Open => NotNeeded
    case Barred => KeyBad
    case Keyed =>
      if !PlayerKeys.Hit(cache, playerKey, now) then Unknown else if cache[playerKey].valid then KeyOk else KeyBad
  }

  function AcceptPlayer(b: Books, s: Sock, playerKey: Key, door: Door, admitted: bool, e: Env): Books {
    match Validate(door, e.cache, playerKey, e.now)
    case Unknown =>
      if |b.players| >= MAX_PENDING_PLAYERS then Close(b, s)
      else b.(players := b.players + [HeldPlayer(s, playerKey, e.now + e.timeoutMs + HOLD_GRACE_MS)])
    case KeyBad => Close(b, s)
    case _ => FinishPlayer(b, s, admitted)
  }

  /** finish_player_accept(): whatever it decides, the socket is closed or handed off. */
  function FinishPlayer(b: Books, s: Sock, admitted: bool): Books {
    if admitted then b.(handedOff := b.handedOff + [s]) else Close(b, s)
  }

  function SettlePlayer(b: Books, p: HeldPlayer, e: Env): Books {
    if PlayerKeys.Hit(e.cache, p.playerKey, e.now) then
      if e.cache[p.playerKey].valid then FinishPlayer(b, p.sock, p.sock in e.admit) else Close(b, p.sock)
    else if e.now >= p.deadline then Close(b, p.sock)
    else b.(players := b.players + [p])
  }

  function DrivePlayers(b: Books, todo: seq<HeldPlayer>, e: Env): Books
    decreases |todo|
  {
    if todo == [] then b else DrivePlayers(SettlePlayer(b, todo[0], e), todo[1..], e)
  }

  /** on_worker_tick() of a live listener, once e.cache has been swept and has taken in the arrived answers. */
  function Tick(b: Books, e: Env): Books
  {
    var b1 := DrivePublishers(b.(publishers := []), b.publishers, e);
    DrivePlayers(b1.(players := []), b1.players, e)
  }

  // ----- conservation -----

  function Times(ss: seq<Sock>, x: Sock): nat {
    if ss == [] then 0 else Times(ss[..|ss| - 1], x) + if ss[|ss| - 1] == x then 1 else 0
  }

  function Open(p: HeldPublisher, x: Sock): nat { if p.open && p.sock == x then 1 else 0 }

  function OpenTimes(ps: seq<HeldPublisher>, x: Sock): nat {
    if ps == [] then 0 else OpenTimes(ps[..|ps| - 1], x) + Open(ps[|ps| - 1], x)
  }

  function Held(p: HeldPlayer, x: Sock): nat { if p.sock == x then 1 else 0 }

  function HeldTimes(ps: seq<HeldPlayer>, x: Sock): nat {
    if ps == [] then 0 else HeldTimes(ps[..|ps| - 1], x) + Held(ps[|ps| - 1], x)
  }

  /** In how many places socket x is: closed, handed to a worker, held open as publisher, held as player. */
  function Places(b: Books, x: Sock): nat {
    Times(b.closed, x) + Times(b.handedOff, x) + OpenTimes(b.publishers, x) + HeldTimes(b.players, x)
  }

  lemma TimesAppend(ss: seq<Sock>, y: Sock, x: Sock)
    ensures Times(ss + [y], x) == Times(ss, x) + if y == x then 1 else 0
  {
  }

  lemma OpenTimesAppend(ps: seq<HeldPublisher>, p: HeldPublisher, x: Sock)
    ensures OpenTimes(ps + [p], x) == OpenTimes(ps, x) + Open(p, x)
  {
  }

  lemma HeldTimesAppend(ps: seq<HeldPlayer>, p: HeldPlayer, x: Sock)
    ensures HeldTimes(ps + [p], x) == HeldTimes(ps, x) + Held(p, x)
  {
  }

  lemma {:induction false} OpenTimesFront(ps: seq<HeldPublisher>, x: Sock)
    requires ps != []
    ensures OpenTimes(ps, x) == Open(ps[0], x) + OpenTimes(ps[1..], x)
  {
    var n := |ps| - 1;
    if n > 0 {
      OpenTimesFront(ps[..n], x);
      assert ps[..n][1..] == ps[1..][..n - 1];
    }
  }

  lemma {:induction false} HeldTimesFront(ps: seq<HeldPlayer>, x: Sock)
    requires ps != []
    ensures HeldTimes(ps, x) == Held(ps[0], x) + HeldTimes(ps[1..], x)
  {
    var n := |ps| - 1;
    if n > 0 {
      HeldTimesFront(ps[..n], x);
      assert ps[..n][1..] == ps[1..][..n - 1];
    }
  }

  lemma FinishConserves(b: Books, s: Sock, key: Key, e: Env, x: Sock)
    ensures Places(FinishPublisher(b, s, key, e), x) == Places(b, x) + if s == x then 1 else 0
  {
    hide Times, OpenTimes, HeldTimes, Recent;
    TimesAppend(b.closed, s, x);
    TimesAppend(b.handedOff, s, x);
  }

  lemma SettleConserves(b: Books, p: HeldPublisher, e: Env, x: Sock)
    requires p.requested ==> p.open
    ensures Places(Settle(b, p, e), x) == Places(b, x) + Open(p, x)
  {
    hide FinishPublisher, Times, OpenTimes, HeldTimes;
    TimesAppend(b.closed, p.sock, x);
    match CheckHttp(p, e) {
      case Passed => FinishConserves(b, p.sock, p.key, e, x);
      case Dead =>
      case Hold(p') => OpenTimesAppend(b.publishers, p', x);
    }
  }

  /** An entry whose socket is already closed has no request left to resolve. */
  ghost predicate Consistent(ps: seq<HeldPublisher>) {
    forall i :: 0 <= i < |ps| ==> (ps[i].requested ==> ps[i].open)
  }

  lemma {:induction false} DriveConserves(b: Books, todo: seq<HeldPublisher>, e: Env, x: Sock)
    requires Consistent(b.publishers) && Consistent(todo)
    ensures Places(DrivePublishers(b, todo, e), x) == Places(b, x) + OpenTimes(todo, x)
    ensures Consistent(DrivePublishers(b, todo, e).publishers)
    decreases |todo|
  {
    if todo != [] {
      hide Places, OpenTimes, Open, FinishPublisher;
      SettleConserves(b, todo[0], e, x);
      SettleStaysConsistent(b, todo[0], e);
      OpenTimesFront(todo, x);
      DriveConserves(Settle(b, todo[0], e), todo[1..], e, x);
    }
  }

  lemma SettleStaysConsistent(b: Books, p: HeldPublisher, e: Env)
    requires Consistent(b.publishers) && (p.requested ==> p.open)
    ensures Consistent(Settle(b, p, e).publishers)
  {
  }

  lemma SettlePlayerConserves(b: Books, p: HeldPlayer, e: Env, x: Sock)
    ensures Places(SettlePlayer(b, p, e), x) == Places(b, x) + Held(p, x)
    ensures SettlePlayer(b, p, e).publishers == b.publishers
  {
    hide Times, OpenTimes, HeldTimes;
    TimesAppend(b.closed, p.sock, x);
    TimesAppend(b.handedOff, p.sock, x);
    HeldTimesAppend(b.players, p, x);
  }

  lemma {:induction false} DrivePlayersConserves(b: Books, todo: seq<HeldPlayer>, e: Env, x: Sock)
    ensures Places(DrivePlayers(b, todo, e), x) == Places(b, x) + HeldTimes(todo, x)
    ensures DrivePlayers(b, todo, e).publishers == b.publishers
    decreases |todo|
  {
    if todo != [] {
      hide Places, HeldTimes, Held, SettlePlayer;
      SettlePlayerConserves(b, todo[0], e, x);
      HeldTimesFront(todo, x);
      DrivePlayersConserves(SettlePlayer(b, todo[0], e), todo[1..], e, x);
    }
  }

  lemma TickConserves(b: Books, e: Env, x: Sock)
    requires Consistent(b.publishers)
    ensures Places(Tick(b, e), x) == Places(b, x)
    ensures Consistent(Tick(b, e).publishers)
  {
    var b1 := DrivePublishers(b.(publishers := []), b.publishers, e);
    DriveConserves(b.(publishers := []), b.publishers, e, x);
    DrivePlayersConserves(b1.(players := []), b1.players, e, x);
  }

  // ----- runs -----

  datatype Op =
    | Reject(sock: Sock)                                       // any of the early returns of handler()
    | Publisher(sock: Sock, key: Key, dispatched: bool, env: Env)
    | Player(sock: Sock, playerKey: Key, door: Door, admitted: bool, env: Env)
    | WorkerTick(env: Env)
    | RelayJoins(key: Key, sock: Sock)                         // a puller registers a key that is free
    | Leaves(key: Key, role: Role)                             // a role's own teardown takes it out of the map
    | Recv(role: Role, at: int)                                // a role reads media

  function Step(b: Books, gated: bool, op: Op): Books {
    match op
    case Reject(s) => Close(b, s)
    case Publisher(s, key, dispatched, e) => AcceptPublisher(b, gated, s, key, dispatched, e)
    case Player(s, key, door, admitted, e) => AcceptPlayer(b, s, key, door, admitted, e)
    case WorkerTick(e) => Tick(b, e)
    case RelayJoins(key, s) => if key in b.owners then b else b.(owners := b.owners[key := Relay(s)])
    case Leaves(key, r) => if key in b.owners && b.owners[key] == r then b.(owners := b.owners - {key}) else b
    case Recv(r, at) => b.(lastRecv := b.lastRecv[r := at])
  }

  // ----- several listeners -----

  type Id = nat

  datatype Call = Call(listener: Id, op: Op)

  /** Each listener has its own pending lists and sockets; the publisher map, and with it the roles' stamps and kick
      requests, is one for all. */
  datatype Net = Net(own: map<Id, Books>, owners: map<Key, Role>, lastRecv: map<Role, int>, kicks: seq<Kick>)

  const EmptyNet := Net(map[], map[], map[], [])

  /** What listener l works on: its own lists and the shared map. */
  function BooksOf(n: Net, l: Id): Books {
    (if l in n.own then n.own[l] else Empty).(owners := n.owners, lastRecv := n.lastRecv, kicks := n.kicks)
  }

  /** `gates` are the listeners with a webhook. */
  function NetStep(n: Net, gates: set<Id>, c: Call): Net {
    var b := Step(BooksOf(n, c.listener), c.listener in gates, c.op);
    Net(n.own[c.listener := b], b.owners, b.lastRecv, b.kicks)
  }

  function Run(n: Net, gates: set<Id>, calls: seq<Call>): Net {
    if calls == [] then n else NetStep(Run(n, gates, calls[..|calls| - 1]), gates, calls[|calls| - 1])
  }

  function Accepted(op: Op, x: Sock): nat {
    if (op.Reject? || op.Publisher? || op.Player?) && op.sock == x then 1 else 0
  }

  function AcceptedTimes(calls: seq<Call>, l: Id, x: Sock): nat {
    if calls == [] then 0
    else
      var c := calls[|calls| - 1];
      AcceptedTimes(calls[..|calls| - 1], l, x) + if c.listener == l then Accepted(c.op, x) else 0
  }

  lemma StepConserves(b: Books, gated: bool, op: Op, x: Sock)
    requires Consistent(b.publishers)
    ensures Places(Step(b, gated, op), x) == Places(b, x) + Accepted(op, x)
    ensures Consistent(Step(b, gated, op).publishers)
  {
    hide Times, OpenTimes, HeldTimes, Tick, FinishPublisher, Settle, KeyPending;
    match op {
      case Reject(s) => TimesAppend(b.closed, s, x);
      case Publisher(s, key, dispatched, e) => AcceptPublisherConserves(b, gated, op, x);
      case Player(s, key, door, admitted, e) =>
        TimesAppend(b.closed, s, x);
        TimesAppend(b.handedOff, s, x);
        HeldTimesAppend(b.players, HeldPlayer(s, key, e.now + e.timeoutMs + HOLD_GRACE_MS), x);
      case WorkerTick(e) => TickConserves(b, e, x);
      case _ =>
    }
  }

  lemma AcceptPublisherConserves(b: Books, gated: bool, op: Op, x: Sock)
    requires Consistent(b.publishers) && op.Publisher?
    ensures Places(Step(b, gated, op), x) == Places(b, x) + Accepted(op, x)
    ensures Consistent(Step(b, gated, op).publishers)
  {
    hide Times, OpenTimes, HeldTimes, KeyPending;
    var p := HeldPublisher(op.sock, op.key, true, true, op.env.now + AUTH_DEADLINE_MS);
    TimesAppend(b.closed, op.sock, x);
    FinishConserves(b, op.sock, op.key, op.env, x);
    SettleConserves(b, p, op.env, x);
    SettleStaysConsistent(b, p, op.env);
  }

  /** Until a listener is torn down, a socket is in exactly as many of its places as that listener accepted it times: one. */
  lemma {:induction false} SocketsConserved(n: Net, gates: set<Id>, calls: seq<Call>, l: Id, x: Sock)
    requires Consistent(BooksOf(n, l).publishers)
    ensures Places(BooksOf(Run(n, gates, calls), l), x) == Places(BooksOf(n, l), x) + AcceptedTimes(calls, l, x)
    ensures Consistent(BooksOf(Run(n, gates, calls), l).publishers)
  {
    if calls != [] {
      hide Step, Consistent, Accepted, Times, OpenTimes, HeldTimes;
      var m := |calls| - 1;
      SocketsConserved(n, gates, calls[..m], l, x);
      var b, c := BooksOf(Run(n, gates, calls[..m]), l), calls[m];
      if c.listener == l {
        StepConserves(b, l in gates, c.op, x);
      }
    }
  }

  /** uninit(): held publishers are closed, held players are not looked at. */
  function Uninit(b: Books): Books
    decreases |b.publishers|
  {
    if b.publishers == [] then b
    else
      var n := |b.publishers| - 1;
      var p := b.publishers[n];
      var b1 := b.(publishers := b.publishers[..n]);
      Uninit(if p.open then Close(b1, p.sock) else b1)
  }

  /** So teardown accounts for a socket, as closed or handed off, exactly when it was not a held player. */
  lemma {:induction false} TeardownLeavesHeldPlayers(b: Books, x: Sock)
    ensures Uninit(b).publishers == [] && Uninit(b).players == b.players
    ensures Times(Uninit(b).closed, x) + Times(Uninit(b).handedOff, x) == Places(b, x) - HeldTimes(b.players, x)
    decreases |b.publishers|
  {
    if b.publishers != [] {
      var n := |b.publishers| - 1;
      var p, b1 := b.publishers[n], b.(publishers := b.publishers[..n]);
      TimesAppend(b.closed, p.sock, x);
      TeardownLeavesHeldPlayers(if p.open then Close(b1, p.sock) else b1, x);
    }
  }

  // ----- after a tick -----

  ghost predicate Overdue(p: HeldPlayer, e: Env) { e.now >= p.deadline || PlayerKeys.Hit(e.cache, p.playerKey, e.now) }

  lemma {:induction false} NoOverduePlayers(b: Books, todo: seq<HeldPlayer>, e: Env)
    requires forall i :: 0 <= i < |b.players| ==> !Overdue(b.players[i], e)
    ensures forall i :: 0 <= i < |DrivePlayers(b, todo, e).players| ==> !Overdue(DrivePlayers(b, todo, e).players[i], e)
    decreases |todo|
  {
    if todo != [] {
      NoOverduePlayers(SettlePlayer(b, todo[0], e), todo[1..], e);
    }
  }

  /** A live entry of the cache says this about the key. */
  ghost predicate Says(e: Env, playerKey: Key, valid: bool) {
    playerKey in e.cache && e.now < e.cache[playerKey].expiry && e.cache[playerKey].valid == valid
  }

  ghost predicate Silent(e: Env, playerKey: Key) { !Says(e, playerKey, true) && !Says(e, playerKey, false) }

  ghost predicate LetsIn(p: HeldPlayer, e: Env) { Says(e, p.playerKey, true) && p.sock in e.admit }

  ghost predicate KeepsWaiting(p: HeldPlayer, e: Env) { Silent(e, p.playerKey) && e.now < p.deadline }

  ghost predicate SomeLetIn(ps: seq<HeldPlayer>, e: Env, x: Sock) {
    exists i :: 0 <= i < |ps| && ps[i].sock == x && LetsIn(ps[i], e)
  }

  ghost predicate SomeTurnedAway(ps: seq<HeldPlayer>, e: Env, x: Sock) {
    exists i :: 0 <= i < |ps| && ps[i].sock == x && !LetsIn(ps[i], e) && !KeepsWaiting(ps[i], e)
  }

  lemma SettleDecides(b: Books, p: HeldPlayer, e: Env)
    ensures var b' := SettlePlayer(b, p, e);
            && b'.handedOff == (if LetsIn(p, e) then b.handedOff + [p.sock] else b.handedOff)
            && b'.players == (if KeepsWaiting(p, e) then b.players + [p] else b.players)
            && b'.closed == (if LetsIn(p, e) || KeepsWaiting(p, e) then b.closed else b.closed + [p.sock])
            && b'.publishers == b.publishers
  {
  }

  lemma SomeSplit(ps: seq<HeldPlayer>, e: Env, x: Sock)
    requires ps != []
    ensures SomeLetIn(ps, e, x) <==> (ps[0].sock == x && LetsIn(ps[0], e)) || SomeLetIn(ps[1..], e, x)
    ensures SomeTurnedAway(ps, e, x) <==>
            (ps[0].sock == x && !LetsIn(ps[0], e) && !KeepsWaiting(ps[0], e)) || SomeTurnedAway(ps[1..], e, x)
  {
    hide LetsIn, KeepsWaiting;
    assert forall i :: 1 <= i < |ps| ==> ps[i] == ps[1..][i - 1];
  }

  /**
   * What a tick does with the held players: in are exactly those whose key a live cache entry approves and whose stream
   * has room, still held exactly those with no live entry and time left, and all others are closed.
   */
  lemma {:induction false} PlayersAreSettled(b: Books, todo: seq<HeldPlayer>, e: Env, x: Sock, p: HeldPlayer)
    ensures var b' := DrivePlayers(b, todo, e);
            && (x in b'.handedOff <==> x in b.handedOff || SomeLetIn(todo, e, x))
            && (x in b'.closed <==> x in b.closed || SomeTurnedAway(todo, e, x))
            && (p in b'.players <==> p in b.players || (p in todo && KeepsWaiting(p, e)))
    decreases |todo|
  {
    hide LetsIn, KeepsWaiting, SettlePlayer, SomeLetIn, SomeTurnedAway;
    if todo == [] {
      assert !SomeLetIn([], e, x) && !SomeTurnedAway([], e, x) by { NobodyHeld(e, x); }
    } else {
      SettleDecides(b, todo[0], e);
      SomeSplit(todo, e, x);
      PlayersAreSettled(SettlePlayer(b, todo[0], e), todo[1..], e, x, p);
    }
  }

  lemma NobodyHeld(e: Env, x: Sock)
    ensures !SomeLetIn([], e, x) && !SomeTurnedAway([], e, x)
  {
  }

  /** The same at the door: in, held with a deadline, or closed. */
  lemma PlayerAtTheDoor(b: Books, s: Sock, playerKey: Key, door: Door, admitted: bool, e: Env)
    ensures var b' := AcceptPlayer(b, s, playerKey, door, admitted, e);
            var entered := (door.Open? || (door.Keyed? && Says(e, playerKey, true))) && admitted;
            var held := door.Keyed? && Silent(e, playerKey) && |b.players| < MAX_PENDING_PLAYERS;
            && b'.handedOff == (if entered then b.handedOff + [s] else b.handedOff)
            && b'.players == (if held then b.players + [HeldPlayer(s, playerKey, e.now + e.timeoutMs + 2000)] else b.players)
            && b'.closed == (if entered || held then b.closed else b.closed + [s])
  {
  }

  /** Still pending after a poll: waiting on a live request, or refused at this very poll. */
  ghost predicate FreshlyHeld(p: HeldPublisher, e: Env) {
    if p.requested then p.open && p.sock !in e.answers && (p.deadline > 0 ==> e.now < p.deadline)
    else !p.open && p.sock in e.answers
  }

  lemma {:induction false} NoStalePublishers(b: Books, todo: seq<HeldPublisher>, e: Env)
    requires Consistent(todo)
    requires forall i :: 0 <= i < |b.publishers| ==> FreshlyHeld(b.publishers[i], e)
    ensures forall i :: 0 <= i < |DrivePublishers(b, todo, e).publishers| ==>
              FreshlyHeld(DrivePublishers(b, todo, e).publishers[i], e)
    ensures DrivePublishers(b, todo, e).players == b.players
    decreases |todo|
  {
    if todo != [] {
      NoStalePublishers(Settle(b, todo[0], e), todo[1..], e);
    }
  }

  /** A refused publisher is gone at the next tick: whatever is kept had a request in flight. */
  lemma {:induction false} OnlyRequestedAreKept(b: Books, todo: seq<HeldPublisher>, e: Env)
    ensures var kept := DrivePublishers(b, todo, e).publishers;
            && b.publishers <= kept
            && forall i :: |b.publishers| <= i < |kept| ==> Requested(todo, kept[i].sock)
    decreases |todo|
  {
    if todo != [] {
      hide Requested, Settle;
      var b' := Settle(b, todo[0], e);
      SettleKeepsRequested(b, todo, e);
      OnlyRequestedAreKept(b', todo[1..], e);
      var kept := DrivePublishers(b, todo, e).publishers;
      forall i | |b'.publishers| <= i < |kept| ensures Requested(todo, kept[i].sock) {
        RequestedInRest(todo, kept[i].sock);
      }
    }
  }

  ghost predicate Requested(todo: seq<HeldPublisher>, s: Sock) {
    exists j :: 0 <= j < |todo| && todo[j].requested && todo[j].sock == s
  }

  lemma RequestedInRest(todo: seq<HeldPublisher>, s: Sock)
    requires todo != [] && Requested(todo[1..], s)
    ensures Requested(todo, s)
  {
    var j :| 0 <= j < |todo[1..]| && todo[1..][j].requested && todo[1..][j].sock == s;
    assert todo[j + 1] == todo[1..][j];
  }

  lemma SettleKeepsRequested(b: Books, todo: seq<HeldPublisher>, e: Env)
    requires todo != []
    ensures var kept := Settle(b, todo[0], e).publishers;
            && b.publishers <= kept
            && forall i :: |b.publishers| <= i < |kept| ==> Requested(todo, kept[i].sock)
  {
  }

  /** After each tick no held player is past its deadline or already answered, and no held publisher is stale. */
  lemma TickLeavesOnlyWaiting(b: Books, e: Env)
    requires Consistent(b.publishers)
    ensures var t := Tick(b, e);
            && (forall i :: 0 <= i < |t.players| ==> !Overdue(t.players[i], e))
            && (forall i :: 0 <= i < |t.publishers| ==> FreshlyHeld(t.publishers[i], e))
  {
    var b1 := DrivePublishers(b.(publishers := []), b.publishers, e);
    NoStalePublishers(b.(publishers := []), b.publishers, e);
    NoOverduePlayers(b1.(players := []), b1.players, e);
    DrivePlayersConserves(b1.(players := []), b1.players, e, 0);
  }

  // ----- the classes -----

  /** CSLSMapPublisher: who feeds each key. */
  class PublisherMap {
    var entries: map<Key, Role>

    constructor ()
      ensures entries == map[]
    {
      entries := map[];
    }

    /** Never replaces an owner. */
    method SetPush(key: Key, r: Role) returns (ret: int)
      modifies this
      ensures ret == if key in old(entries) then SLS_ERROR else SLS_OK
      ensures entries == if key in old(entries) then old(entries) else old(entries)[key := r]
    {
      if key in entries {
        return SLS_ERROR;
      }
      entries := entries[key := r];
      ret := SLS_OK;
    }

    /** Erases one entry that holds this very role; other roles' entries are out of its reach. */
    method Remove(r: Role) returns (ret: int)
      modifies this
      ensures ret == SLS_OK <==> r in old(entries).Values
      ensures ret == SLS_ERROR <==> entries == old(entries)
      ensures forall k :: k in old(entries) && old(entries)[k] != r ==> k in entries && entries[k] == old(entries)[k]
      ensures ret == SLS_OK ==> exists k :: k in old(entries) && old(entries)[k] == r && entries == old(entries) - {k}
    {
      var todo := entries.Keys;
      while todo != {}
        invariant todo <= entries.Keys && entries == old(entries)
        invariant forall k :: k in entries && k !in todo ==> entries[k] != r
        decreases todo
      {
        var k :| k in todo;
        if entries[k] == r {
          entries := entries - {k};
          assert k in old(entries) && k !in entries;
          return SLS_OK;
        }
        todo := todo - {k};
      }
      ret := SLS_ERROR;
    }
  }

  /** What the roles in the map carry: the stamp of their latest media and the kicks requested of them. */
  class RoleStates {
    var lastRecv: map<Role, int>
    var kicks: seq<Kick>

    constructor ()
      ensures lastRecv == map[] && kicks == []
    {
      lastRecv, kicks := map[], [];
    }

    /** A role's worker read media. */
    method Received(r: Role, at: int)
      modifies this`lastRecv
      ensures lastRecv == old(lastRecv)[r := at]
    {
      lastRecv := lastRecv[r := at];
    }
  }

  /** Listeners of one server share the publisher map and the roles in it. */
  class Listener {
    const gated: bool
    const owners: PublisherMap
    const roles: RoleStates
    var publishers: seq<HeldPublisher>
    var players: seq<HeldPlayer>
    var closed: seq<Sock>
    var handedOff: seq<Sock>

    function View(): Books
      reads this, owners, roles
    {
      Books(publishers, players, closed, handedOff, owners.entries, roles.lastRecv, roles.kicks)
    }

    constructor (gated: bool, owners: PublisherMap, roles: RoleStates)
      ensures this.gated == gated && this.owners == owners && this.roles == roles
      ensures View() == Empty.(owners := owners.entries, lastRecv := roles.lastRecv, kicks := roles.kicks)
    {
      this.gated, this.owners, this.roles := gated, owners, roles;
      publishers, players, closed, handedOff := [], [], [], [];
    }

    method FinishPublisherAccept(s: Sock, key: Key, e: Env)
      modifies this, owners, roles`kicks
      ensures View() == FinishPublisher(old(View()), s, key, e)
      ensures publishers == old(publishers)
    {
      if key in owners.entries && key !in e.missed {
        var target := owners.entries[key];
        if !(target.Broadcaster? && Recent(roles.lastRecv, target, e.now)) {
          roles.kicks := roles.kicks + [Kick(target, e.now)];
        }
        closed := closed + [s];
        return;
      }
      var ret := owners.SetPush(key, Broadcaster(s));
      if ret != SLS_OK {
        closed := closed + [s];
        return;
      }
      handedOff := handedOff + [s];
    }

    /** handler() for a publisher that passed the stream-id and ACL checks. */
    method HandlePublisher(s: Sock, key: Key, dispatched: bool, e: Env)
      modifies this, owners, roles`kicks
      ensures View() == AcceptPublisher(old(View()), gated, s, key, dispatched, e)
    {
      if gated {
        var i := 0;
        while i < |publishers| && publishers[i].key != key
          invariant 0 <= i <= |publishers|
          invariant forall j :: 0 <= j < i ==> publishers[j].key != key
        {
          i := i + 1;
        }
        if |publishers| >= MAX_PENDING_PUBLISHERS || i < |publishers| || !dispatched {
          closed := closed + [s];
          return;
        }
      } else {
        FinishPublisherAccept(s, key, e);
        return;
      }
      var p := HeldPublisher(s, key, true, true, e.now + AUTH_DEADLINE_MS);
      match CheckHttp(p, e) {
        case Passed => FinishPublisherAccept(s, key, e);
        case Dead => assert false;
        case Hold(p') =>
          if !p'.open {
            closed := closed + [s];
          }
          publishers := publishers + [p'];
      }
    }

    method HandlePlayer(s: Sock, playerKey: Key, door: Door, admitted: bool, e: Env)
      modifies this
      ensures View() == AcceptPlayer(old(View()), s, playerKey, door, admitted, e)
    {
      match Validate(door, e.cache, playerKey, e.now) {
        case Unknown =>
          if |players| >= MAX_PENDING_PLAYERS {
            closed := closed + [s];
          } else {
            players := players + [HeldPlayer(s, playerKey, e.now + e.timeoutMs + HOLD_GRACE_MS)];
          }
        case KeyBad => closed := closed + [s];
        case _ => if admitted { handedOff := handedOff + [s]; } else { closed := closed + [s]; }
      }
    }

    /** Erases while iterating: an entry that settles makes room for the next at the same index. */
    method DrivePendingPublishers(e: Env)
      modifies this, owners, roles`kicks
      ensures View() == DrivePublishers(old(View()).(publishers := []), old(View()).publishers, e)
    {
      hide FinishPublisher;
      ghost var start := View();
      var i := 0;
      assert publishers[..0] == [] && publishers[0..] == publishers;
      while i < |publishers|
        invariant 0 <= i <= |publishers|
        invariant DrivePublishers(View().(publishers := publishers[..i]), publishers[i..], e)
               == DrivePublishers(start.(publishers := []), start.publishers, e)
        decreases |publishers| - i
      {
        var p, rest := publishers[i], publishers[i + 1..];
        ghost var before := View().(publishers := publishers[..i]);
        assert publishers[i..][1..] == rest;
        match CheckHttp(p, e) {
          case Passed =>
            FinishIgnoresPending(View(), publishers[..i], p, e);
            FinishPublisherAccept(p.sock, p.key, e);
            publishers := publishers[..i] + rest;
            assert View().(publishers := publishers[..i]) == Settle(before, p, e);
          case Dead =>
            if p.open {
              closed := closed + [p.sock];
            }
            publishers := publishers[..i] + rest;
            assert View().(publishers := publishers[..i]) == Settle(before, p, e);
          case Hold(p') =>
            if p.open && !p'.open {
              closed := closed + [p.sock];
            }
            publishers := publishers[..i] + [p'] + rest;
            i := i + 1;
            assert publishers[..i] == before.publishers + [p'];
            assert View().(publishers := publishers[..i]) == Settle(before, p, e);
        }
        assert publishers[i..] == rest;
      }
      assert publishers[..i] == publishers && publishers[i..] == [];
    }

    method DrivePendingPlayers(e: Env)
      modifies this
      ensures View() == DrivePlayers(old(View()).(players := []), old(View()).players, e)
    {
      ghost var start := View();
      var i := 0;
      assert players[..0] == [] && players[0..] == players;
      while i < |players|
        invariant 0 <= i <= |players|
        invariant DrivePlayers(View().(players := players[..i]), players[i..], e)
               == DrivePlayers(start.(players := []), start.players, e)
        decreases |players| - i
      {
        var p, rest := players[i], players[i + 1..];
        ghost var before := View().(players := players[..i]);
        assert players[i..][1..] == rest;
        if PlayerKeys.Hit(e.cache, p.playerKey, e.now) {
          if e.cache[p.playerKey].valid && p.sock in e.admit {
            handedOff := handedOff + [p.sock];
          } else {
            closed := closed + [p.sock];
          }
          players := players[..i] + rest;
        } else if e.now >= p.deadline {
          closed := closed + [p.sock];
          players := players[..i] + rest;
        } else {
          assert players[..i + 1] == before.players + [p];
          i := i + 1;
        }
        assert View().(players := players[..i]) == SettlePlayer(before, p, e);
        assert players[i..] == rest;
      }
      assert players[..i] == players && players[i..] == [];
    }

    /** A shutting-down listener does nothing. Otherwise: sweep the key cache, fold in the answers that have arrived,
        then drive both pending lists, the players against the cache as it is by then. */
    method OnWorkerTick(listening: bool, keys: PlayerKeys.PlayerKeyCache, arrived: seq<PlayerKeys.Answer>, ttl: nat, e: Env)
        returns (ghost ops: seq<PlayerKeys.Op>)
      requires keys as object !in {this, owners, roles}
      modifies this, owners, roles`kicks, keys
      ensures !listening ==> View() == old(View()) && keys.Abs() == old(keys.Abs())
      ensures listening ==>
                && PlayerKeys.Processes(ops, arrived, e.now)
                && keys.Abs() == PlayerKeys.Run(old(keys.Abs()), [PlayerKeys.Sweep(e.now)] + ops, ttl)
                && PlayerKeys.Legal(old(keys.Abs()), [PlayerKeys.Sweep(e.now)] + ops, ttl, e.now)
                && View() == Tick(old(View()), e.(cache := keys.entries))
    {
      ops := [];
      if !listening {
        return;
      }
      hide Tick;
      keys.SweepExpired(e.now);
      ops := keys.Drain(arrived, e.now, ttl);
      var e' := e.(cache := keys.entries);
      DrivePendingPublishers(e');
      DrivePendingPlayers(e');
      ghost var all := [PlayerKeys.Sweep(e.now)] + ops;
      assert all[1..] == ops;
      assert View() == Tick(old(View()), e') by { TickIsBothLoops(old(View()), e'); }
    }
  }

  lemma TickIsBothLoops(b: Books, e: Env)
    ensures var b1 := DrivePublishers(b.(publishers := []), b.publishers, e);
            Tick(b, e) == DrivePlayers(b1.(players := []), b1.players, e)
  {
  }

  lemma FinishIgnoresPending(b: Books, ps: seq<HeldPublisher>, p: HeldPublisher, e: Env)
    ensures FinishPublisher(b.(publishers := ps), p.sock, p.key, e)
         == FinishPublisher(b, p.sock, p.key, e).(publishers := ps)
  {
  }
}
