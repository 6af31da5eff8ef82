/**
 * What the store of rings stands for: one append-only log per ring incarnation, kept after the ring is gone.
 * A reader's deliveries are recorded as sessions, one per stretch without a jump.
 */
module StreamLogs {
  import opened Codes
  import opened WrapArithmetic
  import opened RecycleArrays
  import opened StreamStore

  datatype Incarnation = Incarnation(generation: nat, capacity: nat)

  /** The bytes a reader received between two jumps, and where in which log they started. */
  datatype Session = Session(generation: nat, base: nat, bytes: seq<Byte>) {
    function End(): nat { base + |bytes| }
  }

  datatype LogReader = LogReader(cursor: Cursor, sessions: seq<Session>)

  datatype LogWorld = LogWorld(
    live: map<Key, Incarnation>,
    logs: map<nat, seq<Byte>>,
    readers: map<ReaderId, LogReader>,
    budget: Budget,
    nextGen: nat)

  function LogOf(l: LogWorld, g: nat): seq<Byte> { if g in l.logs then l.logs[g] else [] }

  function ReaderOf(l: LogWorld, r: ReaderId): LogReader {
    if r in l.readers then l.readers[r] else LogReader(Cursor(0, false, 0), [])
  }

  function OpenLogs(logs: map<nat, seq<Byte>>, from: nat, upto: nat): (r: map<nat, seq<Byte>>)
    ensures forall g :: g in r <==> g in logs || from <= g < upto
    ensures forall g :: g in r ==> r[g] == if from <= g < upto then [] else logs[g]
  {
    if upto <= from then logs else OpenLogs(logs, from, upto - 1)[upto - 1 := []]
  }

  ghost function Capacities(live: map<Key, Incarnation>): map<Key, nat> { map k | k in live :: live[k].capacity }

  function Extend(sessions: seq<Session>, bytes: seq<Byte>): seq<Session> {
    if sessions == [] then []
    else
      var s := sessions[|sessions| - 1];
      sessions[..|sessions| - 1] + [s.(bytes := s.bytes + bytes)]
  }

  function LogReaderGet(l: LogWorld, i: Incarnation, rd: LogReader, size: nat, aligned: int): LogReader {
    var log := LogOf(l, i.generation);
    var g := LogGet(log, i.capacity, i.generation, rd.cursor, size, aligned);
    LogReader(g.cursor,
              if g.jumped then rd.sessions + [Session(i.generation, |log|, [])] else Extend(rd.sessions, g.bytes))
  }

  /** The log world after a ring with the last of the identities below n joins the live ones. */
  function WithFresh(l: LogWorld, key: Key, size: nat, n: nat, budget: Budget): LogWorld
    requires n > 0
  {
    l.(live := l.live[key := Incarnation(n - 1, size)], logs := OpenLogs(l.logs, l.nextGen, n),
       budget := budget, nextGen := n)
  }

  ghost function LogStep(l: LogWorld, op: Op): LogWorld {
    match op
    case Add(key, kbps, latencyMs) => LogAdd(l, key, RingSize(kbps, latencyMs))
    case Remove(key) =>
      if key in l.live then l.(live := l.live - {key}, budget := Refund(l.budget, l.live[key].capacity)) else l
    case Clear =>
      l.(live := map[], budget := l.budget.(streams := l.budget.streams - |l.live|,
                                            bytes := l.budget.bytes - Total(Capacities(l.live))))
    case Resize(key, size) =>
      if key in l.live then WithFresh(l, key, size, l.nextGen + 1, l.budget) else l
    case Put(key, bytes) =>
      if key in l.live && 0 < |bytes| <= l.live[key].capacity then
        var g := l.live[key].generation;
        l.(logs := l.logs[g := LogOf(l, g) + bytes])
      else l
    case Join(r) =>
      var rd := ReaderOf(l, r);
      l.(readers := l.readers[r := rd.(cursor := rd.cursor.(first := true, consumed := 0))])
    case Get(r, key, size, aligned) =>
      if key in l.live then l.(readers := l.readers[r := LogReaderGet(l, l.live[key], ReaderOf(l, r), size, aligned)])
      else l
  }

  function LogAdd(l: LogWorld, key: Key, size: nat): LogWorld {
    var a := Admit(key in l.live, l.budget, size);
    var n := l.nextGen + GenerationsUsed(a, size);
    if a.Admitted? then WithFresh(l, key, size, n, Charge(l.budget, size))
    else l.(logs := OpenLogs(l.logs, l.nextGen, n), nextGen := n)
  }

  ghost function LogOutput(l: LogWorld, op: Op): Out {
    match op
    case Add(key, kbps, latencyMs) => Out(Code(Admit(key in l.live, l.budget, RingSize(kbps, latencyMs))), [])
    case Remove(key) => Out(if key in l.live then SLS_OK else SLS_ERROR, [])
    case Put(key, bytes) =>
      Out(if key in l.live && 0 < |bytes| <= l.live[key].capacity then |bytes| else SLS_ERROR, [])
    case Get(r, key, size, aligned) =>
      if key in l.live then
        var i := l.live[key];
        var b := LogGet(LogOf(l, i.generation), i.capacity, i.generation, ReaderOf(l, r).cursor, size, aligned).bytes;
        Out(|b|, b)
      else Out(SLS_ERROR, [])
    case _ => Out(SLS_OK, [])
  }

  ghost function LogRun(l: LogWorld, ops: seq<Op>): LogWorld
    decreases |ops|
  {
    if ops == [] then l else LogRun(LogStep(l, ops[0]), ops[1..])
  }

  ghost function LogOutputs(l: LogWorld, ops: seq<Op>): (outs: seq<Out>)
    ensures |outs| == |ops|
    decreases |ops|
  {
    if ops == [] then [] else [LogOutput(l, ops[0])] + LogOutputs(LogStep(l, ops[0]), ops[1..])
  }

  function LogStart(maxStreams: int, maxBytes: int): LogWorld {
    LogWorld(map[], map[], map[], Budget(0, 0, maxStreams, maxBytes), 1)
  }

  // ----- what holds of every log world -----

  /** A session is a slice of the log of its incarnation. */
  ghost predicate IsSlice(s: Session, logs: map<nat, seq<Byte>>) {
    && s.generation in logs
    && s.End() <= |logs[s.generation]|
    && s.bytes == logs[s.generation][s.base..s.End()]
  }

  /** Sessions on one incarnation never overlap and never go back. */
  ghost predicate Forward(sessions: seq<Session>) {
    forall i, j :: 0 <= i < j < |sessions| && sessions[i].generation == sessions[j].generation ==>
      sessions[i].End() <= sessions[j].base
  }

  ghost predicate ReaderInv(rd: LogReader, logs: map<nat, seq<Byte>>) {
    && (forall i :: 0 <= i < |rd.sessions| ==> IsSlice(rd.sessions[i], logs))
    && Forward(rd.sessions)
    && (rd.cursor.generation == 0 || rd.cursor.generation in logs)
    && (!rd.cursor.first && rd.cursor.generation > 0 ==>
          && rd.sessions != []
          && var last := rd.sessions[|rd.sessions| - 1];
             last.generation == rd.cursor.generation && last.End() == rd.cursor.consumed)
  }

  ghost predicate LogsInv(l: LogWorld) {
    && l.nextGen >= 1
    && (forall g :: g in l.logs <==> 1 <= g < l.nextGen)
    && (forall k :: k in l.live ==> l.live[k].generation in l.logs)
    && (forall j, k :: j in l.live && k in l.live && j != k ==> l.live[j].generation != l.live[k].generation)
  }

  ghost predicate LogInv(l: LogWorld) {
    && LogsInv(l)
    && forall r :: ReaderInv(ReaderOf(l, r), l.logs)
  }

  ghost predicate LogsGrow(old_: map<nat, seq<Byte>>, new_: map<nat, seq<Byte>>) {
    forall g :: g in old_ ==> g in new_ && old_[g] <= new_[g]
  }

  /** Past deliveries stay slices of the logs, however the logs grow. */
  lemma GrowthKeepsReader(rd: LogReader, logs: map<nat, seq<Byte>>, logs': map<nat, seq<Byte>>)
    requires ReaderInv(rd, logs) && LogsGrow(logs, logs')
    ensures ReaderInv(rd, logs')
  {
  }

  lemma GetKeepsReader(l: LogWorld, key: Key, rd: LogReader, size: nat, aligned: int)
    requires LogsInv(l) && key in l.live && ReaderInv(rd, l.logs)
    ensures ReaderInv(LogReaderGet(l, l.live[key], rd, size, aligned), l.logs)
  {
    hide LogGet, AlignDown;
    var i := l.live[key];
    var log := l.logs[i.generation];
    var g := LogGet(log, i.capacity, i.generation, rd.cursor, size, aligned);
    var rd' := LogReaderGet(l, i, rd, size, aligned);
    if !g.jumped {
      var n := |rd.sessions|;
      var s := rd.sessions[n - 1];
      assert rd'.sessions[n - 1] == s.(bytes := s.bytes + g.bytes);
      SliceJoin(log, s.base, s.End(), g.cursor.consumed);
      assert forall k :: 0 <= k < n - 1 ==> rd'.sessions[k] == rd.sessions[k];
    }
  }

  lemma StepKeepsLogs(l: LogWorld, op: Op)
    requires LogsInv(l)
    ensures LogsInv(LogStep(l, op)) && LogsGrow(l.logs, LogStep(l, op).logs)
  {
    if op.Add? {
      AddKeepsLogs(l, op.key, RingSize(op.kbps, op.latencyMs));
    }
  }

  lemma AddKeepsLogs(l: LogWorld, key: Key, size: nat)
    requires LogsInv(l)
    ensures LogsInv(LogAdd(l, key, size)) && LogsGrow(l.logs, LogAdd(l, key, size).logs)
  {
  }

  lemma StepKeepsLogInv(l: LogWorld, op: Op)
    requires LogInv(l)
    ensures LogInv(LogStep(l, op))
  {
    var l' := LogStep(l, op);
    StepKeepsLogs(l, op);
    forall r
      ensures ReaderInv(ReaderOf(l', r), l'.logs)
    {
      if op.Get? && op.reader == r && op.key in l.live {
        GetKeepsReader(l, op.key, ReaderOf(l, r), op.size, op.aligned);
      } else if op.Join? && op.reader == r {
        assert ReaderInv(ReaderOf(l, r), l.logs);
      } else {
        assert ReaderOf(l', r) == ReaderOf(l, r);
        GrowthKeepsReader(ReaderOf(l, r), l.logs, l'.logs);
      }
    }
  }

  // ----- the simulation -----

  ghost predicate RingMatches(ring: Ring, i: Incarnation, log: seq<Byte>) {
    i == Incarnation(ring.generation, |ring.data|) && Represents(ring, log)
  }

  ghost predicate RingsMatch(rings: map<Key, Ring>, l: LogWorld) {
    && rings.Keys == l.live.Keys
    && forall k :: k in rings ==> RingMatches(rings[k], l.live[k], LogOf(l, l.live[k].generation))
  }

  ghost predicate TracksAll(t: Token, rings: map<Key, Ring>) { forall k :: k in rings ==> Tracks(t, rings[k]) }

  /** Ring by ring and reader by reader, the store is the logs seen through a window. */
  ghost predicate Matches(rings: map<Key, Ring>, readers: map<ReaderId, Token>, l: LogWorld) {
    && RingsMatch(rings, l)
    && forall r :: CursorOf(TokenOf(readers, r)) == ReaderOf(l, r).cursor && TracksAll(TokenOf(readers, r), rings)
  }

  ghost predicate Simulates(w: World, l: LogWorld) {
    && w.store.nextGen == l.nextGen
    && w.store.budget == l.budget
    && Matches(w.store.rings, w.readers, l)
  }

  lemma FreshRingRepresents(size: nat, g: nat)
    ensures RingMatches(FreshRing(size, g), Incarnation(g, size), [])
  {
  }

  /** A ring with an identity from the future disturbs no token and no other ring. */
  lemma SimulateFresh(w: World, l: LogWorld, key: Key, size: nat, n: nat, budget: Budget)
    requires Sound(w) && LogInv(l) && Simulates(w, l) && l.nextGen < n
    ensures Matches(w.store.rings[key := FreshRing(size, n - 1)], w.readers, WithFresh(l, key, size, n, budget))
  {
    hide Represents, Wrap;
    FreshRingRepresents(size, n - 1);
    var rings' := w.store.rings[key := FreshRing(size, n - 1)];
    var l' := WithFresh(l, key, size, n, budget);
    forall k | k in rings'
      ensures RingMatches(rings'[k], l'.live[k], LogOf(l', l'.live[k].generation))
    {
      if k != key {
        assert LogOf(l', l.live[k].generation) == LogOf(l, l.live[k].generation);
      }
    }
    forall r
      ensures TracksAll(TokenOf(w.readers, r), rings')
    {
      assert TokenSound(TokenOf(w.readers, r), w.store) && TracksAll(TokenOf(w.readers, r), w.store.rings);
    }
    assert forall r :: ReaderOf(l', r) == ReaderOf(l, r);
  }

  lemma SameKeys(w: World, l: LogWorld)
    requires Simulates(w, l)
    ensures w.store.rings.Keys == l.live.Keys
    ensures forall k :: k in l.live ==> |w.store.rings[k].data| == l.live[k].capacity
  {
  }

  lemma SimulateAdmitted(w: World, l: LogWorld, key: Key, size: nat)
    requires Sound(w) && LogInv(l) && Simulates(w, l)
    requires Admit(key in l.live, l.budget, size).Admitted?
    ensures Simulates(World(AddSized(w.store, key, size), w.readers), LogAdd(l, key, size))
  {
    hide Matches, Sound, LogInv;
    SameKeys(w, l);
    var n := LogAdd(l, key, size).nextGen;
    SimulateFresh(w, l, key, size, n, Charge(l.budget, size));
  }

  lemma SimulateRefused(w: World, l: LogWorld, key: Key, size: nat)
    requires Sound(w) && LogInv(l) && Simulates(w, l)
    requires !Admit(key in l.live, l.budget, size).Admitted?
    ensures Simulates(World(AddSized(w.store, key, size), w.readers), LogAdd(l, key, size))
  {
  }

  lemma PutMatches(rings: map<Key, Ring>, readers: map<ReaderId, Token>, l: LogWorld, key: Key, bytes: seq<Byte>)
    requires LogInv(l) && Matches(rings, readers, l) && key in rings && WellFormed(rings[key])
    requires key in l.live && 0 < |bytes| <= l.live[key].capacity
    ensures Matches(rings[key := PutSpec(rings[key], bytes)], readers, LogStep(l, Put(key, bytes)))
  {
    hide Represents, StoreBytes, Wrap;
    var l' := LogStep(l, Put(key, bytes));
    StoreExtends(rings[key], LogOf(l, l.live[key].generation), bytes);
    forall k | k in l.live && k != key
      ensures LogOf(l', l.live[k].generation) == LogOf(l, l.live[k].generation)
    {
    }
    forall r
      ensures TracksAll(TokenOf(readers, r), rings[key := PutSpec(rings[key], bytes)]) && ReaderOf(l', r) == ReaderOf(l, r)
    {
      assert TracksAll(TokenOf(readers, r), rings);
    }
  }

  lemma SimulateGet(w: World, l: LogWorld, op: Op)
    requires Sound(w) && LogInv(l) && Simulates(w, l) && op.Get? && op.key in l.live
    ensures Simulates(Step(w, op), LogStep(l, op)) && Output(w, op) == LogOutput(l, op)
  {
    var rings, t := w.store.rings, TokenOf(w.readers, op.reader);
    var ring := rings[op.key];
    assert RingMatches(ring, l.live[op.key], LogOf(l, ring.generation)) && TracksAll(t, rings);
    GetRefinesLog(ring, LogOf(l, ring.generation), t, op.size, op.aligned);
    var l' := LogStep(l, op);
    assert forall k :: k in l.live ==> LogOf(l', l.live[k].generation) == LogOf(l, l.live[k].generation);
    forall r
      ensures CursorOf(TokenOf(Step(w, op).readers, r)) == ReaderOf(l', r).cursor
      ensures TracksAll(TokenOf(Step(w, op).readers, r), rings)
    {
      if r != op.reader {
        assert ReaderOf(l', r) == ReaderOf(l, r);
      }
    }
  }

  lemma SimulateFewer(w: World, l: LogWorld, rings: map<Key, Ring>, live: map<Key, Incarnation>, budget: Budget)
    requires Simulates(w, l) && rings.Keys == live.Keys <= w.store.rings.Keys
    requires forall k :: k in rings ==> rings[k] == w.store.rings[k] && live[k] == l.live[k]
    ensures Matches(rings, w.readers, l.(live := live, budget := budget))
  {
  }

  lemma SimulateClear(w: World, l: LogWorld)
    requires Sound(w) && Simulates(w, l)
    ensures Simulates(Step(w, Clear), LogStep(l, Clear))
  {
    assert Sizes(w.store.rings) == Capacities(l.live);
    assert |w.store.rings| == |w.store.rings.Keys| == |l.live.Keys| == |l.live|;
    SimulateFewer(w, l, map[], map[], LogStep(l, Clear).budget);
  }

  lemma SimulateJoin(w: World, l: LogWorld, q: ReaderId)
    requires Sound(w) && Simulates(w, l)
    ensures Simulates(Step(w, Join(q)), LogStep(l, Join(q)))
  {
  }

  lemma SimulateKeyed(w: World, l: LogWorld, op: Op)
    requires Sound(w) && LogInv(l) && Simulates(w, l) && (op.Resize? || op.Put? || op.Remove?)
    ensures Simulates(Step(w, op), LogStep(l, op)) && Output(w, op) == LogOutput(l, op)
  {
    hide Matches, LogInv;
    SameKeys(w, l);
    if op.key in l.live {
      match op {
        case Resize(key, size) => SimulateFresh(w, l, key, size, l.nextGen + 1, l.budget);
        case Put(key, bytes) =>
          if 0 < |bytes| <= l.live[key].capacity { PutMatches(w.store.rings, w.readers, l, key, bytes); }
        case Remove(key) =>
          assert (w.store.rings - {key}).Keys == w.store.rings.Keys - {key};
          SimulateFewer(w, l, w.store.rings - {key}, l.live - {key}, Refund(l.budget, l.live[key].capacity));
      }
    }
  }

  lemma SimulateStep(w: World, l: LogWorld, op: Op)
    requires Sound(w) && LogInv(l) && Simulates(w, l)
    ensures Simulates(Step(w, op), LogStep(l, op)) && Output(w, op) == LogOutput(l, op)
  {
    hide Matches, LogInv, Sound;
    SameKeys(w, l);
    match op {
      case Add(key, kbps, latencyMs) =>
        var size := RingSize(kbps, latencyMs);
        if Admit(key in l.live, l.budget, size).Admitted? {
          SimulateAdmitted(w, l, key, size);
        } else {
          SimulateRefused(w, l, key, size);
        }
      case Get(_, key, _, _) => if key in l.live { SimulateGet(w, l, op); }
      case Clear => SimulateClear(w, l);
      case Join(r) => SimulateJoin(w, l, r);
      case _ => SimulateKeyed(w, l, op);
    }
  }

  lemma {:induction false} SimulateRun(w: World, l: LogWorld, ops: seq<Op>)
    requires Sound(w) && LogInv(l) && Simulates(w, l)
    ensures Outputs(w, ops) == LogOutputs(l, ops)
    ensures LogInv(LogRun(l, ops)) && Simulates(Run(w, ops), LogRun(l, ops))
    decreases |ops|
  {
    if ops != [] {
      SimulateStep(w, l, ops[0]);
      StepKeepsLogInv(l, ops[0]);
      SimulateRun(Step(w, ops[0]), LogStep(l, ops[0]), ops[1..]);
    }
  }

  // ----- what the sessions record -----

  /** All the bytes of a list of sessions, in order. */
  function SessionBytes(sessions: seq<Session>): seq<Byte> {
    if sessions == [] then [] else SessionBytes(sessions[..|sessions| - 1]) + sessions[|sessions| - 1].bytes
  }

  /** All the bytes one reader's calls returned, in order. */
  function Delivered(ops: seq<Op>, outs: seq<Out>, r: ReaderId): seq<Byte>
    requires |outs| == |ops|
  {
    if ops == [] then [] else DeliveredBy(ops[0], outs[0], r) + Delivered(ops[1..], outs[1..], r)
  }

  function DeliveredBy(op: Op, o: Out, r: ReaderId): seq<Byte> { if op.Get? && op.reader == r then o.bytes else [] }

  lemma ExtendRecords(sessions: seq<Session>, bytes: seq<Byte>)
    requires sessions != []
    ensures SessionBytes(Extend(sessions, bytes)) == SessionBytes(sessions) + bytes
  {
  }

  lemma OpenRecordsNothing(sessions: seq<Session>, g: nat, base: nat)
    ensures SessionBytes(sessions + [Session(g, base, [])]) == SessionBytes(sessions)
  {
  }

  lemma StepRecords(l: LogWorld, op: Op, r: ReaderId)
    requires LogInv(l)
    ensures SessionBytes(ReaderOf(LogStep(l, op), r).sessions)
         == SessionBytes(ReaderOf(l, r).sessions) + DeliveredBy(op, LogOutput(l, op), r)
  {
    hide SessionBytes;
    var rd := ReaderOf(l, r);
    assert ReaderInv(rd, l.logs);
    if op.Get? && op.reader == r && op.key in l.live {
      var i := l.live[op.key];
      var log := LogOf(l, i.generation);
      var g := LogGet(log, i.capacity, i.generation, rd.cursor, op.size, op.aligned);
      if g.jumped {
        OpenRecordsNothing(rd.sessions, i.generation, |log|);
      } else {
        ExtendRecords(rd.sessions, g.bytes);
      }
    }
  }

  /** The sessions hold exactly what the reader's calls returned. */
  lemma {:induction false} SessionsAreDeliveries(l: LogWorld, ops: seq<Op>, r: ReaderId)
    requires LogInv(l)
    ensures SessionBytes(ReaderOf(LogRun(l, ops), r).sessions)
         == SessionBytes(ReaderOf(l, r).sessions) + Delivered(ops, LogOutputs(l, ops), r)
    decreases |ops|
  {
    hide LogInv, LogStep, LogOutput, SessionBytes, DeliveredBy, ReaderOf;
    if ops != [] {
      StepRecords(l, ops[0], r);
      StepKeepsLogInv(l, ops[0]);
      SessionsAreDeliveries(LogStep(l, ops[0]), ops[1..], r);
      assert LogOutputs(l, ops)[1..] == LogOutputs(LogStep(l, ops[0]), ops[1..]);
    }
  }

  /** Every run of the rings gives, call by call, the answers of the logs. */
  lemma RingsRefineLogs(maxStreams: int, maxBytes: int, ops: seq<Op>)
    ensures Outputs(Start(maxStreams, maxBytes), ops) == LogOutputs(LogStart(maxStreams, maxBytes), ops)
  {
    SimulateRun(Start(maxStreams, maxBytes), LogStart(maxStreams, maxBytes), ops);
  }

  /**
   * Over every run, with tokens surviving the rings they anchored on: all a reader's calls returned is, stretch by
   * stretch, an exact slice of the log of the incarnation it was anchored on; stretches on one incarnation never
   * overlap or go back; live identities are distinct and never 0.
   */
  lemma IncarnationIsolation(maxStreams: int, maxBytes: int, ops: seq<Op>, r: ReaderId)
    ensures var l := LogRun(LogStart(maxStreams, maxBytes), ops);
            var sessions := ReaderOf(l, r).sessions;
            && SessionBytes(sessions) == Delivered(ops, Outputs(Start(maxStreams, maxBytes), ops), r)
            && (forall i :: 0 <= i < |sessions| ==> IsSlice(sessions[i], l.logs))
            && Forward(sessions)
            && 0 !in l.logs
    ensures var rings := Run(Start(maxStreams, maxBytes), ops).store.rings;
            && (forall k :: k in rings ==> rings[k].generation != 0)
            && (forall j, k :: j in rings && k in rings && j != k ==> rings[j].generation != rings[k].generation)
  {
    var w, l := Start(maxStreams, maxBytes), LogStart(maxStreams, maxBytes);
    SimulateRun(w, l, ops);
    SessionsAreDeliveries(l, ops, r);
    hide Run, LogRun, Outputs, LogOutputs, Simulates, Delivered, SessionBytes;
    assert SessionBytes(ReaderOf(l, r).sessions) == [] by { NothingYet(l, r); }
    assert ReaderInv(ReaderOf(LogRun(l, ops), r), LogRun(l, ops).logs);
  }

  lemma NothingYet(l: LogWorld, r: ReaderId)
    requires r !in l.readers
    ensures SessionBytes(ReaderOf(l, r).sessions) == []
  {
  }
}
