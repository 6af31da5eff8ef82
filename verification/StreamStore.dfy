/**
 * The map of rings (CSLSMapData) together with every reader's token, as one machine, and the budget it keeps.
 */
module StreamStore {
  import opened Codes
  import opened WrapArithmetic
  import opened RecycleArrays

  type ReaderId = nat

  const MAX_RING_BYTES: nat := 32 * 1024 * 1024

  /** Ring size for a bitrate and latency hint: one latency window in whole seconds, at least the default. */
  function RingSize(kbps: int, latencyMs: int): (n: nat)
    ensures 8 * 1024 * 1024 <= n <= 32 * 1024 * 1024
  {
    if kbps > 0 && latencyMs > 0 then
      var bytesPerSec := kbps * 1000 / 8;
      var secs := if latencyMs / 1000 < 1 then 1 else latencyMs / 1000;
      var target := Min(bytesPerSec * secs, MAX_RING_BYTES);
      if target > DEFAULT_MAX_DATA_SIZE then target else DEFAULT_MAX_DATA_SIZE
    else DEFAULT_MAX_DATA_SIZE
  }

  lemma ScaleCompare(k: int, a: int, b: int)
    requires k > 0
    ensures k * a <= k * b <==> a <= b
  {
  }

  /**
   * When the ring really holds one latency window (kbps * latencyMs / 8 bytes): the default is enough, or the window is
   * a whole number of seconds, at least one, within the cap. A fraction of a second on top is cut off.
   */
  lemma RingHoldsWindowIff(kbps: int, latencyMs: int)
    requires kbps > 0 && latencyMs > 0
    ensures kbps * latencyMs <= 8 * RingSize(kbps, latencyMs) <==>
            || kbps * latencyMs <= 8 * DEFAULT_MAX_DATA_SIZE
            || (kbps * latencyMs <= 8 * MAX_RING_BYTES && (latencyMs <= 1000 || latencyMs % 1000 == 0))
  {
    var secs := if latencyMs / 1000 < 1 then 1 else latencyMs / 1000;
    assert kbps * 1000 / 8 == kbps * 125;
    assert 8 * (kbps * 125 * secs) == kbps * (1000 * secs);
    ScaleCompare(kbps, latencyMs, 1000 * secs);
  }

  /** 100 Mbit/s with 1999 ms of latency needs 25 MB; the ring gets one second's worth, 12.5 MB. */
  lemma FractionalSecondIsCut()
    ensures RingSize(100000, 1999) == 12500000 && 100000 * 1999 > 8 * RingSize(100000, 1999)
  {
  }

  /** And it is no larger than that: beyond the default, at most one window, taken as a second if it is shorter. */
  lemma RingIsNoLarger(kbps: int, latencyMs: int)
    requires RingSize(kbps, latencyMs) > DEFAULT_MAX_DATA_SIZE
    ensures kbps > 0 && latencyMs > 0
    ensures 8 * RingSize(kbps, latencyMs) <= kbps * if latencyMs < 1000 then 1000 else latencyMs
  {
    var secs := if latencyMs / 1000 < 1 then 1 else latencyMs / 1000;
    assert kbps * 1000 / 8 == kbps * 125;
    assert 8 * (kbps * 125 * secs) == kbps * (1000 * secs);
    ScaleCompare(kbps, 1000 * secs, if latencyMs < 1000 then 1000 else latencyMs);
  }

  // ----- budget -----

  datatype Budget = Budget(streams: int, bytes: int, maxStreams: int, maxBytes: int)

  datatype Admission = Present | StreamCapHit | ByteCapHit | Admitted

  function Admit(present: bool, b: Budget, size: nat): Admission {
    if present then Present
    else if b.maxStreams > 0 && b.streams >= b.maxStreams then StreamCapHit
    else if b.maxBytes > 0 && b.bytes + size > b.maxBytes then ByteCapHit
    else Admitted
  }

  /** Ring identities an add() uses up: one per construction, one more if the ring is then grown. */
  function GenerationsUsed(a: Admission, size: nat): nat {
    match a
    case Present => 0
    case StreamCapHit => 0
    case ByteCapHit => 1
    case Admitted => if size > DEFAULT_MAX_DATA_SIZE then 2 else 1
  }

  function Charge(b: Budget, size: int): Budget { b.(streams := b.streams + 1, bytes := b.bytes + size) }

  function Refund(b: Budget, size: int): Budget { b.(streams := b.streams - 1, bytes := b.bytes - size) }

  function Code(a: Admission): int { if a.Present? || a.Admitted? then SLS_OK else SLS_ERROR }

  ghost function Pick(sizes: map<Key, nat>): (k: Key)
    requires sizes != map[]
    ensures k in sizes
  {
    var k :| k in sizes;
    k
  }

  ghost function Total(sizes: map<Key, nat>): nat
    decreases |sizes|
  {
    if sizes == map[] then 0
    else
      assert |sizes - {Pick(sizes)}| < |sizes| by { assert (sizes - {Pick(sizes)}).Keys == sizes.Keys - {Pick(sizes)}; }
      sizes[Pick(sizes)] + Total(sizes - {Pick(sizes)})
  }

  lemma {:induction false} TotalSplit(sizes: map<Key, nat>, k: Key)
    requires k in sizes
    ensures Total(sizes) == sizes[k] + Total(sizes - {k})
    decreases |sizes|
  {
    var j := Pick(sizes);
    assert (sizes - {j}).Keys == sizes.Keys - {j} && (sizes - {k}).Keys == sizes.Keys - {k};
    if j != k {
      TotalSplit(sizes - {j}, k);
      TotalSplit(sizes - {k}, j);
      assert sizes - {j} - {k} == sizes - {k} - {j};
    }
  }

  // ----- the store -----

  datatype Store = Store(rings: map<Key, Ring>, ccState: set<Key>, budget: Budget, nextGen: nat)

  ghost function Sizes(rings: map<Key, Ring>): map<Key, nat> { map k | k in rings :: |rings[k].data| }

  function AddSpec(s: Store, key: Key, kbps: int, latencyMs: int): Store {
    AddSized(s, key, RingSize(kbps, latencyMs))
  }

  function AddSized(s: Store, key: Key, size: nat): Store {
    var a := Admit(key in s.rings, s.budget, size);
    var s1 := s.(nextGen := s.nextGen + GenerationsUsed(a, size));
    if a.Admitted? then
      s1.(rings := s.rings[key := FreshRing(size, s1.nextGen - 1)],
          ccState := s.ccState + {key},
          budget := Charge(s.budget, size))
    else s1
  }

  function RemoveSpec(s: Store, key: Key): Store {
    var s1 := s.(ccState := s.ccState - {key});
    if key in s.rings then
      s1.(rings := s.rings - {key}, budget := Refund(s.budget, |s.rings[key].data|))
    else s1
  }

  ghost function ClearSpec(s: Store): Store {
    s.(rings := map[], ccState := {},
       budget := s.budget.(streams := s.budget.streams - |s.rings|,
                           bytes := s.budget.bytes - Total(Sizes(s.rings))))
  }

  /** What the counters, the caps and the continuity map must satisfy. */
  ghost predicate BudgetInv(s: Store) {
    && s.budget.streams == |s.rings|
    && s.budget.bytes == Total(Sizes(s.rings))
    && (s.budget.maxStreams > 0 ==> s.budget.streams <= s.budget.maxStreams)
    && (s.budget.maxBytes > 0 ==> s.budget.bytes <= s.budget.maxBytes)
    && (forall k :: k in s.rings ==> DEFAULT_MAX_DATA_SIZE <= |s.rings[k].data| <= MAX_RING_BYTES)
    && s.ccState == s.rings.Keys
  }

  lemma TotalAdd(rings: map<Key, Ring>, key: Key, ring: Ring)
    requires key !in rings
    ensures Total(Sizes(rings[key := ring])) == Total(Sizes(rings)) + |ring.data|
    ensures |rings[key := ring]| == |rings| + 1
  {
    hide Total;
    var rings' := rings[key := ring];
    TotalSplit(Sizes(rings'), key);
    assert Sizes(rings') - {key} == Sizes(rings);
    assert rings'.Keys == rings.Keys + {key};
  }

  lemma AddKeepsBudget(s: Store, key: Key, size: nat)
    requires BudgetInv(s) && DEFAULT_MAX_DATA_SIZE <= size <= MAX_RING_BYTES
    ensures BudgetInv(AddSized(s, key, size))
  {
    hide Total, Sizes;
    var s' := AddSized(s, key, size);
    if key !in s.rings && key in s'.rings {
      TotalAdd(s.rings, key, s'.rings[key]);
    }
  }

  /** The caps a store is under would also hold of these rings. */
  ghost predicate WithinCaps(b: Budget, rings: map<Key, Ring>) {
    && (b.maxStreams > 0 ==> |rings| <= b.maxStreams)
    && (b.maxBytes > 0 ==> Total(Sizes(rings)) <= b.maxBytes)
  }

  /** add() turns a new key away if and only if its ring would break a cap; otherwise it is there, empty and of the right size. */
  lemma AddRefusesIff(s: Store, key: Key, kbps: int, latencyMs: int, ring: Ring)
    requires BudgetInv(s) && key !in s.rings && |ring.data| == RingSize(kbps, latencyMs)
    ensures var s' := AddSpec(s, key, kbps, latencyMs);
            && (key in s'.rings <==> WithinCaps(s.budget, s.rings[key := ring]))
            && (key in s'.rings ==>
                  && s'.rings == s.rings[key := FreshRing(RingSize(kbps, latencyMs), s'.nextGen - 1)]
                  && s'.nextGen == s.nextGen + if RingSize(kbps, latencyMs) > DEFAULT_MAX_DATA_SIZE then 2 else 1)
            && (key !in s'.rings ==>
                  && s'.rings == s.rings
                  && s'.nextGen == s.nextGen + if 0 < s.budget.maxStreams <= |s.rings| then 0 else 1)
  {
    hide RingSize, Total, Sizes;
    TotalAdd(s.rings, key, ring);
  }

  /** Adding a key that is there changes nothing. */
  lemma AddAgainIsIdle(s: Store, key: Key, kbps: int, latencyMs: int)
    requires key in s.rings
    ensures AddSpec(s, key, kbps, latencyMs) == s
  {
  }

  lemma RemoveKeepsBudget(s: Store, key: Key)
    requires BudgetInv(s)
    ensures BudgetInv(RemoveSpec(s, key))
  {
    var s' := RemoveSpec(s, key);
    if key in s.rings {
      TotalSplit(Sizes(s.rings), key);
      assert Sizes(s'.rings) == Sizes(s.rings) - {key};
      assert s'.rings.Keys == s.rings.Keys - {key};
    }
  }

  lemma ClearKeepsBudget(s: Store)
    requires BudgetInv(s)
    ensures BudgetInv(ClearSpec(s))
  {
    assert Sizes(map[]) == map[];
  }

  /** Putting into a ring, or reading it, never changes a size. */
  lemma SameSizesKeepBudget(s: Store, rings: map<Key, Ring>)
    requires BudgetInv(s) && rings.Keys == s.rings.Keys
    requires forall k :: k in rings ==> |rings[k].data| == |s.rings[k].data|
    ensures BudgetInv(s.(rings := rings))
  {
    assert Sizes(rings) == Sizes(s.rings);
    assert |rings| == |rings.Keys| == |s.rings.Keys| == |s.rings|;
  }

  /** Changing the caps later keeps the invariant exactly when the live total already fits under them. */
  lemma SetCapsKeepsBudget(s: Store, maxStreams: int, maxBytes: int)
    requires BudgetInv(s)
    ensures BudgetInv(s.(budget := s.budget.(maxStreams := maxStreams, maxBytes := maxBytes))) <==>
            && (maxStreams > 0 ==> |s.rings| <= maxStreams)
            && (maxBytes > 0 ==> Total(Sizes(s.rings)) <= maxBytes)
  {
  }

  // ----- the ring machine: store and tokens -----

  datatype Op =
    | Add(key: Key, kbps: int, latencyMs: int)
    | Remove(key: Key)
    | Clear
    | Resize(key: Key, size: nat)
    | Put(key: Key, bytes: seq<Byte>)
    | Join(reader: ReaderId)
    | Get(reader: ReaderId, key: Key, size: nat, aligned: int)

  datatype World = World(store: Store, readers: map<ReaderId, Token>)

  datatype Out = Out(ret: int, bytes: seq<Byte>)

  /** A role zeroes its token before init() raises `first`. */
  function TokenOf(readers: map<ReaderId, Token>, r: ReaderId): Token {
    if r in readers then readers[r] else Token(0, 0, false, 0)
  }

  /** CSLSRole::init() on a token: the generation is left as it was. */
  function Rejoined(t: Token): Token { t.(first := true, consumed := 0, readPos := 0) }

  /** Identities are unique, never 0 and never ahead of the source. */
  ghost predicate RingsSound(s: Store) {
    && s.nextGen >= 1
    && (forall k :: k in s.rings ==> WellFormed(s.rings[k]) && 1 <= s.rings[k].generation < s.nextGen)
    && (forall j, k :: j in s.rings && k in s.rings && j != k ==> s.rings[j].generation != s.rings[k].generation)
  }

  /** A token names no future ring and can read outside none. */
  ghost predicate TokenSound(t: Token, s: Store) {
    && t.generation < s.nextGen
    && forall k :: k in s.rings ==> Readable(t, s.rings[k])
  }

  ghost predicate Sound(w: World) {
    && RingsSound(w.store)
    && forall r :: TokenSound(TokenOf(w.readers, r), w.store)
  }

  /** A mapped ring replaced by a brand-new incarnation. */
  function Incarnate(s: Store, key: Key, size: nat, g: nat): Store {
    s.(rings := s.rings[key := FreshRing(size, g)], nextGen := g + 1)
  }

  ghost function StoreStep(s: Store, op: Op): Store
    requires RingsSound(s)
  {
    match op
    case Add(key, kbps, latencyMs) => AddSpec(s, key, kbps, latencyMs)
    case Remove(key) => RemoveSpec(s, key)
    case Clear => ClearSpec(s)
    case Resize(key, size) => if key in s.rings then Incarnate(s, key, size, s.nextGen) else s
    case Put(key, bytes) =>
      if key in s.rings && PutAccepted(s.rings[key], bytes) then
        s.(rings := s.rings[key := PutSpec(s.rings[key], bytes)])
      else s
    case Join(_) => s
    case Get(_, _, _, _) => s
  }

  /** Every store step hands out only new identities, so no surviving token can match a ring it never anchored on. */
  ghost predicate Evolves(s: Store, s': Store) {
    && s.nextGen <= s'.nextGen
    && forall k :: k in s'.rings ==>
         var r := s'.rings[k];
         && WellFormed(r)
         && (s.nextGen <= r.generation < s'.nextGen
             || (k in s.rings && r.generation == s.rings[k].generation && |r.data| == |s.rings[k].data|))
  }

  lemma StepEvolves(s: Store, op: Op)
    requires RingsSound(s)
    ensures Evolves(s, StoreStep(s, op))
  {
  }

  lemma StepKeepsRingsSound(s: Store, op: Op)
    requires RingsSound(s)
    ensures RingsSound(StoreStep(s, op))
  {
    hide RingSize, StoreBytes, Total;
  }

  lemma EvolveKeepsToken(s: Store, s': Store, t: Token)
    requires RingsSound(s) && Evolves(s, s') && TokenSound(t, s)
    ensures TokenSound(t, s')
  {
  }

  ghost function SetToken(w: World, r: ReaderId, t: Token): (readers: map<ReaderId, Token>)
    requires Sound(w) && TokenSound(t, w.store)
    ensures TokenOf(readers, r) == t
    ensures forall q :: q != r ==> TokenOf(readers, q) == TokenOf(w.readers, q)
    ensures forall q :: TokenSound(TokenOf(readers, q), w.store)
  {
    var readers := w.readers[r := t];
    assert forall q :: q != r ==> TokenOf(readers, q) == TokenOf(w.readers, q);
    readers
  }

  ghost function ReadersStep(w: World, op: Op): (readers: map<ReaderId, Token>)
    requires Sound(w)
    ensures forall r :: TokenSound(TokenOf(readers, r), w.store)
  {
    match op
    case Join(r) =>
      assert TokenSound(TokenOf(w.readers, r), w.store);
      SetToken(w, r, Rejoined(TokenOf(w.readers, r)))
    case Get(r, key, size, aligned) =>
      if key in w.store.rings then
        assert TokenSound(TokenOf(w.readers, r), w.store);
        SetToken(w, r, GetSpec(w.store.rings[key], TokenOf(w.readers, r), size, aligned).token)
      else w.readers
    case _ => w.readers
  }

  ghost function Step(w: World, op: Op): (w': World)
    requires Sound(w)
    ensures Sound(w')
  {
    StepEvolves(w.store, op);
    StepKeepsRingsSound(w.store, op);
    assert forall r :: TokenSound(TokenOf(ReadersStep(w, op), r), StoreStep(w.store, op)) by {
      forall r
        ensures TokenSound(TokenOf(ReadersStep(w, op), r), StoreStep(w.store, op))
      {
        EvolveKeepsToken(w.store, StoreStep(w.store, op), TokenOf(ReadersStep(w, op), r));
      }
    }
    World(StoreStep(w.store, op), ReadersStep(w, op))
  }

  ghost function Output(w: World, op: Op): Out
    requires Sound(w)
  {
    match op
    case Add(key, kbps, latencyMs) =>
      Out(Code(Admit(key in w.store.rings, w.store.budget, RingSize(kbps, latencyMs))), [])
    case Remove(key) => Out(if key in w.store.rings then SLS_OK else SLS_ERROR, [])
    case Put(key, bytes) =>
      Out(if key in w.store.rings && PutAccepted(w.store.rings[key], bytes) then |bytes| else SLS_ERROR, [])
    case Get(r, key, size, aligned) =>
      if key in w.store.rings then
        var g := GetSpec(w.store.rings[key], TokenOf(w.readers, r), size, aligned);
        Out(|g.bytes|, g.bytes)
      else Out(SLS_ERROR, [])
    case _ => Out(SLS_OK, [])
  }

  ghost function Run(w: World, ops: seq<Op>): (w': World)
    requires Sound(w)
    ensures Sound(w')
    decreases |ops|
  {
    if ops == [] then w else Run(Step(w, ops[0]), ops[1..])
  }

  ghost function Outputs(w: World, ops: seq<Op>): (outs: seq<Out>)
    requires Sound(w)
    ensures |outs| == |ops|
    decreases |ops|
  {
    if ops == [] then [] else [Output(w, ops[0])] + Outputs(Step(w, ops[0]), ops[1..])
  }

  ghost function Start(maxStreams: int, maxBytes: int): (w: World)
    ensures Sound(w) && BudgetInv(w.store)
  {
    World(Store(map[], {}, Budget(0, 0, maxStreams, maxBytes), 1), map[])
  }

  lemma {:induction false} RunEvolves(w: World, ops: seq<Op>)
    requires Sound(w)
    ensures Evolves(w.store, Run(w, ops).store)
    decreases |ops|
  {
    if ops != [] {
      hide StoreStep;
      StepEvolves(w.store, ops[0]);
      RunEvolves(Step(w, ops[0]), ops[1..]);
    }
  }

  /** An identity seen at two moments of a run sat on the same ring, under the same key, at every moment in between. */
  lemma IdentitiesNeverReturn(w: World, first: seq<Op>, later: seq<Op>, k: Key, j: Key)
    requires Sound(w) && k in w.store.rings
    requires var rings := Run(Run(w, first), later).store.rings;
             j in rings && rings[j].generation == w.store.rings[k].generation
    ensures j == k
    ensures var rings := Run(w, first).store.rings;
            && k in rings && rings[k].generation == w.store.rings[k].generation
            && |rings[k].data| == |w.store.rings[k].data|
  {
    hide Run;
    RunEvolves(w, first);
    RunEvolves(Run(w, first), later);
  }

  lemma StepKeepsBudget(s: Store, op: Op)
    requires RingsSound(s) && BudgetInv(s) && !op.Resize?
    ensures BudgetInv(StoreStep(s, op))
  {
    hide BudgetInv, RingSize, PutSpec, AddSized, RemoveSpec, ClearSpec;
    match op {
      case Add(key, kbps, latencyMs) => AddKeepsBudget(s, key, RingSize(kbps, latencyMs));
      case Remove(key) => RemoveKeepsBudget(s, key);
      case Clear => ClearKeepsBudget(s);
      case Put(key, bytes) => SameSizesKeepBudget(s, StoreStep(s, op).rings);
      case _ =>
    }
  }

  /** Budget conservation over every run in which no mapped ring is resized behind the map's back. */
  lemma {:induction false} BudgetConserved(w: World, ops: seq<Op>)
    requires Sound(w) && BudgetInv(w.store)
    requires forall op :: op in ops ==> !op.Resize?
    ensures BudgetInv(Run(w, ops).store)
    decreases |ops|
  {
    if ops != [] {
      StepKeepsBudget(w.store, ops[0]);
      BudgetConserved(Step(w, ops[0]), ops[1..]);
    }
  }
}
