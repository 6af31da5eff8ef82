/** The player-key cache: webhook answers by key, with a time to live, a sweep and a bounded size. */
module PlayerKeys {
  import opened Codes

  const MAX_ENTRIES: nat := 50000
  const SWEEP_INTERVAL_MS: int := 5000
  const URL_MAX_LEN: nat := 2048

  /** The webhook body as the JSON parser reports it. */
  datatype Body = Unparsable | NoStreamId | Parsed(streamId: string, maxPlayers: Limit)

  datatype Limit = Absent | NotInteger | Value(n: int)

  datatype Response = Response(success: bool, status: int, body: Body)

  datatype Entry = Entry(valid: bool, streamId: string, expiry: int, hasLimit: bool, limit: int)

  function Negative(now: int, ttl: nat): Entry { Entry(false, "", now + ttl / 4, false, -1) }

  /** The answers that let a player in: a 200 with a stream id of legal length. */
  predicate Approves(r: Response) {
    r.success && r.status == 200 && r.body.Parsed? && 0 < |r.body.streamId| < URL_MAX_LEN
  }

  function Lifetime(r: Response, ttl: nat): nat { if Approves(r) then ttl else ttl / 4 }

  /** What process_player_key_response() caches for an answer. */
  function EntryFor(r: Response, now: int, ttl: nat): (e: Entry)
    ensures e.expiry == now + Lifetime(r, ttl) && (e.valid <==> Approves(r))
    ensures e.valid ==> e.streamId == r.body.streamId
    ensures e.hasLimit <==> e.valid && r.body.maxPlayers.Value? && r.body.maxPlayers.n >= -1
    ensures e.hasLimit ==> e.limit == r.body.maxPlayers.n
  {
    if !r.success || r.status != 200 || !r.body.Parsed? then Negative(now, ttl)
    else if |r.body.streamId| == 0 || |r.body.streamId| >= URL_MAX_LEN then Negative(now, ttl)
    else
      match r.body.maxPlayers
      case Value(n) => Entry(true, r.body.streamId, now + ttl, n >= -1, n)
      case _ => Entry(true, r.body.streamId, now + ttl, false, -1)
  }

  type Cache = map<Key, Entry>

  function Live(c: Cache, now: int): Cache { map k | k in c && now < c[k].expiry :: c[k] }

  /** A hit: the entry, if it is there and still live. */
  predicate Hit(c: Cache, k: Key, now: int) { k in c && now < c[k].expiry }

  predicate IsVictim(c: Cache, v: Key) { v in c && forall k :: k in c ==> c[v].expiry <= c[k].expiry }

  predicate Evicts(c: Cache, k: Key, now: int) {
    k !in c && |c| >= MAX_ENTRIES && |Live(c, now)| >= MAX_ENTRIES
  }

  /** insert_player_key_cache_locked(); `victim` is the entry the scan settles on when it has to evict. */
  function Insert(c: Cache, k: Key, e: Entry, now: int, victim: Key): Cache {
    if k in c || |c| < MAX_ENTRIES then c[k := e]
    else if |Live(c, now)| < MAX_ENTRIES then Live(c, now)[k := e]
    else (Live(c, now) - {victim})[k := e]
  }

  datatype Op =
    | Process(key: Key, response: Response, now: int, victim: Key)
    | Sweep(now: int)
    | Lookup(key: Key, now: int)

  datatype State = State(cache: Cache, lastSweep: int)

  predicate Enabled(s: State, op: Op) {
    op.Process? && Evicts(s.cache, op.key, op.now) ==> IsVictim(Live(s.cache, op.now), op.victim)
  }

  function Step(s: State, op: Op, ttl: nat): State {
    match op
    case Process(k, r, now, victim) => s.(cache := Insert(s.cache, k, EntryFor(r, now, ttl), now, victim))
    case Sweep(now) => if now - s.lastSweep < SWEEP_INTERVAL_MS then s else State(Live(s.cache, now), now)
    case Lookup(k, now) => if k in s.cache && now >= s.cache[k].expiry then s.(cache := s.cache - {k}) else s
  }

  /** A webhook answer that has arrived. */
  datatype Answer = Answer(key: Key, response: Response)

  /** One processing step per answer, in order. */
  ghost predicate Processes(ops: seq<Op>, arrived: seq<Answer>, now: int) {
    && |ops| == |arrived|
    && forall i :: 0 <= i < |ops| ==>
         ops[i].Process? && ops[i].key == arrived[i].key && ops[i].response == arrived[i].response && ops[i].now == now
  }

  /** The unbounded cache: every key's latest answer, nothing ever dropped. */
  function Record(ref: Cache, op: Op, ttl: nat): Cache {
    if op.Process? then ref[op.key := EntryFor(op.response, op.now, ttl)] else ref
  }

  predicate Legal(s: State, ops: seq<Op>, ttl: nat, from: int)
    decreases |ops|
  {
    ops == [] || (Enabled(s, ops[0]) && from <= ops[0].now && Legal(Step(s, ops[0], ttl), ops[1..], ttl, ops[0].now))
  }

  function Run(s: State, ops: seq<Op>, ttl: nat): State
    decreases |ops|
  {
    if ops == [] then s else Run(Step(s, ops[0], ttl), ops[1..], ttl)
  }

  lemma {:induction false} RunAppend(s: State, ops: seq<Op>, op: Op, ttl: nat, from: int)
    requires Legal(s, ops, ttl, from) && EndTime(from, ops) <= op.now && Enabled(Run(s, ops, ttl), op)
    ensures Run(s, ops + [op], ttl) == Step(Run(s, ops, ttl), op, ttl) && Legal(s, ops + [op], ttl, from)
    decreases |ops|
  {
    if ops == [] {
      assert [op][1..] == [];
    } else {
      assert (ops + [op])[1..] == ops[1..] + [op];
      RunAppend(Step(s, ops[0], ttl), ops[1..], op, ttl, ops[0].now);
    }
  }

  function Answers(ref: Cache, ops: seq<Op>, ttl: nat): Cache
    decreases |ops|
  {
    if ops == [] then ref else Answers(Record(ref, ops[0], ttl), ops[1..], ttl)
  }

  function EndTime(from: int, ops: seq<Op>): int { if ops == [] then from else ops[|ops| - 1].now }

  lemma {:induction false} SubmapSize(a: Cache, b: Cache)
    requires a.Keys <= b.Keys
    ensures |a| <= |b|
  {
    if a != map[] {
      var k :| k in a;
      assert (a - {k}).Keys == a.Keys - {k} && (b - {k}).Keys == b.Keys - {k};
      SubmapSize(a - {k}, b - {k});
    }
  }

  lemma InsertBounded(c: Cache, k: Key, e: Entry, now: int, victim: Key)
    requires |c| <= MAX_ENTRIES && (Evicts(c, k, now) ==> victim in Live(c, now))
    ensures |Insert(c, k, e, now, victim)| <= 50000
  {
    var live := Live(c, now);
    SubmapSize(live, c);
    if k in c {
      assert c[k := e].Keys == c.Keys;
    } else if |c| < MAX_ENTRIES {
      assert c[k := e].Keys == c.Keys + {k};
    } else if |live| < MAX_ENTRIES {
      assert live[k := e].Keys == live.Keys + {k};
    } else {
      assert (live - {victim})[k := e].Keys == live.Keys - {victim} + {k};
    }
  }

  /** The bounded cache is a piece of the unbounded one. */
  ghost predicate Agrees(c: Cache, ref: Cache) {
    forall k :: k in c ==> k in ref && c[k] == ref[k]
  }

  /** Over every run: each cached entry is the latest answer for its key, and the size never passes the cap. */
  lemma {:induction false} CacheIsLatestAnswers(s: State, ref: Cache, ops: seq<Op>, ttl: nat, from: int)
    requires Legal(s, ops, ttl, from) && Agrees(s.cache, ref) && |s.cache| <= MAX_ENTRIES
    ensures Agrees(Run(s, ops, ttl).cache, Answers(ref, ops, ttl)) && |Run(s, ops, ttl).cache| <= 50000
    decreases |ops|
  {
    if ops != [] {
      var op := ops[0];
      match op {
        case Process(k, r, now, victim) => InsertBounded(s.cache, k, EntryFor(r, now, ttl), now, victim);
        case _ => SubmapSize(Step(s, op, ttl).cache, s.cache);
      }
      CacheIsLatestAnswers(Step(s, op, ttl), Record(ref, op, ttl), ops[1..], ttl, op.now);
    }
  }

  /** Whose answer is in the unbounded cache: the last one processed for that key. */
  ghost predicate AnsweredAt(ops: seq<Op>, i: nat, k: Key, e: Entry, ttl: nat) {
    && i < |ops| && ops[i].Process? && ops[i].key == k && e == EntryFor(ops[i].response, ops[i].now, ttl)
    && forall j :: i < j < |ops| ==> !(ops[j].Process? && ops[j].key == k)
  }

  lemma {:induction false} LatestAnswer(ref: Cache, ops: seq<Op>, ttl: nat, k: Key) returns (i: nat)
    requires k in Answers(ref, ops, ttl)
    ensures AnsweredAt(ops, i, k, Answers(ref, ops, ttl)[k], ttl)
            || (k in ref && Answers(ref, ops, ttl)[k] == ref[k] && forall j :: 0 <= j < |ops| ==> !(ops[j].Process? && ops[j].key == k))
    decreases |ops|
  {
    i := 0;
    if ops != [] {
      var n := LatestAnswer(Record(ref, ops[0], ttl), ops[1..], ttl, k);
      assert forall j :: 1 <= j < |ops| ==> ops[j] == ops[1..][j - 1];
      if AnsweredAt(ops[1..], n, k, Answers(ref, ops, ttl)[k], ttl) {
        i := n + 1;
      }
    }
  }

  /** A live hit in any run is that key's most recently processed answer, still inside its own time to live. */
  lemma HitIsLatestAnswer(ops: seq<Op>, ttl: nat, from: int, lastSweep: int, k: Key, now: int) returns (i: nat)
    requires Legal(State(map[], lastSweep), ops, ttl, from)
    requires Hit(Run(State(map[], lastSweep), ops, ttl).cache, k, now)
    ensures var e := Run(State(map[], lastSweep), ops, ttl).cache[k];
            && AnsweredAt(ops, i, k, e, ttl)
            && now < ops[i].now + Lifetime(ops[i].response, ttl)
  {
    CacheIsLatestAnswers(State(map[], lastSweep), map[], ops, ttl, from);
    i := LatestAnswer(map[], ops, ttl, k);
  }

  predicate NeverEvicts(s: State, ops: seq<Op>, ttl: nat)
    decreases |ops|
  {
    ops == [] || (
      && !(ops[0].Process? && Evicts(s.cache, ops[0].key, ops[0].now))
      && NeverEvicts(Step(s, ops[0], ttl), ops[1..], ttl))
  }

  lemma StepStaysExact(s: State, ref: Cache, op: Op, ttl: nat, from: int)
    requires from <= op.now && !(op.Process? && Evicts(s.cache, op.key, op.now))
    requires Agrees(s.cache, ref) && forall k :: Hit(ref, k, from) ==> k in s.cache
    ensures Agrees(Step(s, op, ttl).cache, Record(ref, op, ttl))
    ensures forall k :: Hit(Record(ref, op, ttl), k, op.now) ==> k in Step(s, op, ttl).cache
  {
  }

  /** Sweeps and lookups alone cost nothing: while no insertion evicts, the two caches answer alike from now on. */
  lemma {:induction false} WithoutEvictionExact(s: State, ref: Cache, ops: seq<Op>, ttl: nat, from: int)
    requires Legal(s, ops, ttl, from) && NeverEvicts(s, ops, ttl)
    requires Agrees(s.cache, ref) && forall k :: Hit(ref, k, from) ==> k in s.cache
    ensures forall k, now :: EndTime(from, ops) <= now ==>
              (Hit(Run(s, ops, ttl).cache, k, now) <==> Hit(Answers(ref, ops, ttl), k, now))
    decreases |ops|
  {
    if ops != [] {
      var op := ops[0];
      var s', ref' := Step(s, op, ttl), Record(ref, op, ttl);
      StepStaysExact(s, ref, op, ttl, from);
      WithoutEvictionExact(s', ref', ops[1..], ttl, op.now);
    }
  }

  /** So, as long as nothing is evicted, a key hits exactly until the lifetime of its latest answer is over. */
  lemma HitIff(ops: seq<Op>, ttl: nat, from: int, lastSweep: int, k: Key, now: int)
    requires Legal(State(map[], lastSweep), ops, ttl, from) && NeverEvicts(State(map[], lastSweep), ops, ttl)
    requires EndTime(from, ops) <= now
    ensures Hit(Run(State(map[], lastSweep), ops, ttl).cache, k, now) <==>
            exists i: nat :: Latest(ops, i, k) && now < ops[i].now + Lifetime(ops[i].response, ttl)
  {
    WithoutEvictionExact(State(map[], lastSweep), map[], ops, ttl, from);
    hide Run, Legal, NeverEvicts;
    if k in Answers(map[], ops, ttl) {
      var i := LatestAnswer(map[], ops, ttl, k);
      assert Latest(ops, i, k);
    } else {
      Unanswered(map[], ops, ttl, k);
    }
  }

  /** Answer i is the last one processed for k. */
  ghost predicate Latest(ops: seq<Op>, i: nat, k: Key) {
    i < |ops| && ops[i].Process? && ops[i].key == k && forall j :: i < j < |ops| ==> !(ops[j].Process? && ops[j].key == k)
  }

  lemma {:induction false} Unanswered(ref: Cache, ops: seq<Op>, ttl: nat, k: Key)
    requires k !in Answers(ref, ops, ttl)
    ensures k !in ref && forall i :: 0 <= i < |ops| ==> !(ops[i].Process? && ops[i].key == k)
    decreases |ops|
  {
    if ops != [] {
      Unanswered(Record(ref, ops[0], ttl), ops[1..], ttl, k);
      assert forall j :: 1 <= j < |ops| ==> ops[j] == ops[1..][j - 1];
    }
  }

  /** Whatever has to make room for it, an answer is in the cache once it is processed. */
  lemma ProcessedIsCached(s: State, op: Op, ttl: nat)
    requires op.Process?
    ensures var c := Step(s, op, ttl).cache;
            op.key in c && c[op.key] == EntryFor(op.response, op.now, ttl)
  {
  }

  /** A sweep that is due keeps exactly the entries that would still hit; one that is not due keeps everything. */
  lemma SweepIsExact(s: State, now: int, ttl: nat, k: Key)
    ensures var c := Step(s, Sweep(now), ttl).cache;
            && (k in c <==> k in s.cache && (now - s.lastSweep < SWEEP_INTERVAL_MS || now < s.cache[k].expiry))
            && (k in c ==> c[k] == s.cache[k])
  {
  }

  /** A lookup erases the entry it finds expired, and nothing else. */
  lemma LookupIsExact(s: State, k: Key, now: int, ttl: nat, j: Key)
    ensures var c := Step(s, Lookup(k, now), ttl).cache;
            && (j in c <==> j in s.cache && (j == k ==> now < s.cache[j].expiry))
            && (j in c ==> c[j] == s.cache[j])
  {
  }

  /** A step takes a live entry away only by evicting, and then only from a full house of live entries, the soonest to expire. */
  lemma OnlyTheSoonestIsEvicted(s: State, op: Op, ttl: nat, k: Key)
    requires Enabled(s, op) && Hit(s.cache, k, op.now) && k !in Step(s, op, ttl).cache
    ensures op.Process? && op.victim == k
    ensures |Live(s.cache, op.now)| >= MAX_ENTRIES
    ensures forall j :: Hit(s.cache, j, op.now) ==> s.cache[k].expiry <= s.cache[j].expiry
  {
    var live := Live(s.cache, op.now);
    assert forall j :: Hit(s.cache, j, op.now) ==> j in live && live[j] == s.cache[j];
  }

  class PlayerKeyCache {
    var entries: map<Key, Entry>
    var lastSweep: int

    function Abs(): State
      reads this
    {
      State(entries, lastSweep)
    }

    constructor ()
      ensures Abs() == State(map[], 0)
    {
      entries, lastSweep := map[], 0;
    }

    /** Erases every expired entry, one by one. */
    method EraseExpired(now: int)
      modifies this`entries
      ensures entries == Live(old(entries), now)
    {
      var todo := entries.Keys;
      while todo != {}
        invariant todo <= entries.Keys <= old(entries).Keys
        invariant forall k :: k in entries ==> entries[k] == old(entries)[k]
        invariant forall k :: k in old(entries) && k !in todo ==> (k in entries <==> now < old(entries)[k].expiry)
        decreases todo
      {
        var k :| k in todo;
        if entries[k].expiry <= now {
          entries := entries - {k};
        }
        todo := todo - {k};
      }
    }

    /** The scan for the entry closest to expiring. */
    method FindVictim() returns (v: Key)
      requires entries != map[]
      ensures IsVictim(entries, v)
    {
      v :| v in entries;
      var todo := entries.Keys - {v};
      while todo != {}
        invariant v in entries
        invariant forall k :: k in entries && k !in todo ==> entries[v].expiry <= entries[k].expiry
        decreases todo
      {
        var k :| k in todo;
        if entries[k].expiry < entries[v].expiry {
          v := k;
        }
        todo := todo - {k};
      }
    }

    method Process(k: Key, r: Response, now: int, ttl: nat) returns (victim: Key)
      modifies this
      ensures Enabled(old(Abs()), Op.Process(k, r, now, victim))
      ensures Abs() == Step(old(Abs()), Op.Process(k, r, now, victim), ttl)
    {
      victim := k;
      if k !in entries && |entries| >= MAX_ENTRIES {
        EraseExpired(now);
        if |entries| >= MAX_ENTRIES {
          victim := FindVictim();
          entries := entries - {victim};
        }
      }
      entries := entries[k := EntryFor(r, now, ttl)];
    }

    /** drain_player_key_validations(): every answer that has arrived, one by one. */
    method Drain(arrived: seq<Answer>, now: int, ttl: nat) returns (ghost ops: seq<Op>)
      modifies this
      ensures Processes(ops, arrived, now)
      ensures Legal(old(Abs()), ops, ttl, now) && Abs() == Run(old(Abs()), ops, ttl)
    {
      hide Step, Enabled;
      ops := [];
      for i := 0 to |arrived|
        invariant Processes(ops, arrived[..i], now)
        invariant Legal(old(Abs()), ops, ttl, now) && Abs() == Run(old(Abs()), ops, ttl)
      {
        var victim := Process(arrived[i].key, arrived[i].response, now, ttl);
        ghost var op := Op.Process(arrived[i].key, arrived[i].response, now, victim);
        RunAppend(old(Abs()), ops, op, ttl, now);
        ops := ops + [op];
      }
      assert arrived[..|arrived|] == arrived;
    }

    method SweepExpired(now: int)
      modifies this
      ensures Abs() == Step(old(Abs()), Sweep(now), 0)
    {
      if now - lastSweep < SWEEP_INTERVAL_MS {
        return;
      }
      lastSweep := now;
      EraseExpired(now);
    }

    /** The cache part of validate_player_key(). */
    method Find(k: Key, now: int) returns (found: bool, e: Entry)
      modifies this`entries
      ensures Abs() == Step(old(Abs()), Lookup(k, now), 0)
      ensures found <==> Hit(old(entries), k, now)
      ensures found ==> e == old(entries)[k]
    {
      found, e := false, Negative(now, 0);
      if k in entries {
        if now < entries[k].expiry {
          return true, entries[k];
        }
        entries := entries - {k};
      }
    }
  }
}
