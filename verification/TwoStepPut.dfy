/**
 * put() as the two steps it really is: bytes and write head move under the lock, the byte counter after it.
 * A read that falls between the two sees a head that is ahead of the counter.
 */
module TwoStepPut {
  import opened WrapArithmetic
  import opened RecycleArrays

  type ReaderId = nat

  datatype GapOp =
    | Store(bytes: seq<Byte>)
    | PublishCount
    | Fetch(reader: ReaderId, size: nat, aligned: int)

  /** `pending` bytes are stored but not yet counted. */
  datatype Gap = Gap(ring: Ring, pending: nat, tokens: map<ReaderId, Token>)

  function TokenOf(s: Gap, r: ReaderId): Token {
    if r in s.tokens then s.tokens[r] else Token(0, 0, true, 0)
  }

  /** The ring as it will be once the pending put has finished. */
  function Settled(s: Gap): Ring { Publish(s.ring, s.pending) }

  ghost predicate InBounds(s: Gap) {
    WellFormed(s.ring) && forall r :: Readable(TokenOf(s, r), s.ring)
  }

  /** One writer per ring: a second store waits for the first one's count. */
  ghost predicate Enabled(s: Gap, op: GapOp) {
    match op
    case Store(bytes) => s.pending == 0 && PutAccepted(s.ring, bytes)
    case PublishCount => s.pending > 0
    case Fetch(_, _, _) => true
  }

  ghost function Step(s: Gap, op: GapOp): (s': Gap)
    requires InBounds(s) && Enabled(s, op)
    ensures InBounds(s')
  {
    match op
    case Store(bytes) =>
      var s' := s.(ring := StoreBytes(s.ring, bytes), pending := |bytes|);
      assert forall r :: TokenOf(s', r) == TokenOf(s, r);
      s'
    case PublishCount =>
      var s' := s.(ring := Settled(s), pending := 0);
      assert forall r :: TokenOf(s', r) == TokenOf(s, r);
      s'
    case Fetch(r, size, aligned) =>
      var s' := s.(tokens := s.tokens[r := GetSpec(s.ring, TokenOf(s, r), size, aligned).token]);
      assert forall q :: q != r ==> TokenOf(s', q) == TokenOf(s, q);
      s'
  }

  /** The head is the settled count, wrapped, in every state of every run, so head and count agree outside the gap. */
  ghost predicate HeadIsSettledCount(s: Gap) {
    s.ring.writePos == Wrap(s.ring.count + s.pending, |s.ring.data|)
  }

  /** A read in the gap that does no harm: anchored, not ahead of the counter, and less than a lap behind the head. */
  ghost predicate SafeInGap(s: Gap, t: Token) {
    Anchored(t, s.ring) && t.consumed <= s.ring.count && s.ring.count + s.pending - t.consumed < |s.ring.data|
  }

  ghost predicate Legal(s: Gap, ops: seq<GapOp>)
    requires InBounds(s)
    decreases |ops|
  {
    ops == [] || (Enabled(s, ops[0]) && Legal(Step(s, ops[0]), ops[1..]))
  }

  ghost function Run(s: Gap, ops: seq<GapOp>): Gap
    requires InBounds(s) && Legal(s, ops)
    decreases |ops|
  {
    if ops == [] then s else Run(Step(s, ops[0]), ops[1..])
  }

  /** In every run, reads in the gap included, the head never leaves the settled count. */
  lemma {:induction false} HeadFollowsCount(s: Gap, ops: seq<GapOp>)
    requires InBounds(s) && Legal(s, ops) && HeadIsSettledCount(s)
    ensures HeadIsSettledCount(Run(s, ops))
    decreases |ops|
  {
    if ops != [] {
      if ops[0].Store? {
        WrapAdvance(s.ring.count, |ops[0].bytes|, |s.ring.data|);
      }
      HeadFollowsCount(Step(s, ops[0]), ops[1..]);
    }
  }

  /** Every read happens outside the gap or is harmless in it. */
  ghost predicate Disciplined(s: Gap, ops: seq<GapOp>)
    requires InBounds(s) && Legal(s, ops)
    decreases |ops|
  {
    ops == [] || (
      && (ops[0].Fetch? && s.pending > 0 ==> SafeInGap(s, TokenOf(s, ops[0].reader)))
      && Disciplined(Step(s, ops[0]), ops[1..]))
  }

  ghost function Reads(s: Gap, ops: seq<GapOp>): seq<seq<Byte>>
    requires InBounds(s) && Legal(s, ops)
    decreases |ops|
  {
    if ops == [] then []
    else
      var rest := Reads(Step(s, ops[0]), ops[1..]);
      match ops[0]
      case Fetch(r, size, aligned) => [GetSpec(s.ring, TokenOf(s, r), size, aligned).bytes] + rest
      case _ => rest
  }

  /** The same operations against one growing log; a store is visible at once, a publish means nothing. */
  ghost function LogReads(log: seq<Byte>, capacity: nat, g: nat, cursors: map<ReaderId, Cursor>, ops: seq<GapOp>): seq<seq<Byte>>
    decreases |ops|
  {
    if ops == [] then []
    else
      match ops[0]
      case Store(bytes) => LogReads(log + bytes, capacity, g, cursors, ops[1..])
      case PublishCount => LogReads(log, capacity, g, cursors, ops[1..])
      case Fetch(r, size, aligned) =>
        var l := LogGet(log, capacity, g, CursorAt(cursors, r), size, aligned);
        [l.bytes] + LogReads(log, capacity, g, cursors[r := l.cursor], ops[1..])
  }

  function CursorAt(cursors: map<ReaderId, Cursor>, r: ReaderId): Cursor {
    if r in cursors then cursors[r] else Cursor(0, true, 0)
  }

  ghost predicate Refines(s: Gap, log: seq<Byte>, cursors: map<ReaderId, Cursor>) {
    && Represents(Settled(s), log)
    && forall r :: Tracks(TokenOf(s, r), Settled(s)) && CursorOf(TokenOf(s, r)) == CursorAt(cursors, r)
  }

  /** A harmless gap read is the read of the settled ring. */
  lemma SafeReadIsSettledRead(s: Gap, log: seq<Byte>, t: Token, size: nat, aligned: int)
    requires Represents(Settled(s), log) && Tracks(t, Settled(s))
    requires s.pending == 0 || SafeInGap(s, t)
    ensures Readable(t, s.ring) && GetSpec(s.ring, t, size, aligned) == GetSpec(Settled(s), t, size, aligned)
  {
    if s.pending > 0 {
      WrapInjective(t.consumed, s.ring.count + s.pending, |s.ring.data|);
    }
  }

  lemma FetchRefines(s: Gap, log: seq<Byte>, cursors: map<ReaderId, Cursor>, op: GapOp)
    requires InBounds(s) && Refines(s, log, cursors) && op.Fetch?
    requires s.pending == 0 || SafeInGap(s, TokenOf(s, op.reader))
    ensures var l := LogGet(log, |s.ring.data|, s.ring.generation, CursorAt(cursors, op.reader), op.size, op.aligned);
            && GetSpec(s.ring, TokenOf(s, op.reader), op.size, op.aligned).bytes == l.bytes
            && Refines(Step(s, op), log, cursors[op.reader := l.cursor])
  {
    var r, t, s' := op.reader, TokenOf(s, op.reader), Step(s, op);
    SafeReadIsSettledRead(s, log, t, op.size, op.aligned);
    GetRefinesLog(Settled(s), log, t, op.size, op.aligned);
    var cursors' := cursors[r := CursorOf(TokenOf(s', r))];
    assert forall q :: q != r ==> TokenOf(s', q) == TokenOf(s, q) && CursorAt(cursors', q) == CursorAt(cursors, q);
  }

  lemma WriteRefines(s: Gap, log: seq<Byte>, cursors: map<ReaderId, Cursor>, op: GapOp)
    requires InBounds(s) && Refines(s, log, cursors) && !op.Fetch? && Enabled(s, op)
    ensures Refines(Step(s, op), if op.Store? then log + op.bytes else log, cursors)
  {
    if op.Store? {
      StoreExtends(s.ring, log, op.bytes);
    }
    assert forall r :: TokenOf(Step(s, op), r) == TokenOf(s, r);
  }

  /** Every run whose gap reads are all harmless, gap-free runs among them, reads the log. */
  lemma {:induction false} DisciplinedRunsReadTheLog(
    s: Gap, log: seq<Byte>, cursors: map<ReaderId, Cursor>, ops: seq<GapOp>)
    requires InBounds(s) && Refines(s, log, cursors) && Legal(s, ops) && Disciplined(s, ops)
    ensures Reads(s, ops) == LogReads(log, |s.ring.data|, s.ring.generation, cursors, ops)
    decreases |ops|
  {
    if ops != [] {
      hide Refines;
      var op := ops[0];
      match op {
        case Fetch(r, size, aligned) =>
          FetchRefines(s, log, cursors, op);
          var l := LogGet(log, |s.ring.data|, s.ring.generation, CursorAt(cursors, r), size, aligned);
          DisciplinedRunsReadTheLog(Step(s, op), log, cursors[r := l.cursor], ops[1..]);
        case Store(bytes) =>
          WriteRefines(s, log, cursors, op);
          DisciplinedRunsReadTheLog(Step(s, op), log + bytes, cursors, ops[1..]);
        case PublishCount =>
          WriteRefines(s, log, cursors, op);
          DisciplinedRunsReadTheLog(Step(s, op), log, cursors, ops[1..]);
      }
    }
  }

  /** A read inside the gap answers as the log does, and leaves the reader where the log does, exactly when it is harmless. */
  lemma GapReadIsLogReadIff(s: Gap, log: seq<Byte>, t: Token, size: nat, aligned: int)
    requires Represents(Settled(s), log) && Tracks(t, Settled(s)) && 0 < s.pending <= |s.ring.data|
    ensures Readable(t, s.ring)
    ensures var g := GetSpec(s.ring, t, size, aligned);
            var l := LogGet(log, |s.ring.data|, s.ring.generation, CursorOf(t), size, aligned);
            g.bytes == l.bytes && CursorOf(g.token) == l.cursor <==> SafeInGap(s, t)
  {
    if SafeInGap(s, t) {
      SafeReadIsSettledRead(s, log, t, size, aligned);
      GetRefinesLog(Settled(s), log, t, size, aligned);
    }
  }

  /** Every fetch of the run answers as the log does and leaves its reader where the log does. */
  ghost predicate Follows(s: Gap, log: seq<Byte>, cursors: map<ReaderId, Cursor>, ops: seq<GapOp>)
    requires InBounds(s) && Legal(s, ops)
    decreases |ops|
  {
    ops == [] ||
    match ops[0]
    case Store(bytes) => Follows(Step(s, ops[0]), log + bytes, cursors, ops[1..])
    case PublishCount => Follows(Step(s, ops[0]), log, cursors, ops[1..])
    case Fetch(r, size, aligned) =>
      var g := GetSpec(s.ring, TokenOf(s, r), size, aligned);
      var l := LogGet(log, |s.ring.data|, s.ring.generation, CursorAt(cursors, r), size, aligned);
      && g.bytes == l.bytes && CursorOf(g.token) == l.cursor
      && Follows(Step(s, ops[0]), log, cursors[r := l.cursor], ops[1..])
  }

  /** So a run follows the log, answer by answer and place by place, if and only if all its gap reads are harmless. */
  lemma {:induction false} FollowsLogIffDisciplined(s: Gap, log: seq<Byte>, cursors: map<ReaderId, Cursor>, ops: seq<GapOp>)
    requires InBounds(s) && Refines(s, log, cursors) && s.pending <= |s.ring.data| && Legal(s, ops)
    ensures Follows(s, log, cursors, ops) <==> Disciplined(s, ops)
    decreases |ops|
  {
    if ops != [] {
      var op := ops[0];
      match op {
        case Fetch(r, size, aligned) =>
          FetchFollowsIff(s, log, cursors, op);
          if s.pending == 0 || SafeInGap(s, TokenOf(s, r)) {
            hide Refines, SafeInGap, GetSpec, LogGet;
            FetchRefines(s, log, cursors, op);
            var l := LogGet(log, |s.ring.data|, s.ring.generation, CursorAt(cursors, r), size, aligned);
            FollowsLogIffDisciplined(Step(s, op), log, cursors[r := l.cursor], ops[1..]);
          }
        case Store(bytes) =>
          hide Refines;
          WriteRefines(s, log, cursors, op);
          FollowsLogIffDisciplined(Step(s, op), log + bytes, cursors, ops[1..]);
        case PublishCount =>
          hide Refines;
          WriteRefines(s, log, cursors, op);
          FollowsLogIffDisciplined(Step(s, op), log, cursors, ops[1..]);
      }
    }
  }

  lemma FetchFollowsIff(s: Gap, log: seq<Byte>, cursors: map<ReaderId, Cursor>, op: GapOp)
    requires InBounds(s) && Refines(s, log, cursors) && s.pending <= |s.ring.data| && op.Fetch?
    ensures var g := GetSpec(s.ring, TokenOf(s, op.reader), op.size, op.aligned);
            var l := LogGet(log, |s.ring.data|, s.ring.generation, CursorAt(cursors, op.reader), op.size, op.aligned);
            g.bytes == l.bytes && CursorOf(g.token) == l.cursor
            <==> s.pending == 0 || SafeInGap(s, TokenOf(s, op.reader))
  {
    var t := TokenOf(s, op.reader);
    assert Tracks(t, Settled(s)) && CursorOf(t) == CursorAt(cursors, op.reader);
    if s.pending == 0 {
      GetRefinesLog(s.ring, log, t, op.size, op.aligned);
    } else {
      GapReadIsLogReadIff(s, log, t, op.size, op.aligned);
    }
  }

  lemma LappedInGapIsReady(s: Gap, log: seq<Byte>, t: Token)
    requires Represents(Settled(s), log) && Tracks(t, Settled(s)) && Anchored(t, s.ring)
    requires 0 < s.pending <= |s.ring.data| < |log| - t.consumed < 2 * |s.ring.data|
    ensures var n, len := |s.ring.data|, |log| - t.consumed - |s.ring.data|;
            && t.readPos < n && ReadyLength(s.ring, t.readPos) == len
            && CopyOut(s.ring.data, t.readPos, len) == log[t.consumed + n..]
  {
    hide CopyOut;
    var n := |s.ring.data|;
    var len := |log| - t.consumed - n;
    WrapAdvance(t.consumed, n, n);
    WrapAdvance(t.consumed + n, len, n);
    CopyOutIsSlice(Settled(s), log, t.consumed + n, len);
  }

  /**
   * The reader that the pending put overtakes by a full lap: the counter does not show it yet, so instead of a resync
   * it gets bytes a lap too new, and books them as its next ones.
   */
  lemma LappedInGapReadsALapAhead(s: Gap, log: seq<Byte>, t: Token, size: nat)
    requires Represents(Settled(s), log) && Tracks(t, Settled(s)) && Anchored(t, s.ring)
    requires 0 < s.pending <= |s.ring.data| <= size
    requires 0 < s.ring.count - t.consumed < |s.ring.data| < s.ring.count + s.pending - t.consumed
    ensures Readable(t, s.ring)
    ensures var n, g := |s.ring.data|, GetSpec(s.ring, t, size, 0);
            && g.bytes == log[t.consumed + n..] != [] && !g.overrun
            && g.token.consumed == t.consumed + |g.bytes| < |log|
            && LogGet(log, n, s.ring.generation, CursorOf(t), size, 0).bytes == []
  {
    hide Wrap, CopyOut;
    LappedInGapIsReady(s, log, t);
  }

  /** Inside a gap shorter than a lap, a read keeps the reader's place exactly when it is anchored and its counted lag is in 0..N-1; what it is given there may still be a lap too new. */
  lemma GapReadKeepsPlace(s: Gap, log: seq<Byte>, t: Token, size: nat, aligned: int)
    requires Represents(Settled(s), log) && Tracks(t, Settled(s)) && 0 < s.pending < |s.ring.data|
    ensures Readable(t, s.ring)
    ensures Tracks(GetSpec(s.ring, t, size, aligned).token, Settled(s)) <==>
            Anchored(t, s.ring) && 0 <= s.ring.count - t.consumed < |s.ring.data|
  {
    var n := |s.ring.data|;
    WrapInjective(s.ring.count, s.ring.count + s.pending, n);
    if Anchored(t, s.ring) && 0 <= s.ring.count - t.consumed < n {
      GapReadAdvances(s, t, AlignDown(Min(ReadyLength(s.ring, t.readPos), size), aligned));
    }
  }

  lemma GapReadAdvances(s: Gap, t: Token, len: nat)
    requires WellFormed(s.ring) && HeadIsSettledCount(s) && 0 < s.pending < |s.ring.data|
    requires Anchored(t, s.ring) && Tracks(t, Settled(s)) && 0 <= s.ring.count - t.consumed < |s.ring.data|
    requires len <= ReadyLength(s.ring, t.readPos)
    ensures t.consumed + len <= s.ring.count + s.pending
    ensures var pos := if t.readPos + len < |s.ring.data| then t.readPos + len else t.readPos + len - |s.ring.data|;
            pos == Wrap(t.consumed + len, |s.ring.data|)
  {
    var n, lag := |s.ring.data|, s.ring.count + s.pending - t.consumed;
    WrapAdvance(t.consumed, if lag <= n then lag else lag - n, n);
    if lag > n {
      WrapAdvance(t.consumed + lag - n, n, n);
    }
    WrapAdvance(t.consumed, len, n);
  }

  /**
   * Joining inside the gap, for every ring and every put shorter than a lap: the reader sits on the head with
   * nothing unread, yet once the count is published its next read is offered the whole buffer.
   */
  lemma AnchorInGapIsOfferedWholeRing(r: Ring, log: seq<Byte>, d: seq<Byte>, t: Token, size: nat)
    requires Represents(r, log) && 0 < |d| < |r.data| <= size && !Anchored(t, r)
    ensures var inGap := StoreBytes(r, d);
            var joined := GetSpec(inGap, t, size, 0).token;
            var after := Publish(inGap, |d|);
            && joined.readPos == after.writePos
            && Readable(joined, after)
            && |GetSpec(after, joined, size, 0).bytes| == |r.data|
            && !Tracks(joined, after)
  {
  }

  /** The smallest case: an 8-byte ring, a put of 3, and 8 bytes delivered of which 5 were never put. */
  lemma JoinDuringPutExample()
    ensures var inGap := StoreBytes(FreshRing(8, 1), [7, 7, 7]);
            var joined := GetSpec(inGap, Token(0, 0, true, 0), 8, 0).token;
            GetSpec(Publish(inGap, 3), joined, 8, 0).bytes == [0, 0, 0, 0, 0, 7, 7, 7]
  {
  }
}
