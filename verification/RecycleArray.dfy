/**
 * The broadcast ring of one stream: one writer, any number of readers, each reader carrying its own token.
 * `Ring` and `Token` are the values; `PutSpec` and `GetSpec` are the index-level operations;
 * `LogGet` is the same read against an append-only log, with no index in sight.
 */
module RecycleArrays {
  import opened Codes
  import opened WrapArithmetic

  const DEFAULT_MAX_DATA_SIZE: nat := 8 * 1024 * 1024

  datatype Ring = Ring(data: seq<Byte>, writePos: nat, count: nat, generation: nat)

  /** SLSRecycleArrayID. Generation 0 belongs to no ring. */
  datatype Token = Token(readPos: nat, consumed: nat, first: bool, generation: nat)

  predicate InBuffer(pos: nat, data: seq<Byte>) { pos < |data| || pos == 0 == |data| }

  predicate WellFormed(r: Ring) { InBuffer(r.writePos, r.data) }

  predicate Anchored(t: Token, r: Ring) { !t.first && t.generation == r.generation }

  /** An anchored token never points outside the buffer. */
  predicate Readable(t: Token, r: Ring) { Anchored(t, r) ==> InBuffer(t.readPos, r.data) }

  function FreshRing(size: nat, generation: nat): (r: Ring)
    ensures WellFormed(r)
  {
    Ring(seq(size, _ => 0), 0, 0, generation)
  }

  function Overwrite(s: seq<Byte>, at: nat, d: seq<Byte>): (r: seq<Byte>)
    requires at + |d| <= |s|
    ensures |r| == |s|
    ensures forall i :: 0 <= i < |s| ==> r[i] == if at <= i < at + |d| then d[i - at] else s[i]
  {
    s[..at] + d + s[at + |d|..]
  }

  /** First half of put(): the bytes and the write head, moved under the write lock. */
  function StoreBytes(r: Ring, d: seq<Byte>): (r': Ring)
    requires WellFormed(r) && 0 < |d| <= |r.data|
    ensures WellFormed(r') && |r'.data| == |r.data| && r'.generation == r.generation && r'.count == r.count
  {
    var n := |r.data|;
    if n - r.writePos >= |d| then
      var pos := r.writePos + |d|;
      r.(data := Overwrite(r.data, r.writePos, d), writePos := if pos == n then 0 else pos)
    else
      var firstLen := n - r.writePos;
      r.(data := Overwrite(Overwrite(r.data, r.writePos, d[..firstLen]), 0, d[firstLen..]),
         writePos := |d| - firstLen)
  }

  /** Second half of put(): the byte counter, advanced after the lock is released. */
  function Publish(r: Ring, len: nat): Ring { r.(count := r.count + len) }

  predicate PutAccepted(r: Ring, d: seq<Byte>) { 0 < |d| <= |r.data| }

  function PutSpec(r: Ring, d: seq<Byte>): (r': Ring)
    requires WellFormed(r)
    ensures WellFormed(r') && |r'.data| == |r.data| && r'.generation == r.generation
    ensures r'.count == r.count + if PutAccepted(r, d) then |d| else 0
  {
    if PutAccepted(r, d) then Publish(StoreBytes(r, d), |d|) else r
  }

  datatype Read = Read(bytes: seq<Byte>, token: Token, overrun: bool)

  /** Bytes the positions alone say are ready: never 0, a full lap when the positions coincide. */
  function ReadyLength(r: Ring, readPos: nat): (n: nat)
    requires InBuffer(readPos, r.data) && WellFormed(r)
    ensures n <= |r.data|
  {
    if readPos < r.writePos then r.writePos - readPos else |r.data| - readPos + r.writePos
  }

  function CopyOut(data: seq<Byte>, pos: nat, len: nat): (b: seq<Byte>)
    requires InBuffer(pos, data) && len <= |data|
    ensures |b| == len
  {
    if |data| - pos >= len then data[pos..pos + len] else data[pos..] + data[..len - (|data| - pos)]
  }

  function Anchor(r: Ring): Token { Token(r.writePos, r.count, false, r.generation) }

  function GetSpec(r: Ring, t: Token, size: nat, aligned: int): (g: Read)
    requires WellFormed(r) && Readable(t, r)
    ensures Readable(g.token, r) && Anchored(g.token, r) && |g.bytes| <= size
  {
    if !Anchored(t, r) then Read([], Anchor(r), false)
    else if t.readPos == r.writePos && r.count == t.consumed then Read([], t, false)
    else if r.count - t.consumed >= |r.data| || r.count < t.consumed then
      Read([], t.(readPos := r.writePos, consumed := r.count), true)
    else
      var n := |r.data|;
      var len := AlignDown(Min(ReadyLength(r, t.readPos), size), aligned);
      var pos := if n - t.readPos >= len then t.readPos + len else len - (n - t.readPos);
      Read(CopyOut(r.data, t.readPos, len),
           t.(readPos := if pos == n then 0 else pos, consumed := t.consumed + len), false)
  }

  // ----- the append-only log the ring stands for -----

  datatype Cursor = Cursor(consumed: nat, first: bool, generation: nat)

  datatype LogRead = LogRead(bytes: seq<Byte>, cursor: Cursor, jumped: bool)

  /** A reader of the log: joins at the end, loses its place once it is `capacity` or more behind, else reads on. */
  function LogGet(log: seq<Byte>, capacity: nat, generation: nat, c: Cursor, size: nat, aligned: int): (g: LogRead)
    ensures g.cursor.consumed <= |log|
    ensures !g.cursor.first && g.cursor.generation == generation
    ensures g.jumped <==>
            c.first || c.generation != generation || (|log| != c.consumed && !(0 < |log| - c.consumed < capacity))
    ensures !g.jumped ==> |g.bytes| == AlignDown(Min(|log| - c.consumed, size), aligned)
    ensures !g.jumped ==> c.consumed + |g.bytes| == g.cursor.consumed && g.bytes == log[c.consumed..g.cursor.consumed]
    ensures g.jumped ==> g.bytes == [] && g.cursor.consumed == |log|
  {
    if c.first || c.generation != generation then LogRead([], Cursor(|log|, false, generation), true)
    else
      var lag := |log| - c.consumed;
      if lag == 0 then LogRead([], c, false)
      else if lag >= capacity || lag < 0 then LogRead([], c.(consumed := |log|), true)
      else
        var len := AlignDown(Min(lag, size), aligned);
        LogRead(log[c.consumed..c.consumed + len], c.(consumed := c.consumed + len), false)
  }

  /** The buffer holds the last |data| bytes of the log, each at its wrapped position. */
  ghost predicate Represents(r: Ring, log: seq<Byte>) {
    && WellFormed(r)
    && r.count == |log|
    && (r.data == [] ==> log == [])
    && r.writePos == Wrap(r.count, |r.data|)
    && forall i :: 0 <= i < |log| && |log| - |r.data| <= i ==> r.data[Wrap(i, |r.data|)] == log[i]
  }

  /** An anchored token's position is its consumed count, wrapped. */
  ghost predicate Tracks(t: Token, r: Ring) {
    Anchored(t, r) ==> t.consumed <= r.count && t.readPos == Wrap(t.consumed, |r.data|)
  }

  function CursorOf(t: Token): Cursor { Cursor(t.consumed, t.first, t.generation) }

  lemma StoreBytesAt(r: Ring, d: seq<Byte>, i: nat)
    requires WellFormed(r) && PutAccepted(r, d) && i < |r.data|
    ensures var n := |r.data|;
            var k := if i >= r.writePos then i - r.writePos else i + n - r.writePos;
            StoreBytes(r, d).data[i] == if k < |d| then d[k] else r.data[i]
  {
  }

  /** Storing d keeps every log byte that is still less than a lap old and adds d after it. */
  lemma StoreExtends(r: Ring, log: seq<Byte>, d: seq<Byte>)
    requires Represents(r, log) && PutAccepted(r, d)
    ensures Represents(PutSpec(r, d), log + d)
    ensures StoreBytes(r, d).writePos == Wrap(|log| + |d|, |r.data|)
  {
    var n, log' := |r.data|, log + d;
    var r' := StoreBytes(r, d);
    WrapAdvance(|log|, |d|, n);
    forall i | 0 <= i < |log'| && |log'| - n <= i
      ensures r'.data[Wrap(i, n)] == log'[i]
    {
      StoreBytesAt(r, d, Wrap(i, n));
      if i >= |log| {
        WrapAdvance(|log|, i - |log|, n);
      } else {
        WrapAdvance(i, |log| - i, n);
      }
    }
  }

  /** What the positions alone report is exactly the counter lag, for every lag in 1..N-1. */
  lemma ReadyIsLag(r: Ring, t: Token)
    requires WellFormed(r) && r.writePos == Wrap(r.count, |r.data|)
    requires Anchored(t, r) && Tracks(t, r)
    requires 0 < r.count - t.consumed < |r.data|
    ensures ReadyLength(r, t.readPos) == r.count - t.consumed
  {
    WrapAdvance(t.consumed, r.count - t.consumed, |r.data|);
  }

  lemma CopyOutIsSlice(r: Ring, log: seq<Byte>, from: nat, len: nat)
    requires Represents(r, log)
    requires from + len <= |log| <= from + |r.data|
    requires |r.data| > 0
    ensures CopyOut(r.data, Wrap(from, |r.data|), len) == log[from..from + len]
  {
    var n := |r.data|;
    var b := CopyOut(r.data, Wrap(from, n), len);
    forall i | 0 <= i < len
      ensures b[i] == log[from + i]
    {
      WrapAdvance(from, i, n);
      assert r.data[Wrap(from + i, n)] == log[from + i];
    }
  }

  /** Every read of the ring is the read of the log it represents. */
  lemma GetRefinesLog(r: Ring, log: seq<Byte>, t: Token, size: nat, aligned: int)
    requires Represents(r, log) && Tracks(t, r)
    ensures Readable(t, r)
    ensures var g := GetSpec(r, t, size, aligned);
            var l := LogGet(log, |r.data|, r.generation, CursorOf(t), size, aligned);
            && g.bytes == l.bytes
            && CursorOf(g.token) == l.cursor
            && Tracks(g.token, r)
            && (g.overrun <==> Anchored(t, r) && 0 < |log| - t.consumed && |log| - t.consumed >= |r.data|)
  {
    if Anchored(t, r) {
      var n, lag := |r.data|, r.count - t.consumed;
      if 0 < lag < n {
        ReadyIsLag(r, t);
        var len := AlignDown(Min(lag, size), aligned);
        CopyOutIsSlice(r, log, t.consumed, len);
        WrapAdvance(t.consumed, len, n);
      }
    }
  }

  /** What n reads in a row deliver, with no put in between. */
  function InARow(log: seq<Byte>, capacity: nat, c: Cursor, size: nat, n: nat): seq<Byte>
    decreases n
  {
    if n == 0 then []
    else
      var r := LogGet(log, capacity, c.generation, c, size, 0);
      r.bytes + InARow(log, capacity, r.cursor, size, n - 1)
  }

  /** A reader in place that keeps reading gets everything there is, in order, as fast as its buffer allows. */
  lemma {:induction false} ReaderCatchesUp(log: seq<Byte>, capacity: nat, c: Cursor, size: nat, n: nat)
    requires !c.first && 0 <= |log| - c.consumed < capacity
    ensures InARow(log, capacity, c, size, n) == log[c.consumed..c.consumed + Upto(|log| - c.consumed, size, n)]
    decreases n
  {
    hide LogGet, AlignDown, Upto;
    var left := |log| - c.consumed;
    UptoSplit(left, size, n);
    if n > 0 {
      var r := LogGet(log, capacity, c.generation, c, size, 0);
      ReaderCatchesUp(log, capacity, r.cursor, size, n - 1);
      SliceJoin(log, c.consumed, r.cursor.consumed, c.consumed + Upto(left, size, n));
    }
  }

  /** Of `left` bytes, as many as n reads of `size` can take. */
  function Upto(left: nat, size: nat, n: nat): (k: nat)
    ensures k <= left
  {
    Min(left, n * size)
  }

  lemma UptoSplit(left: nat, size: nat, n: nat)
    ensures n == 0 ==> Upto(left, size, n) == 0
    ensures n > 0 ==> Upto(left, size, n) == Min(left, size) + Upto(left - Min(left, size), size, n - 1)
  {
    if n > 0 {
      assert n * size == size + (n - 1) * size;
    }
  }

  lemma SliceJoin(log: seq<Byte>, a: nat, b: nat, c: nat)
    requires a <= b <= c <= |log|
    ensures log[a..b] + log[b..c] == log[a..c]
  {
  }

  /** get_reader_backlog(): bytes this reader is behind, clamped to the buffer size. */
  function Backlog(r: Ring, t: Token): (b: nat)
    ensures b <= |r.data|
  {
    if t.first || r.count < t.consumed then 0 else Min(r.count - t.consumed, |r.data|)
  }

  /** For an anchored reader the gauge is what the next unaligned drain returns, except at the clamp, where it resyncs. */
  lemma BacklogIsNextDrain(r: Ring, log: seq<Byte>, t: Token, size: nat)
    requires Represents(r, log) && Tracks(t, r) && Anchored(t, r) && size >= |r.data|
    ensures Readable(t, r)
    ensures Backlog(r, t) < |r.data| ==> |GetSpec(r, t, size, 0).bytes| == Backlog(r, t)
    ensures Backlog(r, t) == |r.data| > 0 <==> GetSpec(r, t, size, 0).overrun
  {
    GetRefinesLog(r, log, t, size, 0);
  }

  /** The process-wide source of ring identities (s_next_generation). */
  class GenerationSource {
    var next: nat

    constructor ()
      ensures next == 1
    {
      next := 1;
    }

    method Fresh() returns (g: nat)
      modifies this
      ensures g == old(next) && next == old(next) + 1
    {
      g := next;
      next := next + 1;
    }
  }

  /** A reader's mutable token. */
  class Reader {
    var id: Token

    constructor ()
      ensures id == Token(0, 0, true, 0)
    {
      id := Token(0, 0, true, 0);
    }
  }

  class RecycleArray {
    var data: array<Byte>
    var writePos: nat
    var dataCount: nat
    var generation: nat
    var overruns: nat
    /** Every byte put into the current buffer, in order. */
    ghost var log: seq<Byte>

    ghost function State(): Ring
      reads this, data
    {
      Ring(data[..], writePos, dataCount, generation)
    }

    ghost predicate Valid()
      reads this, data
    {
      Represents(State(), log)
    }

    constructor (source: GenerationSource)
      modifies source
      ensures Valid() && fresh(data) && log == [] && overruns == 0
      ensures State() == FreshRing(DEFAULT_MAX_DATA_SIZE, old(source.next))
      ensures source.next == old(source.next) + 1
    {
      writePos, dataCount, overruns, log := 0, 0, 0, [];
      var g := source.Fresh();
      generation := g;
      data := new Byte[DEFAULT_MAX_DATA_SIZE](_ => 0);
    }

    /** Replaces the buffer: a new incarnation with an empty log. */
    method SetSize(n: nat, source: GenerationSource)
      modifies this, source
      ensures Valid() && fresh(data) && log == [] && overruns == old(overruns)
      ensures State() == FreshRing(n, old(source.next))
      ensures source.next == old(source.next) + 1
    {
      writePos, dataCount, log := 0, 0, [];
      generation := source.Fresh();
      data := new Byte[n](_ => 0);
    }

    /** The locked part of put(): copy in, wrapping at most once, and move the head. */
    method StoreLocked(d: seq<Byte>)
      requires WellFormed(State()) && 0 < |d| <= data.Length
      modifies this`writePos, data
      ensures State() == StoreBytes(old(State()), d)
    {
      if data.Length - writePos >= |d| {
        CopyIn(data, writePos, d);
        writePos := writePos + |d|;
      } else {
        var firstLen := data.Length - writePos;
        CopyIn(data, writePos, d[..firstLen]);
        CopyIn(data, 0, d[firstLen..]);
        writePos := |d| - firstLen;
      }
      if writePos == data.Length {
        writePos := 0;
      }
    }

    method Put(d: seq<Byte>) returns (ret: int)
      requires Valid()
      modifies this`writePos, this`dataCount, this`log, data
      ensures Valid()
      ensures State() == PutSpec(old(State()), d)
      ensures 0 < |d| <= data.Length ==> ret == |d| && log == old(log) + d
      ensures !(0 < |d| <= data.Length) ==> ret == SLS_ERROR && log == old(log)
    {
      if |d| == 0 || |d| > data.Length {
        return SLS_ERROR;
      }
      StoreExtends(State(), log, d);
      StoreLocked(d);
      dataCount := dataCount + |d|;
      log := log + d;
      ret := |d|;
    }

    /** The index arithmetic of get(), once the token is known to be anchored and neither idle nor lapped. */
    method Drain(t: Token, size: nat, aligned: int) returns (out: seq<Byte>, t': Token)
      requires WellFormed(State()) && Anchored(t, State()) && Readable(t, State())
      requires data.Length > 0 && 0 <= dataCount - t.consumed < data.Length
      requires !(t.readPos == writePos && dataCount == t.consumed)
      ensures GetSpec(State(), t, size, aligned) == Read(out, t', false)
    {
      var n, pos := data.Length, t.readPos;
      var len;
      if t.readPos < writePos {
        len := AlignDown(Min(writePos - t.readPos, size), aligned);
        out := data[pos..pos + len];
        pos := pos + len;
      } else {
        len := AlignDown(Min(n - t.readPos + writePos, size), aligned);
        if n - t.readPos >= len {
          out := data[pos..pos + len];
          pos := pos + len;
        } else {
          out := data[pos..] + data[..len - (n - pos)];
          pos := len - (n - pos);
        }
      }
      assert out == CopyOut(State().data, t.readPos, len);
      hide CopyOut, AlignDown;
      if pos == n {
        pos := 0;
      }
      t' := t.(readPos := pos, consumed := t.consumed + len);
    }

    /** Bytes come back as `out`; `ret` is their number, 0 for nothing to deliver. */
    method Get(reader: Reader?, size: nat, aligned: int) returns (ret: int, out: seq<Byte>)
      requires Valid()
      requires reader != null ==> Tracks(reader.id, State())
      modifies this`overruns, reader
      ensures Valid() && State() == old(State()) && log == old(log)
      ensures reader == null ==> ret == SLS_ERROR && out == [] && overruns == old(overruns)
      ensures reader != null ==> ret == |out| && Tracks(reader.id, State())
      ensures reader != null ==>
                var l := LogGet(log, data.Length, generation, CursorOf(old(reader.id)), size, aligned);
                out == l.bytes && CursorOf(reader.id) == l.cursor
      ensures reader != null ==>
                && Readable(old(reader.id), State())
                && var g := GetSpec(State(), old(reader.id), size, aligned);
                   g.token == reader.id && overruns == old(overruns) + if g.overrun then 1 else 0
    {
      if reader == null {
        return SLS_ERROR, [];
      }
      var t := reader.id;
      GetRefinesLog(State(), log, t, size, aligned);
      out := [];
      if t.first || t.generation != generation {
        reader.id := Token(writePos, dataCount, false, generation);
        return SLS_OK, [];
      }
      if t.readPos == writePos && dataCount == t.consumed {
        return SLS_OK, [];
      }
      var behind := dataCount - t.consumed;
      if behind >= data.Length || behind < 0 {
        overruns := overruns + 1;
        reader.id := t.(readPos := writePos, consumed := dataCount);
        return SLS_OK, [];
      }
      var t';
      out, t' := Drain(t, size, aligned);
      reader.id := t';
      ret := |out|;
    }
  }

  /** memcpy into the buffer. */
  method CopyIn(dst: array<Byte>, at: nat, src: seq<Byte>)
    requires at + |src| <= dst.Length
    modifies dst
    ensures dst[..] == Overwrite(old(dst[..]), at, src)
  {
    forall i | 0 <= i < |src| {
      dst[at + i] := src[i];
    }
  }
}
