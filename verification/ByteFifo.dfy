/** CSLSArray: a byte FIFO over a wrapping buffer that is meant to grow when a put does not fit. */
module ByteFifos {
  import opened Codes
  import opened WrapArithmetic
  import opened RecycleArrays

  const GROWTH_STEP: nat := 4096

  datatype Fifo = Fifo(data: seq<Byte>, readPos: nat, writePos: nat, count: int)

  predicate InBounds(f: Fifo) { InBuffer(f.readPos, f.data) && InBuffer(f.writePos, f.data) }

  /** write = (read + count) mod size: the relation every operation relies on. */
  ghost predicate WellPlaced(f: Fifo) {
    InBounds(f) && 0 <= f.count <= |f.data| && f.writePos == Wrap(f.readPos + f.count, |f.data|)
  }

  /** The bytes the FIFO holds, oldest first. */
  ghost function Contents(f: Fifo): (s: seq<Byte>)
    requires WellPlaced(f)
    ensures |s| == f.count
  {
    CopyOut(f.data, f.readPos, f.count)
  }

  function Fresh(size: nat): Fifo { Fifo(seq(size, _ => 0), 0, 0, 0) }

  function Ready(f: Fifo): (n: nat)
    requires InBounds(f)
    ensures n <= |f.data|
  {
    if f.readPos < f.writePos then f.writePos - f.readPos else |f.data| - f.readPos + f.writePos
  }

  /** get_inline(): how much to copy is read off the positions, not the count. */
  function TakeSpec(f: Fifo, size: nat): (r: (Fifo, seq<Byte>))
    requires InBounds(f)
    ensures InBounds(r.0) && r.0.data == f.data && r.0.writePos == f.writePos && r.0.count == f.count - |r.1|
    ensures |r.1| <= size
  {
    if f.count == 0 then (f, [])
    else
      var n := |f.data|;
      var len := Min(Ready(f), size);
      var pos := if n - f.readPos >= len then f.readPos + len else len - (n - f.readPos);
      (f.(readPos := if pos == n then 0 else pos, count := f.count - len), CopyOut(f.data, f.readPos, len))
  }

  predicate Outgrows(f: Fifo, d: seq<Byte>) { |d| > |f.data| - f.count }

  function GrownSize(f: Fifo, d: seq<Byte>): nat { |f.data| + if GROWTH_STEP >= |d| then GROWTH_STEP else |d| }

  /** The growth branch: held bytes and new bytes moved to the front, both positions back to 0. `junk` is uninitialised memory. */
  function Grow(f: Fifo, d: seq<Byte>, junk: seq<Byte>): Fifo
    requires InBounds(f) && f.count >= 0
  {
    var moved := TakeSpec(f, f.count).1;
    Fifo(moved + d + junk, 0, 0, |moved| + |d|)
  }

  /** The in-place branch; a put longer than the buffer, let through by a negative count, wraps onto its own head. */
  function PutInPlace(f: Fifo, d: seq<Byte>): (f': Fifo)
    requires InBounds(f) && 0 < |d| <= 2 * |f.data| - f.writePos
    ensures InBounds(f') && |f'.data| == |f.data| && f'.count == f.count + |d|
  {
    if |d| <= |f.data| then
      var r := StoreBytes(Ring(f.data, f.writePos, 0, 0), d);
      Fifo(r.data, f.readPos, r.writePos, f.count + |d|)
    else
      var firstLen := |f.data| - f.writePos;
      var pos := |d| - firstLen;
      Fifo(Overwrite(Overwrite(f.data, f.writePos, d[..firstLen]), 0, d[firstLen..]), f.readPos,
           if pos == |f.data| then 0 else pos, f.count + |d|)
  }

  /**
   * The puts that stay inside the buffer. The others copy a negative length (growth with a negative count) or past the
   * end of the buffer.
   */
  predicate Defined(f: Fifo, d: seq<Byte>) {
    d != [] ==> if Outgrows(f, d) then f.count >= 0 else |d| <= 2 * |f.data| - f.writePos
  }

  // ----- in place, it is a FIFO -----

  /** The position `len` bytes further on, wrapping at most once. */
  function Advance(pos: nat, len: nat, n: nat): nat
    requires pos < n && len <= n
  {
    if pos + len < n then pos + len else pos + len - n
  }

  lemma CopyOutSplit(data: seq<Byte>, pos: nat, len: nat, k: nat)
    requires pos < |data| && k <= len <= |data|
    ensures CopyOut(data, pos, k) == CopyOut(data, pos, len)[..k]
    ensures CopyOut(data, Advance(pos, k, |data|), len - k) == CopyOut(data, pos, len)[k..]
  {
  }

  /** While the relation holds, the positions tell the count. */
  lemma ReadyIsCount(f: Fifo)
    requires WellPlaced(f) && f.count > 0
    ensures Ready(f) == f.count && f.writePos == Advance(f.readPos, f.count, |f.data|)
  {
    WrapAdvance(f.readPos, f.count, |f.data|);
    DivModUnique(f.readPos, 0, f.readPos, |f.data|);
  }

  lemma GetTakesOldest(f: Fifo, size: nat)
    requires WellPlaced(f)
    ensures var (f', b) := TakeSpec(f, size);
            && WellPlaced(f')
            && b == Contents(f)[..Min(size, f.count)]
            && Contents(f') == Contents(f)[Min(size, f.count)..]
  {
    if f.count > 0 {
      var n, len, f' := |f.data|, Min(f.count, size), TakeSpec(f, size).0;
      ReadyIsCount(f);
      assert f'.readPos == Advance(f.readPos, len, n);
      SamePlace(f'.readPos + f'.count, f.readPos + f.count, n, if f'.readPos == f.readPos + len then 0 else 1);
      hide Wrap;
      CopyOutSplit(f.data, f.readPos, f.count, len);
    }
  }

  /** A whole lap apart is the same place. */
  lemma SamePlace(a: nat, b: nat, n: nat, laps: nat)
    requires n > 0 && a + laps * n == b && laps <= 1
    ensures Wrap(a, n) == Wrap(b, n)
  {
    if laps == 1 {
      WrapAdvance(a, n, n);
    }
  }

  lemma CopyOutAt(data: seq<Byte>, pos: nat, len: nat, i: nat)
    requires pos < |data| && i < len <= |data|
    ensures CopyOut(data, pos, len)[i] == data[Advance(pos, i, |data|)]
  {
  }

  lemma PutAppends(f: Fifo, d: seq<Byte>)
    requires WellPlaced(f) && 0 < |d| && !Outgrows(f, d)
    ensures WellPlaced(PutInPlace(f, d)) && Contents(PutInPlace(f, d)) == Contents(f) + d
  {
    var n, f' := |f.data|, PutInPlace(f, d);
    DivModUnique(f.readPos, 0, f.readPos, n);
    WrapAdvance(f.readPos, f.count, n);
    WrapAdvance(f.readPos + f.count, |d|, n);
    WrapAdvance(f.readPos, f'.count, n);
    assert f.writePos == Advance(f.readPos, f.count, n);
    var c := Contents(f) + d;
    forall i | 0 <= i < f'.count
      ensures Contents(f')[i] == c[i]
    {
      PutAppendsAt(f, d, i);
    }
  }

  lemma PutAppendsAt(f: Fifo, d: seq<Byte>, i: nat)
    requires f.readPos < |f.data| && f.count >= 0 && 0 < |d| && f.count + |d| <= |f.data| && i < f.count + |d|
    requires f.writePos == Advance(f.readPos, f.count, |f.data|)
    ensures CopyOut(PutInPlace(f, d).data, f.readPos, f.count + |d|)[i]
         == (CopyOut(f.data, f.readPos, f.count) + d)[i]
  {
    hide CopyOut, StoreBytes;
    var at := Advance(f.readPos, i, |f.data|);
    StoreBytesAt(Ring(f.data, f.writePos, 0, 0), d, at);
    CopyOutAt(PutInPlace(f, d).data, f.readPos, f.count + |d|, i);
    if i < f.count {
      CopyOutAt(f.data, f.readPos, f.count, i);
    }
  }

  // ----- growth -----

  /** Growth copies the right bytes to the front, but restores the relation only when it fills the new buffer exactly. */
  lemma GrowthKeepsRelationIff(f: Fifo, d: seq<Byte>, junk: seq<Byte>)
    requires WellPlaced(f) && 0 < |d| && Outgrows(f, d) && |junk| == GrownSize(f, d) - f.count - |d|
    ensures var g := Grow(f, d, junk);
            && |g.data| == GrownSize(f, d)
            && g.count == f.count + |d|
            && g.data[..g.count] == Contents(f) + d
            && (WellPlaced(g) <==> f.count == |f.data| && |d| >= GROWTH_STEP)
  {
    GetTakesOldest(f, f.count);
    assert Contents(f)[..f.count] == Contents(f);
    var g := Grow(f, d, junk);
    var n := |g.data|;
    if g.count < n {
      DivModUnique(g.count, 0, g.count, n);
    } else {
      DivModUnique(n, 1, 0, n);
    }
  }

  /** When it does not, the next large enough get returns the whole buffer, junk included, and the count goes negative. */
  lemma BrokenGrowthOverreads(f: Fifo, d: seq<Byte>, junk: seq<Byte>, size: nat)
    requires WellPlaced(f) && 0 < |d| && Outgrows(f, d) && |junk| == GrownSize(f, d) - f.count - |d|
    requires !(f.count == |f.data| && |d| >= GROWTH_STEP) && size >= GrownSize(f, d)
    ensures var g := Grow(f, d, junk);
            && InBounds(g)
            && TakeSpec(g, size).1 == Contents(f) + d + junk
            && junk != [] && TakeSpec(g, size).0.count == -|junk|
  {
    GrowthKeepsRelationIff(f, d, junk);
    assert Contents(f)[..f.count] == Contents(f);
    GetTakesOldest(f, f.count);
  }

  /**
   * What a put does after such an over-read: it is undefined exactly when it is longer than the buffer and the junk
   * together; otherwise it goes in place, and one that brings the count back to 0 can never be read.
   */
  lemma PutAfterOverread(f: Fifo, d: seq<Byte>, junk: seq<Byte>, size: nat, e: seq<Byte>)
    requires WellPlaced(f) && 0 < |d| && Outgrows(f, d) && |junk| == GrownSize(f, d) - f.count - |d|
    requires !(f.count == |f.data| && |d| >= GROWTH_STEP) && size >= GrownSize(f, d) && e != []
    ensures var g := Grow(f, d, junk);
            InBounds(g) && var g1 := TakeSpec(g, size).0;
            && (Defined(g1, e) <==> |e| <= |g1.data| + |junk|)
            && (Defined(g1, e) ==> PutInPlace(g1, e).count == |e| - |junk|)
            && (|e| == |junk| ==> forall n: nat :: TakeSpec(PutInPlace(g1, e), n) == (PutInPlace(g1, e), []))
  {
    BrokenGrowthOverreads(f, d, junk, size);
    hide PutInPlace, Contents, Wrap;
  }

  /** Until a count goes negative every put is defined. */
  lemma DefinedUntilOverread(f: Fifo, d: seq<Byte>)
    requires InBounds(f) && f.count >= 0
    ensures Defined(f, d)
  {
  }

  // ----- runs -----

  datatype Op = Put(bytes: seq<Byte>, junk: seq<Byte>) | Get(size: nat)

  /** The guard a caller would have to check: the put fits, or it grows a full buffer by at least a step. */
  predicate Fits(f: Fifo, op: Op) {
    op.Put? && op.bytes != [] && Outgrows(f, op.bytes) ==>
      && f.count == |f.data| && |op.bytes| >= GROWTH_STEP
      && |op.junk| == GrownSize(f, op.bytes) - f.count - |op.bytes|
  }

  function Step(f: Fifo, op: Op): (Fifo, seq<Byte>)
    requires InBounds(f) && f.count >= 0
  {
    match op
    case Put(d, junk) =>
      if d == [] then (f, []) else if Outgrows(f, d) then (Grow(f, d, junk), []) else (PutInPlace(f, d), [])
    case Get(size) => TakeSpec(f, size)
  }

  lemma StepIsFifo(f: Fifo, op: Op)
    requires WellPlaced(f) && Fits(f, op)
    ensures var (f', got) := Step(f, op);
            && WellPlaced(f')
            && got + Contents(f') == Contents(f) + if op.Put? then op.bytes else []
  {
    match op {
      case Put(d, junk) =>
        if d != [] && Outgrows(f, d) {
          GrowthKeepsRelationIff(f, d, junk);
          assert junk == [];
          var g := Grow(f, d, junk);
          assert Contents(g) == g.data[..g.count];
        } else if d != [] {
          PutAppends(f, d);
        }
      case Get(size) => GetTakesOldest(f, size);
    }
  }

  /** The buffer with everything ever got from it and put into it. */
  datatype Ledger = Ledger(fifo: Fifo, got: seq<Byte>, put: seq<Byte>)

  ghost predicate Balanced(l: Ledger) { WellPlaced(l.fifo) && l.got + Contents(l.fifo) == l.put }

  function Post(l: Ledger, op: Op): Ledger
    requires InBounds(l.fifo) && l.fifo.count >= 0
  {
    var (f, got) := Step(l.fifo, op);
    Ledger(f, l.got + got, if op.Put? then l.put + op.bytes else l.put)
  }

  lemma PostBalances(l: Ledger, op: Op)
    requires Balanced(l) && Fits(l.fifo, op)
    ensures Balanced(Post(l, op))
  {
    hide Contents, Step, Fits, Wrap;
    StepIsFifo(l.fifo, op);
    var (f, got) := Step(l.fifo, op);
    var put := if op.Put? then op.bytes else [];
    Rebalance(l.got, got, Contents(f), Contents(l.fifo), put);
    assert l.put + [] == l.put;
  }

  lemma Rebalance(had: seq<Byte>, got: seq<Byte>, left: seq<Byte>, held: seq<Byte>, put: seq<Byte>)
    requires got + left == held + put
    ensures had + got + left == had + held + put
  {
    assert had + got + left == had + (got + left);
  }

  /** Every run that keeps to the guard, from any balanced ledger. */
  ghost predicate Reaches(l: Ledger, ops: seq<Op>, l': Ledger)
    requires Balanced(l)
    decreases |ops|
  {
    if ops == [] then l == l'
    else Fits(l.fifo, ops[0]) && (PostBalances(l, ops[0]); Reaches(Post(l, ops[0]), ops[1..], l'))
  }

  /** Bytes got followed by bytes held are the bytes put, with write = (read + count) mod size, after every such run. */
  lemma {:induction false} RunIsFifo(l: Ledger, ops: seq<Op>, l': Ledger)
    requires Balanced(l) && Reaches(l, ops, l')
    ensures WellPlaced(l'.fifo) && l'.got + Contents(l'.fifo) == l'.put
    decreases |ops|
  {
    if ops != [] {
      PostBalances(l, ops[0]);
      RunIsFifo(Post(l, ops[0]), ops[1..], l');
    }
  }

  class ByteFifo {
    var data: array<Byte>
    var readPos: nat
    var writePos: nat
    var count: int

    ghost function State(): Fifo
      reads this, data
    {
      Fifo(data[..], readPos, writePos, count)
    }

    constructor ()
      ensures fresh(data) && State() == Fresh(GROWTH_STEP)
    {
      data := new Byte[GROWTH_STEP](_ => 0);
      readPos, writePos, count := 0, 0, 0;
    }

    method Clear()
      modifies this
      ensures data == old(data) && data[..] == old(data[..]) && readPos == writePos == 0 == count
    {
      readPos, writePos, count := 0, 0, 0;
    }

    method Get(size: nat) returns (out: seq<Byte>)
      requires InBounds(State())
      modifies this`readPos, this`count
      ensures (State(), out) == TakeSpec(old(State()), size)
    {
      if count == 0 {
        return [];
      }
      var n := data.Length;
      var len;
      if readPos < writePos {
        len := Min(writePos - readPos, size);
        out := data[readPos..readPos + len];
        readPos := readPos + len;
      } else {
        len := Min(n - readPos + writePos, size);
        if n - readPos >= len {
          out := data[readPos..readPos + len];
          readPos := readPos + len;
        } else {
          out := data[readPos..] + data[..len - (n - readPos)];
          readPos := len - (n - readPos);
        }
      }
      assert out == CopyOut(old(State()).data, old(readPos), len);
      hide CopyOut;
      count := count - len;
      if readPos == n {
        readPos := 0;
      }
    }

    method Put(d: seq<Byte>) returns (ret: int, ghost junk: seq<Byte>)
      requires InBounds(State()) && Defined(State(), d)
      modifies this, data
      ensures ret == if d == [] then SLS_ERROR else |d|
      ensures d == [] ==> State() == old(State())
      ensures d != [] && !Outgrows(old(State()), d) ==> State() == PutInPlace(old(State()), d)
      ensures d != [] && Outgrows(old(State()), d) ==>
                State() == Grow(old(State()), d, junk) && |State().data| == GrownSize(old(State()), d)
    {
      junk := [];
      if d == [] {
        return SLS_ERROR, [];
      }
      if |d| > data.Length - count {
        junk := Reallocate(d);
      } else {
        StoreInPlace(d);
      }
      ret := |d|;
    }

    method Reallocate(d: seq<Byte>) returns (ghost junk: seq<Byte>)
      requires InBounds(State()) && 0 <= count && d != [] && Outgrows(State(), d)
      modifies this
      ensures State() == Grow(old(State()), d, junk) && |State().data| == GrownSize(old(State()), d)
    {
      var ext := new Byte[data.Length + if GROWTH_STEP >= |d| then GROWTH_STEP else |d|];
      var moved := Get(count);
      CopyIn(ext, 0, moved);
      CopyIn(ext, |moved|, d);
      junk := ext[|moved| + |d|..];
      assert ext[..] == moved + d + junk;
      data := ext;
      readPos, writePos, count := 0, 0, |moved| + |d|;
    }

    method StoreInPlace(d: seq<Byte>)
      requires InBounds(State()) && 0 < |d| <= 2 * data.Length - writePos
      modifies this`writePos, this`count, data
      ensures State() == PutInPlace(old(State()), d)
    {
      if data.Length - writePos >= |d| {
        CopyIn(data, writePos, d);
        writePos := writePos + |d|;
      } else {
        var firstLen := data.Length - writePos;
        CopyIn(data, writePos, d[..firstLen]);
        CopyIn(data, 0, d[firstLen..]);
        writePos := |d| - firstLen;
      }
      if writePos == data.Length {
        writePos := 0;
      }
      count := count + |d|;
    }
  }
}
