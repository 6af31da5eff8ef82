/** CSLSMapData: the rings by stream key, the continuity states and the two budget counters. */
module MapDatas {
  import opened Codes
  import opened WrapArithmetic
  import opened RecycleArrays
  import opened StreamStore

  class MapData {
    const source: GenerationSource
    var arrays: map<Key, RecycleArray>
    var ccState: set<Key>
    var streamCount: int
    var totalRingBytes: int
    var maxStreams: int
    var maxTotalRingBytes: int

    /** No two keys share a ring or a buffer. */
    ghost predicate Valid()
      reads this`arrays, arrays.Values, set k | k in arrays :: arrays[k].data
    {
      && (forall k :: k in arrays ==> arrays[k].Valid())
      && (forall j, k :: j in arrays && k in arrays && j != k ==>
            arrays[j] != arrays[k] && arrays[j].data != arrays[k].data)
    }

    ghost function Rings(): map<Key, Ring>
      reads this`arrays, arrays.Values, set k | k in arrays :: arrays[k].data
    {
      map k | k in arrays :: arrays[k].State()
    }

    ghost function View(): Store
      reads this, source, arrays.Values, set k | k in arrays :: arrays[k].data
    {
      Store(Rings(), ccState, Budget(streamCount, totalRingBytes, maxStreams, maxTotalRingBytes), source.next)
    }

    constructor (source: GenerationSource)
      ensures Valid() && this.source == source
      ensures View() == Store(map[], {}, Budget(0, 0, 0, 0), source.next)
    {
      this.source := source;
      arrays, ccState := map[], {};
      streamCount, totalRingBytes, maxStreams, maxTotalRingBytes := 0, 0, 0, 0;
    }

    method SetCaps(streams: int, bytes: int)
      requires Valid()
      modifies this`maxStreams, this`maxTotalRingBytes
      ensures Valid()
      ensures View() == old(View()).(budget := old(View()).budget.(maxStreams := streams, maxBytes := bytes))
    {
      maxStreams, maxTotalRingBytes := streams, bytes;
    }

    method Add(key: Key, kbps: int, latencyMs: int) returns (ret: int)
      requires Valid()
      modifies this, source
      ensures Valid() && View() == AddSpec(old(View()), key, kbps, latencyMs)
      ensures ret == Code(Admit(key in old(arrays), old(View()).budget, RingSize(kbps, latencyMs)))
      ensures ret == SLS_OK <==> key in arrays
    {
      var size := RingSize(kbps, latencyMs);
      ret := AddArray(key, size);
    }

    method AddArray(key: Key, size: nat) returns (ret: int)
      requires Valid() && size >= DEFAULT_MAX_DATA_SIZE
      modifies this, source
      ensures Valid() && View() == AddSized(old(View()), key, size)
      ensures ret == Code(Admit(key in old(arrays), old(View()).budget, size))
      ensures ret == SLS_OK <==> key in arrays
    {
      hide FreshRing, RecycleArray.Valid, RecycleArray.State;
      if key in arrays {
        return SLS_OK;
      }
      if maxStreams > 0 && streamCount >= maxStreams {
        return SLS_ERROR;
      }
      var a := Allocate(size);
      assert Rings() == old(Rings());
      if a == null {
        return SLS_ERROR;
      }
      Install(key, a);
      ret := SLS_OK;
    }

    /** A new ring of the given size, or none if it would not fit the byte budget; the default-size one it starts from uses up an identity either way. */
    method Allocate(size: nat) returns (a: RecycleArray?)
      requires size >= DEFAULT_MAX_DATA_SIZE
      modifies source
      ensures a == null <==> maxTotalRingBytes > 0 && totalRingBytes + size > maxTotalRingBytes
      ensures a == null ==> source.next == old(source.next) + 1
      ensures a != null ==>
                && fresh(a) && fresh(a.data) && a.Valid() && a.data.Length == size
                && source.next == old(source.next) + (if size > DEFAULT_MAX_DATA_SIZE then 2 else 1)
                && a.State() == FreshRing(size, source.next - 1)
    {
      var ring := new RecycleArray(source);
      if maxTotalRingBytes > 0 && totalRingBytes + size > maxTotalRingBytes {
        return null;
      }
      Grow(ring, size);
      a := ring;
    }

    /** Commits a new ring: map entry, continuity state and budget together. */
    method Install(key: Key, a: RecycleArray)
      requires Valid() && a.Valid() && key !in arrays
      requires forall k :: k in arrays ==> arrays[k] != a && arrays[k].data != a.data
      modifies this
      ensures Valid() && arrays == old(arrays)[key := a]
      ensures Rings() == old(Rings())[key := a.State()] && ccState == old(ccState) + {key}
      ensures streamCount == old(streamCount) + 1 && totalRingBytes == old(totalRingBytes) + a.data.Length
      ensures maxStreams == old(maxStreams) && maxTotalRingBytes == old(maxTotalRingBytes)
    {
      hide RecycleArray.Valid, RecycleArray.State;
      Charge(key, a.data.Length);
      Link(key, a);
    }

    method Charge(key: Key, bytes: nat)
      modifies this`ccState, this`streamCount, this`totalRingBytes
      ensures ccState == old(ccState) + {key}
      ensures streamCount == old(streamCount) + 1 && totalRingBytes == old(totalRingBytes) + bytes
    {
      ccState := ccState + {key};
      streamCount, totalRingBytes := streamCount + 1, totalRingBytes + bytes;
    }

    method Link(key: Key, a: RecycleArray)
      requires Valid() && a.Valid()
      requires forall k :: k in arrays ==> arrays[k] != a && arrays[k].data != a.data
      modifies this`arrays
      ensures Valid() && arrays == old(arrays)[key := a] && Rings() == old(Rings())[key := a.State()]
    {
      hide RecycleArray.Valid, RecycleArray.State;
      arrays := arrays[key := a];
    }

    /** Resizes a new ring, which costs it its identity, unless the default is already enough. */
    method Grow(a: RecycleArray, size: nat)
      requires a.Valid() && a.log == [] && size >= DEFAULT_MAX_DATA_SIZE && source.next > 0
      requires a.State() == FreshRing(DEFAULT_MAX_DATA_SIZE, source.next - 1)
      modifies a, source
      ensures source.next > 0 && a.Valid() && a.log == [] && a.State() == FreshRing(size, source.next - 1)
      ensures a.data == old(a.data) || fresh(a.data)
      ensures a.data.Length == size
      ensures source.next == old(source.next) + if size > DEFAULT_MAX_DATA_SIZE then 1 else 0
    {
      hide Represents;
      assert a.data.Length == |a.State().data|;
      if size > a.data.Length {
        a.SetSize(size, source);
      }
      assert a.data.Length == |a.State().data|;
    }

    method Remove(key: Key) returns (ret: int)
      requires Valid()
      modifies this
      ensures Valid() && View() == RemoveSpec(old(View()), key)
      ensures ret == if key in old(arrays) then SLS_OK else SLS_ERROR
    {
      hide RecycleArray.Valid, RecycleArray.State;
      if key in arrays {
        SizesAreLengths();
        Refund(key, arrays[key].data.Length);
        Unlink(key);
        return SLS_OK;
      }
      ccState := ccState - {key};
      ret := SLS_ERROR;
    }

    lemma SizesAreLengths()
      ensures forall k :: k in arrays ==> |Rings()[k].data| == arrays[k].data.Length
    {
    }

    method Unlink(key: Key)
      requires Valid()
      modifies this`arrays
      ensures Valid() && arrays == old(arrays) - {key} && Rings() == old(Rings()) - {key}
    {
      hide RecycleArray.Valid, RecycleArray.State;
      arrays := arrays - {key};
    }

    method Refund(key: Key, bytes: nat)
      modifies this`ccState, this`streamCount, this`totalRingBytes
      ensures ccState == old(ccState) - {key}
      ensures streamCount == old(streamCount) - 1 && totalRingBytes == old(totalRingBytes) - bytes
    {
      ccState := ccState - {key};
      streamCount, totalRingBytes := streamCount - 1, totalRingBytes - bytes;
    }

    method Clear()
      requires Valid()
      modifies this
      ensures Valid() && View() == ClearSpec(old(View()))
    {
      hide RecycleArray.Valid, RecycleArray.State, Sizes, Total;
      var sizes := map k | k in arrays :: arrays[k].data.Length;
      SizesMatch(sizes);
      var streams, bytes := RefundAll(sizes, streamCount, totalRingBytes);
      Drop(streams, bytes);
    }

    method Drop(streams: int, bytes: int)
      modifies this`arrays, this`ccState, this`streamCount, this`totalRingBytes
      ensures Valid() && arrays == map[] && Rings() == map[] && ccState == {}
      ensures streamCount == streams && totalRingBytes == bytes
    {
      arrays, ccState := map[], {};
      streamCount, totalRingBytes := streams, bytes;
    }

    lemma SizesMatch(sizes: map<Key, nat>)
      requires sizes == map k | k in arrays :: arrays[k].data.Length
      ensures sizes == Sizes(Rings()) && |sizes| == |Rings()|
    {
      SizesAreLengths();
      assert sizes.Keys == Rings().Keys;
      assert |sizes| == |sizes.Keys| && |Rings()| == |Rings().Keys|;
    }

    /** The freeing loop of clear(): one ring at a time, in whatever order the map yields them. */
    static method RefundAll(sizes: map<Key, nat>, streams: int, bytes: int) returns (streams': int, bytes': int)
      ensures streams' == streams - |sizes| && bytes' == bytes - Total(sizes)
    {
      streams', bytes' := streams, bytes;
      var left := sizes;
      while left != map[]
        invariant streams' == streams - |sizes| + |left|
        invariant bytes' == bytes - Total(sizes) + Total(left)
        decreases |left|
      {
        var k :| k in left;
        TotalSplit(left, k);
        assert (left - {k}).Keys == left.Keys - {k};
        streams', bytes' := streams' - 1, bytes' - left[k];
        left := left - {k};
      }
    }

    method Put(key: Key, d: seq<Byte>) returns (ret: int)
      requires Valid()
      modifies if key in arrays then {arrays[key] as object, arrays[key].data} else {}
      ensures Valid() && arrays == old(arrays)
      ensures key !in arrays ==> ret == SLS_ERROR && View() == old(View())
      ensures key in arrays ==>
                && ret == (if PutAccepted(old(arrays[key].State()), d) then |d| else SLS_ERROR)
                && View() == old(View()).(rings := old(Rings())[key := PutSpec(old(arrays[key].State()), d)])
    {
      hide PutSpec, RecycleArray.Valid, RecycleArray.State;
      if key !in arrays {
        return SLS_ERROR;
      }
      SizesAreLengths();
      ret := arrays[key].Put(d);
      OneRingChanged(key);
    }

    /** What happens to one ring, in place, shows at its key and nowhere else. */
    twostate lemma OneRingChanged(key: Key)
      requires old(Valid()) && arrays == old(arrays) && key in arrays
      requires arrays[key].Valid() && arrays[key].data == old(arrays[key].data)
      requires forall k :: k in arrays && k != key ==> unchanged(arrays[k]) && unchanged(arrays[k].data)
      ensures Valid() && Rings() == old(Rings())[key := arrays[key].State()]
    {
      hide RecycleArray.Valid, RecycleArray.State;
    }

    method Get(key: Key, reader: Reader?, size: nat, aligned: int) returns (ret: int, out: seq<Byte>)
      requires Valid()
      requires key in arrays && reader != null ==> Tracks(reader.id, arrays[key].State())
      modifies if key in arrays then {arrays[key]} else {}, reader
      ensures Valid() && View() == old(View())
      ensures key !in arrays || reader == null ==> ret == SLS_ERROR && out == []
      ensures key in arrays && reader != null ==>
                var a := arrays[key];
                var l := LogGet(a.log, a.data.Length, a.generation, CursorOf(old(reader.id)), size, aligned);
                ret == |out| && out == l.bytes && CursorOf(reader.id) == l.cursor && Tracks(reader.id, a.State())
    {
      hide Represents, LogGet, GetSpec, Tracks;
      if key !in arrays {
        return SLS_ERROR, [];
      }
      ret, out := arrays[key].Get(reader, size, aligned);
    }
  }
}
