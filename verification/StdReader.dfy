/**
 * The reading half of the standard codec: a cursor and a remaining count that only
 * ever move together, and a recursive reader over them that puts each child of a
 * container into a slot of the memory allocated for it.
 */
module StdReader {
  import opened Bytes
  import opened StdFormat
  import opened StdMemory

  /** A read of some items, continued from where they ended. */
  ghost function After(items: seq<Value>, used: nat, rest: Read<seq<Value>>): Read<seq<Value>> {
    if rest.result.BadMessage? then Read(BadMessage, used + rest.used)
    else Read(Ok(items + rest.result.value), used + rest.used)
  }

  lemma AfterOne(items: seq<Value>, used: nat, s: seq<byte>, addr: nat, n: nat)
    requires n > 0
    ensures var first := Decode(s, addr);
      After(items, used, DecodeItems(s, addr, n)) ==
        if first.result.BadMessage? then Read(BadMessage, used + first.used)
        else After(items + [first.result.value], used + first.used,
                   DecodeItems(s[first.used..], addr + first.used, n - 1))
  {
    hide Decode;
    var first := Decode(s, addr);
    if first.result.Ok? {
      var rest := DecodeItems(s[first.used..], addr + first.used, n - 1);
      if rest.result.Ok? {
        var v := first.result.value;
        assert items + ([v] + rest.result.value) == (items + [v]) + rest.result.value;
      }
    }
  }

  lemma AfterNothing(all: Read<seq<Value>>)
    ensures After([], 0, all) == all
  {
    if all.result.Ok? { assert [] + all.result.value == all.result.value; }
  }

  lemma AfterLast(items: seq<Value>, used: nat, s: seq<byte>, addr: nat)
    ensures After(items, used, DecodeItems(s, addr, 0)) == Read(Ok(items), used)
  {
    assert items + [] == items;
  }

  /** The stores of a container whose type byte has been read. */
  function StoresOfBody(s: seq<byte>, addr: nat, tag: byte): seq<Store> {
    var size := ReadSize(s);
    if !IsContainerTag(tag) || size.result.BadMessage? then []
    else StoresOf(s[size.used..], addr + size.used, tag, size.result.value, 0)
  }

  lemma StoresByTag(s: seq<byte>, addr: nat)
    ensures Stores(s, addr) == if s == [] then [] else StoresOfBody(s[1..], addr + 1, s[0])
  {
    hide ReadSize, StoresOf;
  }

  lemma LeafBody(s: seq<byte>, addr: nat, tag: byte)
    requires !IsContainerTag(tag)
    ensures DecodeBody(s, addr, tag) == DecodeLeaf(s, addr, tag) && StoresOfBody(s, addr, tag) == []
  {
  }

  class ReadCursor {
    const base: nat  // the address of the first byte
    const data: seq<byte>
    var pos: nat
    var remaining: nat

    constructor (data: seq<byte>, base: nat)
      ensures this.data == data && this.base == base
      ensures Valid() && pos == 0 && Rest() == data
    {
      this.data := data;
      this.base := base;
      pos, remaining := 0, |data|;
    }

    ghost predicate Valid()
      reads this
    {
      pos + remaining <= |data|
    }

    /** The bytes still to be read. */
    ghost function Rest(): (s: seq<byte>)
      requires Valid()
      reads this
      ensures |s| == remaining
    {
      data[pos..pos + remaining]
    }

    /** The cursor and the remaining count moved together over used bytes. */
    twostate predicate Moved(used: nat)
      requires old(Valid()) && used <= old(remaining)
      reads this
    {
      && pos == old(pos) + used
      && remaining == old(remaining) - used
      && Valid()
      && Rest() == old(Rest())[used..]
    }

    twostate lemma Advanced(used: nat)
      requires old(Valid()) && used <= old(remaining)
      requires pos == old(pos) + used && remaining == old(remaining) - used
      ensures Moved(used)
    {
      var end := pos + remaining;
      assert data[pos..end] == data[old(pos)..end][used..];
    }

    method Read(n: int) returns (r: Result<seq<byte>>)
      requires Valid()
      modifies this
      ensures var e := Take(old(Rest()), n); r == e.result && Moved(e.used)
    {
      if n < 0 || remaining < n {
        return BadMessage;
      }
      r := Ok(data[pos..pos + n]);
      assert Rest()[..n] == data[pos..pos + n];
      assert Rest()[n..] == data[pos + n..pos + remaining];
      remaining := remaining - n;
      pos := pos + n;
    }

    method ReadLength() returns (r: Result<nat>)
      requires Valid()
      modifies this
      ensures var e := ReadSize(old(Rest())); r == e.result && Moved(e.used)
    {
      hide Pow256;
      var first := Read(1);
      if first.BadMessage? { return BadMessage; }
      var b := first.value[0];
      if b <= 253 { return Ok(b); }
      var more := Read(if b == 254 then 2 else 4);
      if more.BadMessage? { return BadMessage; }
      Pow256Values();
      FromLittleEndianBound(more.value);
      r := Ok(FromLittleEndian(more.value));
    }

    method ReadScalar(tag: byte) returns (r: Result<Value>)
      requires Valid()
      requires tag == 3 || tag == 4 || tag == 6
      modifies this
      ensures var e := DecodeScalar(old(Rest()), base + old(pos), tag); r == e.result && Moved(e.used)
    {
      hide Pow256;
      var gap := Read(if tag == 6 then Gap(base + pos, 8) else 0);
      if gap.BadMessage? { return BadMessage; }
      var word := Read(if tag == 3 then 4 else 8);
      if word.BadMessage? { return BadMessage; }
      Pow256Values();
      FromLittleEndianBound(word.value);
      var n := FromLittleEndian(word.value);
      r := Ok(if tag == 3 then Int32(ToSigned(n, UINT32_SPAN))
              else if tag == 4 then Int64(ToSigned(n, UINT64_SPAN)) else Float64(n));
    }

    method ReadSizedValue(tag: byte) returns (r: Result<Value>)
      requires Valid()
      requires tag == 5 || tag == 7 || tag == 8
      modifies this
      ensures var e := DecodeSized(old(Rest()), tag); r == e.result && Moved(e.used)
    {
      hide ReadSize;
      var size := ReadLength();
      if size.BadMessage? { return BadMessage; }
      var t := Read(AsInt(size.value));
      if t.BadMessage? { return BadMessage; }
      r := Ok(if tag == 5 then LargeInt(t.value) else if tag == 7 then Str(t.value) else UInt8Array(t.value));
    }

    /** The gap to the alignment of some elements, and the elements. */
    method ReadRaw(width: nat, n: nat) returns (r: Result<seq<byte>>)
      requires Valid()
      requires Alignment(width)
      modifies this
      ensures var e := ReadElements(old(Rest()), base + old(pos), width, n); r == e.result && Moved(e.used)
    {
      hide Gap, Span, AsInt;
      var gap := Read(Gap(base + pos, width));
      if gap.BadMessage? { return BadMessage; }
      r := Read(AsInt(Span(n, width)));
    }

    method ReadArrayValue(tag: byte) returns (r: Result<Value>)
      requires Valid()
      requires tag == 9 || tag == 10 || tag == 11
      modifies this
      ensures var e := DecodeArray(old(Rest()), base + old(pos), tag); r == e.result && Moved(e.used)
    {
      hide ReadSize, ReadElements;
      var size := ReadLength();
      if size.BadMessage? { return BadMessage; }
      var n := size.value;
      var raw := ReadRaw(if tag == 9 then 4 else 8, n);
      if raw.BadMessage? { return BadMessage; }
      r := Ok(if tag == 9 then Int32Array(n, raw.value)
              else if tag == 10 then Int64Array(n, raw.value) else Float64Array(n, raw.value));
    }

    /** Reads one value. Whatever the bytes, it stops. It is stray exactly if some child
        was about to be stored outside the slots of its container, and says nothing more
        then; otherwise, success or failure, it has moved over exactly the bytes the
        format says were consumed. */
    method ReadValue() returns (r: Result<Value>, stray: bool)
      requires Valid()
      modifies this
      ensures stray <==> !AllInside(Stores(old(Rest()), base + old(pos)))
      ensures Valid()
      ensures !stray ==> var e := Decode(old(Rest()), base + old(pos)); r == e.result && Moved(e.used)
      decreases remaining, 0
    {
      hide DecodeBody, DecodeLeaf, StoresOfBody, Stores;
      ghost var s := Rest();
      stray := false;
      StoresByTag(s, base + pos);
      var first := Read(1);
      if first.BadMessage? { return BadMessage, false; }
      var tag := first.value[0];
      if tag == 12 || tag == 13 {
        r, stray := ReadContainer(tag);
      } else {
        LeafBody(Rest(), base + pos, tag);
        r := ReadLeaf(tag);
      }
      if !stray { Advanced(pos - old(pos)); }
    }

    method ReadContainer(tag: byte) returns (r: Result<Value>, stray: bool)
      requires Valid()
      requires IsContainerTag(tag)
      modifies this
      ensures stray <==> !AllInside(StoresOfBody(old(Rest()), base + old(pos), tag))
      ensures Valid()
      ensures !stray ==> var e := DecodeBody(old(Rest()), base + old(pos), tag); r == e.result && Moved(e.used)
      decreases remaining, 3 * UINT32_SPAN
    {
      hide ReadSize, DecodeItems, StoresOf;
      var size := ReadLength();
      if size.BadMessage? { return BadMessage, false; }
      var items;
      items, stray := ReadItems(tag, size.value);
      if stray || items.BadMessage? { return BadMessage, stray; }
      r := Ok(if tag == 12 then List(items.value) else Map(items.value));
    }

    method ReadLeaf(tag: byte) returns (r: Result<Value>)
      requires Valid()
      modifies this
      ensures var e := DecodeLeaf(old(Rest()), base + old(pos), tag); r == e.result && Moved(e.used)
    {
      hide DecodeScalar, DecodeSized, DecodeArray;
      if tag == 0 { return Ok(Null); }
      if tag == 1 { return Ok(True); }
      if tag == 2 { return Ok(False); }
      if tag == 3 || tag == 4 || tag == 6 {
        r := ReadScalar(tag);
      } else if tag == 5 || tag == 7 || tag == 8 {
        r := ReadSizedValue(tag);
      } else if tag == 9 || tag == 10 || tag == 11 {
        r := ReadArrayValue(tag);
      } else {
        r := BadMessage;
      }
    }

    /** The element loop of lists and maps. */
    method ReadItems(tag: byte, size: nat) returns (r: Result<seq<Value>>, stray: bool)
      requires Valid()
      requires IsContainerTag(tag) && size < UINT32_SPAN
      modifies this
      ensures stray <==> !AllInside(StoresOf(old(Rest()), base + old(pos), tag, size, 0))
      ensures Valid()
      ensures !stray ==>
        var e := DecodeItems(old(Rest()), base + old(pos), Count(tag, size)); r == e.result && Moved(e.used)
      decreases remaining, Count(tag, size) + 1
    {
      hide Decode, DecodeItems, After, Stores, StoresOf, SlotOf, Slots, Count;
      var n := Count(tag, size);
      var slots := Slots(tag, size);
      ghost var all := DecodeItems(Rest(), base + pos, n);
      var items: seq<Value> := [];
      var i := 0;
      AfterNothing(all);
      while i < n
        invariant i <= n && Valid()
        invariant old(pos) <= pos && pos + remaining == old(pos) + old(remaining)
        invariant i > 0 ==> remaining < old(remaining)
        invariant all == After(items, pos - old(pos), DecodeItems(Rest(), base + pos, n - i))
        invariant AllInside(StoresOf(old(Rest()), base + old(pos), tag, size, 0)) ==
          AllInside(StoresOf(Rest(), base + pos, tag, size, i))
      {
        ghost var s, addr := Rest(), base + pos;
        AfterOne(items, pos - old(pos), s, addr, n - i);
        if remaining == 0 {
          NothingMore(s, addr, tag, size, i, 0);
          Advanced(pos - old(pos));
          NoHeader(s, addr);
          return BadMessage, false;
        }
        StoresOfOne(s, addr, tag, size, i);
        if SlotOf(tag, size, i) >= slots { return BadMessage, true; }
        var item;
        item, stray := ReadValue();
        if stray { return BadMessage, true; }
        if item.BadMessage? {
          Advanced(pos - old(pos));
          return BadMessage, false;
        }
        items := items + [item.value];
        i := i + 1;
      }
      NothingMore(Rest(), base + pos, tag, size, i, 0);
      AfterLast(items, pos - old(pos), Rest(), base + pos);
      Advanced(pos - old(pos));
      r, stray := Ok(items), false;
    }
  }
}
