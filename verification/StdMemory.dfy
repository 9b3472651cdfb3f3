/**
 * The memory a decoded value lives in: the slots its containers are given for their
 * children, whose number is a 32-bit product for a map, and the bytes its numeric
 * arrays point at, whose number is one too.
 */
module StdMemory {
  import opened Bytes
  import opened StdFormat
  import opened StdRoundTrip

  /** A tag and the size after it, of an array or a container, and what follows. */
  datatype Header = Header(tag: byte, size: nat, rest: seq<byte>, addr: nat)

  const HALF_SPAN: nat := UINT32_SPAN / 2

  predicate IsArrayTag(tag: byte) { tag == 9 || tag == 10 || tag == 11 }

  predicate IsContainerTag(tag: byte) { tag == 12 || tag == 13 }

  function Width(tag: byte): nat { if tag == 9 then 4 else 8 }

  /** How many values a container of this size is made of. */
  function Count(tag: byte, size: nat): nat { if tag == 12 then size else 2 * size }

  /** The header that the bytes s start with, if they do. */
  function HeaderAt(s: seq<byte>, addr: nat): (h: seq<Header>)
    ensures |h| <= 1
    ensures h != [] ==> s != [] && |h[0].rest| < |s| && h[0].tag == s[0] && (IsArrayTag(s[0]) || IsContainerTag(s[0]))
  {
    if s == [] || !(IsArrayTag(s[0]) || IsContainerTag(s[0])) then []
    else
      var size := ReadSize(s[1..]);
      if size.result.BadMessage? then []
      else [Header(s[0], size.result.value, s[1..][size.used..], addr + 1 + size.used)]
  }

  /** The headers that decoding the value at the front of s comes upon, in order. */
  function Headers(s: seq<byte>, addr: nat): seq<Header>
    decreases |s|, 0
  {
    var h := HeaderAt(s, addr);
    if h == [] || IsArrayTag(h[0].tag) then h
    else h + HeadersOf(h[0].rest, h[0].addr, Count(h[0].tag, h[0].size))
  }

  function HeadersOf(s: seq<byte>, addr: nat, n: nat): seq<Header>
    decreases |s|, n + 1
  {
    if n == 0 then []
    else
      var first := Decode(s, addr);
      Headers(s, addr) +
        if first.result.Ok? then HeadersOf(s[first.used..], addr + first.used, n - 1) else []
  }

  // ------------------------------------------------------------ slots

  /** A value decoded into a slot of a container that has so many. */
  datatype Store = Store(slot: nat, slots: nat)

  /** The slots that are allocated: for keys and values of a map the product is taken in
      32 bits. */
  function Slots(tag: byte, size: nat): nat {
    if tag == 12 then size else size * 2 % UINT32_SPAN
  }

  /** Where the i-th value of a container goes: a map's values lie behind its keys. */
  function SlotOf(tag: byte, size: nat, i: nat): nat {
    if tag == 12 then i else if i % 2 == 0 then i / 2 else size + i / 2
  }

  /** The stores that decoding the value at the front of s makes, in order; a value is
      stored as soon as its type byte has been read. */
  function Stores(s: seq<byte>, addr: nat): seq<Store>
    decreases |s|, 0
  {
    var h := HeaderAt(s, addr);
    if h == [] || IsArrayTag(h[0].tag) then []
    else StoresOf(h[0].rest, h[0].addr, h[0].tag, h[0].size, 0)
  }

  function StoresOf(s: seq<byte>, addr: nat, tag: byte, size: nat, i: nat): seq<Store>
    decreases |s|, 1
  {
    if i >= Count(tag, size) || s == [] then []
    else
      var first := Decode(s, addr);
      [Store(SlotOf(tag, size, i), Slots(tag, size))] + Stores(s, addr) +
        if first.result.Ok? then StoresOf(s[first.used..], addr + first.used, tag, size, i + 1) else []
  }

  predicate AllInside(stores: seq<Store>) {
    stores == [] || (stores[0].slot < stores[0].slots && AllInside(stores[1..]))
  }

  lemma {:induction false} AllInsideConcat(a: seq<Store>, b: seq<Store>)
    ensures AllInside(a + b) <==> AllInside(a) && AllInside(b)
    decreases |a|
  {
    if a == [] {
      assert a + b == b;
    } else {
      assert (a + b)[1..] == a[1..] + b;
      AllInsideConcat(a[1..], b);
    }
  }

  /** A header that lets all children it leads to into their slots: a map declares fewer
      than 2^31 pairs, or the bytes end before the first child without a slot. With
      exactly 2^31 that is the first key, with more it is the first value. */
  predicate Roomy(h: Header) {
    h.tag == 13 && h.size >= HALF_SPAN ==>
      || h.rest == []
      || (h.size > HALF_SPAN && (var key := Decode(h.rest, h.addr); key.result.Ok? ==> key.used == |h.rest|))
  }

  predicate AllRoomy(hs: seq<Header>) {
    hs == [] || (Roomy(hs[0]) && AllRoomy(hs[1..]))
  }

  lemma {:induction false} AllRoomyConcat(a: seq<Header>, b: seq<Header>)
    ensures AllRoomy(a + b) <==> AllRoomy(a) && AllRoomy(b)
    decreases |a|
  {
    if a == [] {
      assert a + b == b;
    } else {
      assert (a + b)[1..] == a[1..] + b;
      AllRoomyConcat(a[1..], b);
    }
  }

  lemma SlotsSuffice(tag: byte, size: nat, i: nat)
    requires IsContainerTag(tag) && size < UINT32_SPAN && i < Count(tag, size)
    ensures tag == 12 || size < HALF_SPAN ==> SlotOf(tag, size, i) < Slots(tag, size)
    ensures tag == 13 && size >= HALF_SPAN && i == 0 ==> (SlotOf(tag, size, i) < Slots(tag, size) <==> size > HALF_SPAN)
    ensures tag == 13 && size >= HALF_SPAN && i == 1 ==> SlotOf(tag, size, i) >= Slots(tag, size)
  {
  }

  /** The stores of a value and of those after it in its container. */
  lemma StoresOfOne(s: seq<byte>, addr: nat, tag: byte, size: nat, i: nat)
    requires i < Count(tag, size) && s != []
    ensures var first := Decode(s, addr);
      AllInside(StoresOf(s, addr, tag, size, i)) <==>
        && SlotOf(tag, size, i) < Slots(tag, size)
        && AllInside(Stores(s, addr))
        && (first.result.Ok? ==> AllInside(StoresOf(s[first.used..], addr + first.used, tag, size, i + 1)))
  {
    hide Decode, Stores, SlotOf, Slots;
    var first := Decode(s, addr);
    var one := [Store(SlotOf(tag, size, i), Slots(tag, size))];
    var rest := if first.result.Ok? then StoresOf(s[first.used..], addr + first.used, tag, size, i + 1) else [];
    AllInsideConcat(one + Stores(s, addr), rest);
    AllInsideConcat(one, Stores(s, addr));
  }

  lemma HeadersOfOne(s: seq<byte>, addr: nat, n: nat)
    requires n > 0
    ensures var first := Decode(s, addr);
      AllRoomy(HeadersOf(s, addr, n)) <==>
        && AllRoomy(Headers(s, addr))
        && (first.result.Ok? ==> AllRoomy(HeadersOf(s[first.used..], addr + first.used, n - 1)))
  {
    hide Decode, Headers, Roomy;
    var first := Decode(s, addr);
    AllRoomyConcat(Headers(s, addr),
      if first.result.Ok? then HeadersOf(s[first.used..], addr + first.used, n - 1) else []);
  }

  /** On every byte string: all children are stored into slots of their own containers
      exactly if every map header that is come upon is roomy. */
  lemma {:induction false} StaysInsideIff(s: seq<byte>, addr: nat)
    ensures AllInside(Stores(s, addr)) <==> AllRoomy(Headers(s, addr))
    decreases |s|, 0
  {
    hide Decode, Roomy, HeaderAt, StoresOf, HeadersOf;
    var hs := HeaderAt(s, addr);
    if hs != [] {
      var h := hs[0];
      SizeFits(s, addr);
      assert hs == [h];
      if IsArrayTag(h.tag) {
        NearIsRoomy(h);
        assert hs[1..] == [];
      } else {
        AllRoomyConcat([h], HeadersOf(h.rest, h.addr, Count(h.tag, h.size)));
        assert [h][1..] == [];
        if h.tag == 13 && h.size >= HALF_SPAN {
          FarMap(h);
        } else {
          NearIsRoomy(h);
          NearContainer(h.rest, h.addr, h.tag, h.size, 0);
        }
      }
    }
  }

  lemma NearIsRoomy(h: Header)
    requires h.tag != 13 || h.size < HALF_SPAN
    ensures Roomy(h)
  {
  }

  lemma SizeFits(s: seq<byte>, addr: nat)
    requires HeaderAt(s, addr) != []
    ensures HeaderAt(s, addr)[0].size < UINT32_SPAN
  {
  }

  lemma {:induction false} NearContainer(s: seq<byte>, addr: nat, tag: byte, size: nat, i: nat)
    requires IsContainerTag(tag) && size < UINT32_SPAN && (tag == 12 || size < HALF_SPAN)
    requires i <= Count(tag, size)
    ensures AllInside(StoresOf(s, addr, tag, size, i)) <==> AllRoomy(HeadersOf(s, addr, Count(tag, size) - i))
    decreases |s|, 1
  {
    hide Roomy, HeaderAt, SlotOf, Slots, Stores, Headers, Decode, StoresOf, HeadersOf;
    var n := Count(tag, size) - i;
    if n == 0 || s == [] {
      NothingMore(s, addr, tag, size, i, n);
    } else {
      SlotsSuffice(tag, size, i);
      StoresOfOne(s, addr, tag, size, i);
      HeadersOfOne(s, addr, n);
      StaysInsideIff(s, addr);
      var first := Decode(s, addr);
      if first.result.Ok? {
        NearContainer(s[first.used..], addr + first.used, tag, size, i + 1);
      }
    }
  }

  lemma NothingMore(s: seq<byte>, addr: nat, tag: byte, size: nat, i: nat, n: nat)
    requires i >= Count(tag, size) || s == []
    requires n == 0 || s == []
    ensures StoresOf(s, addr, tag, size, i) == [] && HeadersOf(s, addr, n) == []
  {
    if n > 0 { NoHeader(s, addr); }
  }

  lemma NoHeader(s: seq<byte>, addr: nat)
    requires s == []
    ensures Headers(s, addr) == [] && Decode(s, addr).result.BadMessage?
  {
  }

  /** A map of 2^31 pairs or more: nothing fits behind its first key, and with exactly
      2^31 the key does not either. */
  lemma {:induction false} FarMap(h: Header)
    requires h.tag == 13 && HALF_SPAN <= h.size < UINT32_SPAN
    ensures AllInside(StoresOf(h.rest, h.addr, 13, h.size, 0)) <==>
      Roomy(h) && AllRoomy(HeadersOf(h.rest, h.addr, 2 * h.size))
    decreases |h.rest|, 1
  {
    hide HeaderAt, SlotOf, Slots, Stores, Headers, Decode, HeadersOf, StoresOf;
    var n, s, addr := 2 * h.size, h.rest, h.addr;
    HeadersOfOne(s, addr, n);
    if s == [] {
      NothingMore(s, addr, 13, h.size, 0, n);
    } else {
      SlotsSuffice(13, h.size, 0);
      SlotsSuffice(13, h.size, 1);
      StoresOfOne(s, addr, 13, h.size, 0);
      StaysInsideIff(s, addr);
      var first := Decode(s, addr);
      if first.result.Ok? {
        var rest := s[first.used..];
        if rest == [] {
          NothingMore(rest, addr + first.used, 13, h.size, 1, n - 1);
        } else {
          StoresOfOne(rest, addr + first.used, 13, h.size, 1);
        }
      }
    }
  }

  /** The header of a map of 2^31 pairs, or of one more. */
  lemma FarHeader(more: byte, rest: seq<byte>)
    requires more <= 1
    ensures HeaderAt([13, 255, more, 0, 0, 128] + rest, 0) == [Header(13, HALF_SPAN + more, rest, 6)]
  {
    var s := [13, 255, more, 0, 0, 128] + rest;
    assert s[1..][1..][..4] == [more, 0, 0, 128];
    assert s[1..][5..] == rest;
    FromFourBytes(more, 0, 0, 128);
  }

  lemma FirstStore(s: seq<byte>, addr: nat, tag: byte, size: nat)
    requires s != [] && Count(tag, size) > 0
    ensures var stores := StoresOf(s, addr, tag, size, 0);
      stores != [] && stores[0] == Store(SlotOf(tag, size, 0), Slots(tag, size))
  {
    hide Decode, Stores, SlotOf, Slots;
  }

  /** A map of 2^31 pairs whose first key is null: no slot at all is allocated. */
  lemma KeyWithoutSlot()
    ensures var s := [13, 255, 0, 0, 0, 128, 0, 0];
      && Stores(s, 0) != [] && Stores(s, 0)[0] == Store(0, 0)
      && !AllInside(Stores(s, 0))
  {
    hide HeaderAt, StoresOf, Decode;
    FarHeader(0, [0, 0]);
    FirstStore([0, 0], 6, 13, HALF_SPAN);
    assert [13, 255, 0, 0, 0, 128, 0, 0] == [13, 255, 0, 0, 0, 128] + [0, 0];
  }

  /** One pair more, and the first key has a slot while the first value has none. */
  lemma ValueWithoutSlot()
    ensures !AllInside(Stores([13, 255, 1, 0, 0, 128, 0, 0], 0))
    ensures AllInside(Stores([13, 255, 1, 0, 0, 128, 0], 0))
  {
    hide HeaderAt, StoresOf, HeadersOf;
    FarHeader(1, [0, 0]);
    FarHeader(1, [0]);
    assert [13, 255, 1, 0, 0, 128, 0, 0] == [13, 255, 1, 0, 0, 128] + [0, 0];
    assert [13, 255, 1, 0, 0, 128, 0] == [13, 255, 1, 0, 0, 128] + [0];
    var two, one := Header(13, HALF_SPAN + 1, [0, 0], 6), Header(13, HALF_SPAN + 1, [0], 6);
    FarMap(two);
    FarMap(one);
    assert Decode([0], 6) == Read(Ok(Null), 1);
    assert Decode([0, 0], 6) == Read(Ok(Null), 1);
    HeadersOfOne([0], 6, 2 * one.size);
    NothingMore([0][1..], 7, 13, one.size, 1, 2 * one.size - 1);
  }

  // ------------------------------------------------------------ arrays

  /** Every numeric array in v has all the memory of its elements. */
  predicate Whole(v: Value) {
    match v
    case Int32Array(n, raw) => |raw| == 4 * n
    case Int64Array(n, raw) => |raw| == 8 * n
    case Float64Array(n, raw) => |raw| == 8 * n
    case List(items) => AllWhole(items)
    case Map(pairs) => AllWhole(pairs)
    case _ => true
  }

  predicate AllWhole(items: seq<Value>) {
    items == [] || (Whole(items[0]) && AllWhole(items[1..]))
  }

  /** An array header whose byte count is a 32-bit number. */
  predicate Counted(h: Header) {
    IsArrayTag(h.tag) ==> Span(h.size, Width(h.tag)) < UINT32_SPAN
  }

  predicate AllCounted(hs: seq<Header>) {
    hs == [] || (Counted(hs[0]) && AllCounted(hs[1..]))
  }

  lemma {:induction false} AllCountedConcat(a: seq<Header>, b: seq<Header>)
    ensures AllCounted(a + b) <==> AllCounted(a) && AllCounted(b)
    decreases |a|
  {
    if a == [] {
      assert a + b == b;
    } else {
      assert (a + b)[1..] == a[1..] + b;
      AllCountedConcat(a[1..], b);
    }
  }

  /** One decoded array has all its memory exactly if its declared size, which can be read
      before, does not wrap at 32 bits as a byte count. */
  lemma DecodedArrayIsWholeIff(s: seq<byte>, addr: nat, tag: byte)
    requires IsArrayTag(tag)
    requires DecodeArray(s, addr, tag).result.Ok?
    ensures ReadSize(s).result.Ok?
    ensures var v, bytes := DecodeArray(s, addr, tag).result.value, Span(ReadSize(s).result.value, Width(tag));
      (Whole(v) <==> bytes < UINT32_SPAN) && (Fits(v) <==> bytes < UINT32_SPAN)
  {
    hide ReadSize;
  }

  /** A decoded value has all the memory of all arrays inside it exactly if no array
      header come upon declares a size that wraps as a byte count. */
  lemma {:induction false} DecodedIsWholeIff(s: seq<byte>, addr: nat)
    requires Decode(s, addr).result.Ok?
    ensures Whole(Decode(s, addr).result.value) <==> AllCounted(Headers(s, addr))
    decreases |s|, 0
  {
    hide ReadSize, DecodeItems, HeadersOf, DecodeScalar, DecodeSized, DecodeArray, Span;
    var tag := s[0];
    if IsArrayTag(tag) {
      DecodedArrayIsWholeIff(s[1..], addr + 1, tag);
      assert Headers(s, addr)[1..] == [];
    } else if IsContainerTag(tag) {
      var h := HeaderAt(s, addr)[0];
      assert HeaderAt(s, addr) == [h];
      AllCountedConcat([h], HeadersOf(h.rest, h.addr, Count(h.tag, h.size)));
      assert [h][1..] == [];
      DecodedAllWholeIff(h.rest, h.addr, Count(h.tag, h.size));
    } else {
      LeafIsWhole(s, addr);
    }
  }

  lemma LeafIsWhole(s: seq<byte>, addr: nat)
    requires Decode(s, addr).result.Ok? && !IsArrayTag(s[0]) && !IsContainerTag(s[0])
    ensures Whole(Decode(s, addr).result.value) && Headers(s, addr) == []
  {
    hide ReadSize, DecodeArray, FromLittleEndian;
  }

  lemma {:induction false} DecodedAllWholeIff(s: seq<byte>, addr: nat, n: nat)
    requires DecodeItems(s, addr, n).result.Ok?
    ensures AllWhole(DecodeItems(s, addr, n).result.value) <==> AllCounted(HeadersOf(s, addr, n))
    decreases |s|, n + 1
  {
    hide Decode, Headers, Whole, Counted;
    if n > 0 {
      var first := Decode(s, addr);
      var rest := HeadersOf(s[first.used..], addr + first.used, n - 1);
      AllCountedConcat(Headers(s, addr), rest);
      DecodedIsWholeIff(s, addr);
      DecodedAllWholeIff(s[first.used..], addr + first.used, n - 1);
      var tail := DecodeItems(s[first.used..], addr + first.used, n - 1).result.value;
      assert ([first.result.value] + tail)[1..] == tail;
    }
  }

  /** Tag 9, a size of 2^30 and the padding to the next multiple of 4: an array of 2^30
      elements with no memory. */
  lemma ArrayWithoutMemory()
    ensures var s := [9, 255, 0, 0, 0, 64, 0, 0];
      && Decode(s, 0) == Read(Ok(Int32Array(0x4000_0000, [])), 8)
      && !Whole(Decode(s, 0).result.value)
  {
    hide ReadSize, ReadElements;
    var s: seq<byte> := [9, 255, 0, 0, 0, 64, 0, 0];
    var body := s[1..];
    FarSize(body);
    assert body[5..] == [0, 0];
    NoElements();
    assert DecodeArray(body, 1, 9) == Read(Ok(Int32Array(0x4000_0000, [])), 7);
  }

  lemma FarSize(body: seq<byte>)
    requires body == [255, 0, 0, 0, 64, 0, 0]
    ensures ReadSize(body) == Read(Ok(0x4000_0000), 5)
  {
    hide FromLittleEndian;
    assert body[1..][..4] == [0, 0, 0, 64];
    FromFourBytes(0, 0, 0, 64);
  }

  lemma NoElements()
    ensures ReadElements([0, 0], 6, 4, 0x4000_0000) == Read(Ok([]), 2)
  {
  }

  // ------------------------------------------------------------ encoded values

  /** Decoding an encoded value comes upon small maps and whole arrays only. */
  lemma {:induction false} EncodedStaysInside(s: seq<byte>, addr: nat, v: Value)
    requires Fits(v)
    requires Matches(s, Enc(v, addr))
    ensures AllInside(Stores(s, addr)) && AllRoomy(Headers(s, addr)) && AllCounted(Headers(s, addr))
    decreases v, 1
  {
    hide ReadSize, Decode, StoresOf, HeadersOf, Matches, Enc, EncItems, Roomy, Counted;
    StaysInsideIff(s, addr);
    HeaderOfEncoded(s, addr, v);
    var hs := HeaderAt(s, addr);
    if hs != [] {
      var h := hs[0];
      assert hs == [h] && hs[1..] == [];
      if IsContainer(v) {
        EncodedItemsStayInside(h.rest, h.addr, Children(v));
        assert ([h] + HeadersOf(h.rest, h.addr, |Children(v)|))[1..] == HeadersOf(h.rest, h.addr, |Children(v)|);
      }
    }
  }

  /** The header that an encoded value starts with. */
  lemma HeaderOfEncoded(s: seq<byte>, addr: nat, v: Value)
    requires Fits(v)
    requires Matches(s, Enc(v, addr))
    ensures s != [] && s[0] == Tag(v)
    ensures var hs := HeaderAt(s, addr);
      hs != [] ==> Roomy(hs[0]) && Counted(hs[0])
    ensures IsContainer(v) ==> var hs := HeaderAt(s, addr);
      && hs != [] && Count(hs[0].tag, hs[0].size) == |Children(v)|
      && Matches(hs[0].rest, EncItems(Children(v), hs[0].addr))
  {
    hide SizePrefix, ReadSize;
    if IsContainer(v) {
      var n := ContainerSize(v);
      var p := SizePrefix(n);
      MatchesSplit(s[1..], Cells(p), EncItems(Children(v), addr + 1 + |p|));
      MatchesCells(s[1..], p);
      ReadSizeInverts(s[1..], n);
    } else if IsArrayTag(Tag(v)) {
      ArrayHeader(s[1..], addr + 1, v);
    }
  }

  lemma ArrayHeader(s: seq<byte>, addr: nat, v: Value)
    requires Fits(v) && IsArrayTag(Tag(v))
    requires Matches(s, EncLeaf(v, addr))
    ensures ReadSize(s).result.Ok? && Span(ReadSize(s).result.value, Width(Tag(v))) < UINT32_SPAN
  {
    hide SizePrefix, ReadSize;
    var n := v.count;
    var p := SizePrefix(n);
    MatchesSplit(s, Cells(p), Padding(addr + |p|, Width(Tag(v))) + Cells(v.raw));
    MatchesCells(s, p);
    ReadSizeInverts(s, n);
  }

  lemma {:induction false} EncodedItemsStayInside(s: seq<byte>, addr: nat, items: seq<Value>)
    requires AllFit(items)
    requires Matches(s, EncItems(items, addr))
    ensures AllRoomy(HeadersOf(s, addr, |items|)) && AllCounted(HeadersOf(s, addr, |items|))
    decreases items, 0
  {
    hide Headers, Fits, Enc, Decode, Roomy, Counted;
    if items != [] {
      var first := Enc(items[0], addr);
      var rest := items[1..];
      MatchesSplit(s, first, EncItems(rest, addr + |first|));
      EncodedStaysInside(s, addr, items[0]);
      DecodeInvertsEnc(s, addr, items[0]);
      EncodedItemsStayInside(s[|first|..], addr + |first|, rest);
      AllRoomyConcat(Headers(s, addr), HeadersOf(s[|first|..], addr + |first|, |rest|));
      AllCountedConcat(Headers(s, addr), HeadersOf(s[|first|..], addr + |first|, |rest|));
    }
  }

  lemma StaysInsideAcrossAddresses(s: seq<byte>, written: nat, at: nat, v: Value)
    requires Fits(v)
    requires written % 8 == at % 8
    requires Matches(s, Enc(v, written))
    ensures AllInside(Stores(s, at))
  {
    hide Enc, Stores, Fits;
    var r := at % 8;
    EncShift(v, r, written / 8);
    EncShift(v, r, at / 8);
    assert written == r + 8 * (written / 8) && at == r + 8 * (at / 8);
    EncodedStaysInside(s, at, v);
  }
}
