/** Decoding inverts encoding, and what that says about strings and addresses. */
module StdRoundTrip {
  import opened Bytes
  import opened StdFormat

  /** The bytes s begin with these cells; padding may be anything. */
  ghost predicate Matches(s: seq<byte>, cells: seq<Cell>) {
    || cells == []
    || (&& s != []
        && (cells[0].Byte? ==> s[0] == cells[0].b)
        && Matches(s[1..], cells[1..]))
  }

  /** What reading a string value back yields: its C string. */
  function AsRead(v: Value): Value {
    match v
    case LargeInt(s) => LargeInt(CString(s))
    case Str(s) => Str(CString(s))
    case List(items) => List(AsReadItems(items))
    case Map(pairs) => Map(AsReadItems(pairs))
    case _ => v
  }

  function AsReadItems(items: seq<Value>): seq<Value> {
    if items == [] then [] else [AsRead(items[0])] + AsReadItems(items[1..])
  }

  predicate NulFree(v: Value) {
    match v
    case LargeInt(s) => 0 !in s
    case Str(s) => 0 !in s
    case List(items) => AllNulFree(items)
    case Map(pairs) => AllNulFree(pairs)
    case _ => true
  }

  predicate AllNulFree(items: seq<Value>) {
    items == [] || (NulFree(items[0]) && AllNulFree(items[1..]))
  }

  // ------------------------------------------------------------ splitting

  lemma {:induction false} MatchesSplit(s: seq<byte>, a: seq<Cell>, b: seq<Cell>)
    ensures Matches(s, a + b) <==> Matches(s, a) && |a| <= |s| && Matches(s[|a|..], b)
    decreases |a|
  {
    if a == [] {
      assert a + b == b;
    } else if s != [] {
      MatchesSplit(s[1..], a[1..], b);
      assert (a + b)[1..] == a[1..] + b;
      if |a| <= |s| { assert s[1..][|a| - 1..] == s[|a|..]; }
    }
  }

  lemma {:induction false} MatchesCells(s: seq<byte>, t: seq<byte>)
    ensures Matches(s, Cells(t)) <==> t <= s
    ensures t <= s ==> s[..|t|] == t
  {
    if t != [] {
      assert Cells(t)[1..] == Cells(t[1..]);
      assert t == [t[0]] + t[1..];
      if s != [] {
        MatchesCells(s[1..], t[1..]);
        assert s == [s[0]] + s[1..];
      }
    }
  }

  lemma {:induction false} MatchesLength(s: seq<byte>, cells: seq<Cell>)
    requires Matches(s, cells)
    ensures |cells| <= |s|
  {
    if cells != [] { MatchesLength(s[1..], cells[1..]); }
  }

  // ------------------------------------------------------------ the parts

  lemma ReadSizeInverts(s: seq<byte>, n: nat)
    requires n <= INT_MAX
    requires SizePrefix(n) <= s
    ensures ReadSize(s) == Read(Ok(n), |SizePrefix(n)|)
  {
    if n >= 254 {
      var k := if n <= 0xFFFF then 2 else 4;
      Pow256Values();
      LittleEndianRoundTrip(n, k);
      assert s[1..][..k] == SizePrefix(n)[1..];
    }
  }

  lemma DecodeSizedInverts(s: seq<byte>, t: seq<byte>, tag: byte)
    requires |t| <= INT_MAX
    requires tag == 5 || tag == 7 || tag == 8
    requires Matches(s, EncSized(t))
    ensures DecodeSized(s, tag) ==
      Read(Ok(if tag == 5 then LargeInt(t) else if tag == 7 then Str(t) else UInt8Array(t)), |EncSized(t)|)
  {
    var p := SizePrefix(|t|);
    MatchesSplit(s, Cells(p), Cells(t));
    MatchesCells(s, p);
    ReadSizeInverts(s, |t|);
    MatchesCells(s[|p|..], t);
  }

  lemma ReadElementsInverts(s: seq<byte>, addr: nat, width: nat, n: nat, raw: seq<byte>)
    requires Alignment(width) && |raw| == Span(n, width) <= INT_MAX
    requires Matches(s, Padding(addr, width) + Cells(raw))
    ensures ReadElements(s, addr, width, n) == Read(Ok(raw), Gap(addr, width) + |raw|)
  {
    var gap := Padding(addr, width);
    MatchesSplit(s, gap, Cells(raw));
    MatchesCells(s[|gap|..], raw);
  }

  lemma DecodeArrayInverts(s: seq<byte>, addr: nat, n: nat, raw: seq<byte>, tag: byte)
    requires tag == 9 || tag == 10 || tag == 11
    requires |raw| == Span(n, if tag == 9 then 4 else 8) <= INT_MAX
    requires Matches(s, EncArray(addr, if tag == 9 then 4 else 8, n, raw))
    ensures DecodeArray(s, addr, tag) ==
      Read(Ok(if tag == 9 then Int32Array(n, raw)
              else if tag == 10 then Int64Array(n, raw) else Float64Array(n, raw)),
           |EncArray(addr, if tag == 9 then 4 else 8, n, raw)|)
  {
    var width := if tag == 9 then 4 else 8;
    var p := SizePrefix(n);
    MatchesSplit(s, Cells(p), Padding(addr + |p|, width) + Cells(raw));
    MatchesCells(s, p);
    ReadSizeInverts(s, n);
    ReadElementsInverts(s[|p|..], addr + |p|, width, n, raw);
  }

  lemma ReadWordInverts(s: seq<byte>, n: nat, k: nat)
    requires (k == 4 && n < UINT32_SPAN) || (k == 8 && n < UINT64_SPAN)
    requires Matches(s, Cells(LittleEndian(n, k)))
    ensures k <= |s| && FromLittleEndian(s[..k]) == n
  {
    Pow256Values();
    LittleEndianRoundTrip(n, k);
    MatchesCells(s, LittleEndian(n, k));
  }

  lemma DecodeScalarInverts(s: seq<byte>, addr: nat, v: Value)
    requires v.Int32? || v.Int64? || v.Float64?
    requires Matches(s, EncLeaf(v, addr))
    ensures DecodeScalar(s, addr, Tag(v)) == Read(Ok(v), |EncLeaf(v, addr)|)
  {
    match v
    case Int32(i) => ReadWordInverts(s, ToUnsigned(i, UINT32_SPAN), 4);
    case Int64(i) => ReadWordInverts(s, ToUnsigned(i, UINT64_SPAN), 8);
    case Float64(bits) =>
      var gap := Padding(addr, 8);
      MatchesSplit(s, gap, Cells(LittleEndian(bits, 8)));
      ReadWordInverts(s[|gap|..], bits, 8);
  }

  lemma DecodeLeafInverts(s: seq<byte>, addr: nat, v: Value)
    requires Fits(v) && !IsContainer(v)
    requires Matches(s, EncLeaf(v, addr))
    ensures DecodeLeaf(s, addr, Tag(v)) == Read(Ok(AsRead(v)), |EncLeaf(v, addr)|)
  {
    match v
    case Null | True | False =>
    case Int32(_) | Int64(_) | Float64(_) => DecodeScalarInverts(s, addr, v);
    case LargeInt(t) => DecodeSizedInverts(s, CString(t), 5);
    case Str(t) => DecodeSizedInverts(s, CString(t), 7);
    case UInt8Array(t) => DecodeSizedInverts(s, t, 8);
    case Int32Array(n, raw) => DecodeArrayInverts(s, addr, n, raw, 9);
    case Int64Array(n, raw) => DecodeArrayInverts(s, addr, n, raw, 10);
    case Float64Array(n, raw) => DecodeArrayInverts(s, addr, n, raw, 11);
  }

  // ------------------------------------------------------------ the theorem

  /** Whatever bytes lie in the padding and after the value, the decoder returns v
      as its C strings read and consumes exactly the cells of v. */
  lemma {:induction false} DecodeInvertsEnc(s: seq<byte>, addr: nat, v: Value)
    requires Fits(v)
    requires Matches(s, Enc(v, addr))
    ensures Decode(s, addr) == Read(Ok(AsRead(v)), |Enc(v, addr)|)
    decreases v, 1
  {
    DecodeInvertsEncBody(s[1..], addr + 1, v);
  }

  lemma {:induction false} DecodeInvertsEncBody(s: seq<byte>, addr: nat, v: Value)
    requires Fits(v)
    requires Matches(s, EncBody(v, addr))
    ensures DecodeBody(s, addr, Tag(v)) == Read(Ok(AsRead(v)), |EncBody(v, addr)|)
    decreases v, 0
  {
    hide EncLeaf, DecodeLeaf, SizePrefix, ReadSize, Matches, EncItems, DecodeItems, AllFit, AsReadItems;
    if IsContainer(v) {
      var n := ContainerSize(v);
      var p := SizePrefix(n);
      MatchesSplit(s, Cells(p), EncItems(Children(v), addr + |p|));
      MatchesCells(s, p);
      ReadSizeInverts(s, n);
      DecodeInvertsEncItems(s[|p|..], addr + |p|, Children(v));
    } else {
      DecodeLeafInverts(s, addr, v);
    }
  }

  lemma {:induction false} DecodeInvertsEncItems(s: seq<byte>, addr: nat, items: seq<Value>)
    requires AllFit(items)
    requires Matches(s, EncItems(items, addr))
    ensures DecodeItems(s, addr, |items|) == Read(Ok(AsReadItems(items)), |EncItems(items, addr)|)
    decreases items, 0
  {
    hide Tag, Enc, Decode, Fits, AsRead, Matches;
    if items != [] {
      var first := Enc(items[0], addr);
      MatchesSplit(s, first, EncItems(items[1..], addr + |first|));
      DecodeInvertsEnc(s, addr, items[0]);
      var rest := items[1..];
      DecodeInvertsEncItems(s[|first|..], addr + |first|, rest);
      assert |rest| == |items| - 1;
    }
  }

  // ------------------------------------------------------------ when it is exact

  /** The round trip is the identity exactly on the values whose strings hold no NUL. */
  lemma {:induction false} AsReadIsIdentityIffNulFree(v: Value)
    ensures AsRead(v) == v <==> NulFree(v)
    decreases v, 1
  {
    match v
    case List(items) => AsReadItemsIsIdentityIff(items);
    case Map(pairs) => AsReadItemsIsIdentityIff(pairs);
    case _ =>
  }

  lemma {:induction false} AsReadItemsIsIdentityIff(items: seq<Value>)
    ensures AsReadItems(items) == items <==> AllNulFree(items)
    decreases items, 0
  {
    if items != [] {
      AsReadIsIdentityIffNulFree(items[0]);
      AsReadItemsIsIdentityIff(items[1..]);
      assert AsReadItems(items)[0] == AsRead(items[0]) && AsReadItems(items)[1..] == AsReadItems(items[1..]);
      assert items == [items[0]] + items[1..];
    }
  }

  // ------------------------------------------------------------ addresses

  /** Moving a value by a multiple of 8 does not change its cells. */
  lemma {:induction false} EncShift(v: Value, addr: nat, q: nat)
    ensures Enc(v, addr + 8 * q) == Enc(v, addr)
    decreases v, 1
  {
    hide SizePrefix, EncLeaf, EncItems;
    if IsContainer(v) {
      EncItemsShift(Children(v), addr + 1 + |SizePrefix(ContainerSize(v))|, q);
    } else {
      EncLeafShift(v, addr + 1, q);
    }
  }

  lemma {:induction false} EncItemsShift(items: seq<Value>, addr: nat, q: nat)
    ensures EncItems(items, addr + 8 * q) == EncItems(items, addr)
    decreases items, 0
  {
    hide Tag, SizePrefix;
    if items != [] {
      EncShift(items[0], addr, q);
      EncItemsShift(items[1..], addr + |Enc(items[0], addr)|, q);
    }
  }

  lemma {:induction false} RemainderShift(u: nat, q: nat)
    ensures (u + 8 * q) % 8 == u % 8 && (u + 8 * q) % 4 == u % 4
    decreases q
  {
    if q > 0 { RemainderShift(u + 8, q - 1); }
  }

  lemma GapShift(addr: nat, a: nat, q: nat)
    requires Alignment(a)
    ensures Gap(addr + 8 * q, a) == Gap(addr, a)
  {
    RemainderShift(addr + (a - 1), q);
  }

  lemma EncLeafShift(v: Value, addr: nat, q: nat)
    requires !IsContainer(v)
    ensures EncLeaf(v, addr + 8 * q) == EncLeaf(v, addr)
  {
    match v
    case Float64(_) => GapShift(addr, 8, q);
    case Int32Array(n, _) => GapShift(addr + |SizePrefix(n)|, 4, q);
    case Int64Array(n, _) => GapShift(addr + |SizePrefix(n)|, 8, q);
    case Float64Array(n, _) => GapShift(addr + |SizePrefix(n)|, 8, q);
    case _ =>
  }

  /** A value written at one address is read back at any other that agrees with it
      modulo 8. */
  lemma RoundTripAcrossAddresses(s: seq<byte>, written: nat, at: nat, v: Value)
    requires Fits(v)
    requires written % 8 == at % 8
    requires Matches(s, Enc(v, written))
    ensures Decode(s, at) == Read(Ok(AsRead(v)), |Enc(v, written)|)
  {
    var r := at % 8;
    EncShift(v, r, written / 8);
    EncShift(v, r, at / 8);
    assert written == r + 8 * (written / 8) && at == r + 8 * (at / 8);
    DecodeInvertsEnc(s, at, v);
  }

  /** The cells of a concatenation of values. */
  lemma {:induction false} EncItemsConcat(a: seq<Value>, b: seq<Value>, addr: nat)
    ensures EncItems(a + b, addr) == EncItems(a, addr) + EncItems(b, addr + |EncItems(a, addr)|)
    decreases |a|
  {
    if a == [] {
      assert a + b == b;
    } else {
      assert (a + b)[1..] == a[1..] + b;
      EncItemsConcat(a[1..], b, addr + |Enc(a[0], addr)|);
    }
  }
}
