/**
 * What the reader takes and what it refuses, on all byte strings: it needs exactly the
 * bytes it consumes, takes a size in any of its three forms, and knows fourteen tags.
 */
module StdWhole {
  import opened Bytes
  import opened StdFormat
  import opened DartReader
  import opened StdRoundTrip
  import opened StdMessages

  // ------------------------------------------------------------ no more and no less

  /** Given less than it consumed it fails; given more or less behind that, it does the
      same. */
  ghost predicate Whole<T>(all: Read<T>, part: Read<T>, k: nat) {
    all.result.Ok? ==> if k < all.used then part.result.BadMessage? else part == all
  }

  lemma TakeWhole(s: seq<byte>, n: int, k: nat)
    requires k <= |s|
    ensures Whole(Take(s, n), Take(s[..k], n), k)
  {
    if 0 <= n <= k { assert s[..k][..n] == s[..n]; }
  }

  lemma ReadSizeWhole(s: seq<byte>, k: nat)
    requires k <= |s|
    ensures Whole(ReadSize(s), ReadSize(s[..k]), k)
  {
    hide FromLittleEndian;
    if k > 0 {
      assert s[..k][1..] == s[1..][..k - 1];
      if s[0] >= 254 { TakeWhole(s[1..], if s[0] == 254 then 2 else 4, k - 1); }
    }
  }

  lemma ScalarWhole(s: seq<byte>, addr: nat, tag: byte, k: nat)
    requires k <= |s| && (tag == 3 || tag == 4 || tag == 6)
    ensures Whole(DecodeScalar(s, addr, tag), DecodeScalar(s[..k], addr, tag), k)
  {
    hide FromLittleEndian, ToSigned, Take, Gap;
    var n := if tag == 6 then Gap(addr, 8) else 0;
    TakeWhole(s, n, k);
    var gap := Take(s, n).used;
    if Take(s, n).result.Ok? && k >= gap {
      assert s[..k][gap..] == s[gap..][..k - gap];
      TakeWhole(s[gap..], if tag == 3 then 4 else 8, k - gap);
    }
  }

  lemma SizedWhole(s: seq<byte>, k: nat)
    requires k <= |s|
    ensures Whole(ReadSized(s), ReadSized(s[..k]), k)
  {
    hide ReadSize, Take, AsInt;
    ReadSizeWhole(s, k);
    var size := ReadSize(s);
    if size.result.Ok? && k >= size.used {
      assert s[..k][size.used..] == s[size.used..][..k - size.used];
      TakeWhole(s[size.used..], AsInt(size.result.value), k - size.used);
    }
  }

  lemma ElementsWhole(s: seq<byte>, addr: nat, width: nat, n: nat, k: nat)
    requires k <= |s| && Alignment(width)
    ensures Whole(ReadElements(s, addr, width, n), ReadElements(s[..k], addr, width, n), k)
  {
    hide Take, AsInt, Gap, Span;
    TakeWhole(s, Gap(addr, width), k);
    var gap := Take(s, Gap(addr, width)).used;
    if Take(s, Gap(addr, width)).result.Ok? && k >= gap {
      assert s[..k][gap..] == s[gap..][..k - gap];
      TakeWhole(s[gap..], AsInt(Span(n, width)), k - gap);
    }
  }

  lemma ArrayWhole(s: seq<byte>, addr: nat, tag: byte, k: nat)
    requires k <= |s| && (tag == 9 || tag == 10 || tag == 11)
    ensures Whole(DecodeArray(s, addr, tag), DecodeArray(s[..k], addr, tag), k)
  {
    hide ReadSize, ReadElements;
    ReadSizeWhole(s, k);
    var size := ReadSize(s);
    if size.result.Ok? && k >= size.used {
      assert s[..k][size.used..] == s[size.used..][..k - size.used];
      ElementsWhole(s[size.used..], addr + size.used, if tag == 9 then 4 else 8, size.result.value, k - size.used);
    }
  }

  lemma LeafWhole(s: seq<byte>, addr: nat, tag: byte, k: nat)
    requires k <= |s|
    ensures Whole(DecodeLeaf(s, addr, tag), DecodeLeaf(s[..k], addr, tag), k)
  {
    hide DecodeScalar, ReadSized, DecodeArray;
    if tag == 3 || tag == 4 || tag == 6 { ScalarWhole(s, addr, tag, k); }
    else if tag == 5 || tag == 7 || tag == 8 { SizedWhole(s, k); }
    else if tag == 9 || tag == 10 || tag == 11 { ArrayWhole(s, addr, tag, k); }
  }

  /** The reader needs every byte it consumes, and none behind them. */
  lemma {:induction false} DecodeWhole(s: seq<byte>, addr: nat, k: nat)
    requires k <= |s|
    ensures Whole(Decode(s, addr), Decode(s[..k], addr), k)
    decreases |s|, 0
  {
    hide DecodeBody;
    if k > 0 {
      assert s[..k][1..] == s[1..][..k - 1];
      DecodeBodyWhole(s[1..], addr + 1, s[0], k - 1);
    }
  }

  lemma {:induction false} DecodeBodyWhole(s: seq<byte>, addr: nat, tag: byte, k: nat)
    requires k <= |s|
    ensures Whole(DecodeBody(s, addr, tag), DecodeBody(s[..k], addr, tag), k)
    decreases |s|, 2 * UINT32_SPAN
  {
    hide DecodeItems, DecodeLeaf, ReadSize;
    if tag == 12 || tag == 13 {
      ReadSizeWhole(s, k);
      var size := ReadSize(s);
      if size.result.Ok? && k >= size.used {
        assert s[..k][size.used..] == s[size.used..][..k - size.used];
        var n := size.result.value;
        DecodeItemsWhole(s[size.used..], addr + size.used, if tag == 12 then n else 2 * n, k - size.used);
      }
    } else {
      LeafWhole(s, addr, tag, k);
    }
  }

  lemma {:induction false} DecodeItemsWhole(s: seq<byte>, addr: nat, n: nat, k: nat)
    requires k <= |s|
    ensures Whole(DecodeItems(s, addr, n), DecodeItems(s[..k], addr, n), k)
    decreases |s|, n + 1
  {
    hide Decode;
    if n > 0 {
      DecodeWhole(s, addr, k);
      var first := Decode(s, addr);
      if first.result.Ok? && k >= first.used {
        assert s[..k][first.used..] == s[first.used..][..k - first.used];
        DecodeItemsWhole(s[first.used..], addr + first.used, n - 1, k - first.used);
      }
    }
  }

  // ------------------------------------------------------------ the second reader

  ghost predicate Entire<T>(all: Reading<T>, part: Reading<T>, k: nat) {
    all.Got? ==> if k < all.used then part.Missing? else part == all
  }

  lemma ReadLengthEntire(s: seq<byte>, k: nat)
    requires k <= |s|
    ensures Entire(ReadLength(s), ReadLength(s[..k]), k)
  {
    hide FromLittleEndian;
    if k >= 3 { assert s[..k][1..3] == s[1..3]; }
    if k >= 5 { assert s[..k][1..5] == s[1..5]; }
  }

  lemma ReadLeafEntire(s: seq<byte>, offset: nat, tag: byte, k: nat)
    requires k <= |s|
    ensures Entire(ReadLeaf(s, offset, tag), ReadLeaf(s[..k], offset, tag), k)
  {
    hide FromLittleEndian, ToSigned, ReadLength, Skip;
    if tag == 3 {
      if k >= 4 { assert s[..k][..4] == s[..4]; }
    } else if tag == 4 {
      if k >= 8 { assert s[..k][..8] == s[..8]; }
    } else if tag == 6 {
      var gap := Skip(offset, 8);
      if k >= gap + 8 { assert s[..k][gap..][..8] == s[gap..][..8]; }
    } else if tag == 7 {
      ReadLengthEntire(s, k);
      var n := ReadLength(s);
      if n.Got? && k >= n.used + n.value { assert s[..k][n.used..][..n.value] == s[n.used..][..n.value]; }
    }
  }

  /** So does the second reader. */
  lemma {:induction false} ReadDartEntire(s: seq<byte>, offset: nat, k: nat)
    requires k <= |s|
    ensures Entire(ReadDart(s, offset), ReadDart(s[..k], offset), k)
    decreases |s|, 0
  {
    hide ReadBody;
    if k > 0 {
      assert s[..k][1..] == s[1..][..k - 1];
      ReadBodyEntire(s[1..], offset + 1, s[0], k - 1);
    }
  }

  lemma {:induction false} ReadBodyEntire(s: seq<byte>, offset: nat, tag: byte, k: nat)
    requires k <= |s|
    ensures Entire(ReadBody(s, offset, tag), ReadBody(s[..k], offset, tag), k)
    decreases |s|, 1, 0
  {
    hide ReadDarts, ReadLeaf, ReadLength;
    if tag == 12 || tag == 13 {
      ReadLengthEntire(s, k);
      var n := ReadLength(s);
      if n.Got? && k >= n.used {
        assert s[..k][n.used..] == s[n.used..][..k - n.used];
        ReadDartsEntire(s[n.used..], offset + n.used, if tag == 12 then n.value else 2 * n.value, k - n.used);
      }
    } else {
      ReadLeafEntire(s, offset, tag, k);
    }
  }

  lemma {:induction false} ReadDartsEntire(s: seq<byte>, offset: nat, n: nat, k: nat)
    requires k <= |s|
    ensures Entire(ReadDarts(s, offset, n), ReadDarts(s[..k], offset, n), k)
    decreases |s|, 1, n
  {
    hide ReadDart;
    if n > 0 {
      ReadDartEntire(s, offset, k);
      var first := ReadDart(s, offset);
      if first.Got? && k >= first.used {
        assert s[..k][first.used..] == s[first.used..][..k - first.used];
        ReadDartsEntire(s[first.used..], offset + first.used, n - 1, k - first.used);
      }
    }
  }

  // ------------------------------------------------------------ sizes and tags

  lemma ThreeForms(n: nat, after: seq<byte>)
    ensures n <= 253 ==> ReadSize([n] + after) == Read(Ok(n), 1)
    ensures n <= 0xFFFF ==> ReadSize([254] + LittleEndian(n, 2) + after) == Read(Ok(n), 3)
    ensures n < UINT32_SPAN ==> ReadSize([255] + LittleEndian(n, 4) + after) == Read(Ok(n), 5)
  {
    hide LittleEndian, FromLittleEndian;
    Pow256Values();
    if n <= 0xFFFF {
      LittleEndianRoundTrip(n, 2);
      var s := [254] + LittleEndian(n, 2) + after;
      assert s[1..][..2] == LittleEndian(n, 2);
    }
    if n < UINT32_SPAN {
      LittleEndianRoundTrip(n, 4);
      var s := [255] + LittleEndian(n, 4) + after;
      assert s[1..][..4] == LittleEndian(n, 4);
    }
  }

  /** A tag that a reader does not know, and no bytes at all, are refused. */
  lemma UnknownTag(s: seq<byte>, addr: nat)
    ensures s == [] || s[0] > 13 ==> Decode(s, addr).result.BadMessage?
    ensures s == [] || s[0] !in {0, 1, 2, 3, 4, 6, 7, 12, 13} ==> ReadDart(s, addr).Missing?
  {
  }

  function Pads(n: nat): seq<Cell> {
    seq(n, _ => Pad)
  }

  lemma CellsJoin(a: seq<byte>, b: seq<byte>)
    ensures Cells(a + b) == Cells(a) + Cells(b)
  {
  }

  /** One value of each kind, written at address 0: constants and integers, */
  lemma ScalarsOnTheWire()
    ensures Enc(Null, 0) == Cells([0]) && Enc(True, 0) == Cells([1]) && Enc(False, 0) == Cells([2])
    ensures Enc(Int32(-2), 0) == Cells([3, 254, 255, 255, 255])
    ensures Enc(Int64(1), 0) == Cells([4, 1, 0, 0, 0, 0, 0, 0, 0])
  {
    EightBytes();
    hide LittleEndian;
    CellsJoin([3], LittleEndian(0xFFFF_FFFE, 4));
    CellsJoin([4], LittleEndian(1, 8));
  }

  /** ... strings and bytes, */
  lemma StringsOnTheWire()
    ensures Enc(LargeInt([49]), 0) == Cells([5, 1, 49])
    ensures Enc(Str([97]), 0) == Cells([7, 1, 97]) && Enc(UInt8Array([0]), 0) == Cells([8, 1, 0])
  {
    assert CString([49]) == [49] && CString([97]) == [97];
    hide CString, EncSized;
    SizedOnTheWire(5, 49);
    SizedOnTheWire(7, 97);
    SizedOnTheWire(8, 0);
  }

  lemma SizedOnTheWire(tag: byte, b: byte)
    ensures [Byte(tag)] + EncSized([b]) == Cells([tag, 1, b])
  {
    hide LittleEndian;
    assert EncSized([b]) == Cells([1]) + Cells([b]);
  }

  /** ... what is aligned to 4 or 8 bytes, */
  lemma FloatOnTheWire()
    ensures Enc(Float64(1), 0) == Cells([6]) + (Pads(7) + Cells([1, 0, 0, 0, 0, 0, 0, 0]))
  {
    EightBytes();
    hide LittleEndian;
    assert Padding(1, 8) == Pads(7);
  }

  lemma ArraysOnTheWire(eight: seq<byte>)
    requires |eight| == 8
    ensures Enc(Int32Array(2, eight), 0) == Cells([9, 2]) + (Pads(2) + Cells(eight))
    ensures Enc(Int64Array(1, eight), 0) == Cells([10, 1]) + (Pads(6) + Cells(eight))
    ensures Enc(Float64Array(1, eight), 0) == Cells([11, 1]) + (Pads(6) + Cells(eight))
  {
    assert Padding(2, 4) == Pads(2) && Padding(2, 8) == Pads(6);
    hide EncArray, Padding, Cells;
    ArrayOnTheWire(9, 2, 4, eight);
    ArrayOnTheWire(10, 1, 8, eight);
    ArrayOnTheWire(11, 1, 8, eight);
  }

  lemma ArrayOnTheWire(tag: byte, n: byte, a: nat, raw: seq<byte>)
    requires Alignment(a) && n < 254
    ensures [Byte(tag)] + EncArray(1, a, n, raw) == Cells([tag, n]) + (Padding(2, a) + Cells(raw))
  {
    hide LittleEndian, Gap;
    CellsJoin([tag], [n]);
    assert Cells([tag]) == [Byte(tag)];
    assert [tag] + [n] == [tag, n];
  }

  /** ... and containers: the size of a map counts pairs. */
  lemma ContainersOnTheWire(items: seq<Value>)
    ensures Enc(List(items), 0) == [Byte(12)] + EncBody(List(items), 1)
    ensures EncBody(List(items), 1) == Cells(SizePrefix(|items|)) + EncItems(items, 1 + |SizePrefix(|items|)|)
    ensures Enc(Map(items), 0) == [Byte(13)] + EncBody(Map(items), 1)
    ensures EncBody(Map(items), 1) ==
      Cells(SizePrefix(|items| / 2)) + EncItems(items, 1 + |SizePrefix(|items| / 2)|)
  {
    hide EncItems, Cells, EncLeaf, SizePrefix;
  }

  lemma EightBytes()
    ensures LittleEndian(1, 8) == [1, 0, 0, 0, 0, 0, 0, 0]
    ensures LittleEndian(0xFFFF_FFFE, 4) == [254, 255, 255, 255]
  {
    assert LittleEndian(0, 3) == [0, 0, 0] && LittleEndian(0, 5) == [0] + ([0] + LittleEndian(0, 3));
    assert LittleEndian(1, 8) == [1] + ([0] + ([0] + LittleEndian(0, 5)));
    assert LittleEndian(0xFFFF, 2) == [255, 255];
    assert LittleEndian(0xFF_FFFF, 3) == [255] + LittleEndian(0xFFFF, 2);
  }

  // ------------------------------------------------------------ responses

  /** What the decoder would read: any byte but 0 and a value for a success, or 0 and the
      code, the message or nothing, and the details of an error. */
  lemma ResponseAsRead(s: seq<byte>, base: nat, v: Value, code: seq<byte>, msg: Value, details: Value)
    requires Fits(v) && Fits(Str(code)) && Fits(msg) && (msg.Str? || msg.Null?) && Fits(details)
    ensures s != [] && s[0] != 0 && Matches(s[1..], Enc(v, base + 1)) ==>
      DecodeResponse(s, base) == Succeeded(AsRead(v))
    ensures s != [] && s[0] == 0 && Matches(s[1..], EncItems([Str(code), msg, details], base + 1)) ==>
      DecodeResponse(s, base) ==
        Failed(CString(code), if msg.Str? then CString(msg.chars) else [], AsRead(details))
  {
    hide Enc, EncItems, Decode, DecodeItems, Fits, CString;
    if s != [] && s[0] != 0 && Matches(s[1..], Enc(v, base + 1)) {
      DecodeInvertsEnc(s[1..], base + 1, v);
    }
    var three := [Str(code), msg, details];
    if s != [] && s[0] == 0 && Matches(s[1..], EncItems(three, base + 1)) {
      assert three[1..] == [msg, details] && three[1..][1..] == [details] && three[1..][1..][1..] == [];
      assert AllFit([details]) && AllFit([msg, details]) && AllFit(three);
      DecodeInvertsEncItems(s[1..], base + 1, three);
      assert AsReadItems([details]) == [AsRead(details)] + AsReadItems([]);
      assert AsReadItems([msg, details]) == [AsRead(msg)] + AsReadItems([details]);
      assert AsReadItems(three) == [Str(CString(code)), AsRead(msg), AsRead(details)];
    }
  }
}
