/**
 * The compositor's own reader of the standard format, written independently of the
 * platform channel's: what it makes of an encoded value.
 */
module DartReader {
  import opened Bytes
  import opened StdFormat
  import opened StdRoundTrip

  /** A list keeps its length field apart from its values: a map is read as a list
      whose length counts pairs while its values hold keys and values. */
  datatype Dart =
    | DNull
    | DBool(b: bool)
    | DInteger(i: int)
    | DFloat64(bits: nat)
    | DString(chars: seq<byte>)
    | DList(length: nat, values: seq<Dart>)

  datatype Reading<T> = Got(value: T, used: nat) | Missing(used: nat)

  function ReadLength(s: seq<byte>): (r: Reading<nat>)
    ensures r.used <= |s|
    ensures r.Got? ==> r.used > 0
  {
    if s == [] then Missing(0)
    else if s[0] == 255 then
      if |s| < 5 then Missing(1) else Got(FromLittleEndian(s[1..5]), 5)
    else if s[0] == 254 then
      if |s| < 3 then Missing(1) else Got(FromLittleEndian(s[1..3]), 3)
    else Got(s[0], 1)
  }

  function Skip(offset: nat, n: nat): nat
    requires n > 0
  {
    if offset % n == 0 then 0 else n - offset % n
  }

  function ReadLeaf(s: seq<byte>, offset: nat, tag: byte): (r: Reading<Dart>)
    ensures r.used <= |s|
  {
    if tag == 0 then Got(DNull, 0)
    else if tag == 1 || tag == 2 then Got(DBool(tag == 1), 0)
    else if tag == 3 then
      if |s| < 4 then Missing(0) else Got(DInteger(FromLittleEndian(s[..4])), 4)
    else if tag == 4 then
      if |s| < 8 then Missing(0) else Got(DInteger(ToSigned(FromLittleEndian(s[..8]), UINT64_SPAN)), 8)
    else if tag == 6 then
      var gap := Skip(offset, 8);
      if |s| < gap then Missing(0)
      else if |s| - gap < 8 then Missing(gap)
      else Got(DFloat64(FromLittleEndian(s[gap..][..8])), gap + 8)
    else if tag == 7 then
      var n := ReadLength(s);
      if n.Missing? then Missing(n.used)
      else if |s| - n.used < n.value then Missing(n.used)
      else Got(DString(s[n.used..][..n.value]), n.used + n.value)
    else Missing(0)
  }

  /** The value at the front of s, whose first byte is at this offset of the message. */
  function ReadDart(s: seq<byte>, offset: nat): (r: Reading<Dart>)
    ensures r.used <= |s|
    ensures r.Got? ==> r.used > 0
    decreases |s|, 0
  {
    if s == [] then Missing(0)
    else
      var r := ReadBody(s[1..], offset + 1, s[0]);
      if r.Got? then Got(r.value, 1 + r.used) else Missing(1 + r.used)
  }

  function ReadBody(s: seq<byte>, offset: nat, tag: byte): (r: Reading<Dart>)
    ensures r.used <= |s|
    decreases |s|, 1, 0
  {
    if tag == 12 || tag == 13 then
      var n := ReadLength(s);
      if n.Missing? then Missing(n.used)
      else
        var r := ReadDarts(s[n.used..], offset + n.used, if tag == 12 then n.value else 2 * n.value);
        if r.Got? then Got(DList(n.value, r.value), n.used + r.used) else Missing(n.used + r.used)
    else ReadLeaf(s, offset, tag)
  }

  function ReadDarts(s: seq<byte>, offset: nat, n: nat): (r: Reading<seq<Dart>>)
    ensures r.used <= |s|
    decreases |s|, 1, n
  {
    if n == 0 then Got([], 0)
    else
      var first := ReadDart(s, offset);
      if first.Missing? then Missing(first.used)
      else
        var rest := ReadDarts(s[first.used..], offset + first.used, n - 1);
        if rest.Got? then Got([first.value] + rest.value, first.used + rest.used)
        else Missing(first.used + rest.used)
  }

  // ------------------------------------------------------------ what is read

  /** The kinds of value this reader knows. */
  predicate Readable(v: Value) {
    match v
    case Null | True | False | Int32(_) | Int64(_) | Float64(_) | Str(_) => true
    case List(items) => AllReadable(items)
    case Map(pairs) => AllReadable(pairs)
    case _ => false
  }

  predicate AllReadable(items: seq<Value>) {
    items == [] || (Readable(items[0]) && AllReadable(items[1..]))
  }

  /** What it makes of them: an int32 loses its sign, and a map becomes a list. */
  function ToDart(v: Value): Dart {
    match v
    case Null => DNull
    case True => DBool(true)
    case False => DBool(false)
    case Int32(i) => DInteger(ToUnsigned(i, UINT32_SPAN))
    case Int64(i) => DInteger(i)
    case Float64(bits) => DFloat64(bits)
    case Str(s) => DString(CString(s))
    case List(items) => DList(|items|, ToDarts(items))
    case Map(pairs) => DList(|pairs| / 2, ToDarts(pairs))
    case _ => DNull
  }

  function ToDarts(items: seq<Value>): seq<Dart> {
    if items == [] then [] else [ToDart(items[0])] + ToDarts(items[1..])
  }

  lemma ReadLengthAgrees(s: seq<byte>)
    ensures var mine, other := ReadLength(s), ReadSize(s);
      && mine.used == other.used
      && mine.Got? == other.result.Ok?
      && (mine.Got? ==> mine.value == other.result.value)
  {
    if s != [] && s[0] >= 254 {
      var k := if s[0] == 254 then 2 else 4;
      if |s| >= 1 + k { assert s[1..][..k] == s[1..1 + k]; }
    }
  }

  lemma SkipIsGap(offset: nat)
    ensures Skip(offset, 8) == Gap(offset, 8)
  {
  }

  lemma ReadLeafInverts(s: seq<byte>, offset: nat, v: Value)
    requires Fits(v) && !IsContainer(v)
    requires Matches(s, EncLeaf(v, offset))
    ensures Readable(v) ==> ReadLeaf(s, offset, Tag(v)) == Got(ToDart(v), |EncLeaf(v, offset)|)
    ensures !Readable(v) ==> ReadLeaf(s, offset, Tag(v)).Missing?
  {
    match v
    case Int32(i) => ReadWordInverts(s, ToUnsigned(i, UINT32_SPAN), 4);
    case Int64(i) => ReadWordInverts(s, ToUnsigned(i, UINT64_SPAN), 8);
    case Float64(bits) =>
      SkipIsGap(offset);
      var gap := Padding(offset, 8);
      MatchesSplit(s, gap, Cells(LittleEndian(bits, 8)));
      ReadWordInverts(s[|gap|..], bits, 8);
    case Str(t) => ReadStringInverts(s, offset, CString(t));
    case _ =>
  }

  lemma ReadStringInverts(s: seq<byte>, offset: nat, t: seq<byte>)
    requires |t| <= INT_MAX
    requires Matches(s, EncSized(t))
    ensures ReadLeaf(s, offset, 7) == Got(DString(t), |EncSized(t)|)
  {
    hide Skip, SizePrefix;
    var p := SizePrefix(|t|);
    MatchesSplit(s, Cells(p), Cells(t));
    MatchesCells(s, p);
    ReadSizeInverts(s, |t|);
    ReadLengthAgrees(s);
    MatchesCells(s[|p|..], t);
  }

  /** This reader reads back exactly the values made of kinds it knows, whichever
      encoder wrote them, and consumes exactly their cells. */
  lemma {:induction false} ReadDartInvertsEnc(s: seq<byte>, offset: nat, v: Value)
    requires Fits(v)
    requires Matches(s, Enc(v, offset))
    ensures Readable(v) ==> ReadDart(s, offset) == Got(ToDart(v), |Enc(v, offset)|)
    ensures !Readable(v) ==> ReadDart(s, offset).Missing?
    decreases v, 1
  {
    ReadBodyInverts(s[1..], offset + 1, v);
  }

  lemma {:induction false} ReadBodyInverts(s: seq<byte>, offset: nat, v: Value)
    requires Fits(v)
    requires Matches(s, EncBody(v, offset))
    ensures Readable(v) ==> ReadBody(s, offset, Tag(v)) == Got(ToDart(v), |EncBody(v, offset)|)
    ensures !Readable(v) ==> ReadBody(s, offset, Tag(v)).Missing?
    decreases v, 0
  {
    if IsContainer(v) {
      hide SizePrefix, ReadSize, ReadLength, ReadBody, ReadDarts, Readable, AllReadable, ToDart, ToDarts, EncItems;
      var n := ContainerSize(v);
      var p := SizePrefix(n);
      MatchesSplit(s, Cells(p), EncItems(Children(v), offset + |p|));
      MatchesCells(s, p);
      ReadSizeInverts(s, n);
      ReadLengthAgrees(s);
      ReadDartsInvert(s[|p|..], offset + |p|, Children(v));
      ContainerShape(s, offset, v);
    } else {
      ReadLeafInverts(s, offset, v);
    }
  }

  /** How a container is read: its size, then its children. */
  lemma ContainerShape(s: seq<byte>, offset: nat, v: Value)
    requires Fits(v) && IsContainer(v)
    requires ReadLength(s).Got? && ReadLength(s).value == ContainerSize(v)
    ensures Readable(v) == AllReadable(Children(v))
    ensures ToDart(v) == DList(ContainerSize(v), ToDarts(Children(v)))
    ensures var n := ReadLength(s);
      var r := ReadDarts(s[n.used..], offset + n.used, |Children(v)|);
      ReadBody(s, offset, Tag(v)) == if r.Got? then Got(DList(n.value, r.value), n.used + r.used)
        else Missing(n.used + r.used)
  {
    hide ReadLength, ReadDarts, AllReadable, ToDarts;
  }

  lemma {:induction false} ReadDartsInvert(s: seq<byte>, offset: nat, items: seq<Value>)
    requires AllFit(items)
    requires Matches(s, EncItems(items, offset))
    ensures AllReadable(items) ==> ReadDarts(s, offset, |items|) == Got(ToDarts(items), |EncItems(items, offset)|)
    ensures !AllReadable(items) ==> ReadDarts(s, offset, |items|).Missing?
    decreases items, 0
  {
    hide Fits, Tag, Readable, ToDart, Enc, EncBody, ReadBody, ReadDart;
    if items != [] {
      var first := Enc(items[0], offset);
      var rest := items[1..];
      MatchesSplit(s, first, EncItems(rest, offset + |first|));
      ReadDartInvertsEnc(s, offset, items[0]);
      ReadDartsInvert(s[|first|..], offset + |first|, rest);
    }
  }

  /** The sign of an int32 and the shape of a map are what does not survive. */
  predicate Faithful(v: Value) {
    match v
    case Int32(i) => i >= 0
    case List(items) => AllFaithful(items)
    case Map(_) => false
    case _ => true
  }

  predicate AllFaithful(items: seq<Value>) {
    items == [] || (Faithful(items[0]) && AllFaithful(items[1..]))
  }

  /** The value a reader without those two slips would produce. */
  datatype Ideal = Leaf(d: Dart) | IdealList(items: seq<Ideal>) | IdealMap(items: seq<Ideal>)

  function Meaning(v: Value): Ideal {
    match v
    case Int32(i) => Leaf(DInteger(i))
    case List(items) => IdealList(Meanings(items))
    case Map(pairs) => IdealMap(Meanings(pairs))
    case _ => Leaf(ToDart(v))
  }

  function Meanings(items: seq<Value>): seq<Ideal> {
    if items == [] then [] else [Meaning(items[0])] + Meanings(items[1..])
  }

  function Seen(d: Dart): Ideal {
    match d
    case DList(_, values) => IdealList(SeenAll(values))
    case _ => Leaf(d)
  }

  function SeenAll(ds: seq<Dart>): seq<Ideal> {
    if ds == [] then [] else [Seen(ds[0])] + SeenAll(ds[1..])
  }

  /** What is read means what was written exactly on the faithful values. */
  lemma {:induction false} SeenIsMeaningIffFaithful(v: Value)
    requires Readable(v)
    ensures Seen(ToDart(v)) == Meaning(v) <==> Faithful(v)
    decreases v, 1
  {
    match v
    case List(items) => SeenAllIsMeaningIff(items);
    case _ =>
  }

  lemma {:induction false} SeenAllIsMeaningIff(items: seq<Value>)
    requires AllReadable(items)
    ensures SeenAll(ToDarts(items)) == Meanings(items) <==> AllFaithful(items)
    decreases items, 0
  {
    if items != [] {
      SeenIsMeaningIffFaithful(items[0]);
      SeenAllIsMeaningIff(items[1..]);
      assert ToDarts(items)[1..] == ToDarts(items[1..]);
      assert SeenAll(ToDarts(items))[0] == Seen(ToDart(items[0]));
      assert SeenAll(ToDarts(items))[1..] == SeenAll(ToDarts(items[1..]));
      assert Meanings(items)[0] == Meaning(items[0]) && Meanings(items)[1..] == Meanings(items[1..]);
    }
  }

  /** An int32 of -1 is read as 2^32 - 1, and a map of null to true as their list. */
  lemma SignAndMapAreLost()
    ensures Seen(ToDart(Int32(-1))) == Leaf(DInteger(UINT32_SPAN - 1)) != Meaning(Int32(-1))
    ensures Seen(ToDart(Map([Null, True]))) == Meaning(List([Null, True])) != Meaning(Map([Null, True]))
  {
    var both := [Null, True];
    assert both[1..] == [True] && [True][1..] == [];
    assert ToDarts(both) == [DNull, DBool(true)];
    assert Meanings(both) == [Leaf(DNull), Leaf(DBool(true))];
    assert SeenAll([DNull, DBool(true)]) == [Leaf(DNull)] + SeenAll([DBool(true)]);
  }

  // ------------------------------------------------------------ as it runs

  class MessageReader {
    const buffer: seq<byte>
    var offset: nat

    constructor (buffer: seq<byte>)
      ensures this.buffer == buffer && offset == 0
    {
      this.buffer := buffer;
      offset := 0;
    }

    method Length() returns (r: Reading<nat>)
      requires offset <= |buffer|
      modifies this
      ensures r == ReadLength(buffer[old(offset)..])
      ensures offset == old(offset) + r.used
    {
      var length := |buffer|;
      ghost var s := buffer[offset..];
      if length - offset < 1 { return Missing(0); }
      var first := buffer[offset];
      offset := offset + 1;
      if first == 255 {
        if length - offset < 4 { return Missing(1); }
        assert s[1..5] == buffer[offset..offset + 4];
        offset := offset + 4;
        return Got(FromLittleEndian(buffer[offset - 4..offset]), 5);
      } else if first == 254 {
        if length - offset < 2 { return Missing(1); }
        assert s[1..3] == buffer[offset..offset + 2];
        offset := offset + 2;
        return Got(FromLittleEndian(buffer[offset - 2..offset]), 3);
      }
      return Got(first, 1);
    }

    /** Reads one value; true and the value, or false, with the offset moved as far as
        was read and never past the end. */
    method MessageRead() returns (ok: bool, out: Dart)
      requires offset <= |buffer|
      modifies this
      ensures var r := ReadDart(buffer[old(offset)..], old(offset));
        && ok == r.Got? && (ok ==> out == r.value)
        && offset == old(offset) + r.used
      decreases |buffer| - offset, 0
    {
      hide ReadLeaf, ReadLength;
      ghost var s := buffer[offset..];
      if |buffer| - offset < 1 { return false, DNull; }
      var tag := buffer[offset];
      offset := offset + 1;
      assert buffer[offset..] == s[1..];
      if tag == 12 || tag == 13 {
        var n := Length();
        if n.Missing? { return false, DNull; }
        assert buffer[offset..] == s[1..][n.used..];
        var values;
        ok, values := ReadValues(if tag == 12 then n.value else 2 * n.value);
        return ok, DList(n.value, values);
      }
      ok, out := Leaf(tag);
    }

    method Leaf(tag: byte) returns (ok: bool, out: Dart)
      requires offset <= |buffer|
      modifies this
      ensures var r := ReadLeaf(buffer[old(offset)..], old(offset), tag);
        && ok == r.Got? && (ok ==> out == r.value)
        && offset == old(offset) + r.used
    {
      hide ReadLength;
      ghost var s := buffer[offset..];
      var length := |buffer|;
      if tag == 0 { return true, DNull; }
      if tag == 1 || tag == 2 { return true, DBool(tag == 1); }
      if tag == 3 {
        if length - offset < 4 { return false, DNull; }
        assert s[..4] == buffer[offset..offset + 4];
        offset := offset + 4;
        return true, DInteger(FromLittleEndian(buffer[offset - 4..offset]));
      }
      if tag == 4 {
        if length - offset < 8 { return false, DNull; }
        assert s[..8] == buffer[offset..offset + 8];
        offset := offset + 8;
        return true, DInteger(ToSigned(FromLittleEndian(buffer[offset - 8..offset]), UINT64_SPAN));
      }
      if tag == 6 {
        var num := Skip(offset, 8);
        if length - offset < num { return false, DNull; }
        offset := offset + num;
        if length - offset < 8 { return false, DNull; }
        assert s[num..][..8] == buffer[offset..offset + 8];
        offset := offset + 8;
        return true, DFloat64(FromLittleEndian(buffer[offset - 8..offset]));
      }
      if tag == 7 {
        var n := Length();
        if n.Missing? || length - offset < n.value { return false, DNull; }
        assert s[n.used..][..n.value] == buffer[offset..offset + n.value];
        offset := offset + n.value;
        return true, DString(buffer[offset - n.value..offset]);
      }
      return false, DNull;
    }

    method ReadValues(n: nat) returns (ok: bool, values: seq<Dart>)
      requires offset <= |buffer|
      modifies this
      ensures var r := ReadDarts(buffer[old(offset)..], old(offset), n);
        && ok == r.Got? && (ok ==> values == r.value)
        && offset == old(offset) + r.used
      decreases |buffer| - offset, n + 1
    {
      hide ReadDart;
      ghost var start := offset;
      ghost var all := ReadDarts(buffer[offset..], offset, n);
      values := [];
      var i := 0;
      assert all == Continued([], 0, all) by { if all.Got? { assert [] + all.value == all.value; } }
      while i < n
        invariant i <= n && start <= offset <= |buffer|
        invariant i > 0 ==> start < offset
        invariant all == Continued(values, offset - start, ReadDarts(buffer[offset..], offset, n - i))
      {
        ghost var s, here := buffer[offset..], offset;
        var good, value := MessageRead();
        if !good { return false, []; }
        assert buffer[offset..] == s[offset - here..];
        ghost var rest := ReadDarts(buffer[offset..], offset, n - i - 1);
        if rest.Got? {
          assert values + ([value] + rest.value) == (values + [value]) + rest.value;
        }
        values := values + [value];
        i := i + 1;
      }
      assert values + [] == values;
      ok := true;
    }
  }

  ghost function Continued(values: seq<Dart>, used: nat, rest: Reading<seq<Dart>>): Reading<seq<Dart>> {
    if rest.Missing? then Missing(used + rest.used) else Got(values + rest.value, used + rest.used)
  }
}
