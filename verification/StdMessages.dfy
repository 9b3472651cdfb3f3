/**
 * Whole messages: the size calculation, the method call, and what the response
 * codec does to a response.
 */
module StdMessages {
  import opened Bytes
  import opened StdFormat
  import opened StdRoundTrip
  import opened StdCodec
  import opened StdReader
  import opened StdMemory

  /** The offset after v, computed element by element from the offset before it. */
  method CalcValueSize(v: Value, size: nat) returns (out: nat)
    requires Fits(v)
    ensures out == size + |Enc(v, size)|
    decreases v
  {
    hide EncItems, SizePrefix, LittleEndian, CString, Padding, AllFit;
    out := size + 1;
    match v
    case Null | True | False =>
    case Int32(_) => out := out + 4;
    case Int64(_) => out := out + 8;
    case Float64(_) => out := out + Gap(out, 8) + 8;
    case LargeInt(s) => out := SizeBytes(out, |CString(s)|) + |CString(s)|;
    case Str(s) => out := SizeBytes(out, |CString(s)|) + |CString(s)|;
    case UInt8Array(s) => out := SizeBytes(out, |s|) + |s|;
    case Int32Array(n, _) => out := SizeBytes(out, n); out := out + Gap(out, 4) + n * 4;
    case Int64Array(n, _) => out := SizeBytes(out, n); out := out + Gap(out, 8) + n * 8;
    case Float64Array(n, _) => out := SizeBytes(out, n); out := out + Gap(out, 8) + n * 8;
    case List(items) =>
      out := SizeBytes(out, |items|);
      out := CalcItemsSize(v, out);
    case Map(pairs) =>
      out := SizeBytes(out, |pairs| / 2);
      out := CalcItemsSize(v, out);
  }

  function SizeBytes(size: nat, n: nat): (out: nat)
    ensures out == size + |SizePrefix(n)|
  {
    if n < 254 then size + 1 else if n <= 0xFFFF then size + 3 else size + 5
  }

  method CalcItemsSize(v: Value, size: nat) returns (out: nat)
    requires Fits(v) && IsContainer(v)
    ensures out == size + |EncItems(Children(v), size)|
    decreases v, 0
  {
    hide Enc;
    var items := Children(v);
    ghost var end := size + |EncItems(items, size)|;
    assert items[0..] == items;
    out := size;
    var i := 0;
    while i < |items|
      invariant i <= |items| && AllFit(items[i..])
      invariant out + |EncItems(items[i..], out)| == end
    {
      assert items[i..][1..] == items[i + 1..];
      out := CalcValueSize(items[i], out);
      i := i + 1;
    }
  }

  // ------------------------------------------------------------ method calls

  function CallCells(name: seq<byte>, arg: Value): seq<Cell> {
    var first := Enc(Str(name), 0);
    first + Enc(arg, |first|)
  }

  function DecodeCall(s: seq<byte>, addr: nat): (r: Result<(seq<byte>, Value)>) {
    var name := Decode(s, addr);
    if name.result.BadMessage? || !name.result.value.Str? then BadMessage
    else
      var arg := Decode(s[name.used..], addr + name.used);
      if arg.result.BadMessage? then BadMessage else Ok((name.result.value.chars, arg.result.value))
  }

  /** Encodes a call into a fresh buffer that it fills exactly. The allocator hands
      out 8-aligned memory. */
  method EncodeMethodCall(name: seq<byte>, arg: Value, base: nat) returns (buf: array<byte>)
    requires Fits(Str(name)) && Fits(arg)
    requires base % 8 == 0
    ensures fresh(buf)
    ensures buf.Length == |CallCells(name, arg)|
    ensures Matches(buf[..], CallCells(name, arg))
  {
    hide Enc, Put, Fits, Matches;
    var size := CalcValueSize(Str(name), 0);
    size := CalcValueSize(arg, size);
    buf := new byte[size];
    var w := new WriteCursor(buf, base);
    ghost var first := Enc(Str(name), 0);
    ghost var second := Enc(arg, |first|);
    assert base == 8 * (base / 8);
    EncShift(Str(name), 0, base / 8);
    EncShift(arg, |first|, base / 8);
    PutPut(buf[..], 0, first, second);
    PutMatches(buf[..], 0, first + second);
    w.WriteValue(Str(name));
    w.WriteValue(arg);
    assert buf[..][0..] == buf[..];
  }

  /** All children of a call's name and argument are stored inside their containers. */
  predicate CallInside(s: seq<byte>, addr: nat) {
    var name := Decode(s, addr);
    && AllInside(Stores(s, addr))
    && (name.result.Ok? && name.result.value.Str? ==> AllInside(Stores(s[name.used..], addr + name.used)))
  }

  method DecodeMethodCall(data: seq<byte>, base: nat) returns (r: Result<(seq<byte>, Value)>, stray: bool)
    ensures stray <==> !CallInside(data, base)
    ensures !stray ==> r == DecodeCall(data, base)
  {
    hide Decode, Stores;
    var c := new ReadCursor(data, base);
    var name, arg;
    name, stray := c.ReadValue();
    if stray || name.BadMessage? || !name.value.Str? { return BadMessage, stray; }
    arg, stray := c.ReadValue();
    if stray || arg.BadMessage? { return BadMessage, stray; }
    r := Ok((name.value.chars, arg.value));
  }

  /** An encoded call, at any 8-aligned address, decodes to its name and argument as
      they read: to themselves exactly when neither holds a NUL. */
  lemma CallRoundTrip(s: seq<byte>, base: nat, name: seq<byte>, arg: Value)
    requires Fits(Str(name)) && Fits(arg)
    requires base % 8 == 0
    requires Matches(s, CallCells(name, arg))
    ensures CallInside(s, base) && DecodeCall(s, base) == Ok((CString(name), AsRead(arg)))
    ensures DecodeCall(s, base) == Ok((name, arg)) <==> 0 !in name && NulFree(arg)
  {
    hide Enc, Decode, NulFree, Fits, Matches, Stores;
    var first := Enc(Str(name), 0);
    MatchesSplit(s, first, Enc(arg, |first|));
    RoundTripAcrossAddresses(s, 0, base, Str(name));
    assert base + |first| == |first| + 8 * (base / 8);
    RemainderShift(|first|, base / 8);
    RoundTripAcrossAddresses(s[|first|..], |first|, base + |first|, arg);
    StaysInsideAcrossAddresses(s, 0, base, Str(name));
    StaysInsideAcrossAddresses(s[|first|..], |first|, base + |first|, arg);
    AsReadIsIdentityIffNulFree(arg);
  }

  // ------------------------------------------------------------ responses

  datatype Response = Success(value: Value) | Failure(code: seq<byte>, msg: seq<byte>, details: Value)

  /** A status byte of 0 for success and 1 for an error, then the values. */
  function ResponseCells(r: Response): seq<Cell> {
    match r
    case Success(v) => [Byte(0)] + Enc(v, 1)
    case Failure(code, msg, details) =>
      [Byte(1)] + EncItems([Str(code), Str(msg), details], 1)
  }

  datatype DecodedResponse =
    | Succeeded(value: Value)
    | Failed(code: seq<byte>, msg: seq<byte>, details: Value)
    | Rejected

  /** The decoder takes a nonzero status byte for success. */
  function DecodeResponse(s: seq<byte>, addr: nat): DecodedResponse {
    if s == [] then Rejected
    else if s[0] != 0 then
      var v := Decode(s[1..], addr + 1);
      if v.result.BadMessage? then Rejected else Succeeded(v.result.value)
    else
      var vs := DecodeItems(s[1..], addr + 1, 3);
      if vs.result.BadMessage? then Rejected
      else
        var code, msg, details := vs.result.value[0], vs.result.value[1], vs.result.value[2];
        if code.Str? && (msg.Str? || msg.Null?) then Failed(code.chars, if msg.Str? then msg.chars else [], details)
        else Rejected
  }

  /** No response survives the trip: a success is rejected and an error comes back as
      a success holding its code. */
  lemma ResponseNeverSurvives(s: seq<byte>, base: nat, r: Response)
    requires base % 8 == 0
    requires match r case Success(v) => Fits(v) case Failure(c, m, d) => Fits(Str(c)) && Fits(Str(m)) && Fits(d)
    requires |s| == |ResponseCells(r)| && Matches(s, ResponseCells(r))
    ensures DecodeResponse(s, base) == if r.Success? then Rejected else Succeeded(Str(CString(r.code)))
  {
    hide Enc, Decode, Fits, CString, DecodeItems;
    var rest := s[1..];
    RemainderShift(1, base / 8);
    assert (base + 1) % 8 == 1 % 8;
    match r
    case Success(v) =>
      assert s == [0] + rest;
      RoundTripAcrossAddresses(rest, 1, base + 1, v);
      assert rest[|Enc(v, 1)|..] == [];
      ThreeNeedMore(rest, base + 1);
    case Failure(code, msg, details) =>
      var first := Enc(Str(code), 1);
      assert s == [1] + rest;
      assert [Str(code), Str(msg), details][1..] == [Str(msg), details];
      MatchesSplit(rest, first, EncItems([Str(msg), details], 1 + |first|));
      RoundTripAcrossAddresses(rest, 1, base + 1, Str(code));
  }

  /** Three values cannot be read from bytes that the first of them uses up. */
  lemma ThreeNeedMore(s: seq<byte>, addr: nat)
    requires s[Decode(s, addr).used..] == []
    ensures DecodeItems(s, addr, 3).result.BadMessage?
  {
    var first := Decode(s, addr);
    if first.result.Ok? {
      assert Decode([], addr + first.used).result.BadMessage?;
      assert DecodeItems([], addr + first.used, 2).result.BadMessage?;
    }
  }
}
