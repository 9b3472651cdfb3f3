/**
 * The binary format of Flutter's StandardMessageCodec, as the platform channel
 * writes and reads it: what bytes a value becomes at a given address, and what
 * value a reader finds at a given cursor.
 */
module StdFormat {
  import opened Bytes

  /** A decoded or to-be-encoded value. Numeric arrays are kept as their element
      count and the memory their elements occupy, because neither the writer nor
      the reader looks inside an element. A string is a char buffer. */
  datatype Value =
    | Null
    | True
    | False
    | Int32(i32: int32)
    | Int64(i64: int64)
    | LargeInt(digits: seq<byte>)
    | Float64(bits: uint64)
    | Str(chars: seq<byte>)
    | UInt8Array(bytes: seq<byte>)
    | Int32Array(count: nat, raw: seq<byte>)
    | Int64Array(count: nat, raw: seq<byte>)
    | Float64Array(count: nat, raw: seq<byte>)
    | List(items: seq<Value>)
    | Map(pairs: seq<Value>)  // key, value, key, value, ...

  /** One position of an encoding: a byte, or padding that is skipped over. */
  datatype Cell = Pad | Byte(b: byte)

  function Tag(v: Value): byte {
    match v
    case Null => 0
    case True => 1
    case False => 2
    case Int32(_) => 3
    case Int64(_) => 4
    case LargeInt(_) => 5
    case Float64(_) => 6
    case Str(_) => 7
    case UInt8Array(_) => 8
    case Int32Array(_, _) => 9
    case Int64Array(_, _) => 10
    case Float64Array(_, _) => 11
    case List(_) => 12
    case Map(_) => 13
  }

  /** Lengths that survive the C int a length travels through, and array memory
      that holds exactly its elements. */
  predicate Fits(v: Value) {
    match v
    case LargeInt(s) => |CString(s)| <= INT_MAX
    case Str(s) => |CString(s)| <= INT_MAX
    case UInt8Array(s) => |s| <= INT_MAX
    case Int32Array(n, raw) => |raw| == 4 * n <= INT_MAX
    case Int64Array(n, raw) => |raw| == 8 * n <= INT_MAX
    case Float64Array(n, raw) => |raw| == 8 * n <= INT_MAX
    case List(items) => |items| <= INT_MAX && AllFit(items)
    case Map(pairs) => |pairs| % 2 == 0 && |pairs| / 2 <= INT_MAX && AllFit(pairs)
    case _ => true
  }

  predicate AllFit(items: seq<Value>) {
    items == [] || (Fits(items[0]) && AllFit(items[1..]))
  }

  // ---------------------------------------------------------------- encoding

  function Cells(s: seq<byte>): (c: seq<Cell>)
    ensures |c| == |s|
  {
    seq(|s|, i requires 0 <= i < |s| => Byte(s[i]))
  }

  predicate Alignment(a: nat) { a == 4 || a == 8 }

  /** The bytes that n elements of an array with this alignment occupy. */
  function Span(n: nat, a: nat): nat {
    if a == 4 then 4 * n else 8 * n
  }

  /** How many bytes an address is away from the next multiple of a: or-ing in a - 1
      replaces the remainder modulo a by a - 1. */
  function Gap(addr: nat, a: nat): (g: nat)
    requires Alignment(a)
    ensures g < a
    ensures if a == 4 then (addr + g) % 4 == 0 else (addr + g) % 8 == 0
  {
    var up := addr + (a - 1);
    var low := if a == 4 then up % 4 else up % 8;
    (up - low + (a - 1)) - (a - 1) - addr
  }

  function Padding(addr: nat, a: nat): (c: seq<Cell>)
    requires Alignment(a)
    ensures |c| == Gap(addr, a)
  {
    seq(Gap(addr, a), _ => Pad)
  }

  function SizePrefix(n: nat): seq<byte> {
    if n < 254 then [n]
    else if n <= 0xFFFF then [0xFE] + LittleEndian(n, 2)
    else [0xFF] + LittleEndian(n, 4)
  }

  function EncSized(s: seq<byte>): seq<Cell> {
    Cells(SizePrefix(|s|)) + Cells(s)
  }

  function EncArray(addr: nat, a: nat, count: nat, raw: seq<byte>): seq<Cell>
    requires Alignment(a)
  {
    var n := SizePrefix(count);
    Cells(n) + (Padding(addr + |n|, a) + Cells(raw))
  }

  predicate IsContainer(v: Value) { v.List? || v.Map? }

  /** The cells after the type byte of a value without children. */
  function EncLeaf(v: Value, addr: nat): seq<Cell>
    requires !IsContainer(v)
  {
    match v
    case Null => []
    case True => []
    case False => []
    case Int32(i) => Cells(LittleEndian(ToUnsigned(i, UINT32_SPAN), 4))
    case Int64(i) => Cells(LittleEndian(ToUnsigned(i, UINT64_SPAN), 8))
    case LargeInt(s) => EncSized(CString(s))
    case Float64(bits) => Padding(addr, 8) + Cells(LittleEndian(bits, 8))
    case Str(s) => EncSized(CString(s))
    case UInt8Array(s) => EncSized(s)
    case Int32Array(n, raw) => EncArray(addr, 4, n, raw)
    case Int64Array(n, raw) => EncArray(addr, 8, n, raw)
    case Float64Array(n, raw) => EncArray(addr, 8, n, raw)
  }

  /** The size of a container: its elements, or its key-value pairs. */
  function ContainerSize(v: Value): nat
    requires IsContainer(v)
  {
    if v.List? then |v.items| else |v.pairs| / 2
  }

  function Children(v: Value): (c: seq<Value>)
    requires IsContainer(v)
    ensures forall i | i in c :: i < v
  {
    if v.List? then v.items else v.pairs
  }

  /** The cells of v when its type byte lands on address addr. */
  function Enc(v: Value, addr: nat): seq<Cell>
    decreases v, 1
  {
    [Byte(Tag(v))] + EncBody(v, addr + 1)
  }

  function EncBody(v: Value, addr: nat): seq<Cell>
    decreases v, 0
  {
    if !IsContainer(v) then EncLeaf(v, addr)
    else
      var n := SizePrefix(ContainerSize(v));
      Cells(n) + if v.List? then EncItems(v.items, addr + |n|) else EncItems(v.pairs, addr + |n|)
  }

  function EncItems(items: seq<Value>, addr: nat): seq<Cell>
    decreases items, 0
  {
    if items == [] then []
    else
      var first := Enc(items[0], addr);
      first + EncItems(items[1..], addr + |first|)
  }

  // ---------------------------------------------------------------- decoding

  datatype Result<T> = Ok(value: T) | BadMessage

  /** An outcome, and how many bytes were consumed before it, failures included. */
  datatype Read<T> = Read(result: Result<T>, used: nat)

  /** Take n bytes, where n has been narrowed to a C int: a negative n fails. */
  function Take(s: seq<byte>, n: int): (r: Read<seq<byte>>)
    ensures r.used <= |s|
    ensures r.result.Ok? ==> r.used == n && r.result.value == s[..n]
  {
    if 0 <= n <= |s| then Read(Ok(s[..n]), n) else Read(BadMessage, 0)
  }

  function AsInt(n: nat): int {
    ToSigned(n % UINT32_SPAN, UINT32_SPAN)
  }

  function ReadSize(s: seq<byte>): (r: Read<nat>)
    ensures r.used <= |s|
    ensures r.result.Ok? ==> r.used > 0 && r.result.value < UINT32_SPAN
  {
    if s == [] then Read(BadMessage, 0)
    else if s[0] <= 253 then Read(Ok(s[0]), 1)
    else
      var more := Take(s[1..], if s[0] == 254 then 2 else 4);
      if more.result.BadMessage? then Read(BadMessage, 1)
      else
        Pow256Values(); FromLittleEndianBound(more.result.value);
        Read(Ok(FromLittleEndian(more.result.value)), 1 + more.used)
  }

  /** A size, then that many bytes. */
  function ReadSized(s: seq<byte>): (r: Read<seq<byte>>)
    ensures r.used <= |s|
  {
    var size := ReadSize(s);
    if size.result.BadMessage? then Read(BadMessage, size.used)
    else
      var r := Take(s[size.used..], AsInt(size.result.value));
      Read(r.result, size.used + r.used)
  }

  /** Padding, then the memory of n elements; their byte count is a 32-bit product
      and wraps. */
  function ReadElements(s: seq<byte>, addr: nat, width: nat, n: nat): (r: Read<seq<byte>>)
    requires Alignment(width)
    ensures r.used <= |s|
  {
    var gap := Take(s, Gap(addr, width));
    if gap.result.BadMessage? then gap
    else
      var r := Take(s[gap.used..], AsInt(Span(n, width)));
      Read(r.result, gap.used + r.used)
  }

  function DecodeScalar(s: seq<byte>, addr: nat, tag: byte): (r: Read<Value>)
    requires tag == 3 || tag == 4 || tag == 6
    ensures r.used <= |s|
  {
    var gap := if tag == 6 then Take(s, Gap(addr, 8)) else Take(s, 0);
    if gap.result.BadMessage? then Read(BadMessage, gap.used)
    else
      var r := Take(s[gap.used..], if tag == 3 then 4 else 8);
      if r.result.BadMessage? then Read(BadMessage, gap.used)
      else
        Pow256Values(); FromLittleEndianBound(r.result.value);
        var n := FromLittleEndian(r.result.value);
        Read(Ok(if tag == 3 then Int32(ToSigned(n, UINT32_SPAN))
                else if tag == 4 then Int64(ToSigned(n, UINT64_SPAN)) else Float64(n)), gap.used + r.used)
  }

  function DecodeSized(s: seq<byte>, tag: byte): (r: Read<Value>)
    requires tag == 5 || tag == 7 || tag == 8
    ensures r.used <= |s|
  {
    var r := ReadSized(s);
    if r.result.BadMessage? then Read(BadMessage, r.used)
    else
      var t := r.result.value;
      Read(Ok(if tag == 5 then LargeInt(t) else if tag == 7 then Str(t) else UInt8Array(t)), r.used)
  }

  function DecodeArray(s: seq<byte>, addr: nat, tag: byte): (r: Read<Value>)
    requires tag == 9 || tag == 10 || tag == 11
    ensures r.used <= |s|
  {
    var size := ReadSize(s);
    if size.result.BadMessage? then Read(BadMessage, size.used)
    else
      var n := size.result.value;
      var r := ReadElements(s[size.used..], addr + size.used, if tag == 9 then 4 else 8, n);
      if r.result.BadMessage? then Read(BadMessage, size.used + r.used)
      else
        var raw := r.result.value;
        Read(Ok(if tag == 9 then Int32Array(n, raw)
                else if tag == 10 then Int64Array(n, raw) else Float64Array(n, raw)), size.used + r.used)
  }

  function DecodeLeaf(s: seq<byte>, addr: nat, tag: byte): (r: Read<Value>)
    ensures r.used <= |s|
  {
    if tag == 0 then Read(Ok(Null), 0)
    else if tag == 1 then Read(Ok(True), 0)
    else if tag == 2 then Read(Ok(False), 0)
    else if tag == 3 || tag == 4 || tag == 6 then DecodeScalar(s, addr, tag)
    else if tag == 5 || tag == 7 || tag == 8 then DecodeSized(s, tag)
    else if tag == 9 || tag == 10 || tag == 11 then DecodeArray(s, addr, tag)
    else Read(BadMessage, 0)
  }

  /** The value at the front of the bytes s, the first of which has address addr. */
  function Decode(s: seq<byte>, addr: nat): (r: Read<Value>)
    ensures r.used <= |s|
    ensures r.result.Ok? ==> r.used > 0
    decreases |s|, 0
  {
    if s == [] then Read(BadMessage, 0)
    else
      var r := DecodeBody(s[1..], addr + 1, s[0]);
      Read(r.result, 1 + r.used)
  }

  function DecodeBody(s: seq<byte>, addr: nat, tag: byte): (r: Read<Value>)
    ensures r.used <= |s|
    decreases |s|, 2 * UINT32_SPAN
  {
    if tag == 12 || tag == 13 then
      var size := ReadSize(s);
      if size.result.BadMessage? then Read(BadMessage, size.used)
      else
        var n := size.result.value;
        var r := DecodeItems(s[size.used..], addr + size.used, if tag == 12 then n else 2 * n);
        if r.result.BadMessage? then Read(BadMessage, size.used + r.used)
        else Read(Ok(if tag == 12 then List(r.result.value) else Map(r.result.value)), size.used + r.used)
    else DecodeLeaf(s, addr, tag)
  }

  /** n values one after the other. */
  function DecodeItems(s: seq<byte>, addr: nat, n: nat): (r: Read<seq<Value>>)
    ensures r.used <= |s|
    ensures r.result.Ok? ==> |r.result.value| == n
    decreases |s|, n + 1
  {
    if n == 0 then Read(Ok([]), 0)
    else
      var first := Decode(s, addr);
      if first.result.BadMessage? then Read(BadMessage, first.used)
      else
        var rest := DecodeItems(s[first.used..], addr + first.used, n - 1);
        if rest.result.BadMessage? then Read(BadMessage, first.used + rest.used)
        else Read(Ok([first.result.value] + rest.result.value), first.used + rest.used)
  }
}
