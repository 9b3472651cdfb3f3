/**
 * The compositor's message builder: an encoder driven by pushes into nested
 * segments, over a buffer that grows. It refines the recursive encoding.
 */
module MessageBuilder {
  import opened Bytes
  import opened StdFormat
  import opened StdRoundTrip
  import opened DartReader
  import StdCodec

  /** Cells with their padding written as zeros. */
  function ZeroFilled(cells: seq<Cell>): (s: seq<byte>)
    ensures |s| == |cells|
  {
    seq(|cells|, i requires 0 <= i < |cells| => if cells[i].Byte? then cells[i].b else 0)
  }

  lemma ZeroFilledConcat(a: seq<Cell>, b: seq<Cell>)
    ensures ZeroFilled(a + b) == ZeroFilled(a) + ZeroFilled(b)
  {
  }

  lemma ZeroFilledCells(s: seq<byte>)
    ensures ZeroFilled(Cells(s)) == s
  {
  }

  lemma {:induction false} ZeroFilledMatches(cells: seq<Cell>, rest: seq<byte>)
    ensures Matches(ZeroFilled(cells) + rest, cells)
    decreases |cells|
  {
    if cells != [] {
      ZeroFilledMatches(cells[1..], rest);
      assert (ZeroFilled(cells) + rest)[1..] == ZeroFilled(cells[1..]) + rest;
    }
  }

  lemma AppendTwo(s: seq<byte>, a: seq<byte>, b: seq<byte>)
    ensures (s + a) + b == s + (a + b)
  {
  }

  function Max(a: nat, b: nat): nat {
    if a < b then b else a
  }

  function GrowthStrategy(current: nat, required: nat): (n: nat)
    ensures n >= required && n >= current && n >= 32
  {
    Max(Max(current * 2, required), 32)
  }

  class BuilderState {
    var buffer: array<byte>
    var len: nat
    var capacity: nat
    var level: nat
    var wrongLevel: nat   // times a push was logged as going to the wrong level
    var incomplete: nat   // times a segment was logged as finished incomplete

    constructor ()
      ensures Valid() && Contents() == [] && fresh(buffer)
      ensures level == 0 && wrongLevel == 0 && incomplete == 0
    {
      buffer := new byte[32];
      capacity := 32;
      len, level, wrongLevel, incomplete := 0, 0, 0, 0;
    }

    ghost predicate Valid()
      reads this
    {
      len <= capacity == buffer.Length && 32 <= capacity
    }

    ghost function Contents(): (s: seq<byte>)
      requires Valid()
      reads this, buffer
      ensures |s| == len
    {
      buffer[..len]
    }

    twostate predicate KeepsBuffer()
      reads this
    {
      buffer == old(buffer) || fresh(buffer)
    }

    method Reserve(required: nat)
      requires Valid()
      modifies this`buffer, this`capacity
      ensures Valid() && KeepsBuffer()
      ensures Contents() == old(Contents())
      ensures capacity - len >= required
    {
      if capacity - len < required {
        var size := GrowthStrategy(capacity, len + required);
        var bigger := new byte[size];
        forall i | 0 <= i < len {
          bigger[i] := buffer[i];
        }
        assert bigger[..len] == buffer[..len];
        buffer := bigger;
        capacity := size;
      }
    }

    method Append(s: seq<byte>)
      requires Valid() && capacity - len >= |s|
      modifies this`len, buffer
      ensures Valid()
      ensures Contents() == old(Contents()) + s
    {
      forall i | 0 <= i < |s| {
        buffer[len + i] := s[i];
      }
      len := len + |s|;
    }

    /** Up to 253 the length is its own byte. From 254 on a marker byte is followed by
        room for the length, but the length itself lands at the start of the buffer. */
    method WriteSizeLen(n: nat) returns (ghost room: seq<byte>)
      requires Valid() && capacity - len >= |SizePrefix(n)|
      modifies this`len, buffer
      ensures Valid()
      ensures |room| == |SizePrefix(n)| - 1 && Contents() == SizeWritten(old(Contents()), n, room)
    {
      if n > 0xFFFF {
        room := WriteWordAtStart(255, n, 4);
      } else if n >= 254 {
        room := WriteWordAtStart(254, n, 2);
      } else {
        Append([n]);
        room := [];
      }
    }

    method WriteWordAtStart(marker: byte, n: nat, k: nat) returns (ghost room: seq<byte>)
      requires Valid() && capacity - len >= 1 + k
      modifies this`len, buffer
      ensures Valid()
      ensures |room| == k && Contents() == LittleEndian(n, k) + (old(Contents()) + [marker] + room)[k..]
    {
      hide LittleEndian;
      var word := LittleEndian(n, k);
      Append([marker]);
      room := buffer[len..len + k];
      ghost var before := buffer[..len + k];
      assert before == old(Contents()) + [marker] + room;
      forall i | 0 <= i < k {
        buffer[i] := word[i];
      }
      len := len + k;
      assert Contents()[..k] == word && Contents()[k..] == before[k..];
    }

    method WriteAlignTo8()
      requires Valid() && capacity - len >= Gap(len, 8)
      modifies this`len, buffer
      ensures Valid()
      ensures Contents() == old(Contents()) + ZeroFilled(Padding(old(len), 8))
    {
      var mod := len % 8;
      SkipIsGap(len);
      if mod != 0 {
        var num := 8 - mod;
        var i := 0;
        while i < num
          invariant i <= num && Valid() && capacity - len >= num - i
          invariant Contents() == old(Contents()) + seq(i, _ => 0)
        {
          Append([0]);
          i := i + 1;
        }
      }
    }

    /** Bytes at the next multiple of 8. */
    method AppendAligned(s: seq<byte>)
      requires Valid() && capacity - len >= Gap(len, 8) + |s|
      modifies this`len, buffer
      ensures Valid()
      ensures Contents() == old(Contents()) + (ZeroFilled(Padding(old(len), 8)) + s)
    {
      hide Gap, Padding, ZeroFilled;
      WriteAlignTo8();
      Append(s);
      AppendTwo(old(Contents()), ZeroFilled(Padding(old(len), 8)), s);
    }

    method CheckLevel(segment: Segment)
      modifies this`wrongLevel
      ensures wrongLevel == old(wrongLevel) + (if segment.level != level then 1 else 0)
    {
      if segment.level != level {
        wrongLevel := wrongLevel + 1;
      }
    }
  }

  /** What was built before, with a length of n after it: from 254 on the length is over
      the first bytes, and where it should be is whatever the memory held, the room. */
  function SizeWritten(before: seq<byte>, n: nat, room: seq<byte>): (s: seq<byte>)
    requires |room| == |SizePrefix(n)| - 1
    ensures |s| == |before| + |SizePrefix(n)|
  {
    PrefixLength(n);
    if n < 254 then before + [n]
    else if n <= 0xFFFF then LittleEndian(n, 2) + (before + [254] + room)[2..]
    else LittleEndian(n, 4) + (before + [255] + room)[4..]
  }

  lemma SizeWrittenShort(before: seq<byte>, tag: byte, n: nat, room: seq<byte>)
    requires |room| == |SizePrefix(n)| - 1
    ensures n < 254 ==> SizeWritten(before + [tag], n, room) == before + ([tag] + SizePrefix(n))
  {
  }

  lemma PrefixLength(n: nat)
    ensures |SizePrefix(n)| == if n < 254 then 1 else if n <= 0xFFFF then 3 else 5
  {
  }

  /** What a segment's caller can push: the kinds the builder has correct pushes for,
      with every length below 254. */
  predicate Pushable(v: Value) {
    match v
    case Null | True | False | Int32(_) | Int64(_) | Float64(_) => true
    case Str(s) => |CString(s)| < 254
    case UInt8Array(s) => |s| < 254
    case List(items) => |items| < 254 && AllPushable(items)
    case Map(pairs) => |pairs| % 2 == 0 && |pairs| / 2 < 254 && AllPushable(pairs)
    case _ => false
  }

  predicate AllPushable(items: seq<Value>) {
    items == [] || (Pushable(items[0]) && AllPushable(items[1..]))
  }

  /** A bool push is not counted as written. */
  function Counted(v: Value): nat {
    if v.True? || v.False? then 0 else 1
  }

  function CountedAll(items: seq<Value>): nat {
    if items == [] then 0 else Counted(items[0]) + CountedAll(items[1..])
  }

  /** The containers inside v that hold a bool directly. */
  function WithBools(v: Value): nat {
    match v
    case List(items) => (if HasBool(items) then 1 else 0) + WithBoolsAll(items)
    case Map(pairs) => (if HasBool(pairs) then 1 else 0) + WithBoolsAll(pairs)
    case _ => 0
  }

  function WithBoolsAll(items: seq<Value>): nat {
    if items == [] then 0 else WithBools(items[0]) + WithBoolsAll(items[1..])
  }

  predicate HasBool(items: seq<Value>) {
    items != [] && (Counted(items[0]) == 0 || HasBool(items[1..]))
  }

  lemma {:induction false} CountedAllIsAllIffNoBool(items: seq<Value>)
    ensures CountedAll(items) <= |items|
    ensures CountedAll(items) == |items| <==> !HasBool(items)
  {
    if items != [] { CountedAllIsAllIffNoBool(items[1..]); }
  }

  class Segment {
    const state: BuilderState
    const size: nat
    const level: nat
    var written: nat

    constructor (state: BuilderState, size: nat, level: nat)
      ensures this.state == state && this.size == size && this.level == level && written == 0
    {
      this.state, this.size, this.level := state, size, level;
      written := 0;
    }

    /** The effect of every push: these bytes appended, the segment's count moved on,
        and a wrong level logged if the segment is not the innermost open one. */
    twostate predicate Pushed(s: seq<byte>, count: nat)
      requires old(state.Valid())
      reads this, state, state.buffer
    {
      && state.Valid() && state.KeepsBuffer()
      && state.Contents() == old(state.Contents()) + s
      && written == old(written) + count
      && state.wrongLevel == old(state.wrongLevel) + (if level != old(state.level) then 1 else 0)
      && state.incomplete == old(state.incomplete)
    }

    /** The same for a push that may reach back: the contents become s. */
    twostate predicate PushedTo(s: seq<byte>)
      requires old(state.Valid())
      reads this, state, state.buffer
    {
      && state.Valid() && state.KeepsBuffer()
      && state.Contents() == s
      && written == old(written) + 1
      && state.wrongLevel == old(state.wrongLevel) + (if level != old(state.level) then 1 else 0)
      && state.incomplete == old(state.incomplete)
    }

    method PushNull()
      requires state.Valid()
      modifies this, state, state.buffer
      ensures Pushed([0], 1) && state.level == old(state.level)
    {
      state.CheckLevel(this);
      state.Reserve(1);
      state.Append([0]);
      written := written + 1;
    }

    method PushBool(value: bool)
      requires state.Valid()
      modifies this, state, state.buffer
      ensures Pushed([if value then 1 else 2], 0) && state.level == old(state.level)
    {
      state.CheckLevel(this);
      state.Reserve(1);
      state.Append([if value then 1 else 2]);
    }

    method PushInt32(value: int32)
      requires state.Valid()
      modifies this, state, state.buffer
      ensures Pushed([3] + LittleEndian(ToUnsigned(value, UINT32_SPAN), 4), 1) && state.level == old(state.level)
    {
      state.CheckLevel(this);
      state.Reserve(5);
      state.Append([3]);
      state.Append(LittleEndian(ToUnsigned(value, UINT32_SPAN), 4));
      written := written + 1;
    }

    method PushInt64(value: int64)
      requires state.Valid()
      modifies this, state, state.buffer
      ensures Pushed([4] + LittleEndian(ToUnsigned(value, UINT64_SPAN), 8), 1) && state.level == old(state.level)
    {
      state.CheckLevel(this);
      state.Reserve(9);
      state.Append([4]);
      state.Append(LittleEndian(ToUnsigned(value, UINT64_SPAN), 8));
      written := written + 1;
    }

    method PushFloat64(bits: uint64)
      requires state.Valid()
      modifies this, state, state.buffer
      ensures Pushed([6] + (ZeroFilled(Padding(old(state.len) + 1, 8)) + LittleEndian(bits, 8)), 1)
      ensures state.level == old(state.level)
    {
      hide LittleEndian, Padding, ZeroFilled;
      state.CheckLevel(this);
      state.Reserve(1 + 8 + 8);
      state.Append([6]);
      state.AppendAligned(LittleEndian(bits, 8));
      AppendTwo(old(state.Contents()), [6], ZeroFilled(Padding(old(state.len) + 1, 8)) + LittleEndian(bits, 8));
      written := written + 1;
    }

    /** A string up to its NUL: tag, length, characters. */
    method PushString(chars: seq<byte>) returns (ghost room: seq<byte>)
      requires state.Valid()
      modifies this, state, state.buffer
      ensures state.level == old(state.level)
      ensures PushedSized(7, CString(chars), room)
    {
      room := PushBytes(7, CString(chars));
    }

    method PushUint8List(vals: seq<byte>) returns (ghost room: seq<byte>)
      requires state.Valid()
      modifies this, state, state.buffer
      ensures state.level == old(state.level)
      ensures PushedSized(8, vals, room)
    {
      room := PushBytes(8, vals);
    }

    /** The effect of a push of some bytes with their length, whatever the length. */
    twostate predicate PushedSized(tag: byte, s: seq<byte>, room: seq<byte>)
      requires old(state.Valid())
      reads this, state, state.buffer
    {
      && |room| == |SizePrefix(|s|)| - 1
      && PushedTo(SizeWritten(old(state.Contents()) + [tag], |s|, room) + s)
      && (|s| < 254 ==> Pushed([tag] + (SizePrefix(|s|) + s), 1))
    }

    /** Tag and length, with room for some bytes after them. */
    method PushHead(tag: byte, n: nat, more: nat) returns (ghost room: seq<byte>)
      requires state.Valid()
      modifies this, state, state.buffer
      ensures state.level == old(state.level)
      ensures |room| == |SizePrefix(n)| - 1
      ensures PushedTo(SizeWritten(old(state.Contents()) + [tag], n, room)) && state.capacity - state.len >= more
    {
      hide SizePrefix, SizeWritten;
      state.CheckLevel(this);
      state.Reserve(1 + |SizePrefix(n)| + more);
      state.Append([tag]);
      room := state.WriteSizeLen(n);
      written := written + 1;
    }

    method PushBytes(tag: byte, s: seq<byte>) returns (ghost room: seq<byte>)
      requires state.Valid()
      modifies this, state, state.buffer
      ensures state.level == old(state.level)
      ensures PushedSized(tag, s, room)
    {
      hide SizeWritten, SizePrefix;
      room := PushHead(tag, |s|, |s|);
      state.Append(s);
      SizeWrittenShort(old(state.Contents()), tag, |s|, room);
      AppendTwo(old(state.Contents()), [tag] + SizePrefix(|s|), s);
      AppendTwo([tag], SizePrefix(|s|), s);
    }

    /** Opens a list (tag 12) or a map (tag 13), whose segment expects twice as many
        values, of which the 32-bit field keeps the low bits. */
    method PushContainer(tag: byte, size: nat) returns (sub: Segment, ghost room: seq<byte>)
      requires state.Valid()
      requires tag == 12 || tag == 13
      modifies this, state, state.buffer
      ensures state.level == old(state.level) + 1
      ensures fresh(sub) && sub.state == state && sub.level == state.level && sub.written == 0
      ensures sub.size == (if tag == 12 then size else size * 2) % UINT32_SPAN
      ensures PushedSize(tag, size, room)
    {
      hide SizeWritten, SizePrefix;
      room := PushHead(tag, size, 0);
      SizeWrittenShort(old(state.Contents()), tag, size, room);
      state.level := state.level + 1;
      sub := new Segment(state, (if tag == 12 then size else size * 2) % UINT32_SPAN, state.level);
    }

    /** The effect of a push of a tag and a size, whatever the size. */
    twostate predicate PushedSize(tag: byte, size: nat, room: seq<byte>)
      requires old(state.Valid())
      reads this, state, state.buffer
    {
      && |room| == |SizePrefix(size)| - 1
      && PushedTo(SizeWritten(old(state.Contents()) + [tag], size, room))
      && (size < 254 ==> Pushed([tag] + SizePrefix(size), 1))
    }

    method Finish()
      requires state.level > 0
      modifies state`level, state`wrongLevel, state`incomplete
      ensures state.level == old(state.level) - 1
      ensures state.wrongLevel == old(state.wrongLevel) + (if level != old(state.level) then 1 else 0)
      ensures state.incomplete == old(state.incomplete) + (if written != size then 1 else 0)
    {
      state.CheckLevel(this);
      if written != size {
        state.incomplete := state.incomplete + 1;
      }
      state.level := state.level - 1;
    }
  }

  /** A map announced with 2^31 pairs expects no value, and may be finished at once. */
  method WideMapExpectsNothing(segment: Segment)
    requires segment.state.Valid() && segment.level == segment.state.level
    modifies segment, segment.state, segment.state.buffer
    ensures segment.state.incomplete == old(segment.state.incomplete)
    ensures segment.state.level == old(segment.state.level)
  {
    hide SizeWritten, SizePrefix;
    var sub;
    ghost var room;
    sub, room := segment.PushContainer(13, 0x8000_0000);
    assert sub.size == 0;
    sub.Finish();
  }

  // ------------------------------------------------------------ whole trees

  /** The pushes a caller makes for a value: those of its kind, and for a container a
      segment that its children are pushed into and that is then finished. What they
      append is the recursive encoding; nothing goes to a wrong level, and a container
      is logged as incomplete exactly when it holds a bool. */
  method PushTree(segment: Segment, v: Value)
    requires Pushable(v)
    requires segment.state.Valid() && segment.level == segment.state.level
    modifies segment, segment.state, segment.state.buffer
    ensures segment.state.Valid() && segment.state.KeepsBuffer()
    ensures segment.state.Contents() == old(segment.state.Contents()) + ZeroFilled(Enc(v, old(segment.state.len)))
    ensures segment.written == old(segment.written) + Counted(v)
    ensures segment.state.level == old(segment.state.level)
    ensures segment.state.wrongLevel == old(segment.state.wrongLevel)
    ensures segment.state.incomplete == old(segment.state.incomplete) + WithBools(v)
    decreases v, 1
  {
    hide Enc, ZeroFilled, LittleEndian, SizePrefix, Padding, HasBool;
    if IsContainer(v) {
      PushContainerTree(segment, v);
      return;
    }
    LeafBytes(v, segment.state.len);
    match v
    case Null => segment.PushNull();
    case True => segment.PushBool(true);
    case False => segment.PushBool(false);
    case Int32(i) => segment.PushInt32(i);
    case Int64(i) => segment.PushInt64(i);
    case Float64(bits) => segment.PushFloat64(bits);
    case Str(s) => ghost var _ := segment.PushString(s);
    case UInt8Array(s) => ghost var _ := segment.PushUint8List(s);
  }

  method PushContainerTree(segment: Segment, v: Value)
    requires Pushable(v) && IsContainer(v)
    requires segment.state.Valid() && segment.level == segment.state.level
    modifies segment, segment.state, segment.state.buffer
    ensures segment.state.Valid() && segment.state.KeepsBuffer()
    ensures segment.state.Contents() == old(segment.state.Contents()) + ZeroFilled(Enc(v, old(segment.state.len)))
    ensures segment.written == old(segment.written) + 1
    ensures segment.state.level == old(segment.state.level)
    ensures segment.state.wrongLevel == old(segment.state.wrongLevel)
    ensures segment.state.incomplete == old(segment.state.incomplete) + WithBools(v)
    decreases v, 0
  {
    hide SizePrefix, SizeWritten, HasBool, CountedAll, WithBoolsAll, Enc, EncItems, ZeroFilled;
    ghost var offset := segment.state.len;
    var size := ContainerSize(v);
    var items := Children(v);
    ContainerBytes(v, offset);
    CountedAllIsAllIffNoBool(items);
    var sub;
    ghost var room;
    sub, room := segment.PushContainer(Tag(v), size);
    PushForest(sub, items);
    sub.Finish();
  }

  /** Pushes values one after the other into the same segment. */
  method PushForest(segment: Segment, items: seq<Value>)
    requires AllPushable(items)
    requires segment.state.Valid() && segment.level == segment.state.level
    modifies segment, segment.state, segment.state.buffer
    ensures segment.state.Valid() && segment.state.KeepsBuffer()
    ensures segment.state.Contents() ==
      old(segment.state.Contents()) + ZeroFilled(EncItems(items, old(segment.state.len)))
    ensures segment.written == old(segment.written) + CountedAll(items)
    ensures segment.state.level == old(segment.state.level)
    ensures segment.state.wrongLevel == old(segment.state.wrongLevel)
    ensures segment.state.incomplete == old(segment.state.incomplete) + WithBoolsAll(items)
    decreases items, 0
  {
    hide ZeroFilled, Pushable, Enc;
    var state := segment.state;
    ghost var target := state.Contents() + ZeroFilled(EncItems(items, state.len));
    assert items[0..] == items;
    var i := 0;
    while i < |items|
      invariant i <= |items| && AllPushable(items[i..])
      invariant state.Valid() && state.KeepsBuffer()
      invariant state.Contents() + ZeroFilled(EncItems(items[i..], state.len)) == target
      invariant segment.written + CountedAll(items[i..]) == old(segment.written) + CountedAll(items)
      invariant state.level == old(state.level) && state.wrongLevel == old(state.wrongLevel)
      invariant state.incomplete + WithBoolsAll(items[i..]) == old(state.incomplete) + WithBoolsAll(items)
    {
      ghost var first := Enc(items[i], state.len);
      ghost var rest := EncItems(items[i + 1..], state.len + |first|);
      assert items[i..][1..] == items[i + 1..];
      ZeroFilledConcat(first, rest);
      assert state.Contents() + (ZeroFilled(first) + ZeroFilled(rest))
          == (state.Contents() + ZeroFilled(first)) + ZeroFilled(rest);
      PushTree(segment, items[i]);
      i := i + 1;
    }
    assert state.Contents() + ZeroFilled([]) == state.Contents();
  }

  /** What each kind of leaf push has to append. */
  function LeafPush(v: Value, offset: nat): seq<byte>
    requires Pushable(v) && !IsContainer(v)
  {
    match v
    case Int32(i) => [3] + LittleEndian(ToUnsigned(i, UINT32_SPAN), 4)
    case Int64(i) => [4] + LittleEndian(ToUnsigned(i, UINT64_SPAN), 8)
    case Float64(bits) => [6] + (ZeroFilled(Padding(offset + 1, 8)) + LittleEndian(bits, 8))
    case Str(s) => [7] + (SizePrefix(|CString(s)|) + CString(s))
    case UInt8Array(s) => [8] + (SizePrefix(|s|) + s)
    case _ => [Tag(v)]
  }

  lemma LeafBytes(v: Value, offset: nat)
    requires Pushable(v) && !IsContainer(v)
    ensures ZeroFilled(Enc(v, offset)) == LeafPush(v, offset)
  {
    hide LittleEndian, SizePrefix, Padding, ZeroFilled;
    ZeroFilledConcat([Byte(Tag(v))], EncLeaf(v, offset + 1));
    ZeroFilledCells([Tag(v)]);
    assert Cells([Tag(v)]) == [Byte(Tag(v))];
    match v
    case Null | True | False => ZeroFilledCells([]);
    case Int32(i) => ZeroFilledCells(LittleEndian(ToUnsigned(i, UINT32_SPAN), 4));
    case Int64(i) => ZeroFilledCells(LittleEndian(ToUnsigned(i, UINT64_SPAN), 8));
    case Float64(bits) =>
      ZeroFilledConcat(Padding(offset + 1, 8), Cells(LittleEndian(bits, 8)));
      ZeroFilledCells(LittleEndian(bits, 8));
    case Str(s) => SizedBytes(CString(s));
    case UInt8Array(s) => SizedBytes(s);
  }

  lemma SizedBytes(s: seq<byte>)
    ensures ZeroFilled(EncSized(s)) == SizePrefix(|s|) + s
  {
    ZeroFilledConcat(Cells(SizePrefix(|s|)), Cells(s));
    ZeroFilledCells(SizePrefix(|s|));
    ZeroFilledCells(s);
  }

  lemma ContainerBytes(v: Value, offset: nat)
    requires IsContainer(v)
    ensures var head := [Tag(v)] + SizePrefix(ContainerSize(v));
      ZeroFilled(Enc(v, offset)) == head + ZeroFilled(EncItems(Children(v), offset + |head|))
  {
    hide SizePrefix, EncItems;
  }

  /** A message of one value: a new builder, its root segment, the pushes, and both
      finishes. */
  method BuildMessage(v: Value) returns (bytes: seq<byte>, incomplete: nat)
    requires Pushable(v)
    ensures bytes == ZeroFilled(Enc(v, 0))
    ensures incomplete == WithBools(v) + (if Counted(v) == 0 then 1 else 0)
  {
    hide Enc, WithBools, Pushable;
    var state := new BuilderState();
    state.level := 1;
    var root := new Segment(state, 1, 1);
    PushTree(root, v);
    assert state.wrongLevel == 0;
    root.Finish();
    assert state.wrongLevel == 0;
    bytes := state.buffer[..state.len];
    incomplete := state.incomplete;
  }

  // ------------------------------------------------------------ long strings

  /** The message of one string, room being what lay in the bytes its length skips. */
  function StringMessage(chars: seq<byte>, room: seq<byte>): (bytes: seq<byte>)
    requires |room| == |SizePrefix(|CString(chars)|)| - 1
  {
    SizeWritten([7], |CString(chars)|, room) + CString(chars)
  }

  method BuildString(chars: seq<byte>) returns (bytes: seq<byte>, ghost room: seq<byte>)
    ensures |room| == |SizePrefix(|CString(chars)|)| - 1
    ensures bytes == StringMessage(chars, room)
  {
    hide CString, SizePrefix;
    var state := new BuilderState();
    state.level := 1;
    var root := new Segment(state, 1, 1);
    assert state.Contents() + [7] == [7];
    room := root.PushString(chars);
    root.Finish();
    bytes := state.buffer[..state.len];
  }

  /** A length whose two low bytes, put over tag and length byte, are a string's tag and
      the marker of a two-byte length again. */
  const SELF_DESCRIBING: nat := 0xFE07

  /** The same for a four-byte length; only the reader that takes lengths for unsigned
      numbers can read so long a string. */
  const SELF_DESCRIBING_LONG: nat := 0xFF07FF07

  /** A number's low and high bytes are the number. */
  lemma LowBytes(n: nat)
    ensures n == n % 256 + 256 * (n / 256 % 256) + 0x1_0000 * (n / 0x1_0000)
    ensures n / 0x1_0000 == n / 0x1_0000 % 256 + 256 * (n / 0x100_0000)
    ensures n / 0x100_0000 < 256 <==> n < UINT32_SPAN
  {
    assert n / 256 / 256 == n / 0x1_0000;
    assert n / 0x1_0000 / 256 == n / 0x100_0000;
  }

  /** A string of this length is found in some bytes only if they start with its tag and
      a length that says so, and only if that many bytes follow. */
  lemma FoundString(bytes: seq<byte>, s: seq<byte>)
    ensures Decode(bytes, 0).result == Ok(Str(s)) <==>
      && bytes != [] && bytes[0] == 7
      && ReadSize(bytes[1..]).result == Ok(|s|) && |s| <= INT_MAX
      && s <= bytes[1 + ReadSize(bytes[1..]).used..]
  {
    hide ReadSize, DecodeItems, ReadElements, FromLittleEndian;
    if bytes != [] && bytes[0] == 7 {
      var size := ReadSize(bytes[1..]);
      var rest := bytes[1 + size.used..];
      assert bytes[1..][size.used..] == rest;
      if size.result.Ok? {
        var n := AsInt(size.result.value);
        assert Decode(bytes, 0).result == if 0 <= n <= |rest| then Ok(Str(rest[..n])) else BadMessage;
        assert n >= 0 <==> size.result.value <= INT_MAX;
        assert n >= 0 ==> n == size.result.value;
        if s <= rest { assert rest[..|s|] == s; }
      }
    }
  }

  lemma FoundDartString(bytes: seq<byte>, s: seq<byte>)
    ensures (ReadDart(bytes, 0).Got? && ReadDart(bytes, 0).value == DString(s)) <==>
      && bytes != [] && bytes[0] == 7
      && ReadSize(bytes[1..]).result == Ok(|s|)
      && s <= bytes[1 + ReadSize(bytes[1..]).used..]
  {
    hide ReadLength, ReadSize, ReadDarts, FromLittleEndian;
    if bytes != [] && bytes[0] == 7 {
      var size := ReadSize(bytes[1..]);
      ReadLengthAgrees(bytes[1..]);
      assert bytes[1..][size.used..] == bytes[1 + size.used..];
    }
  }

  /** The size that follows the first byte of a message, when its second byte marks a
      two-byte or a four-byte one. */
  lemma SizeInMessage(bytes: seq<byte>)
    requires |bytes| >= 6
    ensures ReadSize(bytes[1..]) ==
      var two: nat := bytes[2] as int + 256 * bytes[3] as int;
      var four: nat := two + 0x1_0000 * bytes[4] as int + 0x100_0000 * bytes[5] as int;
      if bytes[1] <= 253 then Read(Ok(bytes[1]), 1) else if bytes[1] == 254 then Read(Ok(two), 3) else Read(Ok(four), 5)
  {
    hide FromLittleEndian;
    var k := if bytes[1] == 254 then 2 else 4;
    assert bytes[1..][1..][..2] == [bytes[2], bytes[3]];
    assert bytes[1..][1..][..4] == [bytes[2], bytes[3], bytes[4], bytes[5]];
    FromTwoBytes(bytes[2], bytes[3]);
    FromFourBytes(bytes[2], bytes[3], bytes[4], bytes[5]);
  }

  /** When the message of a string says of itself that it is that string. */
  predicate SaysItsLength(n: nat, room: seq<byte>)
    requires |room| == |SizePrefix(n)| - 1
  {
    PrefixLength(n);
    || n < 254
    || (n == SELF_DESCRIBING && room == [7, 254])
    || (n == SELF_DESCRIBING_LONG && room[2..] == [7, 255])
  }

  lemma ShortMessage(chars: seq<byte>)
    requires |CString(chars)| < 254
    ensures var s, bytes := CString(chars), StringMessage(chars, []);
      bytes[0] == 7 && ReadSize(bytes[1..]) == Read(Ok(|s|), 1) && bytes[2..] == s
  {
  }

  /** A string of two-byte length is in its message exactly at one length, with the right
      bytes in the room. */
  lemma MiddleMessage(chars: seq<byte>, room: seq<byte>)
    requires 254 <= |CString(chars)| <= 0xFFFF && |room| == 2
    ensures var s, bytes := CString(chars), StringMessage(chars, room);
      (bytes[0] == 7 && ReadSize(bytes[1..]).result == Ok(|s|) && s <= bytes[1 + ReadSize(bytes[1..]).used..])
      <==> SaysItsLength(|s|, room)
  {
    hide CString, ReadSize, LittleEndian;
    var s, bytes := CString(chars), StringMessage(chars, room);
    var n := |s|;
    TwoBytes(n);
    LowBytes(n);
    assert bytes == [n % 256, n / 256 % 256] + room + s;
    SizeInMessage(bytes);
    assert bytes[4..] == s;
    assert room == [room[0], room[1]];
  }

  /** Four bytes are those of one number only. */
  lemma SameDigits(a: byte, b: byte, c: byte, d: byte, e: byte, f: byte, g: byte, h: byte)
    requires a as int + 256 * b + 0x1_0000 * c + 0x100_0000 * d == e as int + 256 * f + 0x1_0000 * g + 0x100_0000 * h
    ensures a == e && b == f && c == g && d == h
  {
  }

  /** When the size that a message of n characters seems to have is n; its low bytes are
      7, b1, b2 and b3. */
  lemma WideSize(n: nat, b1: byte, b2: byte, b3: byte, high: nat, c: byte, d: byte)
    requires n > 0xFFFF && n == 7 + 256 * b1 + 0x1_0000 * b2 + 0x100_0000 * high
    requires high < 256 ==> b3 == high
    ensures n == (if b1 <= 253 then b1 else if b1 == 254 then b2 as int + 256 * b3
                  else b2 as int + 256 * b3 + 0x1_0000 * c + 0x100_0000 * d)
      ==> n == SELF_DESCRIBING_LONG && c == 7 && d == 255
  {
    if b1 == 255 && n == b2 as int + 256 * b3 + 0x1_0000 * c + 0x100_0000 * d {
      assert high < 256;
      SameDigits(7, b1, b2, b3, b2, b3, c, d);
    }
  }

  /** The same for a four-byte length. */
  lemma WideMessage(chars: seq<byte>, room: seq<byte>)
    requires |CString(chars)| > 0xFFFF && |room| == 4
    ensures var s, bytes := CString(chars), StringMessage(chars, room);
      (bytes[0] == 7 && ReadSize(bytes[1..]).result == Ok(|s|) && s <= bytes[1 + ReadSize(bytes[1..]).used..])
      <==> SaysItsLength(|s|, room)
  {
    hide CString, ReadSize, LittleEndian;
    var s, bytes := CString(chars), StringMessage(chars, room);
    var n := |s|;
    FourBytes(n);
    assert bytes == [n % 256, n / 256 % 256, n / 0x1_0000 % 256, n / 0x100_0000 % 256, room[2], room[3]] + s;
    if n % 256 == 7 {
      LowBytes(n);
      WideSize(n, n / 256 % 256, n / 0x1_0000 % 256, n / 0x100_0000 % 256, n / 0x100_0000, room[2], room[3]);
    }
    SizeInMessage(bytes);
    assert bytes[6..] == s;
    assert room[2..] == [room[2], room[3]];
  }

  /** A built string is read back by the platform channel's reader exactly if it is
      shorter than 254 bytes, or 65031 bytes long with 7 and 254 in its room. */
  lemma StringReadsBackIff(chars: seq<byte>, room: seq<byte>)
    requires |room| == |SizePrefix(|CString(chars)|)| - 1
    ensures var s := CString(chars);
      Decode(StringMessage(chars, room), 0).result == Ok(Str(s))
      <==> |s| < 254 || (|s| == SELF_DESCRIBING && room == [7, 254])
    ensures var r, s := ReadDart(StringMessage(chars, room), 0), CString(chars);
      (r.Got? && r.value == DString(s)) <==> SaysItsLength(|s|, room)
  {
    var s := CString(chars);
    PrefixLength(|s|);
    hide CString, ReadSize, LittleEndian, Decode, ReadDart, StringMessage, SizePrefix;
    FoundString(StringMessage(chars, room), s);
    FoundDartString(StringMessage(chars, room), s);
    if |s| < 254 {
      assert room == [];
      ShortMessage(chars);
    } else if |s| <= 0xFFFF {
      MiddleMessage(chars, room);
    } else {
      WideMessage(chars, room);
    }
  }

  function Letters(n: nat): (s: seq<byte>)
    ensures |s| == n && CString(s) == s
  {
    var s := seq(n, _ => 65);
    assert 0 !in s;
    s
  }

  /** 254 letters are not read back, whatever was in the room. */
  lemma FirstStringLost(room: seq<byte>)
    requires |room| == 2
    ensures var s := Letters(254);
      && StringMessage(s, room)[..2] == [254, 0]
      && Decode(StringMessage(s, room), 0).result != Ok(Str(s))
      && ReadDart(StringMessage(s, room), 0) != Got(DString(s), 258)
  {
    hide Letters, Decode, ReadDart, CString;
    TwoBytes(254);
    StringReadsBackIff(Letters(254), room);
  }

  /** 65031 letters are, if the memory happened to hold 7 and 254, and not over zeros. */
  lemma StringReadByAccident()
    ensures var s := Letters(SELF_DESCRIBING);
      && Decode(StringMessage(s, [7, 254]), 0).result == Ok(Str(s))
      && Decode(StringMessage(s, [0, 0]), 0).result != Ok(Str(s))
  {
    hide Letters, Decode, ReadDart, CString, StringMessage;
    StringReadsBackIff(Letters(SELF_DESCRIBING), [7, 254]);
    StringReadsBackIff(Letters(SELF_DESCRIBING), [0, 0]);
  }

  /** The two encoders agree: over zeroed memory the platform channel's writer leaves
      the bytes the builder builds. */
  lemma SameBytesAsWriter(v: Value, zeros: seq<byte>)
    requires |zeros| == |Enc(v, 0)| && forall i | 0 <= i < |zeros| :: zeros[i] == 0
    ensures StdCodec.Put(zeros, 0, Enc(v, 0)) == ZeroFilled(Enc(v, 0))
  {
    hide Enc;
  }

  lemma {:induction false} PushableFits(v: Value)
    requires Pushable(v)
    ensures Fits(v)
    decreases v, 1
  {
    if IsContainer(v) { AllPushableFit(Children(v)); }
  }

  lemma {:induction false} AllPushableFit(items: seq<Value>)
    requires AllPushable(items)
    ensures AllFit(items)
    decreases items, 0
  {
    if items != [] {
      PushableFits(items[0]);
      AllPushableFit(items[1..]);
    }
  }

  /** What was built is read back by both readers, whatever follows it in the buffer. */
  lemma BuiltMessageReadsBack(v: Value, rest: seq<byte>)
    requires Pushable(v)
    ensures var bytes := ZeroFilled(Enc(v, 0)) + rest;
      && Decode(bytes, 0) == Read(Ok(AsRead(v)), |Enc(v, 0)|)
      && (Readable(v) ==> ReadDart(bytes, 0) == Got(ToDart(v), |Enc(v, 0)|))
      && (!Readable(v) ==> ReadDart(bytes, 0).Missing?)
  {
    hide Enc, Decode, ReadDart, Readable, Pushable, Fits;
    var bytes := ZeroFilled(Enc(v, 0)) + rest;
    PushableFits(v);
    ZeroFilledMatches(Enc(v, 0), rest);
    DecodeInvertsEnc(bytes, 0, v);
    ReadDartInvertsEnc(bytes, 0, v);
  }

  /** Values built back to back are read back one after the other. */
  lemma BuiltForestReadsBack(items: seq<Value>, rest: seq<byte>)
    requires AllPushable(items) && AllReadable(items)
    ensures ReadDarts(ZeroFilled(EncItems(items, 0)) + rest, 0, |items|)
      == Got(ToDarts(items), |EncItems(items, 0)|)
  {
    hide EncItems, ReadDarts;
    AllPushableFit(items);
    ZeroFilledMatches(EncItems(items, 0), rest);
    ReadDartsInvert(ZeroFilled(EncItems(items, 0)) + rest, 0, items);
  }
}
