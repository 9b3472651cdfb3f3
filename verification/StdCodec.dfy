/**
 * The standard codec as the platform channel writes: a cursor that is advanced through a
 * buffer it trusts to be large enough.
 */
module StdCodec {
  import opened Bytes
  import opened StdFormat
  import opened StdRoundTrip

  // ---------------------------------------------------------------- writing

  /** The bytes s with these cells written at p; padding keeps what was there. */
  function Put(s: seq<byte>, p: nat, cells: seq<Cell>): (t: seq<byte>)
    requires p + |cells| <= |s|
    ensures |t| == |s|
  {
    seq(|s|, i requires 0 <= i < |s| =>
      if p <= i < p + |cells| && cells[i - p].Byte? then cells[i - p].b else s[i])
  }

  lemma PutNothing(s: seq<byte>, p: nat)
    requires p <= |s|
    ensures Put(s, p, []) == s
  {
  }

  lemma PutPut(s: seq<byte>, p: nat, a: seq<Cell>, b: seq<Cell>)
    requires p + |a| + |b| <= |s|
    ensures Put(Put(s, p, a), p + |a|, b) == Put(s, p, a + b)
  {
  }

  lemma {:induction false} PutMatches(s: seq<byte>, p: nat, cells: seq<Cell>)
    requires p + |cells| <= |s|
    ensures Matches(Put(s, p, cells)[p..], cells)
    decreases |cells|
  {
    if cells != [] {
      PutMatches(s, p + 1, cells[1..]);
      MatchesSame(Put(s, p, cells)[p + 1..], Put(s, p + 1, cells[1..])[p + 1..], cells[1..]);
      assert Put(s, p, cells)[p..][1..] == Put(s, p, cells)[p + 1..];
    }
  }

  lemma {:induction false} MatchesSame(s: seq<byte>, t: seq<byte>, cells: seq<Cell>)
    requires Matches(t, cells) && |s| == |t|
    requires forall i | 0 <= i < |s| && (i < |cells| ==> cells[i].Byte?) :: s[i] == t[i]
    ensures Matches(s, cells)
    decreases |cells|
  {
    if cells != [] {
      MatchesSame(s[1..], t[1..], cells[1..]);
    }
  }

  class WriteCursor {
    const base: nat  // the address of the buffer
    const buf: array<byte>
    var pos: nat

    constructor (buf: array<byte>, base: nat)
      ensures this.buf == buf && this.base == base && pos == 0
    {
      this.buf := buf;
      this.base := base;
      pos := 0;
    }

    ghost predicate Room(n: nat)
      reads this
    {
      pos + n <= buf.Length
    }

    method Write(src: seq<byte>)
      requires Room(|src|)
      modifies this`pos, buf
      ensures pos == old(pos) + |src|
      ensures buf[..] == Put(old(buf[..]), old(pos), Cells(src))
    {
      forall i | 0 <= i < |src| {
        buf[pos + i] := src[i];
      }
      pos := pos + |src|;
    }

    method Align(a: nat)
      requires Alignment(a) && Room(Gap(base + pos, a))
      modifies this`pos
      ensures pos == old(pos) + Gap(base + old(pos), a)
    {
      pos := pos + Gap(base + pos, a);
    }

    method WriteSize(n: nat)
      requires n <= INT_MAX && Room(|SizePrefix(n)|)
      modifies this`pos, buf
      ensures pos == old(pos) + |SizePrefix(n)|
      ensures buf[..] == Put(old(buf[..]), old(pos), Cells(SizePrefix(n)))
    {
      ghost var was := buf[..];
      if n < 254 {
        Write([n]);
      } else if n <= 0xFFFF {
        Write([0xFE]);
        Write(LittleEndian(n, 2));
        PutPut(was, old(pos), Cells([0xFE]), Cells(LittleEndian(n, 2)));
      } else {
        Write([0xFF]);
        Write(LittleEndian(n, 4));
        PutPut(was, old(pos), Cells([0xFF]), Cells(LittleEndian(n, 4)));
      }
    }

    /** The element loop of the byte, string and array cases, width bytes a turn. */
    method WriteElements(src: seq<byte>, count: nat, width: nat)
      requires (width == 1 && |src| == count) || (Alignment(width) && |src| == Span(count, width))
      requires Room(|src|)
      modifies this`pos, buf
      ensures pos == old(pos) + |src|
      ensures buf[..] == Put(old(buf[..]), old(pos), Cells(src))
    {
      ghost var was := buf[..];
      ghost var start := pos;
      var i, at := 0, 0;
      while i < count
        invariant i <= count && at == (if width == 1 then i else Span(i, width)) <= |src|
        invariant pos == start + at
        invariant buf[..] == Put(was, start, Cells(src[..at]))
      {
        Write(src[at..at + width]);
        PutPut(was, start, Cells(src[..at]), Cells(src[at..at + width]));
        assert Cells(src[..at]) + Cells(src[at..at + width]) == Cells(src[..at + width]);
        i, at := i + 1, at + width;
      }
      assert src[..at] == src;
    }

    /** Writes v at the cursor: exactly its cells, for the address it lands on. */
    method WriteValue(v: Value)
      requires Fits(v) && Room(|Enc(v, base + pos)|)
      modifies this`pos, buf
      ensures pos == old(pos) + |Enc(v, base + old(pos))|
      ensures buf[..] == Put(old(buf[..]), old(pos), Enc(v, base + old(pos)))
      decreases v, 2
    {
      hide Fits, Tag;
      var tag := Tag(v);
      PutPut(buf[..], pos, Cells([tag]), EncBody(v, base + pos + 1));
      assert Cells([tag]) == [Byte(tag)];
      Write([tag]);
      if IsContainer(v) {
        WriteContainer(v);
      } else {
        WriteLeaf(v);
      }
    }

    method WriteLeaf(v: Value)
      requires Fits(v) && !IsContainer(v) && Room(|EncLeaf(v, base + pos)|)
      modifies this`pos, buf
      ensures pos == old(pos) + |EncLeaf(v, base + old(pos))|
      ensures buf[..] == Put(old(buf[..]), old(pos), EncLeaf(v, base + old(pos)))
    {
      match v
      case Null | True | False =>
      case Int32(i) => Write(LittleEndian(ToUnsigned(i, UINT32_SPAN), 4));
      case Int64(i) => Write(LittleEndian(ToUnsigned(i, UINT64_SPAN), 8));
      case Float64(bits) =>
        ghost var gap := Padding(base + pos, 8);
        Align(8);
        PutPut(buf[..], old(pos), gap, Cells(LittleEndian(bits, 8)));
        Write(LittleEndian(bits, 8));
      case LargeInt(s) => WriteSized(CString(s));
      case Str(s) => WriteSized(CString(s));
      case UInt8Array(s) => WriteSized(s);
      case Int32Array(n, raw) => WriteArray(n, raw, 4);
      case Int64Array(n, raw) => WriteArray(n, raw, 8);
      case Float64Array(n, raw) => WriteArray(n, raw, 8);
    }

    method WriteSized(s: seq<byte>)
      requires |s| <= INT_MAX && Room(|EncSized(s)|)
      modifies this`pos, buf
      ensures pos == old(pos) + |EncSized(s)|
      ensures buf[..] == Put(old(buf[..]), old(pos), EncSized(s))
    {
      hide Put, SizePrefix;
      PutPut(buf[..], pos, Cells(SizePrefix(|s|)), Cells(s));
      WriteSize(|s|);
      WriteElements(s, |s|, 1);
    }

    method WriteArray(n: nat, raw: seq<byte>, width: nat)
      requires Alignment(width) && |raw| == Span(n, width) <= INT_MAX
      requires Room(|EncArray(base + pos, width, n, raw)|)
      modifies this`pos, buf
      ensures pos == old(pos) + |EncArray(base + old(pos), width, n, raw)|
      ensures buf[..] == Put(old(buf[..]), old(pos), EncArray(base + old(pos), width, n, raw))
    {
      hide SizePrefix;
      ghost var p := Cells(SizePrefix(n));
      ghost var gap := Padding(base + pos + |p|, width);
      ghost var was := buf[..];
      WriteSize(n);
      Align(width);
      assert Put(Put(was, old(pos), p), old(pos) + |p|, gap) == buf[..];
      WriteElements(raw, n, width);
      PutPut(was, old(pos), p, gap);
      PutPut(was, old(pos), p + gap, Cells(raw));
      assert p + gap + Cells(raw) == p + (gap + Cells(raw));
    }

    method WriteContainer(v: Value)
      requires Fits(v) && IsContainer(v) && Room(|EncBody(v, base + pos)|)
      modifies this`pos, buf
      ensures pos == old(pos) + |EncBody(v, base + old(pos))|
      ensures buf[..] == Put(old(buf[..]), old(pos), EncBody(v, base + old(pos)))
      decreases v, 1
    {
      hide Put, SizePrefix;
      var n := ContainerSize(v);
      ghost var p := Cells(SizePrefix(n));
      PutPut(buf[..], pos, p, EncItems(Children(v), base + pos + |p|));
      WriteSize(n);
      WriteChildren(v);
    }

    method WriteChildren(v: Value)
      requires Fits(v) && IsContainer(v) && Room(|EncItems(Children(v), base + pos)|)
      modifies this`pos, buf
      ensures pos == old(pos) + |EncItems(Children(v), base + old(pos))|
      ensures buf[..] == Put(old(buf[..]), old(pos), EncItems(Children(v), base + old(pos)))
      decreases v, 0
    {
      hide Tag, Put;
      var items := Children(v);
      ghost var end := pos + |EncItems(items, base + pos)|;
      ghost var target := Put(buf[..], pos, EncItems(items, base + pos));
      assert items[0..] == items;
      var i := 0;
      while i < |items|
        invariant i <= |items| && AllFit(items[i..])
        invariant pos + |EncItems(items[i..], base + pos)| == end <= buf.Length
        invariant Put(buf[..], pos, EncItems(items[i..], base + pos)) == target
      {
        ghost var first := Enc(items[i], base + pos);
        ghost var rest := EncItems(items[i + 1..], base + pos + |first|);
        assert items[i..][1..] == items[i + 1..];
        assert EncItems(items[i..], base + pos) == first + rest;
        PutPut(buf[..], pos, first, rest);
        WriteValue(items[i]);
        i := i + 1;
      }
      PutNothing(buf[..], pos);
    }
  }
}
