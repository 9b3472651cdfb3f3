/**
 * The byte transport: a ring of 256 bytes whose 32-bit head and tail run freely and
 * wrap, a connection made of two rings, and two connections joined by a wire.
 */
module Connection {
  import opened Bytes

  const SIZE: nat := 256

  /** The slot of the array a counter points at, and a counter in 32 bits. */
  function Slot(n: nat): (k: nat)
    ensures k < 256
  {
    n % 256
  }

  function Wrap(n: int): (w: nat)
    ensures w < UINT32_SPAN
  {
    n % UINT32_SPAN
  }

  lemma {:induction false} SlotOfWrapped(n: nat)
    ensures Slot(Wrap(n)) == Slot(n)
  {
    var q := n / UINT32_SPAN;
    assert n == (n % UINT32_SPAN) + 256 * (0x100_0000 * q);
    RemainderOf(n % UINT32_SPAN, 0x100_0000 * q);
  }

  lemma {:induction false} RemainderOf(a: nat, q: nat)
    ensures (a + 256 * q) % 256 == a % 256
    decreases q
  {
    if q > 0 {
      RemainderOf(a, q - 1);
      assert a + 256 * q == (a + 256 * (q - 1)) + 256;
    }
  }

  /** The difference of two wrapped counters is the difference of the counters, and
      wrapping may be left to the end. */
  lemma WrappedDifference(h: nat, t: nat)
    requires t <= h <= t + 256
    ensures Wrap(Wrap(h) - Wrap(t)) == h - t
  {
  }

  lemma WrappedSum(n: nat, k: int)
    ensures Wrap(Wrap(n) + k) == Wrap(n + k)
  {
    var q := n / UINT32_SPAN;
    assert n == Wrap(n) + UINT32_SPAN * q;
    Multiples(Wrap(n) + k, q);
  }

  lemma {:induction false} Multiples(a: int, q: nat)
    ensures Wrap(a + UINT32_SPAN * q) == Wrap(a)
    decreases q
  {
    if q > 0 {
      Multiples(a, q - 1);
      assert a + UINT32_SPAN * q == (a + UINT32_SPAN * (q - 1)) + UINT32_SPAN;
    }
  }

  class Ring {
    const data: array<byte>
    var head: nat  // 32-bit counters
    var tail: nat
    ghost var stream: seq<byte>  // every byte ever put, less what was restored over
    ghost var taken: nat         // how many of them were consumed
    ghost var intact: nat        // from here on they are still in the ring

    constructor ()
      ensures Valid() && Contents() == [] && fresh(data)
    {
      data := new byte[256];
      head, tail := 0, 0;
      stream, taken, intact := [], 0, 0;
    }

    ghost predicate Valid()
      reads this, data
    {
      && data.Length == 256
      && intact <= taken <= |stream| <= intact + 256
      && head == Wrap(|stream|) && tail == Wrap(taken)
      && Holds(data[..], stream, intact)
    }

    /** The bytes in the ring, oldest first. */
    ghost function Contents(): (s: seq<byte>)
      requires Valid()
      reads this, data
      ensures |s| == |stream| - taken <= 256
    {
      stream[taken..]
    }

    method Size() returns (n: nat)
      requires Valid()
      ensures n == |Contents()|
    {
      hide Slot, Wrap, Holds;
      WrappedDifference(|stream|, taken);
      n := Wrap(head - tail);
    }

    method Consume(n: nat)
      requires Valid() && n <= |Contents()|
      modifies this`tail, this`taken
      ensures Valid() && Contents() == old(Contents())[n..]
      ensures taken == old(taken) + n
    {
      hide Slot, Wrap, Holds;
      WrappedSum(taken, n);
      tail := Wrap(tail + n);
      taken := taken + n;
    }

    /** Takes back the last n bytes consumed, which nothing put since has overwritten. */
    method Restore(n: nat)
      requires Valid() && n <= taken - intact
      modifies this`tail, this`taken
      ensures Valid() && taken == old(taken) - n
      ensures Contents() == stream[taken..old(taken)] + old(Contents())
    {
      hide Slot, Wrap, Holds;
      WrappedSum(taken, 0 - n);
      tail := Wrap(tail - n);
      taken := taken - n;
    }

    /** Copies the oldest bytes out, in one piece or two. */
    method Copy(count: nat) returns (dst: seq<byte>)
      requires Valid() && count <= |Contents()|
      ensures dst == Contents()[..count]
    {
      hide Slot, Wrap;
      SlotOfWrapped(taken);
      var t := Slot(tail);
      if t + count <= 256 {
        dst := data[t..t + count];
        forall i | 0 <= i < count ensures dst[i] == stream[taken + i] { SlotAfter(taken, i); }
      } else {
        var size := 256 - t;
        dst := data[t..] + data[..count - size];
        forall i | 0 <= i < count ensures dst[i] == stream[taken + i] { SlotAfter(taken, i); }
      }
    }

    /** Lays bytes down from the head on, the first of them up to the end of the array
        and the others from its start. */
    method Lay(src: seq<byte>, h: nat, first: nat)
      requires Valid() && |Contents()| + |src| <= 256
      requires h == Slot(|stream|) && first == (if h + |src| <= 256 then |src| else 256 - h)
      modifies this`head, this`stream, this`intact, data
      ensures Valid() && Contents() == old(Contents()) + src
      ensures taken == old(taken)
    {
      hide Slot, Wrap, Holds;
      WrappedSum(|stream|, |src|);
      var count := |src|;
      ghost var len, was, from := |stream|, data[..], intact;
      forall i | 0 <= i < first { data[h + i] := src[i]; }
      forall i | 0 <= i < count - first { data[i] := src[first + i]; }
      head := Wrap(head + count);
      stream := stream + src;
      intact := if intact + 256 < len + count then len + count - 256 else intact;
      Laid(was, data[..], old(stream), src, from, intact, h, first);
    }

    /** Copies bytes in, in one piece or two; more than a ring of them is refused. */
    method Put(src: seq<byte>) returns (ok: bool)
      requires Valid() && (|src| <= 256 ==> |Contents()| + |src| <= 256)
      modifies this`head, this`stream, this`intact, data
      ensures Valid() && ok == (|src| <= 256)
      ensures Contents() == old(Contents()) + (if ok then src else [])
      ensures taken == old(taken) && (!ok ==> intact == old(intact))
    {
      if |src| > 256 { return false; }
      hide Wrap, Holds;
      SlotOfWrapped(|stream|);
      var h := Slot(head);
      Lay(src, h, if h + |src| <= 256 then |src| else 256 - h);
      ok := true;
    }

    /** The pieces of the ring that hold its contents. */
    method GetIov() returns (iov: Iov)
      requires Valid() && Contents() != []
      ensures iov.at + iov.len <= 256 && iov.more <= 256
      ensures Gather(data[..], iov) == Contents()
    {
      hide Slot, Wrap;
      SlotOfWrapped(taken);
      SlotOfWrapped(|stream|);
      var h, t := Slot(head), Slot(tail);
      ghost var n := |stream| - taken;
      Occupied(taken, n, t, h);
      if t < h {
        iov := Iov(t, h - t, 0);
      } else if h == 0 {
        iov := Iov(t, 256 - t, 0);
      } else {
        iov := Iov(t, 256 - t, h);
      }
      ghost var g := Gather(data[..], iov);
      forall i | 0 <= i < n ensures g[i] == stream[taken + i] {
        SlotAfter(taken, i);
        assert g[i] == data[Slot(taken + i)];
      }
    }

    /** The pieces of the ring that are free: from the head on, in the order they are to
        be filled. */
    method PutIov() returns (iov: Iov)
      requires Valid() && |Contents()| < 256
      ensures iov.at == Slot(|stream|) && iov.len + iov.more == 256 - |Contents()|
      ensures iov.at + iov.len <= 256 && (iov.more > 0 ==> iov.at + iov.len == 256)
    {
      hide Slot, Wrap;
      SlotOfWrapped(taken);
      SlotOfWrapped(|stream|);
      var h, t := Slot(head), Slot(tail);
      Occupied(taken, |stream| - taken, t, h);
      if h < t {
        iov := Iov(h, t - h, 0);
      } else if t == 0 {
        iov := Iov(h, 256 - h, 0);
      } else {
        iov := Iov(h, 256 - h, t);
      }
    }
  }

  /** What a send answers: some of the bytes offered were taken, or none now (EAGAIN), or
      the connection is broken. Where a list of answers ends, no more is taken now. */
  datatype Send = Taken(n: nat) | Again | Broken

  function Accepted(n: nat, offered: nat): (k: nat)
    ensures k <= offered
  {
    if n > offered then offered else n
  }

  /** What the sends before the first one that fails would take. */
  function Sum(sends: seq<Send>, k: nat): nat
    requires k <= |sends|
  {
    if k == 0 then 0 else Sum(sends, k - 1) + if sends[k - 1].Taken? then sends[k - 1].n else 0
  }

  /** The first k sends take something or nothing, and the one after them fails, if there
      is one. */
  predicate FailsAt(sends: seq<Send>, k: nat) {
    && k <= |sends| && (forall i | 0 <= i < k :: sends[i].Taken?)
    && (k < |sends| ==> !sends[k].Taken?)
  }

  /** A flush sends everything exactly if the sends before the first failure can take it
      all; else it sends what they take, and fails exactly if that failure is no EAGAIN. */
  lemma {:induction false} FlushEndsIff(sends: seq<Send>, n: nat, k: nat)
    requires FailsAt(sends, k)
    ensures SentBy(sends, n) == if Sum(sends, k) < n then Sum(sends, k) else n
    ensures Drain(sends, n).Flushed? <==> Sum(sends, k) >= n
    ensures Drain(sends, n).SendFailed? <==> Sum(sends, k) < n && k < |sends| && sends[k].Broken?
    decreases |sends|
  {
    if n > 0 && k > 0 {
      var taken := Accepted(sends[0].n, n);
      SumTail(sends, k);
      assert forall i | 0 <= i < k - 1 :: sends[1..][i] == sends[i + 1];
      FlushEndsIff(sends[1..], n - taken, k - 1);
    }
  }

  lemma {:induction false} SumTail(sends: seq<Send>, k: nat)
    requires 0 < k <= |sends|
    ensures Sum(sends, k) == (if sends[0].Taken? then sends[0].n else 0) + Sum(sends[1..], k - 1)
    decreases k
  {
    if k > 1 {
      SumTail(sends, k - 1);
      assert sends[1..][k - 2] == sends[k - 1];
    } else {
      assert Sum(sends, 0) == 0 && Sum(sends[1..], 0) == 0;
    }
  }

  /** What a receive answers, and what a read then does. */
  datatype Recv = Got(n: nat) | RecvAgain | RecvBroken

  datatype ReadResult = Holding(size: nat) | ReadAgain | ReadFailed

  datatype FlushResult = Flushed | WouldBlock | SendFailed

  /** How a flush of n bytes ends with these answers: until all are sent, or one fails. */
  function Drain(sends: seq<Send>, n: nat): FlushResult
    decreases |sends|
  {
    if n == 0 then Flushed
    else if sends == [] then WouldBlock
    else
      match sends[0]
      case Again => WouldBlock
      case Broken => SendFailed
      case Taken(k) => Drain(sends[1..], n - Accepted(k, n))
  }

  /** How many of them went out by then. */
  function SentBy(sends: seq<Send>, n: nat): (k: nat)
    ensures k <= n
    ensures Drain(sends, n).Flushed? <==> k == n
    decreases |sends|
  {
    if n == 0 || sends == [] || !sends[0].Taken? then 0
    else
      var k := Accepted(sends[0].n, n);
      k + SentBy(sends[1..], n - k)
  }

  function Least(a: nat, b: nat, c: nat): (m: nat)
    ensures m <= a && m <= b && m <= c && (m == a || m == b || m == c)
  {
    var ab := if a < b then a else b;
    if ab < c then ab else c
  }

  class Conn {
    const input: Ring
    const output: Ring
    var wantFlush: bool

    constructor ()
      ensures Valid() && Incoming() == [] && Outgoing() == [] && !wantFlush
      ensures fresh(input) && fresh(output) && fresh(input.data) && fresh(output.data)
    {
      input := new Ring();
      output := new Ring();
      wantFlush := false;
    }

    ghost predicate Valid()
      reads this, input, output, input.data, output.data
    {
      && input != output && input.data != output.data
      && input.Valid() && output.Valid()
    }

    ghost function Incoming(): seq<byte>
      requires Valid()
      reads this, input, output, input.data, output.data
    {
      input.Contents()
    }

    ghost function Outgoing(): seq<byte>
      requires Valid()
      reads this, input, output, input.data, output.data
    {
      output.Contents()
    }

    /** The oldest bytes of the output ring go out. */
    method SendSome(n: nat) returns (sent: seq<byte>)
      requires Valid() && Outgoing() != []
      modifies output`tail, output`taken
      ensures Valid()
      ensures var k := Accepted(n, |old(Outgoing())|);
        sent == old(Outgoing())[..k] && Outgoing() == old(Outgoing())[k..]
    {
      var size := output.Size();
      var iov := output.GetIov();
      var k := Accepted(n, size);
      sent := Gather(output.data[..], iov)[..k];
      output.Consume(k);
    }

    /** Sends until the output ring is empty or a send fails; sent is what went out. */
    method Flush(sends: seq<Send>) returns (r: FlushResult, sent: seq<byte>)
      requires Valid()
      modifies this`wantFlush, output`tail, output`taken
      ensures Valid()
      ensures sent + Outgoing() == old(Outgoing())
      ensures |sent| == if old(wantFlush) then SentBy(sends, |old(Outgoing())|) else 0
      ensures r == (if old(wantFlush) then Drain(sends, |old(Outgoing())|) else Flushed)
      ensures old(wantFlush) && r.Flushed? ==> Outgoing() == []
      ensures !old(wantFlush) ==> sent == [] && Outgoing() == old(Outgoing())
      ensures wantFlush == (old(wantFlush) && !r.Flushed?)
    {
      hide Ring.Valid, Ring.Contents, Accepted;
      sent := [];
      if !wantFlush { return Flushed, sent; }
      var turn := 0;
      var size := output.Size();
      ghost var end, count := Drain(sends, size), SentBy(sends, size);
      assert sends[0..] == sends;
      while size > 0
        invariant Valid() && size == |Outgoing()| && wantFlush
        invariant sent + Outgoing() == old(Outgoing())
        invariant turn <= |sends| && Drain(sends[turn..], size) == end
        invariant |sent| + SentBy(sends[turn..], size) == count
        decreases |sends| - turn
      {
        if turn < |sends| { assert sends[turn..][0] == sends[turn] && sends[turn..][1..] == sends[turn + 1..]; }
        if turn >= |sends| { return WouldBlock, sent; }
        match sends[turn] {
          case Again => return WouldBlock, sent;
          case Broken => return SendFailed, sent;
          case Taken(n) =>
            ghost var was := Outgoing();
            var some := SendSome(n);
            assert sent + was == (sent + some) + was[|some|..];
            sent := sent + some;
        }
        turn := turn + 1;
        size := output.Size();
      }
      wantFlush := false;
      r := Flushed;
    }

    /** Queues bytes, making room by flushing. All of them or none: bytes that fit are
        queued and nothing is sent; others are once everything before them went out, if
        they fit an empty ring. */
    method Put(src: seq<byte>, sends: seq<Send>) returns (ok: bool, sent: seq<byte>)
      requires Valid()
      modifies this`wantFlush, output, output.data
      ensures Valid()
      ensures sent + Outgoing() == old(Outgoing()) + (if ok then src else [])
      ensures |old(Outgoing())| + |src| <= 256 ==> ok && sent == []
      ensures |old(Outgoing())| + |src| > 256 ==>
        ok == (|src| <= 256 && Drain(sends, |old(Outgoing())|).Flushed?)
      ensures |old(Outgoing())| + |src| > 256 ==> |sent| == SentBy(sends, |old(Outgoing())|)
      ensures |old(Outgoing())| + |src| > 256 && Drain(sends, |old(Outgoing())|).Flushed? ==> sent == old(Outgoing())
      ensures wantFlush == (ok || !Drain(sends, |old(Outgoing())|).Flushed?)
    {
      sent := [];
      var size := output.Size();
      if size + |src| > SIZE {
        wantFlush := true;
        var r;
        r, sent := Flush(sends);
        if !r.Flushed? { return false, sent; }
      }
      ok := output.Put(src);
      if ok { wantFlush := true; }
    }

    /** Receives up to n of the bytes on the wire into the free part of the input ring,
        and says how many bytes the ring then holds. A full ring is an overflow. */
    method Read(wire: seq<byte>, recv: Recv) returns (r: ReadResult, received: nat)
      requires Valid()
      modifies input`head, input`stream, input`intact, input.data
      ensures Valid() && received <= |wire|
      ensures Incoming() == old(Incoming()) + wire[..received]
      ensures input.taken == old(input.taken)
      ensures r.Holding? ==> r.size == |Incoming()|
      ensures |old(Incoming())| == 256 ==> r.ReadFailed?
      ensures r.Holding? <==> |old(Incoming())| < 256 && recv.Got?
      ensures r.ReadAgain? <==> |old(Incoming())| < 256 && recv.RecvAgain?
      ensures r.Holding? && recv.n > 0 && wire != [] ==> received > 0
      ensures received == if r.Holding? then Least(recv.n, |wire|, 256 - |old(Incoming())|) else 0
    {
      var size := input.Size();
      if size >= SIZE { return ReadFailed, 0; }
      var iov := input.PutIov();
      match recv
      case RecvAgain => return ReadAgain, 0;
      case RecvBroken => return ReadFailed, 0;
      case Got(n) =>
        var room := iov.len + iov.more;
        received := Least(n, |wire|, room);
        input.Lay(wire[..received], iov.at, if received <= iov.len then received else iov.len);
        size := input.Size();
        r := Holding(size);
    }

    /** Takes count bytes out of the input ring, if they are there. */
    method Get(count: nat) returns (ok: bool, dst: seq<byte>)
      requires Valid()
      modifies input`tail, input`taken
      ensures Valid() && ok == (count <= |old(Incoming())|)
      ensures ok ==> dst == old(Incoming())[..count] && Incoming() == old(Incoming())[count..]
      ensures ok ==> input.taken == old(input.taken) + count
      ensures !ok ==> Incoming() == old(Incoming()) && input.taken == old(input.taken)
    {
      var size := input.Size();
      if count > size { return false, []; }
      dst := input.Copy(count);
      input.Consume(count);
      ok := true;
    }

    method Pending() returns (n: nat)
      requires Valid()
      ensures n == |Incoming()|
    {
      n := input.Size();
    }

    /** Puts the last count bytes back. */
    method Restore(count: nat)
      requires Valid() && count <= input.taken - input.intact
      modifies input`tail, input`taken
      ensures Valid() && input.taken == old(input.taken) - count
      ensures Incoming() == input.stream[input.taken..old(input.taken)] + old(Incoming())
    {
      input.Restore(count);
    }

    /** A get followed at once by a restore changes nothing. */
    method GetThenRestore(count: nat) returns (ok: bool)
      requires Valid() && count <= |Incoming()|
      modifies input`tail, input`taken
      ensures Valid() && Incoming() == old(Incoming()) && input.tail == old(input.tail)
      ensures input.taken == old(input.taken)
    {
      var dst;
      ok, dst := Get(count);
      Restore(count);
      assert Incoming() == old(Incoming())[..count] + old(Incoming())[count..];
    }
  }

  // ---------------------------------------------------------------- two ends and a wire

  datatype Action =
    | DoPut(src: seq<byte>, sends: seq<Send>)
    | DoFlush(sends: seq<Send>)
    | DoRead(recv: Recv)
    | DoGet(count: nat)
    | DoGetRestore(count: nat)

  /** A sender and a receiver as one sees them from outside: what is queued and whether a
      flush is wanted, what is in flight, what was received, and all that was put and got. */
  datatype State = State(queued: seq<byte>, wanted: bool, wire: seq<byte>, held: seq<byte>,
                         put: seq<byte>, got: seq<byte>)

  /** Whether a put is accepted. */
  predicate Fits(s: State, src: seq<byte>, sends: seq<Send>) {
    |s.queued| + |src| <= 256 || (|src| <= 256 && Drain(sends, |s.queued|).Flushed?)
  }

  function Sending(s: State, sends: seq<Send>): State {
    var k := SentBy(sends, |s.queued|);
    s.(queued := s.queued[k..], wire := s.wire + s.queued[..k], wanted := !Drain(sends, |s.queued|).Flushed?)
  }

  function Step(s: State, a: Action): State {
    match a
    case DoPut(src, sends) =>
      var t := if |s.queued| + |src| <= 256 then s else Sending(s, sends);
      if Fits(s, src, sends) then t.(queued := t.queued + src, wanted := true, put := s.put + src) else t
    case DoFlush(sends) => if s.wanted then Sending(s, sends) else s
    case DoRead(recv) =>
      if |s.held| < 256 && recv.Got? then
        var k := Least(recv.n, |s.wire|, 256 - |s.held|);
        s.(wire := s.wire[k..], held := s.held + s.wire[..k])
      else s
    case DoGet(count) =>
      if count <= |s.held| then s.(held := s.held[count..], got := s.got + s.held[..count]) else s
    case DoGetRestore(_) => s
  }

  function After(s: State, actions: seq<Action>): State
    decreases |actions|
  {
    if actions == [] then s else After(Step(s, actions[0]), actions[1..])
  }

  /** What was put was got, was received, is in flight or is queued, in this order; and no
      byte is queued that a flush would not send. */
  predicate Sound(s: State) {
    && s.put == s.got + (s.held + (s.wire + s.queued))
    && |s.held| <= 256 && |s.queued| <= 256
    && (s.queued != [] ==> s.wanted)
  }

  lemma SendingKeeps(s: State, sends: seq<Send>)
    requires Sound(s)
    ensures Sound(Sending(s, sends)) && Sending(s, sends).put == s.put && Sending(s, sends).got == s.got
  {
    hide Drain, SentBy;
    var k := SentBy(sends, |s.queued|);
    assert s.queued == s.queued[..k] + s.queued[k..];
    assert (s.wire + s.queued[..k]) + s.queued[k..] == s.wire + s.queued;
  }

  /** What a step keeps, and that nothing is taken back. */
  predicate Keeps(s: State, t: State) {
    Sound(t) && s.put <= t.put && s.got <= t.got && t.got <= t.put
  }

  lemma PutKeeps(s: State, src: seq<byte>, sends: seq<Send>)
    requires Sound(s)
    ensures Keeps(s, Step(s, DoPut(src, sends)))
  {
    hide Drain, SentBy, Sending;
    var t := if |s.queued| + |src| <= 256 then s else Sending(s, sends);
    if |s.queued| + |src| > 256 {
      SendingKeeps(s, sends);
      if Fits(s, src, sends) { SendingAll(s, sends); }
    }
    Regroup(t.got, t.held, t.wire, t.queued, src);
  }

  lemma SendingAll(s: State, sends: seq<Send>)
    requires Drain(sends, |s.queued|).Flushed?
    ensures Sending(s, sends).queued == []
  {
  }

  lemma ReadKeeps(s: State, recv: Recv)
    requires Sound(s)
    ensures Keeps(s, Step(s, DoRead(recv)))
  {
    hide Drain, SentBy, Least;
    if |s.held| < 256 && recv.Got? {
      var k := Least(recv.n, |s.wire|, 256 - |s.held|);
      Received(s.got, s.held, s.wire[..k], s.wire[k..], s.queued);
      assert s.wire == s.wire[..k] + s.wire[k..];
    }
  }

  lemma GetKeeps(s: State, count: nat)
    requires Sound(s)
    ensures Keeps(s, Step(s, DoGet(count)))
  {
    if count <= |s.held| {
      assert s.held == s.held[..count] + s.held[count..];
      Taking(s.got, s.held[..count], s.held[count..], s.wire + s.queued);
    }
  }

  lemma StepKeeps(s: State, a: Action)
    requires Sound(s)
    ensures var t := Step(s, a);
      Sound(t) && s.put <= t.put && s.got <= t.got && t.got <= t.put
  {
    match a
    case DoPut(src, sends) =>
      hide Step, Sound;
      PutKeeps(s, src, sends);
    case DoFlush(sends) =>
      hide Sending, Drain;
      SendingKeeps(s, sends);
    case DoRead(recv) =>
      hide Step, Sound;
      ReadKeeps(s, recv);
    case DoGet(count) =>
      hide Step, Sound;
      GetKeeps(s, count);
    case DoGetRestore(_) =>
  }

  lemma Regroup(got: seq<byte>, held: seq<byte>, wire: seq<byte>, queued: seq<byte>, src: seq<byte>)
    ensures got + (held + (wire + (queued + src))) == got + (held + (wire + queued)) + src
  {
    calc {
      got + (held + (wire + (queued + src)));
      got + (held + ((wire + queued) + src));
      got + ((held + (wire + queued)) + src);
      got + (held + (wire + queued)) + src;
    }
  }

  lemma Received(got: seq<byte>, held: seq<byte>, part: seq<byte>, rest: seq<byte>, queued: seq<byte>)
    ensures got + ((held + part) + (rest + queued)) == got + (held + ((part + rest) + queued))
  {
  }

  lemma Taking(got: seq<byte>, part: seq<byte>, rest: seq<byte>, after: seq<byte>)
    ensures (got + part) + (rest + after) == got + ((part + rest) + after)
  {
  }

  /** However the two ends run, and however their sends and reads are cut: what was got
      is a prefix of what was put, and nothing is taken back. */
  lemma {:induction false} RunKeeps(s: State, actions: seq<Action>)
    requires Sound(s)
    ensures var t := After(s, actions);
      Sound(t) && s.put <= t.put && s.got <= t.got && t.got <= t.put
    decreases |actions|
  {
    hide Step;
    if actions != [] {
      StepKeeps(s, actions[0]);
      RunKeeps(Step(s, actions[0]), actions[1..]);
    }
  }

  /** A get of what was received, else a read of what is in flight, else a flush. */
  function Onward(s: State): Action {
    if s.held != [] then DoGet(|s.held|)
    else if s.wire != [] then DoRead(Got(|s.wire|))
    else DoFlush([Taken(|s.queued|)])
  }

  function Deliveries(s: State): seq<Action>
    requires Sound(s)
    decreases |s.held| + 2 * |s.wire| + 3 * |s.queued|
  {
    if s.held + s.wire + s.queued == [] then []
    else
      StepKeeps(s, Onward(s));
      OnwardMoves(s);
      [Onward(s)] + Deliveries(Step(s, Onward(s)))
  }

  lemma OnwardMoves(s: State)
    requires Sound(s) && s.held + s.wire + s.queued != []
    ensures var t := Step(s, Onward(s));
      && t.put == s.put
      && |t.held| + 2 * |t.wire| + 3 * |t.queued| < |s.held| + 2 * |s.wire| + 3 * |s.queued|
  {
    if s.held == [] && s.wire == [] {
      var sends := [Taken(|s.queued|)];
      assert SentBy(sends[1..], 0) == 0;
      assert SentBy(sends, |s.queued|) == |s.queued|;
    }
  }

  /** Nothing gets stuck: from every state of a link a run of gets, reads and flushes hands
      out everything that was put. */
  lemma {:induction false} AllCanBeGot(s: State)
    requires Sound(s)
    ensures After(s, Deliveries(s)).got == s.put
    decreases |s.held| + 2 * |s.wire| + 3 * |s.queued|
  {
    hide Step, Onward, SentBy;
    if s.held + s.wire + s.queued == [] {
      assert s.held == [] && s.wire == [] && s.queued == [];
      assert s.got + ([] + ([] + [])) == s.got;
    } else {
      StepKeeps(s, Onward(s));
      OnwardMoves(s);
      AllCanBeGot(Step(s, Onward(s)));
      assert Deliveries(s)[1..] == Deliveries(Step(s, Onward(s)));
    }
  }

  /** A sender, a receiver and what is in flight between them. */
  class Link {
    const near: Conn
    const far: Conn
    var wire: seq<byte>
    ghost var put: seq<byte>  // what the sender was given
    ghost var got: seq<byte>  // what the receiver handed out

    constructor ()
      ensures Valid() && put == [] && got == []
      ensures fresh(Repr())
    {
      near := new Conn();
      far := new Conn();
      wire, put, got := [], [], [];
    }

    ghost function Repr(): set<object>
      reads this
    {
      {this, near, near.input, near.output, near.input.data, near.output.data,
       far, far.input, far.output, far.input.data, far.output.data}
    }

    ghost predicate Apart()
      reads this, Repr()
    {
      && near != far && near.Valid() && far.Valid()
      && near.input != far.input && near.input != far.output && near.output != far.input && near.output != far.output
      && {near.input.data, near.output.data} !! {far.input.data, far.output.data}
    }

    ghost function View(): State
      requires Apart()
      reads this, Repr()
    {
      State(near.Outgoing(), near.wantFlush, wire, far.Incoming(), put, got)
    }

    /** Nothing is lost, duplicated or reordered on the way. */
    ghost predicate Valid()
      reads this, Repr()
    {
      Apart() && Sound(View())
    }

    method Offer(src: seq<byte>, sends: seq<Send>) returns (ok: bool)
      requires Apart()
      modifies Repr()
      ensures Apart() && View() == Step(old(View()), DoPut(src, sends))
      ensures ok == Fits(old(View()), src, sends)
    {
      hide Drain, SentBy, Ring.Valid, Ring.Contents;
      ghost var outgoing := near.Outgoing();
      var sent;
      ok, sent := near.Put(src, sends);
      wire := wire + sent;
      if ok { put := put + src; }
      SentThenLeft(sent, near.Outgoing(), outgoing, if ok then src else []);
    }

    method Push(sends: seq<Send>)
      requires Apart()
      modifies Repr()
      ensures Apart() && View() == Step(old(View()), DoFlush(sends))
    {
      hide Drain, SentBy, Ring.Valid, Ring.Contents;
      ghost var outgoing := near.Outgoing();
      var r, sent := near.Flush(sends);
      wire := wire + sent;
      SentThenLeft(sent, near.Outgoing(), outgoing, []);
    }

    method Receive(recv: Recv)
      requires Apart()
      modifies Repr()
      ensures Apart() && View() == Step(old(View()), DoRead(recv))
    {
      hide Least, Ring.Valid, Ring.Contents;
      var r, received := far.Read(wire, recv);
      assert received == 0 ==> wire[..received] == [] && wire[received..] == wire;
      wire := wire[received..];
    }

    /** What the receiver hands out is exactly what comes next of what was put. */
    method Take(count: nat) returns (ok: bool, dst: seq<byte>)
      requires Apart()
      modifies Repr()
      ensures Apart() && View() == Step(old(View()), DoGet(count))
      ensures ok == (count <= |old(far.Incoming())|) && got == old(got) + (if ok then dst else [])
    {
      hide Ring.Valid, Ring.Contents;
      ok, dst := far.Get(count);
      if ok { got := got + dst; }
    }

    /** Each action does exactly its step, and keeps what was put in order. */
    method Act(a: Action)
      requires Valid()
      modifies Repr()
      ensures Valid() && Repr() == old(Repr()) && View() == Step(old(View()), a)
      ensures got <= put && old(put) <= put && old(got) <= got
    {
      hide Step, Sound, Ring.Valid, Ring.Contents, Drain, SentBy, Least;
      ghost var was := View();
      StepKeeps(was, a);
      match a
      case DoPut(src, sends) =>
        var _ := Offer(src, sends);
      case DoFlush(sends) =>
        Push(sends);
      case DoRead(recv) =>
        Receive(recv);
      case DoGet(count) =>
        var _, _ := Take(count);
      case DoGetRestore(count) =>
        RestoreStep(was, count);
        var size := far.input.Size();
        if count <= size {
          var _ := far.GetThenRestore(count);
        }
    }

    /** However the two ends run, and however their sends and reads are cut. */
    method RunAll(actions: seq<Action>)
      requires Valid()
      modifies Repr()
      ensures Valid() && Repr() == old(Repr()) && View() == After(old(View()), actions)
      ensures got <= put && old(put) <= put && old(got) <= got
    {
      hide Step, Sound, Apart;
      ghost var was := View();
      RunKeeps(was, actions);
      assert actions[0..] == actions;
      var i := 0;
      while i < |actions|
        invariant i <= |actions| && Valid() && Repr() == old(Repr())
        invariant After(View(), actions[i..]) == After(was, actions)
      {
        assert actions[i..][1..] == actions[i + 1..];
        Act(actions[i]);
        i := i + 1;
      }
    }
  }

  /** A put's bytes sent are the first of those queued, and the others are left. */
  lemma SentThenLeft(sent: seq<byte>, after: seq<byte>, before: seq<byte>, src: seq<byte>)
    requires sent + after == before + src
    ensures |sent| <= |before| ==> sent == before[..|sent|] && after == before[|sent|..] + src
  {
    if |sent| <= |before| {
      assert before + src == before[..|sent|] + (before[|sent|..] + src);
      assert (sent + after)[..|sent|] == sent && (before + src)[..|sent|] == before[..|sent|];
      assert (sent + after)[|sent|..] == after && (before + src)[|sent|..] == before[|sent|..] + src;
    }
  }

  lemma RestoreStep(s: State, count: nat)
    ensures Step(s, DoGetRestore(count)) == s
  {
  }

  /** One piece of the array, and possibly a second one at its start. */
  datatype Iov = Iov(at: nat, len: nat, more: nat)

  function Gather(d: seq<byte>, iov: Iov): seq<byte>
    requires |d| == 256 && iov.at + iov.len <= 256 && iov.more <= 256
  {
    d[iov.at..iov.at + iov.len] + d[..iov.more]
  }

  /** The bytes of the stream from here on are each in their slot. */
  ghost predicate Holds(d: seq<byte>, stream: seq<byte>, from: nat) {
    |d| == 256 && forall i | from <= i < |stream| :: d[Slot(i)] == stream[i]
  }

  /** What is laid down in one piece or two is in its slots, and what was not overwritten
      still is. */
  lemma Laid(was: seq<byte>, now: seq<byte>, stream: seq<byte>, src: seq<byte>, from: nat, intact: nat, h: nat,
             first: nat)
    requires Holds(was, stream, from) && |now| == 256 && |src| <= 256
    requires from <= intact && |stream| + |src| <= intact + 256
    requires h == Slot(|stream|) && first == (if h + |src| <= 256 then |src| else 256 - h)
    requires forall k | 0 <= k < 256 :: now[k] == if h <= k < h + first then src[k - h] else if k < |src| - first
      then src[first + k] else was[k]
    ensures Holds(now, stream + src, intact)
  {
    hide Slot;
    var all := stream + src;
    forall i | intact <= i < |all| ensures now[Slot(i)] == all[i] {
      if i < |stream| {
        KeptSlot(|stream|, h, |src|, i);
      } else {
        SlotAfter(|stream|, i - |stream|);
      }
    }
  }

  /** Where the head is, n bytes after a tail at t. */
  lemma Occupied(taken: nat, n: nat, t: nat, h: nat)
    requires n <= 256 && t == Slot(taken) && h == Slot(taken + n)
    ensures h == if t + n < 256 then t + n else if t + n < 512 then t + n - 256 else 0
    ensures t + n < 512 || n == 256
  {
  }

  /** The slot of a byte k places after another. */
  lemma SlotAfter(start: nat, k: nat)
    requires k < 256
    ensures Slot(start + k) == if Slot(start) + k < 256 then Slot(start) + k else Slot(start) + k - 256
  {
  }

  /** A slot that is not overwritten. */
  lemma KeptSlot(len: nat, h: nat, count: nat, i: nat)
    requires h == Slot(len) && count <= 256 && i < len && len + count <= i + 256
    ensures !(h <= Slot(i) < h + count) && !(Slot(i) < h + count - 256)
  {
    var d := len - i;
    assert Slot(i + d) == h;
  }
}
