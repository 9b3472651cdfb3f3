/**
 * Requests framed on the byte transport: a four-byte header with an opcode and a size,
 * then that many bytes of which a handler takes what its request needs.
 */
module Framing {
  import opened Bytes
  import opened Connection

  /** What a client asks for; a path as its bytes are on the wire. */
  datatype Request =
    | OpenSeat
    | CloseSeat
    | OpenDevice(path: seq<byte>)
    | CloseDevice(device: int32)
    | DisableSeat
    | SwitchSession(session: int32)
    | Ping

  const MAX_PATH_LEN: nat := 256

  // ---------------------------------------------------------------- what bytes mean

  function U16(s: seq<byte>): (n: nat)
    requires |s| >= 2
    ensures n < 0x1_0000
  {
    s[0] as int + 256 * s[1] as int
  }

  function I32(s: seq<byte>): (i: int32)
    requires |s| >= 4
  {
    FromLittleEndianBound(s[..4]);
    Pow256Values();
    ToSigned(FromLittleEndian(s[..4]), UINT32_SPAN)
  }

  /** A request and how many bytes after the header it took, or a protocol error. */
  datatype Body = Good(req: Request, taken: nat) | Bad

  /** The message with this opcode and declared size whose bytes come first in s. */
  function ParseBody(opcode: nat, size: nat, s: seq<byte>): (b: Body)
    requires size <= |s|
    ensures b.Good? ==> b.taken <= size
  {
    match opcode
    case 1 => if size == 0 then Good(OpenSeat, 0) else Bad
    case 2 => if size == 0 then Good(CloseSeat, 0) else Bad
    case 3 =>
      if size < 2 then Bad
      else if 2 + U16(s) > size || U16(s) > MAX_PATH_LEN then Bad
      else Good(OpenDevice(s[2..2 + U16(s)]), 2 + U16(s))
    case 4 => if size < 4 then Bad else Good(CloseDevice(I32(s)), 4)
    case 5 => if size == 0 then Good(DisableSeat, 0) else Bad
    case 6 => if size < 4 then Bad else Good(SwitchSession(I32(s)), 4)
    case 7 => if size == 0 then Good(Ping, 0) else Bad
    case _ => Bad
  }

  /** Whether handling the k-th request of a connection succeeds. */
  type Answers = nat -> bool

  /** The requests handled, the bytes left over, and whether the connection lives on. */
  datatype Framed = Framed(requests: seq<Request>, rest: seq<byte>, alive: bool)

  /** A whole message is there. */
  predicate Complete(s: seq<byte>) {
    |s| >= 4 && U16(s[2..]) <= |s| - 4
  }

  /** The first message of s: not all there, wrong, or a request and what follows it. */
  datatype First = Waiting | Wrong | Message(req: Request, rest: seq<byte>)

  function FirstOf(s: seq<byte>): (m: First)
    ensures m.Message? ==> |m.rest| < |s|
    ensures m.Waiting? <==> !Complete(s)
  {
    if !Complete(s) then Waiting
    else
      match ParseBody(U16(s), U16(s[2..]), s[4..])
      case Bad => Wrong
      case Good(req, taken) => Message(req, s[4 + taken..])
  }

  /** What comes of the bytes s when k requests have been handled before. */
  function Frames(s: seq<byte>, k: nat, ok: Answers): (f: Framed)
    decreases |s|
  {
    match FirstOf(s)
    case Waiting => Framed([], s, true)
    case Wrong => Framed([], [], false)
    case Message(req, rest) =>
      if !ok(k) then Framed([req], [], false)
      else
        var f := Frames(rest, k + 1, ok);
        Framed([req] + f.requests, f.rest, f.alive)
  }

  // ---------------------------------------------------------------- what a handler hears

  /** What lies in memory behind the path of the k-th request: the rest of a buffer of 256
      bytes that is not initialised, and whatever follows it. */
  type Rooms = nat -> seq<byte>

  /** A request as its handler reads it: the path is a C string, and nothing but a NUL of
      its own ends it. */
  function Heard(r: Request, room: seq<byte>): Request {
    match r
    case OpenDevice(path) => OpenDevice(CString(path + room))
    case _ => r
  }

  function HeardAll(rs: seq<Request>, k: nat, rooms: Rooms): (hs: seq<Request>)
    ensures |hs| == |rs|
  {
    if rs == [] then [] else [Heard(rs[0], rooms(k))] + HeardAll(rs[1..], k + 1, rooms)
  }

  predicate Terminated(r: Request) {
    r.OpenDevice? ==> 0 in r.path
  }

  predicate AllTerminated(rs: seq<Request>) {
    rs == [] || (Terminated(rs[0]) && AllTerminated(rs[1..]))
  }

  /** What a request says by itself. */
  function Meant(r: Request): Request {
    Heard(r, [])
  }

  function MeantAll(rs: seq<Request>): seq<Request> {
    if rs == [] then [] else [Meant(rs[0])] + MeantAll(rs[1..])
  }

  lemma {:induction false} StringEnds(path: seq<byte>, room: seq<byte>)
    ensures CString(path + room) == if 0 in path then CString(path) else path + CString(room)
  {
    if path == [] {
      assert path + room == room;
    } else {
      assert (path + room)[1..] == path[1..] + room;
      assert path == [path[0]] + path[1..];
      StringEnds(path[1..], room);
    }
  }

  /** A path without a NUL is read on into the room; one that fills the buffer, past it. */
  lemma PathRunsOn(path: seq<byte>, room: seq<byte>)
    requires 0 !in path
    ensures Heard(OpenDevice(path), room) == OpenDevice(path + CString(room))
    ensures |path| == MAX_PATH_LEN ==> |Heard(OpenDevice(path), room).path| >= MAX_PATH_LEN
  {
    StringEnds(path, room);
  }

  lemma TerminatedIsMeant(r: Request, room: seq<byte>)
    requires Terminated(r)
    ensures Heard(r, room) == Meant(r)
  {
    hide CString;
    if r.OpenDevice? {
      StringEnds(r.path, room);
      StringEnds(r.path, []);
    }
  }

  lemma OtherIsNot(r: Request)
    requires !Terminated(r)
    ensures Heard(r, [0]) == Meant(r) && Heard(r, [1, 0]) != Meant(r)
  {
    ShortStrings();
    hide CString;
    StringEnds(r.path, [0]);
    StringEnds(r.path, [1, 0]);
    StringEnds(r.path, []);
  }

  lemma ShortStrings()
    ensures CString([]) == [] && CString([0]) == [] && CString([1, 0]) == [1] && CString([98, 0]) == [98]
  {
    assert [1, 0][1..] == [0] && [98, 0][1..] == [0];
  }

  lemma {:induction false} TerminatedAreMeant(rs: seq<Request>, k: nat, rooms: Rooms)
    requires AllTerminated(rs)
    ensures HeardAll(rs, k, rooms) == MeantAll(rs)
    decreases |rs|
  {
    hide Heard, Meant, Terminated;
    if rs != [] {
      TerminatedIsMeant(rs[0], rooms(k));
      TerminatedAreMeant(rs[1..], k + 1, rooms);
    }
  }

  /** Room for a C string that is not empty behind every path. */
  function Filled(k: nat): seq<byte> { [1, 0] }

  lemma {:induction false} OthersAreNot(rs: seq<Request>, k: nat)
    requires !AllTerminated(rs)
    ensures HeardAll(rs, k, Filled) != MeantAll(rs)
    decreases |rs|
  {
    hide Heard, Meant, Terminated;
    if Terminated(rs[0]) {
      OthersAreNot(rs[1..], k + 1);
      assert HeardAll(rs, k, Filled)[1..] == HeardAll(rs[1..], k + 1, Filled);
      assert MeantAll(rs)[1..] == MeantAll(rs[1..]);
    } else {
      OtherIsNot(rs[0]);
      assert HeardAll(rs, k, Filled)[0] == Heard(rs[0], [1, 0]);
      assert MeantAll(rs)[0] == Meant(rs[0]);
    }
  }

  /** What handlers read is what the bytes say, whatever lies in memory behind them,
      exactly when every path holds a NUL. */
  lemma HeardIffTerminated(rs: seq<Request>, k: nat)
    ensures (forall rooms: Rooms :: HeardAll(rs, k, rooms) == MeantAll(rs)) <==> AllTerminated(rs)
  {
    if AllTerminated(rs) {
      forall rooms: Rooms ensures HeardAll(rs, k, rooms) == MeantAll(rs) { TerminatedAreMeant(rs, k, rooms); }
    } else {
      OthersAreNot(rs, k);
      var rooms: Rooms := Filled;
      assert HeardAll(rs, k, rooms) != MeantAll(rs);
    }
  }

  lemma ShortPathFirst()
    ensures FirstOf([3, 0, 3, 0, 1, 0, 97]) == Message(OpenDevice([97]), [])
  {
    var s: seq<byte> := [3, 0, 3, 0, 1, 0, 97];
    assert s[2..] == [3, 0, 1, 0, 97] && s[4..] == [1, 0, 97] && s[4..][2..3] == [97] && s[4 + 3..] == [];
  }

  /** A path of one letter and no NUL: the device opened depends on the byte behind it. */
  lemma PathWithoutEnd()
    ensures var s: seq<byte> := [3, 0, 3, 0, 1, 0, 97];
      && Frames(s, 0, _ => true) == Framed([OpenDevice([97])], [], true)
      && Heard(OpenDevice([97]), [0]) == OpenDevice([97])
      && Heard(OpenDevice([97]), [98, 0]) == OpenDevice([97, 98])
  {
    ShortPathFirst();
    hide FirstOf;
    ShortStrings();
    hide CString;
    PathRunsOn([97], [0]);
    PathRunsOn([97], [98, 0]);
  }

  lemma {:induction false} HeardSnoc(rs: seq<Request>, r: Request, k: nat, rooms: Rooms)
    ensures HeardAll(rs + [r], k, rooms) == HeardAll(rs, k, rooms) + [Heard(r, rooms(k + |rs|))]
    decreases |rs|
  {
    hide Heard;
    if rs == [] {
      assert rs + [r] == [r] && [r][1..] == [];
    } else {
      assert (rs + [r])[1..] == rs[1..] + [r];
      HeardSnoc(rs[1..], r, k + 1, rooms);
    }
  }

  // ---------------------------------------------------------------- chunking

  lemma BodyIgnoresLater(opcode: nat, size: nat, s: seq<byte>, t: seq<byte>)
    requires size <= |s|
    ensures ParseBody(opcode, size, s + t) == ParseBody(opcode, size, s)
  {
    hide ToSigned, FromLittleEndian;
    if size >= 4 { assert (s + t)[..4] == s[..4]; }
    if size >= 2 && 2 + U16(s) <= size { assert (s + t)[2..2 + U16(s)] == s[2..2 + U16(s)]; }
  }

  lemma FirstIgnoresLater(s: seq<byte>, t: seq<byte>)
    requires Complete(s)
    ensures FirstOf(s + t) == match FirstOf(s) case Message(req, rest) => Message(req, rest + t) case m => m
  {
    hide ParseBody;
    assert (s + t)[2..] == s[2..] + t;
    assert (s + t)[4..] == s[4..] + t;
    BodyIgnoresLater(U16(s), U16(s[2..]), s[4..], t);
    var body := ParseBody(U16(s), U16(s[2..]), s[4..]);
    if body.Good? { assert (s + t)[4 + body.taken..] == s[4 + body.taken..] + t; }
  }

  lemma Regroup(a: seq<Request>, b: seq<Request>, c: seq<Request>)
    ensures (a + b) + c == a + (b + c)
  {
  }

  /** Handling what came so far and then the rest is handling it all at once. */
  lemma {:induction false} FramesSplit(s: seq<byte>, t: seq<byte>, k: nat, ok: Answers)
    ensures var f := Frames(s, k, ok);
      Frames(s + t, k, ok) ==
        if !f.alive then f
        else
          var g := Frames(f.rest + t, k + |f.requests|, ok);
          Framed(f.requests + g.requests, g.rest, g.alive)
    decreases |s|
  {
    hide FirstOf, Complete;
    if Complete(s) {
      FirstIgnoresLater(s, t);
      var m := FirstOf(s);
      if m.Message? && ok(k) {
        FramesSplit(m.rest, t, k + 1, ok);
        var f := Frames(m.rest, k + 1, ok);
        if f.alive {
          Regroup([m.req], f.requests, Frames(f.rest + t, k + 1 + |f.requests|, ok).requests);
        }
      }
    }
  }

  function Flatten(chunks: seq<seq<byte>>): seq<byte> {
    if chunks == [] then [] else chunks[0] + Flatten(chunks[1..])
  }

  /** The requests handled when bytes arrive in these chunks after some left over. */
  function HandleChunks(pending: seq<byte>, chunks: seq<seq<byte>>, k: nat, ok: Answers): Framed
    decreases |chunks|
  {
    if chunks == [] then Framed([], pending, true)
    else
      var f := Frames(pending + chunks[0], k, ok);
      if !f.alive then f
      else
        var g := HandleChunks(f.rest, chunks[1..], k + |f.requests|, ok);
        Framed(f.requests + g.requests, g.rest, g.alive)
  }

  lemma {:induction false} ChunkingDoesNotMatter(pending: seq<byte>, chunks: seq<seq<byte>>, k: nat, ok: Answers)
    requires !Complete(pending)
    ensures HandleChunks(pending, chunks, k, ok) == Frames(pending + Flatten(chunks), k, ok)
    decreases |chunks|
  {
    hide Complete, FirstOf, Frames;
    if chunks == [] {
      assert pending + Flatten(chunks) == pending;
      NothingComplete(pending, k, ok);
    } else {
      var f := Frames(pending + chunks[0], k, ok);
      assert pending + Flatten(chunks) == (pending + chunks[0]) + Flatten(chunks[1..]);
      FramesSplit(pending + chunks[0], Flatten(chunks[1..]), k, ok);
      if f.alive {
        RestIncomplete(pending + chunks[0], k, ok);
        ChunkingDoesNotMatter(f.rest, chunks[1..], k + |f.requests|, ok);
      }
    }
  }

  lemma NothingComplete(s: seq<byte>, k: nat, ok: Answers)
    requires !Complete(s)
    ensures Frames(s, k, ok) == Framed([], s, true)
  {
  }

  lemma {:induction false} RestIncomplete(s: seq<byte>, k: nat, ok: Answers)
    ensures Frames(s, k, ok).alive ==> !Complete(Frames(s, k, ok).rest)
    decreases |s|
  {
    hide FirstOf, Complete;
    if FirstOf(s).Message? && ok(k) { RestIncomplete(FirstOf(s).rest, k + 1, ok); }
  }

  /** A full ring that no request can be taken from: exactly when its first header
      declares more payload than fits beside it. Nothing else keeps a ring full. */
  lemma FullRingStaysFullIff(s: seq<byte>, k: nat, ok: Answers)
    requires |s| == 256
    ensures Frames(s, k, ok) == Framed([], s, true) <==> U16(s[2..]) > 252
  {
    hide FirstOf;
    if FirstOf(s).Message? && ok(k) { assert Frames(s, k, ok).requests != []; }
  }

  /** A ping that declares 253 bytes, and 252 of them. */
  lemma RingFullForGood(k: nat, ok: Answers)
    ensures var s: seq<byte> := [7, 0, 253, 0] + seq(252, _ => 0);
      |s| == 256 && Frames(s, k, ok) == Framed([], s, true)
  {
    var s: seq<byte> := [7, 0, 253, 0] + seq(252, _ => 0);
    assert s[2] == 253 && s[3] == 0;
    FullRingStaysFullIff(s, k, ok);
  }

  /** With every header declaring at most 252 bytes, what is left over never fills the
      ring, whatever arrived. */
  lemma LeftoverFits(s: seq<byte>, k: nat, ok: Answers)
    ensures var f := Frames(s, k, ok);
      f.alive && |f.rest| >= 4 && U16(f.rest[2..]) <= 252 ==> |f.rest| < 256
  {
    RestIncomplete(s, k, ok);
  }

  // ---------------------------------------------------------------- encoding

  predicate Sendable(r: Request) {
    r.OpenDevice? ==> |r.path| <= MAX_PATH_LEN
  }

  function Put16(n: nat): (s: seq<byte>)
    requires n < 0x1_0000
    ensures |s| == 2
  {
    [n % 256, n / 256]
  }

  function Put32(i: int32): (s: seq<byte>)
    ensures |s| == 4
  {
    LittleEndian(ToUnsigned(i, UINT32_SPAN), 4)
  }

  function Opcode(r: Request): nat {
    match r
    case OpenSeat => 1
    case CloseSeat => 2
    case OpenDevice(_) => 3
    case CloseDevice(_) => 4
    case DisableSeat => 5
    case SwitchSession(_) => 6
    case Ping => 7
  }

  function Payload(r: Request): (s: seq<byte>)
    requires Sendable(r)
  {
    match r
    case OpenDevice(path) => Put16(|path|) + path
    case CloseDevice(device) => Put32(device)
    case SwitchSession(session) => Put32(session)
    case _ => []
  }

  function Encode(r: Request): (s: seq<byte>)
    requires Sendable(r)
  {
    Put16(Opcode(r)) + Put16(|Payload(r)|) + Payload(r)
  }

  predicate AllSendable(rs: seq<Request>) {
    rs == [] || (Sendable(rs[0]) && AllSendable(rs[1..]))
  }

  function EncodeAll(rs: seq<Request>): seq<byte>
    requires AllSendable(rs)
  {
    if rs == [] then [] else Encode(rs[0]) + EncodeAll(rs[1..])
  }

  lemma IntRoundTrip(i: int32, after: seq<byte>)
    ensures I32(Put32(i) + after) == i
  {
    Pow256Values();
    LittleEndianRoundTrip(ToUnsigned(i, UINT32_SPAN), 4);
    assert (Put32(i) + after)[..4] == Put32(i);
  }

  lemma PutGet16(n: nat, after: seq<byte>)
    requires n < 0x1_0000
    ensures U16(Put16(n) + after) == n
  {
  }

  /** A header, what it announces, and what comes after. */
  lemma HeaderRoundTrip(opcode: nat, body: seq<byte>, after: seq<byte>)
    requires opcode < 0x1_0000 && |body| < 0x1_0000
    ensures var s := Put16(opcode) + Put16(|body|) + body + after;
      && Complete(s) && U16(s) == opcode && U16(s[2..]) == |body| && s[4..] == body + after
  {
    hide U16, Put16;
    var s := Put16(opcode) + Put16(|body|) + body + after;
    assert s == Put16(opcode) + (Put16(|body|) + body + after);
    PutGet16(opcode, Put16(|body|) + body + after);
    assert s[2..] == Put16(|body|) + (body + after);
    PutGet16(|body|, body + after);
  }

  lemma BodyRoundTrip(r: Request, after: seq<byte>)
    requires Sendable(r)
    ensures var s := Encode(r) + after;
      && |Encode(r)| >= 4 && Complete(s)
      && ParseBody(U16(s), U16(s[2..]), s[4..]) == Good(r, |Encode(r)| - 4)
  {
    hide I32, Put32;
    var s := Encode(r) + after;
    HeaderRoundTrip(Opcode(r), Payload(r), after);
    match r
    case OpenDevice(path) =>
      assert s[4..] == Put16(|path|) + path + after;
      assert s[4..][2..2 + |path|] == path;
    case CloseDevice(device) =>
      assert s[4..] == Put32(device) + after;
      IntRoundTrip(device, after);
    case SwitchSession(session) =>
      assert s[4..] == Put32(session) + after;
      IntRoundTrip(session, after);
    case _ =>
  }

  lemma FirstRoundTrip(r: Request, after: seq<byte>)
    requires Sendable(r)
    ensures FirstOf(Encode(r) + after) == Message(r, after)
  {
    hide Encode, ParseBody, U16;
    BodyRoundTrip(r, after);
    assert (Encode(r) + after)[|Encode(r)|..] == after;
  }

  lemma {:induction false} FramesReadBack(rs: seq<Request>, k: nat, ok: Answers)
    requires AllSendable(rs) && forall n | k <= n < k + |rs| :: ok(n)
    ensures Frames(EncodeAll(rs), k, ok) == Framed(rs, [], true)
    decreases |rs|
  {
    hide Encode, FirstOf;
    if rs != [] {
      FirstRoundTrip(rs[0], EncodeAll(rs[1..]));
      FramesReadBack(rs[1..], k + 1, ok);
      assert rs == [rs[0]] + rs[1..];
    }
  }

  /** Requests sent one after the other are the requests handled; and their handlers hear
      what was meant, whatever lies in memory, exactly when every path was sent with its
      NUL. */
  lemma FramesInvertEncode(rs: seq<Request>, k: nat, ok: Answers)
    requires AllSendable(rs) && forall n | k <= n < k + |rs| :: ok(n)
    ensures Frames(EncodeAll(rs), k, ok) == Framed(rs, [], true)
    ensures (forall rooms: Rooms :: HeardAll(Frames(EncodeAll(rs), k, ok).requests, k, rooms) == MeantAll(rs)) <==>
      AllTerminated(rs)
  {
    FramesReadBack(rs, k, ok);
    HeardIffTerminated(rs, k);
  }

  // ---------------------------------------------------------------- what is accepted

  lemma {:induction false} BytesAgain(s: seq<byte>)
    ensures LittleEndian(FromLittleEndian(s), |s|) == s
  {
    if s != [] {
      BytesAgain(s[1..]);
      assert s == [s[0]] + s[1..];
      Digit(s[0], FromLittleEndian(s[1..]));
    }
  }

  lemma Digit(b: nat, n: nat)
    requires b < 256
    ensures (b + 256 * n) % 256 == b && (b + 256 * n) / 256 == n
  {
  }

  lemma IntAgain(s: seq<byte>)
    requires |s| >= 4
    ensures Put32(I32(s)) == s[..4]
  {
    Pow256Values();
    FromLittleEndianBound(s[..4]);
    BytesAgain(s[..4]);
  }

  lemma ShortAgain(s: seq<byte>)
    requires |s| >= 2
    ensures Put16(U16(s)) == s[..2]
  {
    Digit(s[0], s[1]);
  }

  /** What a header announces and the bytes behind it are accepted as a request exactly if
      they begin with what a client sends for it, in what was announced; and what carries
      nothing was announced with nothing. */
  lemma AcceptedIff(opcode: nat, size: nat, s: seq<byte>, r: Request, taken: nat)
    requires size <= |s|
    ensures ParseBody(opcode, size, s) == Good(r, taken) <==>
      && Sendable(r) && opcode == Opcode(r)
      && taken == |Payload(r)| <= size && Payload(r) == s[..taken]
      && (taken == 0 ==> size == 0)
  {
    if ParseBody(opcode, size, s) == Good(r, taken) {
      AcceptedIsSent(opcode, size, s, r, taken);
    } else if Sendable(r) && opcode == Opcode(r) && taken == |Payload(r)| <= size && Payload(r) == s[..taken]
      && (taken == 0 ==> size == 0) {
      SentIsAccepted(size, s, r);
      assert false;
    }
  }

  lemma AcceptedIsSent(opcode: nat, size: nat, s: seq<byte>, r: Request, taken: nat)
    requires size <= |s| && ParseBody(opcode, size, s) == Good(r, taken)
    ensures Sendable(r) && opcode == Opcode(r)
    ensures taken == |Payload(r)| <= size && Payload(r) == s[..taken] && (taken == 0 ==> size == 0)
  {
    hide I32, Put32;
    match r
    case OpenDevice(path) =>
      ShortAgain(s);
      assert s[..2] + s[2..2 + U16(s)] == s[..2 + U16(s)];
    case CloseDevice(_) => IntAgain(s);
    case SwitchSession(_) => IntAgain(s);
    case _ =>
  }

  lemma SentIsAccepted(size: nat, s: seq<byte>, r: Request)
    requires size <= |s| && Sendable(r) && |Payload(r)| <= size && Payload(r) == s[..|Payload(r)|]
    requires Payload(r) == [] ==> size == 0
    ensures ParseBody(Opcode(r), size, s) == Good(r, |Payload(r)|)
  {
    hide I32, Put32;
    assert s == Payload(r) + s[|Payload(r)|..];
    match r
    case OpenDevice(path) =>
      PutGet16(|path|, path + s[2 + |path|..]);
      assert s == Put16(|path|) + (path + s[2 + |path|..]);
      assert s[2..2 + |path|] == path;
    case CloseDevice(device) => IntRoundTrip(device, s[4..]);
    case SwitchSession(session) => IntRoundTrip(session, s[4..]);
    case _ =>
  }

  /** The requests as they are on the wire. */
  lemma OnTheWire()
    ensures Encode(OpenSeat) == [1, 0, 0, 0] && Encode(CloseSeat) == [2, 0, 0, 0]
    ensures Encode(OpenDevice([47, 0])) == [3, 0, 4, 0, 2, 0, 47, 0]
    ensures Encode(CloseDevice(258)) == [4, 0, 4, 0, 2, 1, 0, 0]
    ensures Encode(DisableSeat) == [5, 0, 0, 0]
    ensures Encode(SwitchSession(3)) == [6, 0, 4, 0, 3, 0, 0, 0] && Encode(Ping) == [7, 0, 0, 0]
  {
    SmallBytes(258, 2, 1);
    SmallBytes(3, 3, 0);
  }

  lemma SmallBytes(n: nat, low: byte, high: byte)
    requires n == low + 256 * high
    ensures LittleEndian(n, 4) == [low, high, 0, 0]
  {
    Digit(low, high);
    assert n / 256 == high && high / 256 == 0;
    assert LittleEndian(0, 2) == [0, 0];
    assert LittleEndian(high, 3) == [high] + LittleEndian(0, 2);
  }

  /** A longer message than its request needs leaves its surplus to be taken for the next
      header. */
  lemma SurplusIsTheNextHeader(r: Request, surplus: seq<byte>, after: seq<byte>)
    requires Sendable(r) && Payload(r) != [] && |Payload(r)| + |surplus| < 0x1_0000
    ensures var body := Payload(r) + surplus;
      FirstOf(Put16(Opcode(r)) + Put16(|body|) + body + after) == Message(r, surplus + after)
  {
    hide Payload, ParseBody, U16, Put16;
    var body := Payload(r) + surplus;
    var s := Put16(Opcode(r)) + Put16(|body|) + body + after;
    HeaderRoundTrip(Opcode(r), body, after);
    assert (body + after)[..|Payload(r)|] == Payload(r);
    AcceptedIff(Opcode(r), |body|, body + after, r, |Payload(r)|);
    assert s[4 + |Payload(r)|..] == s[4..][|Payload(r)|..] == surplus + after;
  }

  // ---------------------------------------------------------------- the daemon's side

  datatype Mask = Mask(error: bool, hangup: bool, writable: bool, readable: bool)

  /** Whether an event makes the daemon send. */
  predicate Flushes(mask: Mask, wanted: bool) {
    !mask.error && !mask.hangup && mask.writable && wanted
  }

  /** How that ends for n queued bytes. */
  function FlushEnds(mask: Mask, wanted: bool, sends: seq<Send>, n: nat): FlushResult {
    if Flushes(mask, wanted) then Drain(sends, n) else Flushed
  }

  /** Whether it reads after that. */
  predicate Reads(mask: Mask, flush: FlushResult) {
    !mask.error && !mask.hangup && !flush.SendFailed? && mask.readable
  }

  /** A client connection as the daemon serves it. */
  class Session {
    const conn: Conn
    const ok: Answers
    const rooms: Rooms
    var requests: seq<Request>     // handled so far
    var heard: seq<Request>        // ... as their handlers read them
    var alive: bool
    ghost var received: seq<byte>  // everything read so far

    constructor (ok: Answers, rooms: Rooms)
      ensures Valid() && alive && requests == [] && received == []
      ensures fresh(Repr()) && this.ok == ok && this.rooms == rooms
    {
      conn := new Conn();
      this.ok, this.rooms := ok, rooms;
      requests, heard, alive, received := [], [], true, [];
    }

    ghost function Repr(): set<object>
      reads this
    {
      {this, conn, conn.input, conn.output, conn.input.data, conn.output.data}
    }

    /** Handlers read their requests as C strings end in memory. */
    ghost predicate HeardRight()
      reads this
    {
      heard == HeardAll(requests, 0, rooms)
    }

    /** What was handled is a function of what was received. */
    ghost predicate Valid()
      reads this, Repr()
    {
      && conn.Valid() && HeardRight()
      && Frames(received, 0, ok).requests == requests
      && (alive ==> Frames(received, 0, ok) == Framed(requests, conn.Incoming(), true))
    }

    /** Takes the path of an open_device off the ring, into a buffer with room behind it,
        which its handler reads as a C string. */
    method TakePath(size: nat, room: seq<byte>) returns (b: Body, said: Request)
      requires conn.Valid() && size <= |conn.Incoming()|
      modifies conn.input`tail, conn.input`taken
      ensures conn.Valid() && b == ParseBody(3, size, old(conn.Incoming()))
      ensures b.Good? ==> said == Heard(b.req, room)
      ensures b.Good? ==> conn.Incoming() == old(conn.Incoming())[b.taken..]
    {
      hide I32, CString;
      said := Ping;
      ghost var s := conn.Incoming();
      if size < 2 { return Bad, said; }
      var got, len := conn.Get(2);
      assert got && U16(len) == U16(s);
      var n := U16(len);
      if 2 + n > size || n > MAX_PATH_LEN { return Bad, said; }
      var path;
      got, path := conn.Get(n);
      assert got && path == s[2..2 + n];
      assert conn.Incoming() == s[2 + n..];
      b, said := Good(OpenDevice(path), 2 + n), OpenDevice(CString(path + room));
    }

    /** Takes a request off the ring; a get cannot fail. */
    method TakeBody(opcode: nat, size: nat, room: seq<byte>) returns (b: Body, said: Request)
      requires conn.Valid() && size <= |conn.Incoming()|
      modifies conn.input`tail, conn.input`taken
      ensures conn.Valid() && b == ParseBody(opcode, size, old(conn.Incoming()))
      ensures b.Good? ==> said == Heard(b.req, room)
      ensures b.Good? ==> conn.Incoming() == old(conn.Incoming())[b.taken..]
    {
      hide I32, CString;
      said := Ping;
      ghost var s := conn.Incoming();
      match opcode
      case 3 =>
        b, said := TakePath(size, room);
      case 4 =>
        if size < 4 { return Bad, said; }
        var got, id := conn.Get(4);
        assert got;
        SameInt(id, s);
        said := CloseDevice(I32(id));
        b := Good(said, 4);
      case 6 =>
        if size < 4 { return Bad, said; }
        var got, session := conn.Get(4);
        assert got;
        SameInt(session, s);
        said := SwitchSession(I32(session));
        b := Good(said, 4);
      case _ =>
        assert s[0..] == s;
        if size != 0 || opcode !in {1, 2, 5, 7} { return Bad, said; }
        said := match opcode case 1 => OpenSeat case 2 => CloseSeat case 5 => DisableSeat case _ => Ping;
        b := Good(said, 0);
    }

    /** Handles the message whose header has just been taken off the ring. */
    method HandleOpcode(opcode: nat, size: nat, ghost s: seq<byte>) returns (handled: bool)
      requires conn.Valid() && |s| >= 4 && s[4..] == conn.Incoming() && size <= |conn.Incoming()|
      requires opcode == U16(s) && size == U16(s[2..]) && HeardRight()
      modifies this`requests, this`heard, conn.input`tail, conn.input`taken
      ensures conn.Valid() && !FirstOf(s).Waiting? && HeardRight()
      ensures FirstOf(s).Wrong? ==> !handled && requests == old(requests)
      ensures FirstOf(s).Message? ==> requests == old(requests) + [FirstOf(s).req]
      ensures FirstOf(s).Message? ==> handled == ok(|old(requests)|) && conn.Incoming() == FirstOf(s).rest
    {
      hide FirstOf, U16, ParseBody, Heard;
      FirstByHeader(s, opcode, size);
      var b, said := TakeBody(opcode, size, rooms(|requests|));
      if b.Bad? { return false; }
      assert s[4..][b.taken..] == s[4 + b.taken..];
      HeardSnoc(requests, b.req, 0, rooms);
      handled := ok(|requests|);
      requests, heard := requests + [b.req], heard + [said];
    }

    method GetHeader() returns (got: bool, header: seq<byte>)
      requires conn.Valid()
      modifies conn.input`tail, conn.input`taken
      ensures conn.Valid() && got == (|old(conn.Incoming())| >= 4)
      ensures got ==> Peeked(header, old(conn.Incoming())) && conn.Incoming() == old(conn.Incoming())[4..]
      ensures got ==> header == old(conn.Incoming())[..4]
      ensures !got ==> conn.Incoming() == old(conn.Incoming())
    {
      got, header := conn.Get(4);
    }

    method PutBack(header: seq<byte>, ghost s: seq<byte>)
      requires conn.Valid() && Peeked(header, s)
      modifies conn.input`tail, conn.input`taken
      ensures conn.Valid() && conn.Incoming() == s
    {
      conn.Restore(4);
    }

    /** Handles the message behind a header that was just taken off, or puts the header
        back if the message is not there yet. */
    method HandleFirst(header: seq<byte>, ghost s: seq<byte>) returns (more: bool, failed: bool)
      requires conn.Valid() && |s| >= 4
      requires Peeked(header, s) && header == s[..4] && conn.Incoming() == s[4..] && HeardRight()
      modifies this`requests, this`heard, conn.input`tail, conn.input`taken
      ensures HeardRight()
      ensures conn.Valid() && more == (FirstOf(s).Message? && ok(|old(requests)|))
      ensures FirstOf(s).Waiting? ==> !failed && conn.Incoming() == s && requests == old(requests)
      ensures FirstOf(s).Wrong? ==> failed && requests == old(requests)
      ensures FirstOf(s).Message? ==> failed == !more && requests == old(requests) + [FirstOf(s).req]
      ensures more ==> conn.Incoming() == FirstOf(s).rest
    {
      hide FirstOf, U16, Peeked, HeardRight, Ring.Valid, Ring.Contents;
      SameShort(s, header);
      FirstByHeader(s, U16(header), U16(header[2..]));
      var pending := conn.Pending();
      if pending < U16(header[2..]) {
        PutBack(header, s);
        return false, false;
      }
      more := HandleOpcode(U16(header), U16(header[2..]), s);
      failed := !more;
    }

    /** Handles every whole message in the ring. */
    method HandlePending() returns (failed: bool)
      requires conn.Valid() && alive && HeardRight()
      modifies this`requests, this`heard, conn.input`tail, conn.input`taken
      ensures conn.Valid() && HeardRight()
      ensures Handled(old(conn.Incoming()), old(requests), requests, failed)
      ensures !failed ==> conn.Incoming() == Frames(old(conn.Incoming()), |old(requests)|, ok).rest
    {
      hide FirstOf, U16, Complete, Peeked, HeardRight, Conn.Valid, Conn.Incoming, Ring.Valid, Ring.Contents, Frames,
        Continues;
      ghost var s, before := conn.Incoming(), requests;
      ghost var all := Frames(s, |requests|, ok);
      Starts(before, all);
      var got, header := GetHeader();
      while got
        invariant conn.Valid() && HeardRight()
        invariant got == (|s| >= 4)
        invariant got ==> Peeked(header, s) && header == s[..4] && conn.Incoming() == s[4..]
        invariant !got ==> conn.Incoming() == s
        invariant Continues(before, all, requests, Frames(s, |requests|, ok))
        decreases |s|
      {
        ContinuesFirst(before, all, requests, s, ok);
        var more;
        more, failed := HandleFirst(header, s);
        if !more { return; }
        s := FirstOf(s).rest;
        got, header := GetHeader();
      }
      TooShort(s);
      ContinuesFirst(before, all, requests, s, ok);
      failed := false;
    }

    /** What a client lives on after: no overflow, a receive that is not broken, a ring that
        is not empty after something was received, and only requests that are handled. */
    ghost predicate LivesOn(was: seq<byte>, more: seq<byte>, recv: Recv, k: nat) {
      && |was| < 256
      && match recv
         case RecvBroken => false
         case RecvAgain => true
         case Got(_) => was + more != [] && Frames(was + more, k, ok).alive
    }

    /** Reads once and handles what is then complete. */
    method ReadAndHandle(wire: seq<byte>, recv: Recv) returns (n: nat)
      requires Valid() && alive
      modifies this`requests, this`heard, this`alive, this`received, conn.input, conn.input.data
      ensures Valid() && n <= |wire| && received == old(received) + wire[..n]
      ensures n == if recv.Got? then Least(recv.n, |wire|, 256 - |old(conn.Incoming())|) else 0
      ensures alive == LivesOn(old(conn.Incoming()), wire[..n], recv, |old(requests)|)
      ensures conn.Outgoing() == old(conn.Outgoing()) && conn.wantFlush == old(conn.wantFlush)
      ensures |old(conn.Incoming())| == 256 ==> !alive && U16(old(conn.Incoming())[2..]) > 252
    {
      hide Frames, FirstOf, U16, Complete;
      ghost var was := conn.Incoming();
      if |was| == 256 { LeftoverFits(received, 0, ok); }
      var r;
      r, n := conn.Read(wire, recv);
      FramesSplit(received, wire[..n], 0, ok);
      received := received + wire[..n];
      assert was + wire[..0] == was;
      if r.ReadFailed? || (r.Holding? && r.size == 0) {
        alive := false;
        RestIncomplete(old(received), 0, ok);
        NothingComplete(was, |requests|, ok);
        return;
      }
      if recv.RecvAgain? {
        RestIncomplete(old(received), 0, ok);
        NothingComplete(was, |requests|, ok);
      }
      var failed := HandlePending();
      if failed { alive := false; }
    }

    /** One turn of the event loop for this client. */
    method HandleConnection(mask: Mask, sends: seq<Send>, wire: seq<byte>, recv: Recv) returns (n: nat, sent: seq<byte>)
      requires Valid() && alive
      modifies Repr()
      ensures Valid() && n <= |wire| && received == old(received) + wire[..n]
      ensures sent + conn.Outgoing() == old(conn.Outgoing())
      ensures |sent| == if Flushes(mask, old(conn.wantFlush)) then SentBy(sends, |old(conn.Outgoing())|) else 0
      ensures !Reads(mask, FlushEnds(mask, old(conn.wantFlush), sends, |old(conn.Outgoing())|)) ==>
        n == 0 && requests == old(requests) && heard == old(heard)
        && alive == !(mask.error || mask.hangup
          || FlushEnds(mask, old(conn.wantFlush), sends, |old(conn.Outgoing())|).SendFailed?)
      ensures Reads(mask, FlushEnds(mask, old(conn.wantFlush), sends, |old(conn.Outgoing())|)) ==>
        && n == (if recv.Got? then Least(recv.n, |wire|, 256 - |old(conn.Incoming())|) else 0)
        && alive == LivesOn(old(conn.Incoming()), wire[..n], recv, |old(requests)|)
    {
      hide Frames, U16;
      n, sent := 0, [];
      assert received + wire[..0] == received;
      if mask.error || mask.hangup {
        alive := false;
        return;
      }
      if mask.writable {
        var flush;
        flush, sent := conn.Flush(sends);
        if flush.SendFailed? {
          alive := false;
          return;
        }
      }
      if mask.readable { n := ReadAndHandle(wire, recv); }
    }

    ghost predicate Handled(s: seq<byte>, before: seq<Request>, now: seq<Request>, failed: bool) {
      now == before + Frames(s, |before|, ok).requests && failed == !Frames(s, |before|, ok).alive
    }

    /** The four bytes of the header have just been taken off the ring. */
    ghost predicate Peeked(header: seq<byte>, s: seq<byte>)
      reads conn, conn.input, conn.output, conn.input.data, conn.output.data
    {
      && conn.Valid() && |header| == 4 && s == header + conn.Incoming()
      && conn.input.intact + 4 <= conn.input.taken
      && conn.input.stream[conn.input.taken - 4..conn.input.taken] == header
    }
  }

  /** The requests handled so far and those still to come are all there will be. */
  ghost predicate Continues(before: seq<Request>, all: Framed, now: seq<Request>, f: Framed) {
    before + all.requests == now + f.requests && all.rest == f.rest && all.alive == f.alive
  }

  lemma Starts(before: seq<Request>, all: Framed)
    ensures Continues(before, all, before, all)
  {
  }

  lemma FramesByFirst(s: seq<byte>, k: nat, ok: Answers)
    ensures var m, f := FirstOf(s), Frames(s, k, ok);
      if m.Waiting? then f == Framed([], s, true)
      else if m.Wrong? then f == Framed([], [], false)
      else if !ok(k) then f == Framed([m.req], [], false)
      else
        var g := Frames(m.rest, k + 1, ok);
        f == Framed([m.req] + g.requests, g.rest, g.alive)
  {
    hide FirstOf;
  }

  /** What the first message says about all there will be. */
  lemma ContinuesFirst(before: seq<Request>, all: Framed, now: seq<Request>, s: seq<byte>, ok: Answers)
    requires Continues(before, all, now, Frames(s, |now|, ok))
    ensures var m := FirstOf(s);
      if m.Waiting? then before + all.requests == now && all.rest == s && all.alive
      else if m.Wrong? then before + all.requests == now && !all.alive
      else if ok(|now|) then Continues(before, all, now + [m.req], Frames(m.rest, |now| + 1, ok))
      else before + all.requests == now + [m.req] && !all.alive
  {
    hide FirstOf, Frames;
    var m := FirstOf(s);
    FramesByFirst(s, |now|, ok);
    if m.Message? && ok(|now|) {
      var f := Frames(m.rest, |now| + 1, ok);
      assert now + ([m.req] + f.requests) == (now + [m.req]) + f.requests;
    } else if !m.Message? {
      assert now + [] == now;
    }
  }

  lemma TooShort(s: seq<byte>)
    requires |s| < 4
    ensures FirstOf(s) == Waiting
  {
  }

  lemma FirstByHeader(s: seq<byte>, opcode: nat, size: nat)
    requires |s| >= 4 && opcode == U16(s) && size == U16(s[2..])
    ensures |s| - 4 < size <==> FirstOf(s).Waiting?
    ensures |s| - 4 >= size ==>
      FirstOf(s) == match ParseBody(opcode, size, s[4..]) case Bad => Wrong case Good(req, taken) => Message(req,
        s[4 + taken..])
  {
  }

  lemma SameInt(a: seq<byte>, s: seq<byte>)
    requires |s| >= 4 && a == s[..4]
    ensures I32(a) == I32(s)
  {
    assert a[..4] == s[..4];
  }

  lemma SameShort(s: seq<byte>, header: seq<byte>)
    requires |s| >= 4 && |header| == 4 && s[..4] == header
    ensures U16(s) == U16(header) && U16(s[2..]) == U16(header[2..])
  {
    assert s[0] == s[..4][0] && s[1] == s[..4][1] && s[2] == s[..4][2] && s[3] == s[..4][3];
  }
}
