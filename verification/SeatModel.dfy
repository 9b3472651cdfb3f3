/**
 * The seat daemon as a state machine over requests: which client owns the seat, the
 * hand-over from one to the next, and each client's table of open devices. Clients
 * are numbered in the order they connect. What the daemon cannot decide itself is in
 * the environment of each request; what it did is in a log.
 */
module SeatModel {

  datatype Option<T> = None | Some(value: T)

  datatype ClientState = New | Active | PendingDisable | Disabled | Closed

  datatype Kind = Evdev | Drm | Wscons

  datatype Device = Device(id: int, path: string, kind: Kind, refs: nat, active: bool)

  datatype Client = Client(state: ClientState, session: int, seated: bool, devices: seq<Device>)

  /** Opened and ClosedOnce count references to a path; Acquired, Reactivated, Released
      and Gone say when a device is held; the others are the hand-over. */
  datatype Event =
    | Opened(c: nat, path: string)
    | ClosedOnce(c: nat, path: string)
    | Acquired(c: nat, id: int)
    | Reactivated(c: nat, id: int, kind: Kind)
    | Released(c: nat, id: int)
    | Gone(c: nat, id: int)
    | Enable(c: nat, session: int, vt: int)
    | Disable(c: nat)
    | Acked(c: nat)
    | Left(c: nat)

  datatype State = State(
    vtBound: bool,
    curVt: int,
    sessionCnt: nat,
    order: seq<nat>,        // the seat's clients, most recent first
    idle: seq<nat>,         // clients without a seat, most recent first
    active: Option<nat>,
    next: Option<nat>,
    clients: map<nat, Client>,
    born: nat,              // clients connected so far
    log: seq<Event>)

  const MAX_SEAT_DEVICES: nat := 128

  // ---------------------------------------------------------------- environment

  /** Reading the current VT: tty0 may not open, and the query may fail with -1. */
  datatype VtRead = NoTty | CurrentVt(vt: int)

  datatype Resolved = Unresolved | Unsupported | Resolves(path: string, kind: Kind)

  /** What system calls answer while one request is handled. */
  datatype Env = Env(
    vtRead: VtRead,
    vtOpens: bool,          // the terminal of the client being enabled opens
    vtSwitches: bool,
    dropFails: set<int>,    // devices whose drop-master or revoke call fails
    resolved: Resolved,     // what a device path resolves to
    opens: bool,            // the device file opens and memory is there
    dups: bool,
    replies: bool,          // the reply fits the connection
    flushes: bool,          // and the connection can be flushed
    sent: bool)             // an enable or disable event reaches the client

  function CurVtAfter(st: State, env: Env): int {
    match env.vtRead case NoTty => st.curVt case CurrentVt(vt) => vt
  }

  // ---------------------------------------------------------------- devices

  function Log(st: State, e: Event): State {
    st.(log := st.log + [e])
  }

  function SetClient(st: State, c: nat, cl: Client): State {
    st.(clients := st.clients[c := cl])
  }

  function SetDevice(st: State, c: nat, k: nat, d: Device): State
    requires c in st.clients && k < |st.clients[c].devices|
  {
    SetClient(st, c, st.clients[c].(devices := st.clients[c].devices[k := d]))
  }

  /** Only the devices of one client, and the log, differ. */
  ghost predicate OnlyDevices(st: State, r: State, c: nat) {
    && c in st.clients && c in r.clients
    && r == st.(clients := st.clients[c := st.clients[c].(devices := r.clients[c].devices)], log := r.log)
  }

  /** Deactivation of one device; it stays active when the kernel call fails. */
  function DeactivateDevice(st: State, c: nat, k: nat, env: Env): (r: State)
    requires c in st.clients && k < |st.clients[c].devices|
    ensures OnlyDevices(st, r, c) && |r.clients[c].devices| == |st.clients[c].devices|
  {
    var d := st.clients[c].devices[k];
    if !d.active || (d.kind != Wscons && d.id in env.dropFails) then st
    else Log(SetDevice(st, c, k, d.(active := false)), Released(c, d.id))
  }

  /** Activation of one device: a DRM device becomes active again, a revoked evdev
      device cannot, a wscons device needs nothing. */
  function ActivateDevice(st: State, c: nat, k: nat): (r: State)
    requires c in st.clients && k < |st.clients[c].devices|
    ensures OnlyDevices(st, r, c) && |r.clients[c].devices| == |st.clients[c].devices|
  {
    var d := st.clients[c].devices[k];
    if d.active || d.kind != Drm then st
    else Log(SetDevice(st, c, k, d.(active := true)), Reactivated(c, d.id, d.kind))
  }

  /** All devices from index k on, in list order. */
  function DeactivateFrom(st: State, c: nat, k: nat, env: Env): (r: State)
    requires c in st.clients && k <= |st.clients[c].devices|
    ensures OnlyDevices(st, r, c) && |r.clients[c].devices| == |st.clients[c].devices|
    decreases |st.clients[c].devices| - k
  {
    if k == |st.clients[c].devices| then st else DeactivateFrom(DeactivateDevice(st, c, k, env), c, k + 1, env)
  }

  function ActivateFrom(st: State, c: nat, k: nat): (r: State)
    requires c in st.clients && k <= |st.clients[c].devices|
    ensures OnlyDevices(st, r, c) && |r.clients[c].devices| == |st.clients[c].devices|
    decreases |st.clients[c].devices| - k
  {
    if k == |st.clients[c].devices| then st else ActivateFrom(ActivateDevice(st, c, k), c, k + 1)
  }

  /** One reference less; the last one removes the device. */
  function CloseDevice(st: State, c: nat, k: nat, env: Env): (r: State)
    requires c in st.clients && k < |st.clients[c].devices|
    requires st.clients[c].devices[k].refs > 0
    ensures OnlyDevices(st, r, c)
  {
    var devices := st.clients[c].devices;
    var d := devices[k];
    var counted := Log(st, ClosedOnce(c, d.path));
    if d.refs > 1 then SetDevice(counted, c, k, d.(refs := d.refs - 1))
    else
      var off := DeactivateDevice(counted, c, k, env);
      var cl := off.clients[c];
      Log(SetClient(off, c, cl.(devices := devices[..k] + devices[k + 1..])), Gone(c, d.id))
  }

  function SumRefs(devices: seq<Device>): nat {
    if devices == [] then 0 else devices[0].refs + SumRefs(devices[1..])
  }

  predicate RefsPositive(devices: seq<Device>) {
    devices == [] || (devices[0].refs > 0 && RefsPositive(devices[1..]))
  }

  /** Closes the first device until none is left. */
  function CloseAll(st: State, c: nat, env: Env): (r: State)
    requires c in st.clients && RefsPositive(st.clients[c].devices)
    ensures OnlyDevices(st, r, c) && r.clients[c].devices == []
    decreases SumRefs(st.clients[c].devices)
  {
    var devices := st.clients[c].devices;
    if devices == [] then st
    else
      var closed := CloseDevice(st, c, 0, env);
      assert devices[0 := devices[0].(refs := devices[0].refs - 1)][1..] == devices[1..];
      assert devices[..0] + devices[1..] == devices[1..];
      CloseAll(closed, c, env)
  }

  /** The smallest id above every id in use, and the index of a path. */
  function NextId(devices: seq<Device>): (id: int)
    ensures id >= 1
    ensures forall d | d in devices :: d.id < id
  {
    if devices == [] then 1
    else
      var rest := NextId(devices[..|devices| - 1]);
      assert devices == devices[..|devices| - 1] + [devices[|devices| - 1]];
      if devices[|devices| - 1].id >= rest then devices[|devices| - 1].id + 1 else rest
  }

  function FindPath(devices: seq<Device>, path: string): (r: Option<nat>)
    ensures r.Some? ==> r.value < |devices| && devices[r.value].path == path
    ensures r.None? ==> forall d | d in devices :: d.path != path
  {
    if devices == [] then None
    else if devices[0].path == path then Some(0)
    else
      var r := FindPath(devices[1..], path);
      if r.Some? then Some(r.value + 1) else None
  }

  function FindId(devices: seq<Device>, id: int): (r: Option<nat>)
    ensures r.Some? ==> r.value < |devices| && devices[r.value].id == id
    ensures r.None? ==> forall d | d in devices :: d.id != id
  {
    if devices == [] then None
    else if devices[0].id == id then Some(0)
    else
      var r := FindId(devices[1..], id);
      if r.Some? then Some(r.value + 1) else None
  }

  /** A new state and whether the operation succeeded. */
  datatype Outcome = Outcome(st: State, ok: bool)

  /** The device a client opened: its index in the table. */
  datatype OpenOutcome = OpenedAt(st: State, k: nat) | NotOpened

  function OpenDevice(st: State, c: nat, env: Env): (r: OpenOutcome)
    requires c in st.clients
    ensures r.OpenedAt? ==> OnlyDevices(st, r.st, c) && r.k < |r.st.clients[c].devices|
    ensures r.OpenedAt? ==> r.st.clients[c].devices[r.k].refs > 0
  {
    var cl := st.clients[c];
    if cl.state != Active || !env.resolved.Resolves? then NotOpened
    else
      var path, kind := env.resolved.path, env.resolved.kind;
      var k := FindPath(cl.devices, path);
      if k.Some? then
        var d := cl.devices[k.value];
        OpenedAt(Log(SetDevice(st, c, k.value, d.(refs := d.refs + 1)), Opened(c, path)), k.value)
      else if |cl.devices| >= MAX_SEAT_DEVICES || !env.opens then NotOpened
      else
        var d := Device(NextId(cl.devices), path, kind, 1, true);
        OpenedAt(Log(Log(SetClient(st, c, cl.(devices := [d] + cl.devices)), Opened(c, path)), Acquired(c, d.id)), 0)
  }

  // ---------------------------------------------------------------- the seat

  function FindSession(st: State, order: seq<nat>, session: int): (r: Option<nat>)
    requires forall c | c in order :: c in st.clients
    ensures r.Some? ==> r.value in order && st.clients[r.value].session == session
    ensures r.None? ==> forall c | c in order :: st.clients[c].session != session
  {
    if order == [] then None
    else if st.clients[order[0]].session == session then Some(order[0])
    else FindSession(st, order[1..], session)
  }

  /** Makes a client the active one. */
  function OpenClient(st: State, c: nat, env: Env): (r: Outcome)
    requires c in st.clients
    ensures r.st.clients.Keys == st.clients.Keys
  {
    var cl := st.clients[c];
    if cl.state != New && cl.state != Disabled then Outcome(st, false)
    else if st.active.Some? then Outcome(st, false)
    else if st.vtBound && !env.vtOpens then Outcome(st, false)
    else
      var on := ActivateFrom(st, c, 0);
      var enabled := SetClient(on, c, on.clients[c].(state := Active)).(active := Some(c));
      Outcome(Log(enabled, Enable(c, cl.session, st.curVt)), env.sent)
  }

  predicate Known(st: State) {
    && (forall c | c in st.order :: c in st.clients)
    && (st.next.Some? ==> st.next.value in st.clients)
    && (st.active.Some? ==> st.active.value in st.clients)
  }

  /** Picks the client to make active: the queued one, else the one on the current VT,
      else the most recent one. */
  function Activate(st: State, env: Env): (r: Outcome)
    requires Known(st)
    ensures r.st.clients.Keys == st.clients.Keys
  {
    if st.active.Some? then Outcome(st, true)
    else if st.next.Some? then OpenClient(st.(next := None), st.next.value, env)
    else if st.order == [] then Outcome(st, false)
    else if st.vtBound && st.curVt == -1 then Outcome(st, false)
    else if st.vtBound then
      var c := FindSession(st, st.order, st.curVt);
      if c.Some? then OpenClient(st, c.value, env) else Outcome(st, false)
    else OpenClient(st, st.order[0], env)
  }

  function AddClient(st: State, c: nat, env: Env): (r: Outcome)
    requires c in st.clients && Known(st)
    ensures r.st.clients.Keys == st.clients.Keys
  {
    var cl := st.clients[c];
    if cl.seated then Outcome(st, false)
    else if st.vtBound && st.active.Some? && st.clients[st.active.value].state != PendingDisable then Outcome(st, false)
    else if cl.session != -1 then Outcome(st, false)
    else if st.vtBound then
      var now := st.(curVt := CurVtAfter(st, env));
      if now.curVt == -1 then Outcome(now, false)
      else if now.active.Some? && FindSession(now, now.order, now.curVt).Some? then Outcome(now, false)
      else Outcome(SetClient(now, c, cl.(session := now.curVt, seated := true)), true)
    else
      Outcome(SetClient(st, c, cl.(session := st.sessionCnt, seated := true)).(sessionCnt := st.sessionCnt + 1), true)
  }

  /** A client that has left its list gives up the seat. */
  function CloseClient(st: State, c: nat, env: Env): (r: State)
    requires c in st.clients && Known(st) && RefsPositive(st.clients[c].devices)
    ensures r.clients.Keys == st.clients.Keys
  {
    var bare := CloseAll(st, c, env);
    var after := if bare.active == Some(c) then Activate(bare.(active := None), env).st else bare;
    SetClient(after, c, after.clients[c].(state := Closed))
  }

  function RemoveClient(st: State, c: nat, env: Env): (r: State)
    requires c in st.clients && Known(st) && RefsPositive(st.clients[c].devices)
    ensures r.clients.Keys == st.clients.Keys
  {
    var unqueued := Log(if st.next == Some(c) then st.(next := None) else st, Left(c));
    var closed := CloseClient(CloseAll(unqueued, c, env), c, env);
    SetClient(closed, c, closed.clients[c].(seated := false))
  }

  /** Asks the active client to let go. Its devices are deactivated right away. */
  function DisableClient(st: State, c: nat, env: Env): (r: Outcome)
    requires c in st.clients
    ensures r.st.clients.Keys == st.clients.Keys
  {
    if st.clients[c].state != Active then Outcome(st, false)
    else
      var off := DeactivateFrom(st, c, 0, env);
      Outcome(Log(SetClient(off, c, off.clients[c].(state := PendingDisable)), Disable(c)), env.sent)
  }

  function AckDisable(st: State, c: nat, env: Env): (r: Outcome)
    requires c in st.clients && Known(st)
    ensures r.st.clients.Keys == st.clients.Keys
  {
    if st.clients[c].state != PendingDisable then Outcome(st, false)
    else
      var acked := Log(SetClient(st, c, st.clients[c].(state := Disabled)), Acked(c));
      if acked.active != Some(c) then Outcome(acked, true)
      else Outcome(Activate(acked.(active := None), env).st, true)
  }

  function SetNextSession(st: State, c: nat, session: int, env: Env): (r: Outcome)
    requires c in st.clients && Known(st)
    ensures r.st.clients.Keys == st.clients.Keys
  {
    if st.clients[c].state != Active || session <= 0 then Outcome(st, false)
    else if session == st.clients[c].session || st.next.Some? then Outcome(st, true)
    else if st.vtBound then Outcome(st, env.vtSwitches)
    else
      var target := FindSession(st, st.order, session);
      if target.None? then Outcome(st, false)
      else if st.active.None? then Outcome(st.(next := target), true)
      else Outcome(DisableClient(st.(next := target), st.active.value, env).st, true)
  }

  function VtActivate(st: State, env: Env): (r: State)
    requires Known(st)
  {
    if !st.vtBound then st
    else
      var now := st.(curVt := CurVtAfter(st, env));
      if now.active.None? then Activate(now, env).st else now
  }

  function VtRelease(st: State, env: Env): (r: State)
    requires Known(st)
  {
    if !st.vtBound then st
    else
      var now := st.(curVt := CurVtAfter(st, env));
      var off := if now.active.Some? then DisableClient(now, now.active.value, env).st else now;
      off.(curVt := -1)
  }

  // ---------------------------------------------------------------- requests

  datatype Request =
    | Connect
    | OpenSeat(c: nat)
    | CloseSeat(c: nat)
    | OpenDeviceReq(c: nat)
    | CloseDeviceReq(c: nat, id: int)
    | SwitchSession(c: nat, session: int)
    | DisableSeat(c: nat)
    | Ping(c: nat)
    | ProtocolError(c: nat)  // a malformed message or a broken connection
    | SignalAcquire
    | SignalRelease

  /** A list without an element. */
  function Without(s: seq<nat>, c: nat): (r: seq<nat>)
    ensures forall x :: x in r <==> x in s && x != c
  {
    if s == [] then []
    else if s[0] == c then Without(s[1..], c)
    else [s[0]] + Without(s[1..], c)
  }

  predicate Ready(st: State, c: nat) {
    c in st.clients && Known(st) && RefsPositive(st.clients[c].devices)
  }

  function HandleOpenSeat(st: State, c: nat, env: Env): (r: Outcome)
    requires Ready(st, c)
  {
    var added := AddClient(st, c, env);
    if !added.ok then added
    else
      var linked := added.st.(idle := Without(added.st.idle, c), order := [c] + added.st.order);
      if !env.replies then Outcome(linked, false)
      else Outcome(OpenClient(linked, c, env).st, true)
  }

  function HandleCloseSeat(st: State, c: nat, env: Env): (r: Outcome)
    requires Ready(st, c)
  {
    if !st.clients[c].seated then Outcome(st, false)
    else
      var removed := RemoveClient(st.(order := Without(st.order, c)), c, env);
      Outcome(removed.(idle := [c] + removed.idle), env.replies)
  }

  function HandleOpenDevice(st: State, c: nat, env: Env): (r: Outcome)
    requires Ready(st, c)
  {
    if !st.clients[c].seated then Outcome(st, false)
    else
      match OpenDevice(st, c, env)
      case NotOpened => Outcome(st, env.replies)
      case OpenedAt(now, k) => Outcome(if env.dups then now else CloseDevice(now, c, k, env), env.replies)
  }

  function HandleCloseDevice(st: State, c: nat, id: int, env: Env): (r: Outcome)
    requires Ready(st, c)
  {
    if !st.clients[c].seated then Outcome(st, false)
    else
      var k := FindId(st.clients[c].devices, id);
      if k.None? then Outcome(st, env.replies)
      else
        RefsPositiveAt(st.clients[c].devices, k.value);
        Outcome(CloseDevice(st, c, k.value, env), env.replies)
  }

  lemma RefsPositiveAt(devices: seq<Device>, k: nat)
    requires RefsPositive(devices) && k < |devices|
    ensures devices[k].refs > 0
  {
    if k > 0 { RefsPositiveAt(devices[1..], k - 1); }
  }

  /** An error reply keeps the client connected if it can be sent. */
  function HandleSwitchSession(st: State, c: nat, session: int, env: Env): (r: Outcome)
    requires Ready(st, c)
  {
    if !st.clients[c].seated then Outcome(st, false)
    else
      var r := SetNextSession(st, c, session, env);
      Outcome(r.st, r.ok || env.replies)
  }

  function HandleDisableSeat(st: State, c: nat, env: Env): (r: Outcome)
    requires Ready(st, c)
  {
    if !st.clients[c].seated then Outcome(st, false)
    else
      var r := AckDisable(st, c, env);
      Outcome(r.st, r.ok || env.replies)
  }

  /** A client is unlinked and gives up its seat if it has one. */
  function Depart(st: State, c: nat, env: Env): (r: State)
    requires Ready(st, c)
    ensures r.clients.Keys == st.clients.Keys
  {
    var unlinked := st.(order := Without(st.order, c), idle := Without(st.idle, c));
    if st.clients[c].seated then RemoveClient(unlinked, c, env) else unlinked
  }

  /** ... and is freed. */
  function Destroy(st: State, c: nat, env: Env): (r: State)
    requires Ready(st, c)
  {
    var left := Depart(st, c, env);
    left.(clients := left.clients - {c})
  }

  function Handle(st: State, c: nat, req: Request, env: Env): Outcome
    requires Ready(st, c)
  {
    match req
    case OpenSeat(_) => HandleOpenSeat(st, c, env)
    case CloseSeat(_) => HandleCloseSeat(st, c, env)
    case OpenDeviceReq(_) => HandleOpenDevice(st, c, env)
    case CloseDeviceReq(_, id) => HandleCloseDevice(st, c, id, env)
    case SwitchSession(_, session) => HandleSwitchSession(st, c, session, env)
    case DisableSeat(_) => HandleDisableSeat(st, c, env)
    case Ping(_) => Outcome(st, env.replies)
    case _ => Outcome(st, false)
  }

  predicate FromClient(req: Request) {
    !req.Connect? && !req.SignalAcquire? && !req.SignalRelease?
  }

  /** A client connects. */
  function Arrive(st: State): State {
    st.(clients := st.clients[st.born := Client(New, -1, false, [])],
        idle := [st.born] + st.idle, born := st.born + 1)
  }

  function Init(vtBound: bool): State {
    State(vtBound, 0, 0, [], [], None, None, map[], 0, [])
  }
}
