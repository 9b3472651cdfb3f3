/**
 * The seat daemon's own code, over clients that are updated in place. Each operation
 * leaves the state that the state machine says.
 */
module Seatd {
  import opened SeatModel
  import opened SeatInvariant
  import opened SeatSteps
  import opened SeatRuns

  class SeatClient {
    const id: nat
    var state: ClientState
    var session: int
    var seated: bool          // whether its seat pointer is set
    var devices: seq<Device>  // most recent first

    constructor (id: nat)
      ensures this.id == id && Show() == Client(New, -1, false, [])
    {
      this.id := id;
      state, session, seated, devices := New, -1, false, [];
    }

    function Show(): Client
      reads this
    {
      Client(state, session, seated, devices)
    }
  }

  function Ids(cs: seq<SeatClient>): (r: seq<nat>)
    ensures |r| == |cs| && forall i | 0 <= i < |cs| :: r[i] == cs[i].id
  {
    seq(|cs|, i requires 0 <= i < |cs| => cs[i].id)
  }

  function IdOf(c: SeatClient?): Option<nat> {
    if c == null then None else Some(c.id)
  }

  /** The daemon, with its one seat. */
  class Daemon {
    const vtBound: bool
    var curVt: int
    var sessionCnt: nat
    var clients: seq<SeatClient>   // the seat's, most recent first
    var idle: seq<SeatClient>
    var activeClient: SeatClient?
    var nextClient: SeatClient?
    var born: nat
    ghost var table: map<nat, SeatClient>
    ghost var log: seq<Event>

    constructor (vtBound: bool)
      ensures Valid() && Now() == Init(vtBound)
    {
      this.vtBound := vtBound;
      curVt, sessionCnt, born := 0, 0, 0;
      clients, idle, activeClient, nextClient := [], [], null, null;
      table, log := map[], [];
    }

    /** A client that is there. */
    ghost predicate Mine(c: SeatClient)
      reads this
    {
      c.id in table && table[c.id] == c
    }

    ghost predicate Valid()
      reads this
    {
      && (forall i | i in table :: table[i].id == i)
      && (forall c | c in clients :: Mine(c)) && (forall c | c in idle :: Mine(c))
      && (activeClient != null ==> Mine(activeClient))
      && (nextClient != null ==> Mine(nextClient))
    }

    /** The clients, by number, as the state machine sees them. */
    ghost function Shown(): map<nat, Client>
      reads this`table, table.Values
    {
      map i | i in table :: table[i].Show()
    }

    ghost function Now(): State
      requires Valid()
      reads this, table.Values
    {
      State(vtBound, curVt, sessionCnt, Ids(clients), Ids(idle), IdOf(activeClient), IdOf(nextClient), Shown(),
            born, log)
    }

    /** One client was updated in place. */
    twostate lemma Updated(c: SeatClient)
      requires old(Valid()) && old(Mine(c)) && table == old(table)
      requires forall i | i in old(table) && i != c.id :: old(table)[i].Show() == old(table[i].Show())
      ensures Shown() == old(Shown())[c.id := c.Show()]
    {
    }

    method SetState(c: SeatClient, state: ClientState)
      requires Valid() && Mine(c)
      modifies c`state
      ensures Valid() && c.state == state
      ensures Now() == SetClient(old(Now()), c.id, old(c.Show()).(state := state))
    {
      c.state := state;
      Updated(c);
    }

    method SetDevices(c: SeatClient, devices: seq<Device>)
      requires Valid() && Mine(c)
      modifies c`devices
      ensures Valid() && c.devices == devices
      ensures Now() == SetClient(old(Now()), c.id, old(c.Show()).(devices := devices))
    {
      c.devices := devices;
      Updated(c);
    }

    /** The client gets its session and its seat. */
    method SetSession(c: SeatClient, session: int)
      requires Valid() && Mine(c)
      modifies c`session, c`seated
      ensures Valid() && Now() == SetClient(old(Now()), c.id, old(c.Show()).(session := session, seated := true))
    {
      c.session := session;
      c.seated := true;
      Updated(c);
    }

    ghost method Note(e: Event)
      requires Valid()
      modifies this`log
      ensures Valid() && Now() == Log(old(Now()), e)
    {
      log := log + [e];
    }

    method SetActive(c: SeatClient?)
      requires Valid() && (c != null ==> Mine(c))
      modifies this`activeClient
      ensures Valid() && activeClient == c && Now() == old(Now()).(active := IdOf(c))
    {
      activeClient := c;
    }

    // ------------------------------------------------------------ lists

    method UnlinkFromSeat(c: SeatClient)
      requires Valid() && Mine(c)
      modifies this`clients
      ensures Valid() && Now() == old(Now()).(order := Without(old(Now()).order, c.id)) && c !in clients
    {
      hide Ids;
      UnlinkIds(clients, c);
      clients := Unlink(clients, c);
    }

    method UnlinkFromIdle(c: SeatClient)
      requires Valid() && Mine(c)
      modifies this`idle
      ensures Valid() && Now() == old(Now()).(idle := Without(old(Now()).idle, c.id)) && c !in idle
    {
      hide Ids;
      UnlinkIds(idle, c);
      idle := Unlink(idle, c);
    }

    method PushSeat(c: SeatClient)
      requires Valid() && Mine(c)
      modifies this`clients
      ensures Valid() && Now() == old(Now()).(order := [c.id] + old(Now()).order)
    {
      hide Ids;
      PushIds(c, clients);
      clients := [c] + clients;
    }

    method PushIdle(c: SeatClient)
      requires Valid() && Mine(c)
      modifies this`idle
      ensures Valid() && Now() == old(Now()).(idle := [c.id] + old(Now()).idle)
    {
      hide Ids;
      PushIds(c, idle);
      idle := [c] + idle;
    }

    // ------------------------------------------------------------ devices

    method DeactivateDevice(c: SeatClient, k: nat, env: Env)
      requires Valid() && Mine(c) && k < |c.devices|
      modifies this`log, c`devices
      ensures Valid() && Now() == SeatModel.DeactivateDevice(old(Now()), c.id, k, env)
    {
      var d := c.devices[k];
      if !d.active { return; }
      match d.kind {
        case Drm => if d.id in env.dropFails { return; }
        case Evdev => if d.id in env.dropFails { return; }
        case Wscons =>
      }
      SetDevices(c, c.devices[k := d.(active := false)]);
      Note(Released(c.id, d.id));
    }

    method ActivateDevice(c: SeatClient, k: nat) returns (ok: bool)
      requires Valid() && Mine(c) && k < |c.devices|
      modifies this`log, c`devices
      ensures Valid() && Now() == SeatModel.ActivateDevice(old(Now()), c.id, k)
      ensures ok == (old(c.devices)[k].active || old(c.devices)[k].kind != Evdev)
    {
      var d := c.devices[k];
      if d.active { return true; }
      match d.kind {
        case Drm =>
          SetDevices(c, c.devices[k := d.(active := true)]);
          Note(Reactivated(c.id, d.id, d.kind));
        case Evdev => return false;
        case Wscons =>
      }
      ok := true;
    }

    method CloseDevice(c: SeatClient, k: nat, env: Env)
      requires Valid() && Mine(c) && k < |c.devices| && c.devices[k].refs > 0
      modifies this`log, c`devices
      ensures Valid() && Now() == SeatModel.CloseDevice(old(Now()), c.id, k, env)
    {
      var d := c.devices[k];
      Note(ClosedOnce(c.id, d.path));
      if d.refs > 1 {
        SetDevices(c, c.devices[k := d.(refs := d.refs - 1)]);
      } else {
        hide SeatModel.DeactivateDevice;
        DeactivateDevice(c, k, env);
        Remove(c, k, d);
      }
    }

    /** A device without references is taken out of the table and freed. */
    method Remove(c: SeatClient, k: nat, d: Device)
      requires Valid() && Mine(c) && k < |c.devices|
      modifies this`log, c`devices
      ensures Valid()
      ensures Now() ==
        Log(SetClient(old(Now()), c.id, old(c.Show()).(devices := old(c.devices)[..k] + old(c.devices)[k + 1..])),
                           Gone(c.id, d.id))
    {
      SetDevices(c, c.devices[..k] + c.devices[k + 1..]);
      Note(Gone(c.id, d.id));
    }

    /** Closes the first device until none is left. */
    method CloseAllDevices(c: SeatClient, env: Env)
      requires Valid() && Mine(c) && RefsPositive(c.devices)
      modifies this`log, c`devices
      ensures Valid() && Now() == CloseAll(old(Now()), c.id, env)
    {
      hide SeatModel.CloseDevice;
      ghost var target := CloseAll(Now(), c.id, env);
      while c.devices != []
        invariant Valid() && Mine(c) && RefsPositive(c.devices)
        invariant CloseAll(Now(), c.id, env) == target
        decreases SumRefs(c.devices)
      {
        CloseFirst(Now(), c.id, env);
        CloseDevice(c, 0, env);
        assert Now().clients[c.id].devices == c.devices;
      }
    }

    /** The index of a path in the table, or -1, and then the id and the number that a
        new entry gets. */
    method Scan(c: SeatClient, path: string) returns (found: int, id: int, count: nat)
      ensures match FindPath(c.devices, path)
        case Some(k) => found == k
        case None => found == -1 && id == NextId(c.devices) && count == |c.devices|
    {
      hide NextId, FindPath;
      id, count := 1, 0;
      var i := 0;
      IdStep([]);
      assert c.devices[..0] == [] && c.devices[0..] == c.devices;
      while i < |c.devices|
        invariant i <= |c.devices| && count == i
        invariant id == NextId(c.devices[..i])
        invariant FindPath(c.devices, path) == Later(FindPath(c.devices[i..], path), i)
      {
        var d := c.devices[i];
        PathStep(c.devices[i..], path);
        IdStep(c.devices[..i + 1]);
        assert c.devices[i..][1..] == c.devices[i + 1..];
        assert c.devices[..i + 1][..i] == c.devices[..i];
        if d.path == path { return i, id, count; }
        if d.id >= id { id := d.id + 1; }
        count := count + 1;
        i := i + 1;
      }
      PathStep(c.devices[i..], path);
      assert c.devices[..i] == c.devices;
      found := -1;
    }

    /** Opens a device for its path, or takes another reference to it. */
    method OpenDevice(c: SeatClient, env: Env) returns (k: int)
      requires Valid() && Mine(c)
      modifies this`log, c`devices
      ensures Valid()
      ensures match SeatModel.OpenDevice(old(Now()), c.id, env)
        case NotOpened => k == -1 && Now() == old(Now())
        case OpenedAt(st, at) => k == at && Now() == st
    {
      hide NextId, FindPath, OnlyDevices;
      if c.state != Active || !env.resolved.Resolves? { return -1; }
      var path := env.resolved.path;
      var found, id, count := Scan(c, path);
      if found >= 0 {
        var d := c.devices[found];
        SetDevices(c, c.devices[found := d.(refs := d.refs + 1)]);
        Note(Opened(c.id, path));
        return found;
      }
      if count >= MAX_SEAT_DEVICES || !env.opens { return -1; }
      SetDevices(c, [Device(id, path, env.resolved.kind, 1, true)] + c.devices);
      Note(Opened(c.id, path));
      Note(Acquired(c.id, id));
      k := 0;
    }

    // ------------------------------------------------------------ the seat

    /** The first client of the seat with a session. */
    method FindSession(session: int) returns (c: SeatClient?)
      requires Valid() && Known(Now())
      ensures IdOf(c) == SeatModel.FindSession(Now(), Now().order, session)
      ensures c != null ==> Mine(c)
    {
      ghost var st := Now();
      assert Ids(clients)[0..] == Ids(clients);
      var i := 0;
      while i < |clients|
        invariant i <= |clients| && (forall c | c in Ids(clients)[i..] :: c in st.clients)
        invariant SeatModel.FindSession(st, st.order, session) == SeatModel.FindSession(st, Ids(clients)[i..], session)
      {
        assert Ids(clients)[i..][1..] == Ids(clients)[i + 1..];
        assert Ids(clients)[i..][0] == clients[i].id && Mine(clients[i]);
        if clients[i].session == session { return clients[i]; }
        i := i + 1;
      }
      c := null;
    }

    method OpenClient(c: SeatClient, env: Env) returns (ok: bool)
      requires Valid() && Mine(c)
      modifies this`log, this`activeClient, c
      ensures Valid() && Outcome(Now(), ok) == SeatModel.OpenClient(old(Now()), c.id, env)
    {
      hide ActivateFrom, OnlyDevices, Ids;
      if c.state != New && c.state != Disabled { return false; }
      if activeClient != null { return false; }
      if vtBound && !env.vtOpens { return false; }
      ActivateAllDevices(c);
      MakeActive(c);
      ok := env.sent;
    }

    method MakeActive(c: SeatClient)
      requires Valid() && Mine(c)
      modifies this`log, this`activeClient, c`state
      ensures Valid()
      ensures var st, cl := old(Now()), old(Now()).clients[c.id];
        Now() == Log(SetClient(st, c.id, cl.(state := Active)).(active := Some(c.id)),
          Enable(c.id, cl.session, st.curVt))
    {
      hide Ids;
      SetState(c, Active);
      SetActive(c);
      Note(Enable(c.id, c.session, curVt));
    }

    method ActivateAllDevices(c: SeatClient)
      requires Valid() && Mine(c)
      modifies this`log, c`devices
      ensures Valid() && Now() == ActivateFrom(old(Now()), c.id, 0)
    {
      hide SeatModel.ActivateDevice;
      ghost var target := ActivateFrom(Now(), c.id, 0);
      var i := 0;
      while i < |c.devices|
        invariant Valid() && Mine(c) && i <= |c.devices|
        invariant ActivateFrom(Now(), c.id, i) == target
        decreases |old(c.devices)| - i
        invariant |c.devices| == |old(c.devices)|
      {
        assert Now().clients[c.id].devices == c.devices;
        var _ := ActivateDevice(c, i);
        assert Now().clients[c.id].devices == c.devices;
        i := i + 1;
      }
    }

    method DeactivateAllDevices(c: SeatClient, env: Env)
      requires Valid() && Mine(c)
      modifies this`log, c`devices
      ensures Valid() && Now() == DeactivateFrom(old(Now()), c.id, 0, env)
    {
      hide SeatModel.DeactivateDevice;
      ghost var target := DeactivateFrom(Now(), c.id, 0, env);
      var i := 0;
      while i < |c.devices|
        invariant Valid() && Mine(c) && i <= |c.devices|
        invariant DeactivateFrom(Now(), c.id, i, env) == target
        invariant |c.devices| == |old(c.devices)|
        decreases |old(c.devices)| - i
      {
        assert Now().clients[c.id].devices == c.devices;
        DeactivateDevice(c, i, env);
        assert Now().clients[c.id].devices == c.devices;
        i := i + 1;
      }
    }

    /** Every client and the list it is in stay; clients may be updated. */
    twostate predicate SameTable()
      reads this
    {
      table == old(table) && clients == old(clients) && idle == old(idle) && born == old(born)
    }

    method Activate(env: Env) returns (ok: bool)
      requires Valid() && Known(Now())
      modifies this`log, this`activeClient, this`nextClient, table.Values
      ensures Valid() && SameTable()
      ensures Outcome(Now(), ok) == SeatModel.Activate(old(Now()), env)
    {
      hide SeatModel.OpenClient, SeatModel.FindSession;
      if activeClient != null { return true; }
      var next: SeatClient? := null;
      if nextClient != null {
        next := nextClient;
        nextClient := null;
      } else if clients == [] {
        return false;
      } else if vtBound && curVt == -1 {
        return false;
      } else if vtBound {
        next := FindSession(curVt);
        if next == null { return false; }
      } else {
        next := clients[0];
        assert next in clients && Ids(clients)[0] == next.id;
      }
      assert Mine(next) && table[next.id] in table.Values;
      ok := OpenClient(next, env);
    }

    method UpdateVt(env: Env)
      requires Valid()
      modifies this`curVt
      ensures Valid() && Now() == old(Now()).(curVt := CurVtAfter(old(Now()), env))
    {
      match env.vtRead
      case NoTty =>
      case CurrentVt(vt) => curVt := vt;
    }

    method AddClient(c: SeatClient, env: Env) returns (ok: bool)
      requires Valid() && Mine(c) && Known(Now())
      modifies this`curVt, this`sessionCnt, c
      ensures Valid() && Outcome(Now(), ok) == SeatModel.AddClient(old(Now()), c.id, env)
    {
      hide SeatModel.FindSession, Ids;
      if c.seated { return false; }
      if vtBound && activeClient != null && activeClient.state != PendingDisable { return false; }
      if c.session != -1 { return false; }
      if vtBound {
        ok := AddOnVt(c, env);
      } else {
        SetSession(c, sessionCnt);
        sessionCnt := sessionCnt + 1;
        ok := true;
      }
    }

    /** On a VT-bound seat a client comes to the current VT. */
    method AddOnVt(c: SeatClient, env: Env) returns (ok: bool)
      requires Valid() && Mine(c) && Known(Now()) && vtBound
      modifies this`curVt, c
      ensures Valid()
      ensures var now := old(Now()).(curVt := CurVtAfter(old(Now()), env));
        if now.curVt == -1 || (now.active.Some? && SeatModel.FindSession(now, now.order, now.curVt).Some?) then
          !ok && Now() == now
        else
          ok && Now() == SetClient(now, c.id, old(c.Show()).(session := now.curVt, seated := true))
    {
      hide SeatModel.FindSession, Ids;
      UpdateVt(env);
      if curVt == -1 { return false; }
      if activeClient != null {
        var other := FindSession(curVt);
        if other != null { return false; }
      }
      SetSession(c, curVt);
      ok := true;
    }

    method CloseClient(c: SeatClient, env: Env)
      requires Valid() && Mine(c) && Known(Now()) && RefsPositive(c.devices)
      modifies this`log, this`activeClient, this`nextClient, table.Values
      ensures Valid() && SameTable()
      ensures Now() == SeatModel.CloseClient(old(Now()), c.id, env)
    {
      hide CloseAll, SeatModel.Activate, OnlyDevices;
      CloseAllDevices(c, env);
      if activeClient == c {
        SetActive(null);
        var _ := Activate(env);
      }
      SetState(c, Closed);
    }

    /** A leaving client is no longer queued and its devices are closed. */
    method Unseat(c: SeatClient, env: Env)
      requires Valid() && Mine(c) && RefsPositive(c.devices)
      modifies this`log, this`nextClient, c`devices
      ensures Valid() && Now() == Unseated(old(Now()), c.id, env)
    {
      hide CloseAll;
      Note(Left(c.id));
      if nextClient == c { nextClient := null; }
      CloseAllDevices(c, env);
    }

    method RemoveClient(c: SeatClient, env: Env)
      requires Valid() && Mine(c) && Known(Now()) && RefsPositive(c.devices)
      modifies this`log, this`activeClient, this`nextClient, table.Values
      ensures Valid() && SameTable()
      ensures Now() == SeatModel.RemoveClient(old(Now()), c.id, env)
    {
      hide CloseAll, SeatModel.CloseClient, Known, OnlyDevices;
      UnseatedKnown(Now(), c.id, env);
      Unseat(c, env);
      CloseClient(c, env);
      label Seated:
      c.seated := false;
      Updated@Seated(c);
    }

    method DisableClient(c: SeatClient, env: Env) returns (ok: bool)
      requires Valid() && Mine(c)
      modifies this`log, c
      ensures Valid() && Outcome(Now(), ok) == SeatModel.DisableClient(old(Now()), c.id, env)
    {
      hide DeactivateFrom;
      if c.state != Active { return false; }
      DeactivateAllDevices(c, env);
      SetState(c, PendingDisable);
      Note(Disable(c.id));
      ok := env.sent;
    }

    method AckDisable(c: SeatClient, env: Env) returns (ok: bool)
      requires Valid() && Mine(c) && Known(Now())
      modifies this`log, this`activeClient, this`nextClient, table.Values
      ensures Valid() && SameTable()
      ensures Outcome(Now(), ok) == SeatModel.AckDisable(old(Now()), c.id, env)
    {
      hide SeatModel.Activate;
      if c.state != PendingDisable { return false; }
      SetState(c, Disabled);
      Note(Acked(c.id));
      if activeClient != c { return true; }
      SetActive(null);
      var _ := Activate(env);
      ok := true;
    }

    method SetNextSession(c: SeatClient, session: int, env: Env) returns (ok: bool)
      requires Valid() && Mine(c) && Known(Now())
      modifies this`log, this`nextClient, table.Values
      ensures Valid() && SameTable()
      ensures Outcome(Now(), ok) == SeatModel.SetNextSession(old(Now()), c.id, session, env)
    {
      hide SeatModel.FindSession, SeatModel.DisableClient;
      if c.state != Active { return false; }
      if session <= 0 { return false; }
      if session == c.session { return true; }
      if nextClient != null { return true; }
      if vtBound { return env.vtSwitches; }
      var target := FindSession(session);
      if target == null { return false; }
      nextClient := target;
      if activeClient != null {
        var _ := DisableClient(activeClient, env);
      }
      ok := true;
    }

    method VtActivate(env: Env) returns (ok: bool)
      requires Valid() && Known(Now())
      modifies this`log, this`curVt, this`activeClient, this`nextClient, table.Values
      ensures Valid() && SameTable() && ok == vtBound
      ensures Now() == SeatModel.VtActivate(old(Now()), env)
    {
      hide SeatModel.Activate;
      if !vtBound { return false; }
      UpdateVt(env);
      if activeClient == null {
        var _ := Activate(env);
      }
      ok := true;
    }

    method VtRelease(env: Env) returns (ok: bool)
      requires Valid() && Known(Now())
      modifies this`log, this`curVt, table.Values
      ensures Valid() && SameTable() && ok == vtBound
      ensures Now() == SeatModel.VtRelease(old(Now()), env)
    {
      hide SeatModel.DisableClient;
      if !vtBound { return false; }
      UpdateVt(env);
      if activeClient != null {
        var _ := DisableClient(activeClient, env);
      }
      curVt := -1;
      ok := true;
    }

    // ------------------------------------------------------------ messages

    ghost predicate ReadyFor(c: SeatClient)
      reads this, table.Values
    {
      Valid() && Mine(c) && Ready(Now(), c.id)
    }

    method HandleOpenSeat(c: SeatClient, env: Env) returns (ok: bool)
      requires ReadyFor(c)
      modifies this, table.Values
      ensures Valid() && table == old(table)
      ensures Outcome(Now(), ok) == SeatModel.HandleOpenSeat(old(Now()), c.id, env)
    {
      hide SeatModel.AddClient, SeatModel.OpenClient, Ids;
      assert table[c.id] in table.Values;
      ok := AddClient(c, env);
      if !ok { return; }
      UnlinkFromIdle(c);
      PushSeat(c);
      if !env.replies { return false; }
      var _ := OpenClient(c, env);
      ok := true;
    }

    method HandleCloseSeat(c: SeatClient, env: Env) returns (ok: bool)
      requires ReadyFor(c)
      modifies this, table.Values
      ensures Valid() && table == old(table)
      ensures Outcome(Now(), ok) == SeatModel.HandleCloseSeat(old(Now()), c.id, env)
    {
      hide SeatModel.RemoveClient, Ids;
      if !c.seated { return false; }
      UnlinkFromSeat(c);
      RemoveClient(c, env);
      PushIdle(c);
      ok := env.replies;
    }

    method HandleOpenDevice(c: SeatClient, env: Env) returns (ok: bool)
      requires ReadyFor(c)
      modifies this`log, c
      ensures Valid() && Outcome(Now(), ok) == SeatModel.HandleOpenDevice(old(Now()), c.id, env)
    {
      hide SeatModel.OpenDevice, SeatModel.CloseDevice;
      if !c.seated { return false; }
      var k := OpenDevice(c, env);
      if k == -1 { return env.replies; }
      assert Now().clients[c.id].devices == c.devices;
      if !env.dups {
        CloseDevice(c, k, env);
      }
      ok := env.replies;
    }

    /** The index of a device id, or -1. */
    method FindDevice(c: SeatClient, id: int) returns (found: int)
      ensures match FindId(c.devices, id) case Some(k) => found == k case None => found == -1
    {
      var i := 0;
      assert c.devices[0..] == c.devices;
      while i < |c.devices|
        invariant i <= |c.devices|
        invariant FindId(c.devices, id) == Later(FindId(c.devices[i..], id), i)
      {
        assert c.devices[i..][1..] == c.devices[i + 1..];
        if c.devices[i].id == id { return i; }
        i := i + 1;
      }
      found := -1;
    }

    method HandleCloseDevice(c: SeatClient, id: int, env: Env) returns (ok: bool)
      requires ReadyFor(c)
      modifies this`log, c
      ensures Valid() && Outcome(Now(), ok) == SeatModel.HandleCloseDevice(old(Now()), c.id, id, env)
    {
      hide SeatModel.CloseDevice, FindId;
      if !c.seated { return false; }
      var k := FindDevice(c, id);
      if k == -1 { return env.replies; }
      RefsPositiveAt(c.devices, k);
      CloseDevice(c, k, env);
      ok := env.replies;
    }

    method HandleSwitchSession(c: SeatClient, session: int, env: Env) returns (ok: bool)
      requires ReadyFor(c)
      modifies this, table.Values
      ensures Valid() && table == old(table)
      ensures Outcome(Now(), ok) == SeatModel.HandleSwitchSession(old(Now()), c.id, session, env)
    {
      hide SeatModel.SetNextSession;
      if !c.seated { return false; }
      ok := SetNextSession(c, session, env);
      if !ok { ok := env.replies; }
    }

    method HandleDisableSeat(c: SeatClient, env: Env) returns (ok: bool)
      requires ReadyFor(c)
      modifies this, table.Values
      ensures Valid() && table == old(table)
      ensures Outcome(Now(), ok) == SeatModel.HandleDisableSeat(old(Now()), c.id, env)
    {
      hide SeatModel.AckDisable;
      if !c.seated { return false; }
      ok := AckDisable(c, env);
      if !ok { ok := env.replies; }
    }

    method Handle(c: SeatClient, req: Request, env: Env) returns (ok: bool)
      requires ReadyFor(c)
      modifies this, table.Values
      ensures Valid() && table == old(table)
      ensures Outcome(Now(), ok) == SeatModel.Handle(old(Now()), c.id, req, env)
    {
      hide SeatModel.HandleOpenSeat, SeatModel.HandleCloseSeat, SeatModel.HandleOpenDevice,
        SeatModel.HandleCloseDevice, SeatModel.HandleSwitchSession, SeatModel.HandleDisableSeat, Ready;
      assert table[c.id] in table.Values;
      match req
      case OpenSeat(_) => ok := HandleOpenSeat(c, env);
      case CloseSeat(_) => ok := HandleCloseSeat(c, env);
      case OpenDeviceReq(_) => ok := HandleOpenDevice(c, env);
      case CloseDeviceReq(_, id) => ok := HandleCloseDevice(c, id, env);
      case SwitchSession(_, session) => ok := HandleSwitchSession(c, session, env);
      case DisableSeat(_) => ok := HandleDisableSeat(c, env);
      case Ping(_) => ok := env.replies;
      case _ => ok := false;
    }

    method Depart(c: SeatClient, env: Env)
      requires ReadyFor(c)
      modifies this, table.Values
      ensures Valid() && table == old(table)
      ensures Now() == SeatModel.Depart(old(Now()), c.id, env)
      ensures c !in clients && c !in idle
    {
      hide SeatModel.RemoveClient, OnlyDevices;
      UnlinkFromSeat(c);
      UnlinkFromIdle(c);
      assert Known(Now());
      if c.seated {
        RemoveClient(c, env);
      }
    }

    /** A client goes: unlinked, its seat given up, freed. */
    method Destroy(c: SeatClient, env: Env)
      requires ReadyFor(c) && Nearly(Now(), c.id)
      modifies this, table.Values
      ensures Valid() && Now() == SeatModel.Destroy(old(Now()), c.id, env)
    {
      hide SeatModel.Depart, Nearly, Inv, OnlyDevices, Ready;
      DestroyKeeps(Now(), c.id, env);
      InvKnown(SeatModel.Destroy(Now(), c.id, env));
      Depart(c, env);
      ghost var shown := Shown();
      table := table - {c.id};
      assert Shown() == shown - {c.id};
    }

    /** One turn of the daemon, as the state machine has it. */
    method Serve(req: Request, c: SeatClient?, env: Env, after: Env)
      requires Valid() && Inv(Now())
      requires FromClient(req) ==> c != null && Mine(c) && req.c == c.id
      modifies this, table.Values
      ensures Valid() && Inv(Now()) && Now() == Step(old(Now()), req, env, after)
    {
      hide Inv, Nearly, SeatModel.Handle, SeatModel.Destroy, SeatModel.VtActivate, SeatModel.VtRelease, Ready, Known;
      InvKnown(Now());
      StepKeeps(Now(), req, env, after);
      if req.Connect? {
        Unborn(Now());
        Arrive();
      } else if req.SignalAcquire? {
        var _ := VtActivate(env);
      } else if req.SignalRelease? {
        var _ := VtRelease(env);
      } else {
        InvIsNearly(Now(), c.id);
        HandleKeeps(Now(), c.id, req, env);
        assert table[c.id] in table.Values;
        var ok := Handle(c, req, env);
        if !(ok && env.flushes) {
          Destroy(c, after);
        }
      }
    }

    method Arrive()
      requires Valid() && born !in table
      modifies this
      ensures Valid() && Now() == SeatModel.Arrive(old(Now()))
    {
      var c := Create();
      PushIdle(c);
      born := born + 1;
    }

    method Create() returns (c: SeatClient)
      requires Valid() && born !in table
      modifies this`table
      ensures Valid() && Mine(c) && c.id == born
      ensures Now() == old(Now()).(clients := old(Now()).clients[born := Client(New, -1, false, [])])
    {
      hide Ids;
      ghost var shown := Shown();
      c := new SeatClient(born);
      table := table[born := c];
      assert Shown() == shown[born := Client(New, -1, false, [])];
    }
  }

  lemma Unborn(st: State)
    requires Inv(st)
    ensures st.born !in st.clients
  {
    hide NoDup, Books, HandOver;
  }

  lemma PushIds(c: SeatClient, cs: seq<SeatClient>)
    ensures Ids([c] + cs) == [c.id] + Ids(cs)
  {
  }

  function Unlink(cs: seq<SeatClient>, c: SeatClient): (r: seq<SeatClient>)
    ensures forall x :: x in r ==> x in cs && x != c
  {
    if cs == [] then []
    else if cs[0] == c then Unlink(cs[1..], c)
    else [cs[0]] + Unlink(cs[1..], c)
  }

  lemma {:induction false} UnlinkIds(cs: seq<SeatClient>, c: SeatClient)
    requires forall x | x in cs :: x.id == c.id ==> x == c
    ensures Ids(Unlink(cs, c)) == Without(Ids(cs), c.id)
    decreases |cs|
  {
    if cs != [] {
      UnlinkIds(cs[1..], c);
      assert Ids(cs)[1..] == Ids(cs[1..]);
    }
  }

  lemma UnseatedKnown(st: State, c: nat, env: Env)
    requires c in st.clients && RefsPositive(st.clients[c].devices) && Known(st)
    ensures var r := Unseated(st, c, env); Known(r) && c in r.clients && r.clients[c].devices == []
    ensures RemoveClient(st, c, env) ==
      var closed := CloseClient(Unseated(st, c, env), c, env);
      SetClient(closed, c, closed.clients[c].(seated := false))
  {
    hide CloseAll, CloseClient;
  }

  function Later(r: Option<nat>, i: nat): Option<nat> {
    if r.Some? then Some(r.value + i) else None
  }

  lemma PathStep(ds: seq<Device>, path: string)
    ensures ds == [] ==> FindPath(ds, path) == None
    ensures ds != [] && ds[0].path == path ==> FindPath(ds, path) == Some(0)
    ensures ds != [] && ds[0].path != path ==> FindPath(ds, path) == Later(FindPath(ds[1..], path), 1)
  {
  }

  lemma IdStep(ds: seq<Device>)
    ensures ds == [] ==> NextId(ds) == 1
    ensures ds != [] ==>
      var rest := NextId(ds[..|ds| - 1]);
      NextId(ds) == if ds[|ds| - 1].id >= rest then ds[|ds| - 1].id + 1 else rest
  {
  }

  lemma CloseFirst(st: State, c: nat, env: Env)
    requires c in st.clients && RefsPositive(st.clients[c].devices) && st.clients[c].devices != []
    ensures var one := CloseDevice(st, c, 0, env);
      && RefsPositive(one.clients[c].devices)
      && SumRefs(one.clients[c].devices) < SumRefs(st.clients[c].devices)
      && CloseAll(st, c, env) == CloseAll(one, c, env)
  {
    var devices := st.clients[c].devices;
    assert devices[0 := devices[0].(refs := devices[0].refs - 1)][1..] == devices[1..];
    assert devices[..0] + devices[1..] == devices[1..];
  }
}
