/** What the seat's operations make of the seat and of the device tables: who gets the seat
    when it is given up, which devices come back with it, and what each request does. */
module SeatEffects {
  import opened SeatModel
  import opened SeatLog
  import opened SeatDevices
  import opened SeatInvariant
  import opened SeatSteps

  // ------------------------------------------------------------ devices, one by one

  /** A device whose client gets the seat back: DRM devices are active again, revoked
      input devices and consoles stay as they are. */
  function Back(d: Device): Device {
    if d.kind == Drm then d.(active := true) else d
  }

  /** A device whose client is asked to let go: it stays active only if the kernel does
      not take it away. */
  function Off(d: Device, env: Env): Device {
    if d.kind != Wscons && d.id in env.dropFails then d else d.(active := false)
  }

  ghost predicate AllBack(before: seq<Device>, after: seq<Device>) {
    |after| == |before| && forall i | 0 <= i < |before| :: after[i] == Back(before[i])
  }

  ghost predicate AllOff(before: seq<Device>, after: seq<Device>, env: Env) {
    |after| == |before| && forall i | 0 <= i < |before| :: after[i] == Off(before[i], env)
  }

  /** What was logged since then. */
  function Since(log: seq<Event>, after: seq<Event>): seq<Event> {
    if |log| <= |after| then after[|log|..] else []
  }

  /** Every DRM device that was not active was reactivated. */
  ghost predicate AllLogged(before: seq<Device>, log: seq<Event>, after: seq<Event>, c: nat) {
    && log <= after
    && forall i | 0 <= i < |before| && before[i].kind == Drm && !before[i].active ::
         Reactivated(c, before[i].id, Drm) in Since(log, after)
  }

  lemma {:induction false} ActivateFromIs(st: State, c: nat, k: nat)
    requires c in st.clients && k <= |st.clients[c].devices|
    ensures var before, after := st.clients[c].devices, ActivateFrom(st, c, k).clients[c].devices;
      && |after| == |before| && after[..k] == before[..k]
      && (forall i | k <= i < |before| :: after[i] == Back(before[i]))
    decreases |st.clients[c].devices| - k
  {
    var before := st.clients[c].devices;
    if k < |before| {
      var one := ActivateDevice(st, c, k);
      ActivateFromIs(one, c, k + 1);
      var after := ActivateFrom(one, c, k + 1).clients[c].devices;
      assert after[k] == after[..k + 1][k];
      assert after[..k] == after[..k + 1][..k];
    }
  }

  lemma {:induction false} ActivateFromLogs(st: State, c: nat, k: nat)
    requires c in st.clients && k <= |st.clients[c].devices|
    ensures var before, r := st.clients[c].devices, ActivateFrom(st, c, k);
      && st.log <= r.log
      && (forall i | k <= i < |before| && before[i].kind == Drm && !before[i].active ::
            Reactivated(c, before[i].id, Drm) in Since(st.log, r.log))
    decreases |st.clients[c].devices| - k
  {
    hide ActivateDevice;
    var before := st.clients[c].devices;
    if k < |before| {
      var one := ActivateDevice(st, c, k);
      ActivateOne(st, c, k);
      ActivateFromLogs(one, c, k + 1);
      var r := ActivateFrom(one, c, k + 1);
      assert Since(st.log, r.log) == Since(st.log, one.log) + Since(one.log, r.log);
      forall i | k <= i < |before| && before[i].kind == Drm && !before[i].active
        ensures Reactivated(c, before[i].id, Drm) in Since(st.log, r.log)
      {
        if i > k { assert one.clients[c].devices[i] == before[i]; }
      }
    }
  }

  lemma ActivateOne(st: State, c: nat, k: nat)
    requires c in st.clients && k < |st.clients[c].devices|
    ensures var d, r := st.clients[c].devices[k], ActivateDevice(st, c, k);
      && (forall i | 0 <= i < |st.clients[c].devices| && i != k :: r.clients[c].devices[i] == st.clients[c].devices[i])
      && st.log <= r.log
      && (d.kind == Drm && !d.active ==> Since(st.log, r.log) == [Reactivated(c, d.id, Drm)])
  {
  }

  lemma {:induction false} DeactivateFromIs(st: State, c: nat, k: nat, env: Env)
    requires c in st.clients && k <= |st.clients[c].devices|
    ensures var before, r := st.clients[c].devices, DeactivateFrom(st, c, k, env);
      var after := r.clients[c].devices;
      && |after| == |before| && after[..k] == before[..k]
      && (forall i | k <= i < |before| :: after[i] == Off(before[i], env))
    decreases |st.clients[c].devices| - k
  {
    var before := st.clients[c].devices;
    if k < |before| {
      var one := DeactivateDevice(st, c, k, env);
      DeactivateFromIs(one, c, k + 1, env);
      var r := DeactivateFrom(one, c, k + 1, env);
      assert r.clients[c].devices[k] == r.clients[c].devices[..k + 1][k];
      assert r.clients[c].devices[..k] == r.clients[c].devices[..k + 1][..k];
    }
  }

  // ------------------------------------------------------------ the seat is handed on

  /** A client has been made the active one, with its devices back; nobody else changed. */
  ghost predicate Enables(st: State, r: State, m: nat) {
    && m in st.clients && m in r.clients && r.active == Some(m) && r.next == None
    && r.clients[m].state == Active
    && r.clients[m].session == st.clients[m].session && r.clients[m].seated == st.clients[m].seated
    && AllBack(st.clients[m].devices, r.clients[m].devices)
    && AllLogged(st.clients[m].devices, st.log, r.log, m)
    && r == st.(active := Some(m), next := None, clients := st.clients[m := r.clients[m]], log := r.log)
  }

  lemma OpenClientIs(st: State, c: nat, env: Env)
    requires c in st.clients && st.active.None? && st.next.None? && Waits(st.clients[c].state)
    ensures var r := OpenClient(st, c, env).st;
      if st.vtBound && !env.vtOpens then r == st else Enables(st, r, c)
  {
    hide ActivateFrom;
    ActivateFromIs(st, c, 0);
    ActivateFromLogs(st, c, 0);
    var on := ActivateFrom(st, c, 0);
    var r := OpenClient(st, c, env).st;
    if !(st.vtBound && !env.vtOpens) {
      assert Since(st.log, r.log) == Since(st.log, on.log) + [Enable(c, st.clients[c].session, st.curVt)];
    }
  }

  /** Somebody on the current VT. */
  ghost predicate SomeoneThere(st: State) {
    st.curVt != -1 && exists x :: x in st.order && x in st.clients && st.clients[x].session == st.curVt
  }

  /** Who gets a vacant seat: the queued client; else, on a seat not bound to VTs, the
      first of the list; else a client of the current VT, if its terminal opens. */
  lemma ActivateFills(st: State, env: Env)
    requires Vacant(st) && Known(st)
    ensures var r := Activate(st, env).st;
      && (if r.active.Some? then Enables(st, r, r.active.value) && r.active.value in st.order else r == st)
      && (st.next.Some? ==> r.active == st.next)
      && (st.next.None? && !st.vtBound ==> r.active == if st.order == [] then None else Some(st.order[0]))
      && (st.vtBound ==>
            && (r.active.Some? <==> SomeoneThere(st) && env.vtOpens)
            && (r.active.Some? ==> r.clients[r.active.value].session == st.curVt))
  {
    hide OpenClient;
    var there := FindSession(st, st.order, st.curVt);
    if st.next.Some? {
      OpenClientIs(st.(next := None), st.next.value, env);
    } else if st.vtBound && there.Some? {
      OpenClientIs(st, there.value, env);
    } else if !st.vtBound && st.order != [] {
      OpenClientIs(st, st.order[0], env);
    }
  }

  // ------------------------------------------------------------ a step, client by client

  /** What a step does to all clients but one: whoever becomes active gets its devices
      back, nobody else's change, nobody stops being active, and all keep their sessions. */
  ghost predicate Tables(st: State, r: State, c: Option<nat>) {
    && st.log <= r.log
    && forall x | x in st.clients && x in r.clients && c != Some(x) ::
         var was, now := st.clients[x], r.clients[x];
         && (was.state == Active ==> now.state == Active) && now.session == was.session
         && if was.state != Active && now.state == Active then
              AllBack(was.devices, now.devices) && AllLogged(was.devices, st.log, r.log, x)
            else now.devices == was.devices
  }

  /** Who has the seat after it was given up: the client that was queued, if it is still
      there; else, on a seat not bound to VTs, the first of the list, and on one that is,
      a client of the current VT if there is one and its terminal opens. */
  ghost predicate PassedOn(next: Option<nat>, r: State, all: bool, some: bool) {
    && r.next == None
    && (r.active.Some? ==>
          && r.active.value in r.order && r.active.value in r.clients
          && r.clients[r.active.value].state == Active)
    && (if next.Some? && next.value in r.order then r.active == next
        else if !r.vtBound then r.active == if r.order == [] then None else Some(r.order[0])
        else
          && (SomeoneThere(r) && all ==> r.active.Some?)
          && (r.active.Some? ==> some && r.clients[r.active.value].session == r.curVt))
  }

  /** The seat stays where it is, and so does whoever is queued. */
  ghost predicate Stays(active: Option<nat>, next: Option<nat>, r: State) {
    && r.active == active
    && (next.Some? && next.value in r.order ==> r.next == next)
    && (next.None? ==> r.next.None?)
  }

  lemma SameThere(st: State, r: State)
    requires r.order == st.order && r.curVt == st.curVt
    requires forall x | x in r.order ::
      x in st.clients && x in r.clients && r.clients[x].session == st.clients[x].session
    ensures SomeoneThere(r) <==> SomeoneThere(st)
  {
  }

  lemma AllLoggedSince(devices: seq<Device>, log: seq<Event>, mid: seq<Event>, after: seq<Event>, c: nat)
    requires log <= mid && mid <= after
    requires AllLogged(devices, log, mid, c) || AllLogged(devices, mid, after, c)
    ensures AllLogged(devices, log, after, c)
  {
    assert Since(log, after) == Since(log, mid) + Since(mid, after);
  }

  /** An activation of a vacant state that the first one led to. */
  lemma FillIs(st: State, vacant: State, c: nat, env: Env)
    requires Vacant(vacant) && Known(vacant) && c in st.clients
    requires vacant.clients.Keys == st.clients.Keys && vacant.order == st.order
    requires vacant.vtBound == st.vtBound && vacant.curVt == st.curVt && st.log <= vacant.log
    requires vacant.next == st.next || (st.next == Some(c) && c !in st.order && vacant.next == None)
    requires forall x | x in st.clients && x != c :: vacant.clients[x] == st.clients[x]
    ensures var r := Activate(vacant, env).st;
      && PassedOn(st.next, r, env.vtOpens, env.vtOpens) && Tables(st, r, Some(c)) && vacant.log <= r.log
      && r.order == st.order && r.idle == vacant.idle && r.clients.Keys == st.clients.Keys
      && r.vtBound == st.vtBound && r.curVt == st.curVt
      && (r.active != Some(c) ==> r.clients[c] == vacant.clients[c])
      && (r.active == Some(c) ==> Enables(vacant, r, c))
  {
    hide Activate;
    ActivateFills(vacant, env);
    var r := Activate(vacant, env).st;
    SameThere(vacant, r);
    if r.active.Some? && r.active.value != c {
      AllLoggedSince(st.clients[r.active.value].devices, st.log, vacant.log, r.log, r.active.value);
    }
  }

  lemma AckIs(st: State, c: nat, env: Env)
    requires Inv(st) && Ready(st, c) && st.clients[c].seated && st.clients[c].state == PendingDisable
    ensures var r := HandleDisableSeat(st, c, env).st;
      && PassedOn(st.next, r, env.vtOpens, env.vtOpens) && Tables(st, r, Some(c)) && r.order == st.order
      && c in r.clients
      && (if r.active == Some(c) then
            && r.clients[c].state == Active && r.clients[c].session == st.clients[c].session
            && AllBack(st.clients[c].devices, r.clients[c].devices)
            && AllLogged(st.clients[c].devices, st.log, r.log, c)
          else r.clients[c] == st.clients[c].(state := Disabled))
  {
    hide NoDup, Books, HandOver, Activate, PassedOn, Tables, AllBack, AllLogged;
    SeatedIffInOrder(st, c);
    var vacant := Log(SetClient(st, c, st.clients[c].(state := Disabled)), Acked(c)).(active := None);
    AckedBase(st, c);
    FillIs(st, vacant, c, env);
    var r := Activate(vacant, env).st;
    if r.active == Some(c) { AllLoggedSince(st.clients[c].devices, st.log, vacant.log, r.log, c); }
  }

  // ------------------------------------------------------------ a client leaves

  lemma {:induction false} CloseAllGrows(st: State, c: nat, env: Env)
    requires c in st.clients && RefsPositive(st.clients[c].devices)
    ensures st.log <= CloseAll(st, c, env).log
    decreases SumRefs(st.clients[c].devices)
  {
    if st.clients[c].devices != [] {
      SumRefsDrops(st, c, env);
      var one := CloseDevice(st, c, 0, env);
      CloseFirst(st, c, env);
      CloseAllGrows(one, c, env);
    }
  }

  lemma CloseFirst(st: State, c: nat, env: Env)
    requires c in st.clients && RefsPositive(st.clients[c].devices) && st.clients[c].devices != []
    ensures var r := CloseDevice(st, c, 0, env); RefsPositive(r.clients[c].devices) && st.log <= r.log
  {
    var devices := st.clients[c].devices;
    assert devices[0 := devices[0].(refs := devices[0].refs - 1)][1..] == devices[1..];
    assert devices[..0] + devices[1..] == devices[1..];
  }

  /** A client that was unlinked from the seat's list gives up what it had. */
  lemma RemoveIs(st: State, c: nat, env: Env)
    requires Leaving(st, c) && Known(st) && RefsPositive(st.clients[c].devices)
    ensures var r := RemoveClient(st, c, env);
      && Tables(st, r, Some(c)) && r.order == st.order && r.clients.Keys == st.clients.Keys
      && r.vtBound == st.vtBound && r.curVt == st.curVt
      && r.clients[c].state == Closed && r.clients[c].devices == [] && r.clients[c].session == st.clients[c].session
      && (if st.active == Some(c) then PassedOn(st.next, r, env.vtOpens, env.vtOpens) else Stays(st.active, st.next, r))
  {
    hide Lists, Members, Books, HandOver, Activate, CloseAll, PassedOn, Tables, Stays;
    LeavingIsOut(st, c);
    UnseatedBase(st, c, env);
    var bare := Unseated(st, c, env);
    CloseAllGrows(Log(if st.next == Some(c) then st.(next := None) else st, Left(c)), c, env);
    CloseAllEmpty(bare, c, env);
    if bare.active == Some(c) {
      var vacant := bare.(active := None);
      UnseatedVacant(st, c, env);
      FillIs(st, vacant, c, env);
      OutsideIs(Activate(vacant, env).st, c, st.active, st.next, env.vtOpens);
    } else {
      LeftAlone(st, bare, c);
      OutsideIs(bare, c, st.active, st.next, env.vtOpens);
    }
  }

  lemma LeavingIsOut(st: State, c: nat)
    requires Leaving(st, c)
    ensures c !in st.order
  {
    hide NoDup;
  }

  lemma LeftAlone(st: State, bare: State, c: nat)
    requires c in st.clients && c !in st.order && st.log <= bare.log && c in bare.clients
    requires bare == st.(next := bare.next, clients := st.clients[c := bare.clients[c]], log := bare.log)
    requires bare.next == if st.next == Some(c) then None else st.next
    ensures Tables(st, bare, Some(c)) && Stays(st.active, st.next, bare)
  {
  }

  /** A client that is in no list is closed and no longer seated. */
  lemma OutsideIs(mid: State, c: nat, active: Option<nat>, next: Option<nat>, opens: bool)
    requires c in mid.clients && c !in mid.order
    ensures var closed := SetClient(mid, c, mid.clients[c].(state := Closed));
      var r := SetClient(closed, c, closed.clients[c].(seated := false));
      && (PassedOn(next, mid, opens, opens) ==> PassedOn(next, r, opens, opens))
      && (Stays(active, next, mid) ==> Stays(active, next, r))
      && (forall st :: Tables(st, mid, Some(c)) ==> Tables(st, r, Some(c)))
  {
    hide AllBack, AllLogged;
    var closed := SetClient(mid, c, mid.clients[c].(state := Closed));
    var r := SetClient(closed, c, closed.clients[c].(seated := false));
    assert SomeoneThere(r) <==> SomeoneThere(mid);
  }

  /** Only the client, which is in no list any more, and the idle list differ. */
  lemma ForgetIs(mid: State, r: State, c: nat, active: Option<nat>, next: Option<nat>, opens: bool)
    requires c !in mid.order
    requires r.clients == mid.clients || r.clients == mid.clients - {c}
    requires r == mid.(clients := r.clients, idle := r.idle)
    ensures PassedOn(next, mid, opens, opens) ==> PassedOn(next, r, opens, opens)
    ensures Stays(active, next, mid) ==> Stays(active, next, r)
    ensures forall st :: Tables(st, mid, Some(c)) ==> Tables(st, r, Some(c))
  {
    hide AllBack, AllLogged;
    assert SomeoneThere(r) ==> SomeoneThere(mid);
  }

  /** Nor does it matter which list was the one before. */
  lemma UnlinkedIs(st: State, unlinked: State, r: State, c: nat)
    requires unlinked == st.(order := unlinked.order, idle := unlinked.idle)
    ensures Tables(unlinked, r, Some(c)) == Tables(st, r, Some(c))
  {
    hide AllBack, AllLogged;
  }

  lemma CloseSeatIs(st: State, c: nat, env: Env)
    requires Inv(st) && Ready(st, c) && st.clients[c].seated
    ensures var r := HandleCloseSeat(st, c, env).st;
      && Tables(st, r, Some(c)) && r.order == Without(st.order, c)
      && c in r.clients && r.clients[c].state == Closed && r.clients[c].devices == []
      && r.clients[c].session == st.clients[c].session
      && (if st.active == Some(c) then PassedOn(st.next, r, env.vtOpens, env.vtOpens) else Stays(st.active, st.next, r))
  {
    hide NoDup, Books, HandOver, RemoveClient, PassedOn, Tables, Stays;
    InvIsNearly(st, c);
    UnlinkLeaves(st, c);
    var unlinked := st.(order := Without(st.order, c));
    RemoveIs(unlinked, c, env);
    var removed := RemoveClient(unlinked, c, env);
    ForgetIs(removed, removed.(idle := [c] + removed.idle), c, st.active, st.next, env.vtOpens);
    UnlinkedIs(st, unlinked, removed.(idle := [c] + removed.idle), c);
  }

  lemma DestroyIs(st: State, c: nat, env: Env)
    requires Nearly(st, c) && Ready(st, c)
    ensures var r := Destroy(st, c, env);
      && Tables(st, r, Some(c)) && r.order == Without(st.order, c) && c !in r.clients && r.curVt == st.curVt
      && (if st.active == Some(c) then PassedOn(st.next, r, env.vtOpens, env.vtOpens) else Stays(st.active, st.next, r))
  {
    hide NoDup, Books, HandOver, RemoveClient, PassedOn, Tables;
    SeatedIffInOrder(st, c);
    var unlinked := st.(order := Without(st.order, c), idle := Without(st.idle, c));
    var left := Depart(st, c, env);
    if st.clients[c].seated {
      WithoutAbsent(st.idle, c);
      UnlinkLeaves(st, c);
      RemoveIs(unlinked, c, env);
    } else {
      WithoutAbsent(st.order, c);
      TablesRefl(unlinked, c);
    }
    ForgetIs(left, left.(clients := left.clients - {c}), c, st.active, st.next, env.vtOpens);
    UnlinkedIs(st, unlinked, left.(clients := left.clients - {c}), c);
  }

  lemma TablesRefl(st: State, c: nat)
    ensures Tables(st, st, Some(c))
  {
  }

  // ------------------------------------------------------------ devices are opened and closed

  ghost predicate HasPath(devices: seq<Device>, path: string) {
    exists i :: 0 <= i < |devices| && devices[i].path == path
  }

  /** An open that the daemon can do: by the active client, of a supported device, which
      is in the table or fits it and can be opened. */
  ghost predicate CanOpen(cl: Client, env: Env) {
    && cl.seated && cl.state == Active && env.resolved.Resolves?
    && (HasPath(cl.devices, env.resolved.path) || (|cl.devices| < MAX_SEAT_DEVICES && env.opens))
  }

  /** One reference more to one device, and nothing else. */
  ghost predicate CountedOn(before: seq<Device>, after: seq<Device>, path: string) {
    exists k :: 0 <= k < |before| && before[k].path == path
      && after == before[k := before[k].(refs := before[k].refs + 1)]
  }

  /** Ids are not skipped: a new one is 1, or the next after one in use. */
  lemma {:induction false} NextIdIsNext(devices: seq<Device>)
    ensures NextId(devices) == 1 || HasId(devices, NextId(devices) - 1)
  {
    if devices != [] {
      var front, last := devices[..|devices| - 1], devices[|devices| - 1];
      NextIdIsNext(front);
      if last.id >= NextId(front) {
        assert devices[|devices| - 1].id == NextId(devices) - 1;
      } else if NextId(front) != 1 {
        var i :| 0 <= i < |front| && front[i].id == NextId(front) - 1;
        assert devices[i].id == NextId(devices) - 1;
      }
    }
  }

  /** A new device, with an id of its own, before the others. */
  ghost predicate Added(before: seq<Device>, after: seq<Device>, path: string, kind: Kind) {
    && |after| == |before| + 1 && after[1..] == before
    && after[0] == Device(after[0].id, path, kind, 1, true)
    && (after[0].id == 1 || HasId(before, after[0].id - 1))
    && after[0].id > 0 && forall i | 0 <= i < |before| :: before[i].id < after[0].id
  }

  /** One reference less, or the device is gone. */
  ghost predicate CountedOff(before: seq<Device>, after: seq<Device>, id: int) {
    exists k :: 0 <= k < |before| && before[k].id == id
      && after == if before[k].refs > 1 then before[k := before[k].(refs := before[k].refs - 1)]
                  else before[..k] + before[k + 1..]
  }

  ghost predicate HasId(devices: seq<Device>, id: int) {
    exists i :: 0 <= i < |devices| && devices[i].id == id
  }

  /** What an open request does to its client's table: a device that cannot be passed on
      is closed again. */
  ghost predicate Opening(was: Client, now: Client, env: Env) {
    && now == was.(devices := now.devices)
    && if !CanOpen(was, env) || !env.dups then now.devices == was.devices
       else if HasPath(was.devices, env.resolved.path) then
         CountedOn(was.devices, now.devices, env.resolved.path)
       else Added(was.devices, now.devices, env.resolved.path, env.resolved.kind)
  }

  ghost predicate Closing(was: Client, now: Client, id: int) {
    && now == was.(devices := now.devices)
    && if was.seated && HasId(was.devices, id) then CountedOff(was.devices, now.devices, id)
       else now.devices == was.devices
  }

  /** A request that touches only the devices of its client. */
  ghost predicate Only(st: State, r: State, c: nat) {
    && c in st.clients && c in r.clients && st.log <= r.log
    && r == st.(clients := st.clients[c := r.clients[c]], log := r.log)
  }

  lemma OnlyIs(st: State, r: State, c: nat)
    requires Only(st, r, c)
    ensures Tables(st, r, Some(c)) && Stays(st.active, st.next, r) && r.order == st.order
  {
    hide AllBack, AllLogged;
  }

  lemma CloseGrows(st: State, c: nat, k: nat, env: Env)
    requires c in st.clients && k < |st.clients[c].devices| && st.clients[c].devices[k].refs > 0
    ensures var before, r := st.clients[c].devices, CloseDevice(st, c, k, env);
      && st.log <= r.log
      && r.clients[c].devices == if before[k].refs > 1 then before[k := before[k].(refs := before[k].refs - 1)]
                                 else before[..k] + before[k + 1..]
  {
  }

  lemma FoundAgain(st: State, c: nat, env: Env)
    requires Ready(st, c) && st.clients[c].seated && OpenDevice(st, c, env).OpenedAt?
    requires HasPath(st.clients[c].devices, env.resolved.path)
    ensures var before, r := st.clients[c].devices, OpenDevice(st, c, env);
      && CanOpen(st.clients[c], env) && Only(st, r.st, c)
      && r.k < |before| && before[r.k].path == env.resolved.path && before[r.k].refs > 0
      && r.st.clients[c] == st.clients[c].(devices := before[r.k := before[r.k].(refs := before[r.k].refs + 1)])
  {
    RefsPositiveAt(st.clients[c].devices, OpenDevice(st, c, env).k);
  }

  lemma FoundNew(st: State, c: nat, env: Env)
    requires Ready(st, c) && st.clients[c].seated && OpenDevice(st, c, env).OpenedAt?
    requires !HasPath(st.clients[c].devices, env.resolved.path)
    ensures var before, r := st.clients[c].devices, OpenDevice(st, c, env);
      && CanOpen(st.clients[c], env) && Only(st, r.st, c) && r.k == 0
      && r.st.clients[c] == st.clients[c].(devices := r.st.clients[c].devices)
      && Added(before, r.st.clients[c].devices, env.resolved.path, env.resolved.kind)
  {
    NextIdIsNext(st.clients[c].devices);
  }

  lemma NotFound(st: State, c: nat, env: Env)
    requires Ready(st, c) && st.clients[c].seated
    ensures OpenDevice(st, c, env).NotOpened? <==> !CanOpen(st.clients[c], env)
    ensures OpenDevice(st, c, env).OpenedAt? ==> env.resolved.Resolves?
  {
  }

  /** A device that was open already, and is closed again if it cannot be passed on. */
  lemma OpenedAgain(st: State, c: nat, env: Env)
    requires Ready(st, c) && st.clients[c].seated && OpenDevice(st, c, env).OpenedAt?
    requires HasPath(st.clients[c].devices, env.resolved.path)
    ensures var r := HandleOpenDevice(st, c, env).st;
      Only(st, r, c) && Opening(st.clients[c], r.clients[c], env)
  {
    hide CloseDevice, OpenDevice, CanOpen, Added, RefsPositive;
    var before, r := st.clients[c].devices, OpenDevice(st, c, env);
    FoundAgain(st, c, env);
    CloseGrows(r.st, c, r.k, env);
    var after := r.st.clients[c].devices;
    assert after[r.k := after[r.k].(refs := after[r.k].refs - 1)] == before;
  }

  lemma OpenedNew(st: State, c: nat, env: Env)
    requires Ready(st, c) && st.clients[c].seated && OpenDevice(st, c, env).OpenedAt?
    requires !HasPath(st.clients[c].devices, env.resolved.path)
    ensures var r := HandleOpenDevice(st, c, env).st;
      Only(st, r, c) && Opening(st.clients[c], r.clients[c], env)
  {
    hide CloseDevice, OpenDevice, CanOpen, HasPath, CountedOn, RefsPositive;
    var before, r := st.clients[c].devices, OpenDevice(st, c, env);
    FoundNew(st, c, env);
    CloseGrows(r.st, c, r.k, env);
    var after := r.st.clients[c].devices;
    assert after[..0] + after[1..] == before;
  }

  lemma OpenDeviceIs(st: State, c: nat, env: Env)
    requires Ready(st, c)
    ensures var r := HandleOpenDevice(st, c, env).st;
      Only(st, r, c) && Opening(st.clients[c], r.clients[c], env)
  {
    hide OpenDevice, CloseDevice, CanOpen, HasPath, CountedOn, Added, RefsPositive;
    if !st.clients[c].seated {
      NotSeated(st.clients[c], env);
    } else {
      NotFound(st, c, env);
      if OpenDevice(st, c, env).OpenedAt? {
        if HasPath(st.clients[c].devices, env.resolved.path) {
          OpenedAgain(st, c, env);
        } else {
          OpenedNew(st, c, env);
        }
      }
    }
  }

  lemma NotSeated(cl: Client, env: Env)
    ensures CanOpen(cl, env) ==> cl.seated
  {
  }

  lemma CloseDeviceIs(st: State, c: nat, id: int, env: Env)
    requires Ready(st, c)
    ensures var r := HandleCloseDevice(st, c, id, env).st;
      Only(st, r, c) && Closing(st.clients[c], r.clients[c], id)
  {
    hide CloseDevice;
    var devices := st.clients[c].devices;
    var k := FindId(devices, id);
    if st.clients[c].seated && k.Some? {
      RefsPositiveAt(devices, k.value);
      CloseGrows(st, c, k.value, env);
    }
  }

  // ------------------------------------------------------------ the other requests

  /** Who is queued once a request has been handled: whoever was, or whom a switch request
      of the active client names. */
  function Wanted(st: State, req: Request): (w: Option<nat>)
    requires Known(st)
  {
    if st.next.Some? then st.next
    else if req.SwitchSession? && st.active == Some(req.c) && st.clients[req.c].state == Active
      && !st.vtBound && req.session > 0 && req.session != st.clients[req.c].session then
      FindSession(st, st.order, req.session)
    else None
  }

  lemma DisableIs(st: State, c: nat, env: Env)
    requires c in st.clients && st.clients[c].state == Active
    ensures var r := DisableClient(st, c, env).st;
      && Only(st, r, c) && r.log != [] && r.log[|r.log| - 1] == Disable(c) && st.log < r.log
      && r.clients[c] == st.clients[c].(state := PendingDisable, devices := r.clients[c].devices)
      && AllOff(st.clients[c].devices, r.clients[c].devices, env)
  {
    hide DeactivateFrom;
    DeactivateFromIs(st, c, 0, env);
    DeactivateFromGrows(st, c, 0, env);
  }

  lemma {:induction false} DeactivateFromGrows(st: State, c: nat, k: nat, env: Env)
    requires c in st.clients && k <= |st.clients[c].devices|
    ensures st.log <= DeactivateFrom(st, c, k, env).log
    decreases |st.clients[c].devices| - k
  {
    if k < |st.clients[c].devices| { DeactivateFromGrows(DeactivateDevice(st, c, k, env), c, k + 1, env); }
  }

  /** The active client lets go of what it holds, and the client it names is queued. */
  lemma SwitchIs(st: State, c: nat, session: int, env: Env)
    requires Inv(st) && Ready(st, c)
    ensures var r := HandleSwitchSession(st, c, session, env).st;
      && Tables(st, r, Some(c)) && Stays(st.active, Wanted(st, SwitchSession(c, session)), r) && r.order == st.order
      && c in r.clients
      && (if Wanted(st, SwitchSession(c, session)) != st.next then
            && st.clients[c].state == Active && r.next == Wanted(st, SwitchSession(c, session))
            && r.clients[c] == st.clients[c].(state := PendingDisable, devices := r.clients[c].devices)
            && AllOff(st.clients[c].devices, r.clients[c].devices, env)
          else r == st)
  {
    hide NoDup, Books, HandOver, DisableClient, AllOff;
    SeatedIffInOrder(st, c);
    TablesRefl(st, c);
    var queued := st.(next := FindSession(st, st.order, session));
    if Wanted(st, SwitchSession(c, session)) != st.next {
      DisableIs(queued, c, env);
      OnlyIs(queued, DisableClient(queued, c, env).st, c);
      hide AllBack, AllLogged;
    }
  }

  // ------------------------------------------------------------ a client comes to the seat

  /** Whom the seat takes: a client that had no session before; and on a seat bound to VTs
      only on a VT it can tell, which is not another client's, while nobody holds it. */
  ghost predicate Admits(st: State, c: nat, vt: int) {
    && c in st.clients && st.clients[c].session == -1
    && (st.vtBound ==>
          && vt != -1
          && (st.active.Some? && st.active.value in st.clients ==>
                && st.clients[st.active.value].state == PendingDisable
                && forall x | x in st.order && x in st.clients :: st.clients[x].session != vt))
  }

  /** What an open-seat request does: a client that is taken is the first of the list and
      gets a session, and the seat too if it is vacant. */
  ghost predicate Comes(st: State, r: State, c: nat, env: Env) {
    && c in st.clients && c in r.clients
    && if !Admits(st, c, CurVtAfter(st, env)) then r == st.(curVt := r.curVt)
       else
         && r.order == [c] + st.order && r.clients[c].seated && r.clients[c].devices == st.clients[c].devices
         && r.clients[c].session == (if st.vtBound then CurVtAfter(st, env) else st.sessionCnt)
         && (!st.vtBound ==> r.sessionCnt == st.sessionCnt + 1)
         && if st.active.None? && env.replies && (st.vtBound ==> env.vtOpens) then
              r.active == Some(c) && r.clients[c].state == Active
            else r.active == st.active && r.next == st.next && r.clients[c].state == New
  }

  lemma AdmitsIff(st: State, c: nat, env: Env)
    requires Inv(st) && Ready(st, c)
    ensures var added := AddClient(st, c, env);
      && (added.ok <==> Admits(st, c, CurVtAfter(st, env)))
      && added.st.log == st.log && added.st.active == st.active && added.st.next == st.next
      && added.st.order == st.order && added.st.vtBound == st.vtBound
      && (forall x | x in st.clients && x != c :: added.st.clients[x] == st.clients[x])
      && (added.ok && !st.vtBound ==> added.st.sessionCnt == st.sessionCnt + 1)
      && (added.ok ==>
            added.st.clients[c] == st.clients[c].(seated := true,
              session := if st.vtBound then CurVtAfter(st, env) else st.sessionCnt))
      && (!added.ok ==> added.st == st.(curVt := added.st.curVt))
  {
    hide NoDup, Books, HandOver;
    SeatedIffInOrder(st, c);
  }

  lemma NewHasNothing(st: State, c: nat)
    requires Inv(st) && c in st.clients && st.clients[c].session == -1
    ensures st.clients[c].state == New && st.clients[c].devices == [] && c !in st.order
  {
    hide NoDup, Books, HandOver;
    SeatedIffInOrder(st, c);
  }

  lemma OpenSeatIs(st: State, c: nat, env: Env)
    requires Inv(st) && Ready(st, c)
    ensures var r := HandleOpenSeat(st, c, env).st;
      && Comes(st, r, c, env) && Tables(st, r, Some(c)) && c in r.clients
      && (st.active.Some? ==> Stays(st.active, st.next, r))
      && r.clients[c].devices == st.clients[c].devices
      && (r.order == st.order || r.order == [c] + st.order)
  {
    hide NoDup, Books, HandOver, AddClient, OpenClient, Admits, CurVtAfter, AllBack;
    AdmitsIff(st, c, env);
    var added := AddClient(st, c, env);
    if added.ok {
      assert st.clients[c].session == -1 by { AdmittedIsNew(st, c, CurVtAfter(st, env)); }
      NewHasNothing(st, c);
      var linked := added.st.(idle := Without(added.st.idle, c), order := [c] + added.st.order);
      if st.active.None? {
        OpenClientIs(linked, c, env);
        NoDevices(OpenClient(linked, c, env).st, c, linked);
      } else {
        OpenBusy(linked, c, env);
      }
    }
  }

  lemma AdmittedIsNew(st: State, c: nat, vt: int)
    requires Admits(st, c, vt)
    ensures c in st.clients && st.clients[c].session == -1
  {
  }

  lemma NoDevices(r: State, c: nat, st: State)
    requires c in st.clients && c in r.clients && st.clients[c].devices == []
    ensures AllBack(st.clients[c].devices, r.clients[c].devices) ==> r.clients[c].devices == []
  {
  }
}
