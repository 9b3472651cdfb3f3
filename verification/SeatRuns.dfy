/** Whole runs of the seat daemon: what holds after any sequence of requests, however
    the system calls answer. */
module SeatRuns {
  import opened SeatModel
  import opened SeatLog
  import opened SeatDevices
  import opened SeatInvariant
  import opened SeatSteps

  // ---------------------------------------------------------------- one request

  lemma HandleKeeps(st: State, c: nat, req: Request, env: Env)
    requires Inv(st) && c in st.clients && Ready(st, c)
    ensures var r := Handle(st, c, req, env);
      && Nearly(r.st, c) && Ready(r.st, c) && (r.ok ==> Inv(r.st))
      && r.st.born == st.born && r.st.vtBound == st.vtBound
  {
    hide Inv, Nearly, HandleOpenSeat, HandleCloseSeat, HandleOpenDevice, HandleCloseDevice,
      HandleSwitchSession, HandleDisableSeat, Ready;
    match req {
      case OpenSeat(_) => OpenSeatKeeps(st, c, env);
      case CloseSeat(_) => CloseSeatKeeps(st, c, env);
      case OpenDeviceReq(_) => OpenDeviceKeeps(st, c, env);
      case CloseDeviceReq(_, id) => CloseDeviceKeeps(st, c, id, env);
      case SwitchSession(_, session) => SwitchKeeps(st, c, session, env);
      case DisableSeat(_) => AckKeeps(st, c, env);
      case _ =>
    }
    var r := Handle(st, c, req, env);
    if !req.OpenSeat? {
      assert Inv(r.st) && c in r.st.clients;
      InvIsNearly(r.st, c);
    }
    NearlyReady(r.st, c);
  }

  lemma NearlyReady(st: State, c: nat)
    requires Nearly(st, c)
    ensures Ready(st, c)
  {
    hide Base, Owner, Queue, Ready;
    NearlyIsReady(st, c);
  }

  /** One turn of the daemon: a connection, a VT signal, or a message of a client that is
      there. A message that cannot be handled or answered costs the client its
      connection, in an environment of its own. */
  function Step(st: State, req: Request, env: Env, after: Env): (r: State)
    requires Inv(st)
  {
    if req.Connect? then Arrive(st)
    else if req.SignalAcquire? then InvKnown(st); VtActivate(st, env)
    else if req.SignalRelease? then InvKnown(st); VtRelease(st, env)
    else if req.c !in st.clients then st
    else
      InvIsNearly(st, req.c);
      HandleKeeps(st, req.c, req, env);
      var r := Handle(st, req.c, req, env);
      if r.ok && env.flushes then r.st else Destroy(r.st, req.c, after)
  }

  lemma InvKnown(st: State)
    requires Inv(st)
    ensures Known(st)
  {
    hide NoDup, HandOver, Books;
  }

  lemma ArriveKeeps(st: State)
    requires Inv(st)
    ensures Inv(Arrive(st))
  {
    hide Accounted, Disciplined, NoDup;
    var r := Arrive(st);
    ArriveLists(st);
    assert Members(r);
    ArriveBooks(st);
    ArriveHandOver(st);
    hide Lists, Members, Books, HandOver;
  }

  lemma ArriveLists(st: State)
    requires Lists(st, None)
    ensures Lists(Arrive(st), None)
  {
    assert st.born !in st.idle;
    PushNoDup(st.idle, st.born);
    hide NoDup;
    assert Arrive(st).clients.Keys == st.clients.Keys + {st.born};
  }

  lemma ArriveBooks(st: State)
    requires Books(st) && st.born !in st.clients
    ensures Books(Arrive(st))
  {
    hide Enabled;
    assert Accounted([], st.log, st.born);
    hide Accounted;
  }

  lemma ArriveHandOver(st: State)
    requires HandOver(st, None) && Books(st) && st.born !in st.order && st.born !in st.clients
    ensures HandOver(Arrive(st), None)
  {
    hide Disciplined, Enabled, Awaited, Accounted;
  }

  lemma VtActivateKeeps(st: State, env: Env)
    requires Inv(st) && Known(st)
    ensures var r := VtActivate(st, env); Inv(r) && r.born == st.born && r.vtBound == st.vtBound
  {
    hide NoDup, Books, HandOver, Activate;
    if st.vtBound {
      var now := st.(curVt := CurVtAfter(st, env));
      VtIsNoMatter(st, now.curVt);
      if now.active.None? { ActivateVacant(now, None, env); }
    }
  }

  lemma VtReleaseKeeps(st: State, env: Env)
    requires Inv(st) && Known(st)
    ensures var r := VtRelease(st, env); Inv(r) && r.born == st.born && r.vtBound == st.vtBound
  {
    hide NoDup, Books, HandOver, DisableClient;
    if st.vtBound {
      var now := st.(curVt := CurVtAfter(st, env));
      VtIsNoMatter(st, now.curVt);
      var off := now;
      if now.active.Some? {
        off := DisableClient(now, now.active.value, env).st;
        if now.clients[now.active.value].state == Active {
          DisableKeeps(now, now.active.value, env);
        } else {
          DisableNothing(now, now.active.value, env);
        }
      }
      VtIsNoMatter(off, -1);
    }
  }

  lemma DisableNothing(st: State, c: nat, env: Env)
    requires c in st.clients && st.clients[c].state != Active
    ensures DisableClient(st, c, env).st == st
  {
  }

  lemma StepKeeps(st: State, req: Request, env: Env, after: Env)
    requires Inv(st)
    ensures Inv(Step(st, req, env, after))
    ensures Step(st, req, env, after).vtBound == st.vtBound
  {
    hide Inv, Handle, Destroy, VtActivate, VtRelease;
    InvKnown(st);
    if req.Connect? { ArriveKeeps(st); }
    else if req.SignalAcquire? { VtActivateKeeps(st, env); }
    else if req.SignalRelease? { VtReleaseKeeps(st, env); }
    else if req.c in st.clients {
      InvIsNearly(st, req.c);
      HandleKeeps(st, req.c, req, env);
      var r := Handle(st, req.c, req, env);
      if !(r.ok && env.flushes) { DestroyKeeps(r.st, req.c, after); }
    }
  }

  // ---------------------------------------------------------------- exclusive devices

  lemma OpenSeatExclusive(st: State, c: nat, env: Env)
    requires Inv(st) && c in st.clients && Ready(st, c) && Exclusive(st)
    ensures Exclusive(HandleOpenSeat(st, c, env).st)
  {
    hide NoDup, Books, HandOver, OpenClient, AddClient, AlwaysOneHolder, Exclusive, Ready;
    AddedExclusive(st, c, env);
    var added := AddClient(st, c, env);
    if added.ok {
      AddedBase(st, c, env);
      var linked := Linked(added.st, c);
      if linked.active.None? {
        OpenVacantExclusive(linked, c, None, env);
      } else {
        OpenBusy(linked, c, env);
      }
    }
  }

  /** Getting a session and a place in the list changes no device. */
  lemma AddedExclusive(st: State, c: nat, env: Env)
    requires c in st.clients && Known(st) && Exclusive(st)
    ensures var added := AddClient(st, c, env);
      Exclusive(added.st) && Exclusive(Linked(added.st, c))
  {
    hide AlwaysOneHolder;
    var added := AddClient(st, c, env);
    forall x | x in added.st.clients && added.st.clients[x].state != Active
      ensures Actives(added.st.clients[x].devices) == {}
    {
      assert added.st.clients[x].devices == st.clients[x].devices;
    }
  }

  lemma CloseSeatExclusive(st: State, c: nat, env: Env)
    requires Inv(st) && Ready(st, c) && Exclusive(st)
    ensures Exclusive(HandleCloseSeat(st, c, env).st)
  {
    hide NoDup, Books, HandOver, RemoveClient, AlwaysOneHolder;
    if st.clients[c].seated {
      InvIsNearly(st, c);
      UnlinkLeaves(st, c);
      RemoveExclusive(st.(order := Without(st.order, c)), c, env);
    }
  }

  lemma OthersBare(st: State, c: nat)
    requires Inv(st) && c in st.clients && st.clients[c].state == Active
    ensures forall x | x in st.clients && x != c :: Bare(st.clients[x])
  {
    hide NoDup, Books, HandOver;
    SeatedIffInOrder(st, c);
    forall x | x in st.clients && x != c ensures Bare(st.clients[x]) { SeatedIffInOrder(st, x); }
  }

  lemma OpenDeviceExclusive(st: State, c: nat, env: Env)
    requires Inv(st) && Ready(st, c) && Exclusive(st)
    ensures Exclusive(HandleOpenDevice(st, c, env).st)
  {
    hide NoDup, Books, HandOver, OpenDevice, CloseDevice, Quiet, Accounted, AlwaysOneHolder;
    if st.clients[c].seated && OpenDevice(st, c, env).OpenedAt? {
      var now, k := OpenDevice(st, c, env).st, OpenDevice(st, c, env).k;
      OpenNeedsActive(st, c, env);
      OthersBare(st, c);
      NobodyHolds(st, c);
      BooksAt(st, c);
      OpenTidy(st, c, env);
      CloseTidy(now, c, k, env);
    }
  }

  lemma CloseDeviceExclusive(st: State, c: nat, id: int, env: Env)
    requires Inv(st) && Ready(st, c) && Exclusive(st)
    ensures Exclusive(HandleCloseDevice(st, c, id, env).st)
  {
    hide NoDup, Books, HandOver, CloseDevice, Quiet, Accounted, AlwaysOneHolder;
    var k := FindId(st.clients[c].devices, id);
    if st.clients[c].seated && k.Some? {
      RefsPositiveAt(st.clients[c].devices, k.value);
      BooksAt(st, c);
      CloseTidy(st, c, k.value, env);
    }
  }

  lemma DisableExclusive(st: State, c: nat, env: Env)
    requires Books(st) && c in st.clients && Exclusive(st) && env.dropFails == {}
    ensures Exclusive(DisableClient(st, c, env).st)
  {
    hide DeactivateFrom, Quiet, Accounted, AlwaysOneHolder;
    if st.clients[c].state == Active {
      var off := DeactivateFrom(st, c, 0, env);
      BooksAt(st, c);
      DeactivateFromTidy(st, c, 0, env);
      var pending := SetClient(off, c, off.clients[c].(state := PendingDisable));
      EventKeepsExclusive(pending, Disable(c));
    }
  }

  lemma SwitchExclusive(st: State, c: nat, session: int, env: Env)
    requires Inv(st) && Ready(st, c) && Exclusive(st) && env.dropFails == {}
    ensures Exclusive(HandleSwitchSession(st, c, session, env).st)
  {
    hide NoDup, HandOver, DisableClient, AlwaysOneHolder, Books;
    var queued := st.(next := FindSession(st, st.order, session));
    NextBase(st, queued);
    if st.active.Some? { DisableExclusive(queued, st.active.value, env); }
  }

  lemma AckExclusive(st: State, c: nat, env: Env)
    requires Inv(st) && Ready(st, c) && Exclusive(st)
    ensures Exclusive(HandleDisableSeat(st, c, env).st)
  {
    hide NoDup, Books, HandOver, Activate, AlwaysOneHolder;
    if st.clients[c].seated && st.clients[c].state == PendingDisable {
      SeatedIffInOrder(st, c);
      var disabled := SetClient(st, c, st.clients[c].(state := Disabled));
      EventKeepsExclusive(disabled, Acked(c));
      AckedBase(st, c);
      ActivateExclusive(Log(disabled, Acked(c)).(active := None), None, env);
    }
  }

  lemma DestroyExclusive(st: State, c: nat, env: Env)
    requires Nearly(st, c) && Ready(st, c) && Exclusive(st)
    ensures Exclusive(Destroy(st, c, env))
  {
    hide NoDup, Books, HandOver, RemoveClient, AlwaysOneHolder;
    SeatedIffInOrder(st, c);
    if st.clients[c].seated {
      WithoutAbsent(st.idle, c);
      UnlinkLeaves(st, c);
      RemoveExclusive(st.(order := Without(st.order, c)), c, env);
    }
  }

  lemma HandleExclusive(st: State, c: nat, req: Request, env: Env)
    requires Inv(st) && c in st.clients && Ready(st, c) && Exclusive(st) && env.dropFails == {}
    ensures Exclusive(Handle(st, c, req, env).st)
  {
    hide Inv, Exclusive, HandleOpenSeat, HandleCloseSeat, HandleOpenDevice, HandleCloseDevice,
      HandleSwitchSession, HandleDisableSeat, Ready;
    match req {
      case OpenSeat(_) => OpenSeatExclusive(st, c, env);
      case CloseSeat(_) => CloseSeatExclusive(st, c, env);
      case OpenDeviceReq(_) => OpenDeviceExclusive(st, c, env);
      case CloseDeviceReq(_, id) => CloseDeviceExclusive(st, c, id, env);
      case SwitchSession(_, session) => SwitchExclusive(st, c, session, env);
      case DisableSeat(_) => AckExclusive(st, c, env);
      case _ =>
    }
  }

  lemma VtExclusive(st: State, env: Env)
    requires Inv(st) && Known(st) && Exclusive(st) && env.dropFails == {}
    ensures Exclusive(VtActivate(st, env)) && Exclusive(VtRelease(st, env))
  {
    hide NoDup, Books, HandOver, Activate, DisableClient, AlwaysOneHolder;
    var now := st.(curVt := CurVtAfter(st, env));
    VtIsNoMatter(st, now.curVt);
    if now.active.None? {
      ActivateExclusive(now, None, env);
    } else {
      DisableExclusive(now, now.active.value, env);
    }
  }

  lemma StepExclusive(st: State, req: Request, env: Env, after: Env)
    requires Inv(st) && Exclusive(st) && env.dropFails == {}
    ensures Exclusive(Step(st, req, env, after))
  {
    hide Inv, Handle, Destroy, VtActivate, VtRelease, AlwaysOneHolder;
    InvKnown(st);
    if req.SignalAcquire? || req.SignalRelease? { VtExclusive(st, env); }
    else if !req.Connect? && req.c in st.clients {
      InvIsNearly(st, req.c);
      HandleKeeps(st, req.c, req, env);
      HandleExclusive(st, req.c, req, env);
      var r := Handle(st, req.c, req, env);
      if !(r.ok && env.flushes) { DestroyExclusive(r.st, req.c, after); }
    }
  }

  // ---------------------------------------------------------------- runs

  datatype Turn = Turn(req: Request, env: Env, after: Env)

  lemma InitInv(vtBound: bool)
    ensures Inv(Init(vtBound)) && Exclusive(Init(vtBound))
  {
  }

  /** The state after a sequence of turns, first to last. */
  function Run(st: State, turns: seq<Turn>): State
    requires Inv(st)
    decreases |turns|
  {
    if turns == [] then st
    else
      StepKeeps(st, turns[0].req, turns[0].env, turns[0].after);
      Run(Step(st, turns[0].req, turns[0].env, turns[0].after), turns[1..])
  }

  /** Every state a run reaches keeps the whole invariant. */
  lemma {:induction false} RunKeeps(st: State, turns: seq<Turn>)
    requires Inv(st)
    ensures Inv(Run(st, turns)) && Run(st, turns).vtBound == st.vtBound
    decreases |turns|
  {
    hide Inv, Step;
    if turns != [] {
      StepKeeps(st, turns[0].req, turns[0].env, turns[0].after);
      RunKeeps(Step(st, turns[0].req, turns[0].env, turns[0].after), turns[1..]);
    }
  }

  predicate DropsSucceed(turns: seq<Turn>) {
    turns == [] || (turns[0].env.dropFails == {} && DropsSucceed(turns[1..]))
  }

  lemma {:induction false} RunExclusive(st: State, turns: seq<Turn>)
    requires Inv(st) && Exclusive(st) && DropsSucceed(turns)
    ensures Exclusive(Run(st, turns))
    decreases |turns|
  {
    hide Inv, Exclusive, Step;
    if turns != [] {
      StepKeeps(st, turns[0].req, turns[0].env, turns[0].after);
      StepExclusive(st, turns[0].req, turns[0].env, turns[0].after);
      RunExclusive(Step(st, turns[0].req, turns[0].env, turns[0].after), turns[1..]);
    }
  }

  /** Whatever was true of a log all along is true at each point of it. */
  lemma {:induction false} EveryPoint(log: seq<Event>, vtBound: bool, k: nat)
    requires k <= |log|
    ensures AlwaysOneHolder(log) ==> OneHolder(log[..k])
    ensures Disciplined(log, vtBound) ==> Disciplined(log[..k], vtBound)
    decreases |log|
  {
    hide OneHolder;
    if k == |log| {
      assert log[..k] == log;
    } else {
      EveryPoint(log[..|log| - 1], vtBound, k);
      assert log[..|log| - 1][..k] == log[..k];
    }
  }

  // ---------------------------------------------------------------- what runs guarantee

  /** The state a daemon reaches from its start. */
  function Reached(vtBound: bool, turns: seq<Turn>): State {
    InitInv(vtBound);
    Run(Init(vtBound), turns)
  }

  lemma ReachedKeeps(vtBound: bool, turns: seq<Turn>)
    ensures Inv(Reached(vtBound, turns)) && Reached(vtBound, turns).vtBound == vtBound
  {
    hide Inv, Run;
    InitInv(vtBound);
    RunKeeps(Init(vtBound), turns);
  }

  /** The active client is exactly the one client that holds the seat; a queued client
      is another one, waiting, while the active one has been asked to let go; pointers
      and lists agree. */
  lemma OwnershipOverRuns(vtBound: bool, turns: seq<Turn>)
    ensures var st := Reached(vtBound, turns);
      && (forall c | c in st.clients :: Holds(st.clients[c].state) <==> st.active == Some(c))
      && (forall c | c in st.clients :: st.clients[c].seated <==> c in st.order)
      && (st.active.Some? ==> st.active.value in st.clients && st.active.value in st.order)
      && (st.next.Some? ==>
            && st.next != st.active && st.next.value in st.order
            && st.next.value in st.clients && Waits(st.clients[st.next.value].state)
            && st.active.Some? && st.clients[st.active.value].state == PendingDisable)
  {
    hide NoDup, Books, HandOver, Reached;
    var st := Reached(vtBound, turns);
    ReachedKeeps(vtBound, turns);
    forall c | c in st.clients
      ensures (st.clients[c].seated <==> c in st.order) && (Holds(st.clients[c].state) <==> st.active == Some(c))
    {
      SeatedIffInOrder(st, c);
    }
  }

  /** A seat not bound to VTs always has an active client while it has any. */
  lemma NeverIdleOverRuns(turns: seq<Turn>, c: nat)
    ensures var st := Reached(false, turns);
      c in st.clients && st.clients[c].seated ==> st.active.Some?
  {
    hide NoDup, Books, HandOver, Reached;
    var st := Reached(false, turns);
    ReachedKeeps(false, turns);
    if c in st.clients { SeatedIffInOrder(st, c); }
  }

  /** At every point of every run: enables and disables alternate, no enable while a
      disabled client is awaited, VT-bound enables only on the client's own VT, and only
      DRM devices come back. */
  lemma HandOverOverRuns(vtBound: bool, turns: seq<Turn>, k: nat)
    requires k <= |Reached(vtBound, turns).log|
    ensures Disciplined(Reached(vtBound, turns).log[..k], vtBound)
  {
    hide NoDup, Books, Reached, Disciplined;
    ReachedKeeps(vtBound, turns);
    EveryPoint(Reached(vtBound, turns).log, vtBound, k);
  }

  /** If every drop-master and revoke call succeeds, two clients never hold devices at
      the same point of a run; between requests the holder is the active client, in
      state Active. */
  lemma ExclusiveOverRuns(vtBound: bool, turns: seq<Turn>, k: nat)
    requires DropsSucceed(turns)
    requires k <= |Reached(vtBound, turns).log|
    ensures var st := Reached(vtBound, turns);
      && OneHolder(st.log[..k])
      && forall c | c in st.clients && Actives(st.clients[c].devices) != {} ::
           st.active == Some(c) && st.clients[c].state == Active
  {
    hide Inv, Run, AlwaysOneHolder, OneHolder;
    InitInv(vtBound);
    RunExclusive(Init(vtBound), turns);
    assert Reached(vtBound, turns) == Run(Init(vtBound), turns);
    EveryPoint(Reached(vtBound, turns).log, vtBound, k);
    OwnershipOverRuns(vtBound, turns);
  }

  /** Every device table is sound: distinct positive ids, distinct paths, a bounded
      number of entries, and reference counts that are opens minus closes. */
  lemma AccountsOverRuns(vtBound: bool, turns: seq<Turn>, c: nat, path: string)
    ensures var st := Reached(vtBound, turns);
      c in st.clients ==>
        && Distinct(st.clients[c].devices) && |st.clients[c].devices| <= MAX_SEAT_DEVICES
        && References(st.log, c, path) == RefsOf(st.clients[c].devices, path)
  {
    hide Reached, HandOver, Distinct, References;
    var st := Reached(vtBound, turns);
    ReachedKeeps(vtBound, turns);
    if c in st.clients { BooksAt(st, c); }
  }
}
