/** What a turn of the daemon makes of every client and of the seat, over whole runs: who
    gets the seat when it is given up, and which devices come back with it. */
module SeatFates {
  import opened SeatModel
  import opened SeatLog
  import opened SeatDevices
  import opened SeatInvariant
  import opened SeatSteps
  import opened SeatRuns
  import opened SeatEffects
  import SeatSessions

  // ------------------------------------------------------------ one request

  /** The active client hands the seat back, or leaves it. */
  predicate GivesUp(st: State, req: Request)
  {
    && st.active.Some? && st.active.value in st.clients
    && (|| req == CloseSeat(st.active.value)
        || (req == DisableSeat(st.active.value) && st.clients[st.active.value].state == PendingDisable))
  }

  /** What a request does to the client it comes from, if that is still there. */
  ghost predicate Own(st: State, r: State, c: nat, req: Request, env: Env) {
    && c in st.clients && c in r.clients
    && var was, now := st.clients[c], r.clients[c];
       match req
       case OpenDeviceReq(_) => Opening(was, now, env)
       case CloseDeviceReq(_, id) => Closing(was, now, id)
       case CloseSeat(_) =>
         if was.seated then now.state == Closed && now.devices == [] && now.session == was.session else now == was
       case SwitchSession(_, _) =>
         if now.state != was.state then
           && was.state == Active && AllOff(was.devices, now.devices, env)
           && now == was.(state := PendingDisable, devices := now.devices)
         else now == was
       case DisableSeat(_) =>
         if was.state != PendingDisable then now == was
         else if now.state == Active then
           && AllBack(was.devices, now.devices) && AllLogged(was.devices, st.log, r.log, c)
           && now.session == was.session
         else now == was.(state := Disabled)
       case OpenSeat(_) => now.devices == was.devices && (was.state != New ==> now == was)
       case _ => now == was
  }

  /** The same, request by request. */
  ghost predicate Handled(st: State, r: State, c: nat, req: Request, env: Env)
    requires Known(st)
  {
    && Tables(st, r, Some(c)) && Own(st, r, c, req, env)
    && (if GivesUp(st, req) then PassedOn(st.next, r, env.vtOpens, env.vtOpens)
        else st.active.Some? ==> Stays(st.active, Wanted(st, req), r))
    && (req.OpenSeat? ==> Comes(st, r, c, env))
    && (if req.CloseSeat? then r.order == Without(st.order, c)
        else if req.OpenSeat? then r.order == [c] + st.order || r.order == st.order
        else r.order == st.order)
  }

  lemma NothingIs(st: State, c: nat)
    ensures Tables(st, st, Some(c)) && Stays(st.active, st.next, st)
  {
  }

  lemma WantsNobody(st: State, req: Request)
    requires Known(st)
    requires !req.SwitchSession?
    ensures Wanted(st, req) == st.next
  {
  }

  lemma HandleSwitch(st: State, c: nat, session: int, env: Env)
    requires Inv(st) && Ready(st, c)
    ensures Handled(st, HandleSwitchSession(st, c, session, env).st, c, SwitchSession(c, session), env)
  {
    hide Inv, Tables, Stays, HandleSwitchSession, AllOff, Wanted, Ready;
    ReadyIs(st, c);
    SwitchIs(st, c, session, env);
  }

  lemma HandleAck(st: State, c: nat, env: Env)
    requires Inv(st) && Ready(st, c)
    ensures Handled(st, HandleDisableSeat(st, c, env).st, c, DisableSeat(c), env)
  {
    hide NoDup, Books, HandOver, Tables, Stays, PassedOn, AllBack, AllLogged, Wanted, Activate;
    SeatedIffInOrder(st, c);
    WantsNobody(st, DisableSeat(c));
    NothingIs(st, c);
    if st.clients[c].seated && st.clients[c].state == PendingDisable { AckIs(st, c, env); }
  }

  lemma HandleClose(st: State, c: nat, env: Env)
    requires Inv(st) && Ready(st, c)
    ensures Handled(st, HandleCloseSeat(st, c, env).st, c, CloseSeat(c), env)
  {
    hide NoDup, Books, HandOver, Tables, Stays, PassedOn, Wanted, RemoveClient;
    SeatedIffInOrder(st, c);
    WantsNobody(st, CloseSeat(c));
    NothingIs(st, c);
    if st.clients[c].seated { CloseSeatIs(st, c, env); } else { WithoutAbsent(st.order, c); }
  }

  lemma HandleOpen(st: State, c: nat, env: Env)
    requires Inv(st) && Ready(st, c)
    ensures Handled(st, HandleOpenSeat(st, c, env).st, c, OpenSeat(c), env)
  {
    hide Base, Owner, Queue, Busy, Tables, Stays, PassedOn, Wanted, HandleOpenSeat;
    WantsNobody(st, OpenSeat(c));
    OpenSeatIs(st, c, env);
    ComesNew(st, HandleOpenSeat(st, c, env).st, c, env);
  }

  lemma ComesNew(st: State, r: State, c: nat, env: Env)
    requires Inv(st) && Comes(st, r, c, env)
    ensures c in st.clients && c in r.clients && (st.clients[c].state != New ==> r.clients[c] == st.clients[c])
  {
    hide Base, Owner, Queue, Busy, CurVtAfter;
    if st.clients[c].session == -1 { NewHasNothing(st, c); }
  }

  lemma HandleDevices(st: State, c: nat, id: int, env: Env)
    requires Inv(st) && Ready(st, c)
    ensures Handled(st, HandleOpenDevice(st, c, env).st, c, OpenDeviceReq(c), env)
    ensures Handled(st, HandleCloseDevice(st, c, id, env).st, c, CloseDeviceReq(c, id), env)
  {
    hide Inv, Tables, Stays, Wanted, HandleOpenDevice, HandleCloseDevice, Opening, Closing, Ready, Only;
    ReadyIs(st, c);
    WantsNobody(st, OpenDeviceReq(c));
    WantsNobody(st, CloseDeviceReq(c, id));
    OpenDeviceIs(st, c, env);
    OnlyIs(st, HandleOpenDevice(st, c, env).st, c);
    OnlyThere(st, HandleOpenDevice(st, c, env).st, c);
    CloseDeviceIs(st, c, id, env);
    OnlyIs(st, HandleCloseDevice(st, c, id, env).st, c);
    OnlyThere(st, HandleCloseDevice(st, c, id, env).st, c);
  }

  lemma ReadyIs(st: State, c: nat)
    requires Ready(st, c)
    ensures Known(st) && c in st.clients
  {
  }

  lemma OnlyThere(st: State, r: State, c: nat)
    requires Only(st, r, c)
    ensures c in st.clients && c in r.clients
  {
  }

  lemma HandleIs(st: State, c: nat, req: Request, env: Env)
    requires Inv(st) && c in st.clients && Ready(st, c) && FromClient(req) && req.c == c
    ensures Handled(st, Handle(st, c, req, env).st, c, req, env)
  {
    hide Inv, Handled, HandleOpenSeat, HandleCloseSeat, HandleOpenDevice, HandleCloseDevice,
      HandleSwitchSession, HandleDisableSeat, Ready;
    ReadyIs(st, c);
    match req {
      case OpenSeat(_) => HandleOpen(st, c, env);
      case CloseSeat(_) => HandleClose(st, c, env);
      case OpenDeviceReq(_) => HandleDevices(st, c, 0, env);
      case CloseDeviceReq(_, id) => HandleDevices(st, c, id, env);
      case SwitchSession(_, session) => HandleSwitch(st, c, session, env);
      case DisableSeat(_) => HandleAck(st, c, env);
      case _ => HandleNothing(st, c, req, env);
    }
  }

  lemma HandleNothing(st: State, c: nat, req: Request, env: Env)
    requires Known(st) && c in st.clients && (req.Ping? || req.ProtocolError?)
    ensures Handled(st, st, c, req, env)
  {
    hide Tables, Stays;
    NothingIs(st, c);
  }

  // ------------------------------------------------------------ one turn

  lemma WantedIsThere(st: State, req: Request)
    requires Inv(st) && Known(st)
    ensures Wanted(st, req).Some? ==> Wanted(st, req).value in st.order && Wanted(st, req) != st.active
  {
    hide NoDup, Books, HandOver;
  }

  /** The seat was handed on while a request was handled, and then its client was dropped. */
  lemma PassedThenDropped(next: Option<nat>, mid: State, r: State, c: nat, one: bool, two: bool)
    requires PassedOn(next, mid, one, one) && r.order == Without(mid.order, c)
    requires if mid.active == Some(c) then PassedOn(mid.next, r, two, two) else Stays(mid.active, mid.next, r)
    requires Tables(mid, r, Some(c)) && r.vtBound == mid.vtBound && r.curVt == mid.curVt
    requires forall x | x in r.order ::
      x in mid.clients && x in r.clients && mid.clients[x].session == r.clients[x].session
    ensures PassedOn(next, r, one && two, one || two)
  {
    hide AllBack, AllLogged;
    assert SomeoneThere(r) ==> SomeoneThere(mid);
    if mid.active != Some(c) && mid.active.Some? { assert mid.active.value in r.order; }
  }

  lemma StaysThenDropped(st: State, next: Option<nat>, mid: State, r: State, c: nat, opens: bool)
    requires Stays(st.active, next, mid) && r.order == Without(mid.order, c)
    requires next.Some? ==> next != st.active && (next.value in mid.order || next == Some(c))
    requires if mid.active == Some(c) then PassedOn(mid.next, r, opens, opens) else Stays(mid.active, mid.next, r)
    ensures if st.active == Some(c) then PassedOn(next, r, opens, opens) else Stays(st.active, next, r)
  {
    hide SomeoneThere;
  }

  lemma AnyOpens(next: Option<nat>, r: State, a: bool, b: bool)
    ensures PassedOn(next, r, a, a) ==> PassedOn(next, r, a && b, a || b) && PassedOn(next, r, b && a, b || a)
  {
  }

  /** What a turn makes of the seat while a client has it. */
  ghost predicate Turned(st: State, r: State, req: Request, env: Env, after: Env)
    requires Known(st)
  {
    st.active.Some? ==>
      if st.active.value !in r.clients || GivesUp(st, req) then
        PassedOn(Wanted(st, req), r, env.vtOpens && after.vtOpens, env.vtOpens || after.vtOpens)
      else Stays(st.active, Wanted(st, req), r)
  }

  lemma DropIs(st: State, c: nat, env: Env)
    requires Nearly(st, c) && Ready(st, c)
    ensures var r := Destroy(st, c, env);
      && r.order == Without(st.order, c) && c !in r.clients && r.curVt == st.curVt && r.vtBound == st.vtBound
      && Tables(st, r, Some(c))
      && (if st.active == Some(c) then PassedOn(st.next, r, env.vtOpens, env.vtOpens) else Stays(st.active, st.next, r))
      && (forall x | x in r.order ::
            x in st.clients && x in r.clients && st.clients[x].session == r.clients[x].session)
  {
    hide Destroy, Tables, PassedOn, Stays, NoDup, Books, HandOver;
    DestroyIs(st, c, env);
    DestroyKeeps(st, c, env);
    SeatSessions.DestroySame(st, c, env);
  }

  /** A request that is handled, and then costs its client the connection. */
  lemma TurnDropped(st: State, c: nat, req: Request, env: Env, mid: State, after: Env)
    requires Inv(st) && Known(st) && c in st.clients && Handled(st, mid, c, req, env) && FromClient(req) && req.c == c
    requires Nearly(mid, c) && Ready(mid, c)
    ensures Turned(st, Destroy(mid, c, after), req, env, after)
  {
    hide Inv, Nearly, Ready, Tables, PassedOn, Own, Comes, Destroy, Wanted;
    DropIs(mid, c, after);
    var r := Destroy(mid, c, after);
    WantedIsThere(st, req);
    if st.active.Some? {
      if GivesUp(st, req) {
        WantsNobody(st, req);
        PassedThenDropped(st.next, mid, r, c, env.vtOpens, after.vtOpens);
      } else {
        WantedStaysListed(st, mid, c, req, env);
        StaysThenDropped(st, Wanted(st, req), mid, r, c, after.vtOpens);
        AnyOpens(Wanted(st, req), r, after.vtOpens, env.vtOpens);
        if st.active != Some(c) {
          DestroyKeeps(mid, c, after);
          ActiveThere(r);
        }
      }
    }
  }

  lemma ActiveThere(st: State)
    requires Inv(st)
    ensures st.active.Some? ==> st.active.value in st.clients
  {
    hide Base;
    InvKnown(st);
  }

  lemma WantedStaysListed(st: State, mid: State, c: nat, req: Request, env: Env)
    requires Known(st) && FromClient(req) && req.c == c && Handled(st, mid, c, req, env) && !GivesUp(st, req)
    requires Wanted(st, req).Some? ==> Wanted(st, req).value in st.order
    requires st.active.Some?
    ensures Wanted(st, req).Some? ==> Wanted(st, req).value in mid.order || Wanted(st, req) == Some(c)
    ensures Stays(st.active, Wanted(st, req), mid)
  {
    hide Tables, PassedOn, Stays, Own, Comes, Wanted;
  }

  lemma SignalsTurn(st: State, env: Env, after: Env)
    requires Inv(st) && Known(st)
    ensures Turned(st, VtActivate(st, env), SignalAcquire, env, after)
    ensures Turned(st, VtRelease(st, env), SignalRelease, env, after)
  {
    hide Base, Queue, Busy, DisableClient, PassedOn;
    if st.vtBound && st.active.Some? {
      var now, c := st.(curVt := CurVtAfter(st, env)), st.active.value;
      if st.clients[c].state == Active { DisableIs(now, c, env); } else { DisableNothing(now, c, env); }
    }
  }

  lemma StepTurns(st: State, req: Request, env: Env, after: Env)
    requires Inv(st) && Known(st)
    ensures Turned(st, Step(st, req, env, after), req, env, after)
  {
    hide Inv, Handle, Destroy, VtActivate, VtRelease, Handled, PassedOn;
    ActiveThere(st);
    if req.SignalAcquire? || req.SignalRelease? {
      SignalsTurn(st, env, after);
    } else if !req.Connect? && req.c in st.clients {
      var c := req.c;
      InvIsNearly(st, c);
      HandleKeeps(st, c, req, env);
      HandleIs(st, c, req, env);
      var r := Handle(st, c, req, env);
      if r.ok && env.flushes {
        HandledTurns(st, r.st, c, req, env, after);
      } else {
        TurnDropped(st, c, req, env, r.st, after);
      }
    }
  }

  lemma HandledTurns(st: State, r: State, c: nat, req: Request, env: Env, after: Env)
    requires Inv(st) && Known(st) && Inv(r) && FromClient(req) && req.c == c && Handled(st, r, c, req, env)
    ensures Turned(st, r, req, env, after)
  {
    hide Inv, Tables, PassedOn, Stays, Own, Comes, Wanted;
    ActiveThere(r);
    if GivesUp(st, req) {
      WantsNobody(st, req);
      AnyOpens(st.next, r, env.vtOpens, after.vtOpens);
    } else if st.active.Some? {
      StaysActive(st, r, Wanted(st, req));
    }
  }

  lemma StaysActive(st: State, r: State, next: Option<nat>)
    requires Stays(st.active, next, r)
    ensures r.active == st.active
  {
  }

  // ------------------------------------------------------------ tables, turn by turn

  /** What a turn makes of a client's table and state: it does what a request of its own
      says; one that becomes active has its devices back; one that a released VT takes the
      seat from loses them; nobody else's change. */
  ghost predicate Fate(st: State, r: State, x: nat, req: Request, env: Env)
    requires x in st.clients && x in r.clients
  {
    var was, now := st.clients[x], r.clients[x];
    if FromClient(req) && req.c == x then Own(st, r, x, req, env)
    else if was.state != Active && now.state == Active then
      && AllBack(was.devices, now.devices) && AllLogged(was.devices, st.log, r.log, x)
      && now.session == was.session
    else if was.state == Active && now.state != Active then
      && req.SignalRelease? && now == was.(state := PendingDisable, devices := now.devices)
      && AllOff(was.devices, now.devices, env)
    else now.devices == was.devices && now.session == was.session
  }

  lemma TablesTwice(st: State, mid: State, r: State, c: nat, x: nat)
    requires Tables(st, mid, Some(c)) && Tables(mid, r, Some(c)) && x != c
    requires x in st.clients && x in mid.clients && x in r.clients
    ensures var was, now := st.clients[x], r.clients[x];
      && (was.state == Active ==> now.state == Active)
      && if was.state != Active && now.state == Active then
           AllBack(was.devices, now.devices) && AllLogged(was.devices, st.log, r.log, x)
         else now.devices == was.devices
    ensures r.clients[x].session == st.clients[x].session
  {
    hide AllBack, AllLogged;
    if st.clients[x].state != Active && r.clients[x].state == Active {
      AllLoggedSince(st.clients[x].devices, st.log, mid.log, r.log, x);
    }
  }

  lemma SignalsFate(st: State, env: Env, x: nat)
    requires Inv(st) && Known(st) && x in st.clients
    ensures x in VtActivate(st, env).clients && Fate(st, VtActivate(st, env), x, SignalAcquire, env)
    ensures x in VtRelease(st, env).clients && Fate(st, VtRelease(st, env), x, SignalRelease, env)
  {
    hide Base, Queue, Busy, DisableClient, Activate, AllBack, AllLogged, AllOff;
    if st.vtBound {
      var now := st.(curVt := CurVtAfter(st, env));
      if st.active.Some? {
        var c := st.active.value;
        if st.clients[c].state == Active { DisableIs(now, c, env); } else { DisableNothing(now, c, env); }
      } else {
        InvVacant(st, now);
        ActivateFills(now, env);
      }
    }
  }

  lemma InvVacant(st: State, now: State)
    requires Inv(st) && st.active.None? && now == st.(curVt := now.curVt)
    ensures Vacant(now)
  {
    hide NoDup, Books, HandOver;
  }

  lemma DroppedFate(st: State, mid: State, c: nat, req: Request, env: Env, after: Env, x: nat)
    requires Known(st) && FromClient(req) && req.c == c && Handled(st, mid, c, req, env)
    requires Nearly(mid, c) && Ready(mid, c)
    requires x in st.clients && x in Destroy(mid, c, after).clients
    ensures Fate(st, Destroy(mid, c, after), x, req, env)
  {
    hide Known, Nearly, Ready, Destroy, Tables, Own, AllBack, AllLogged, PassedOn, Stays, Comes, GivesUp;
    DropIs(mid, c, after);
    KeptIn(mid, c, after, x);
    TablesTwice(st, mid, Destroy(mid, c, after), c, x);
  }

  lemma KeptIn(mid: State, c: nat, after: Env, x: nat)
    requires Ready(mid, c) && x in Destroy(mid, c, after).clients
    ensures x in mid.clients
  {
    hide Destroy, Ready;
    SeatSessions.DestroySame(mid, c, after);
    assert x in Destroy(mid, c, after).clients.Keys;
  }

  lemma HandledFate(st: State, r: State, c: nat, req: Request, env: Env, x: nat)
    requires Known(st) && FromClient(req) && req.c == c && Handled(st, r, c, req, env)
    requires x in st.clients && x in r.clients
    ensures Fate(st, r, x, req, env)
  {
    hide Known, Own, AllBack, AllLogged, PassedOn, Stays, Comes, GivesUp;
  }

  lemma StepFates(st: State, req: Request, env: Env, after: Env, x: nat)
    requires Inv(st) && Known(st) && x in st.clients && x in Step(st, req, env, after).clients
    ensures Fate(st, Step(st, req, env, after), x, req, env)
  {
    hide Inv, Handle, Destroy, VtActivate, VtRelease, Handled, Fate;
    if req.Connect? {
      ArriveSame(st, x);
      SameFate(st, Arrive(st), x, req, env);
    } else if req.SignalAcquire? || req.SignalRelease? {
      SignalsFate(st, env, x);
    } else if req.c in st.clients {
      var c := req.c;
      InvIsNearly(st, c);
      HandleKeeps(st, c, req, env);
      HandleIs(st, c, req, env);
      var r := Handle(st, c, req, env);
      if r.ok && env.flushes {
        HandledFate(st, r.st, c, req, env, x);
      } else {
        DroppedFate(st, r.st, c, req, env, after, x);
      }
    } else {
      SameFate(st, st, x, req, env);
    }
  }

  lemma SameFate(st: State, r: State, x: nat, req: Request, env: Env)
    requires x in st.clients && x in r.clients && r.clients[x] == st.clients[x]
    requires FromClient(req) ==> req.c != x
    ensures Fate(st, r, x, req, env)
  {
  }

  lemma ArriveSame(st: State, x: nat)
    requires Inv(st) && x in st.clients
    ensures x in Arrive(st).clients && Arrive(st).clients[x] == st.clients[x]
  {
    hide Books, HandOver, NoDup;
  }

  // ------------------------------------------------------------ DRM devices come back

  ghost predicate DrmActive(devices: seq<Device>) {
    forall i | 0 <= i < |devices| && devices[i].kind == Drm :: devices[i].active
  }

  /** Every DRM device of an active client is active. */
  ghost predicate DrmThere(st: State) {
    forall x | x in st.clients && st.clients[x].state == Active :: DrmActive(st.clients[x].devices)
  }

  lemma BackIsActive(before: seq<Device>, after: seq<Device>)
    requires AllBack(before, after)
    ensures DrmActive(after)
  {
  }

  lemma OwnKeepsDrm(st: State, r: State, c: nat, req: Request, env: Env)
    requires Own(st, r, c, req, env) && r.clients[c].state == Active
    requires st.clients[c].state == Active ==> DrmActive(st.clients[c].devices)
    requires st.clients[c].state == New ==> st.clients[c].devices == []
    ensures DrmActive(r.clients[c].devices)
  {
    hide AllLogged, CanOpen, HasPath, HasId;
    match req
    case OpenDeviceReq(_) =>
    case CloseDeviceReq(_, id) =>
    case DisableSeat(_) =>
      if st.clients[c].state == PendingDisable { BackIsActive(st.clients[c].devices, r.clients[c].devices); }
    case _ =>
  }

  lemma StepKeepsDrm(st: State, req: Request, env: Env, after: Env)
    requires Inv(st) && Known(st) && DrmThere(st)
    ensures DrmThere(Step(st, req, env, after))
  {
    hide Inv, Step, Own, AllBack, AllLogged, AllOff, DrmActive, Known;
    var r := Step(st, req, env, after);
    forall x | x in r.clients && r.clients[x].state == Active ensures DrmActive(r.clients[x].devices) {
      if x in st.clients {
        StepFates(st, req, env, after, x);
        NewIsBare(st, x);
        if FromClient(req) && req.c == x { OwnKeepsDrm(st, r, x, req, env); }
        else if st.clients[x].state != Active { BackIsActive(st.clients[x].devices, r.clients[x].devices); }
      } else {
        NewcomerIsNew(st, req, env, after, x);
      }
    }
  }

  lemma NewIsBare(st: State, x: nat)
    requires Inv(st) && x in st.clients
    ensures st.clients[x].state == New ==> st.clients[x].devices == []
  {
    hide NoDup, Books, HandOver;
    SeatedIffInOrder(st, x);
  }

  lemma NewcomerIsNew(st: State, req: Request, env: Env, after: Env, x: nat)
    requires Inv(st) && x !in st.clients && x in Step(st, req, env, after).clients
    ensures req.Connect? && Step(st, req, env, after).clients[x] == Client(New, -1, false, [])
  {
    hide Inv, Handle, Destroy, VtActivate, VtRelease, Step;
    if req.Connect? { ArriveIs(st, req, env, after); } else { NobodyElse(st, req, env, after); }
    assert x in Step(st, req, env, after).clients.Keys;
  }

  lemma ArriveIs(st: State, req: Request, env: Env, after: Env)
    requires Inv(st) && req.Connect?
    ensures Step(st, req, env, after).clients == st.clients[st.born := Client(New, -1, false, [])]
  {
    hide Inv;
  }

  lemma NobodyElse(st: State, req: Request, env: Env, after: Env)
    requires Inv(st) && !req.Connect?
    ensures Step(st, req, env, after).clients.Keys <= st.clients.Keys
  {
    hide Inv, Handle, Destroy, VtActivate, VtRelease;
    InvKnown(st);
    if req.SignalAcquire? || req.SignalRelease? {
      SeatSessions.VtSame(st, env);
    } else if req.c in st.clients {
      InvIsNearly(st, req.c);
      HandleKeeps(st, req.c, req, env);
      HandleKeys(st, req.c, req, env);
      SeatSessions.DestroySame(Handle(st, req.c, req, env).st, req.c, after);
    }
  }

  lemma HandleKeys(st: State, c: nat, req: Request, env: Env)
    requires Ready(st, c)
    ensures Handle(st, c, req, env).st.clients.Keys == st.clients.Keys
  {
    hide AddClient, OpenClient, RemoveClient, OpenDevice, CloseDevice, DisableClient, Activate;
  }

  // ------------------------------------------------------------ the list is in order

  /** Off VTs the clients of the list came one after the other, the latest first. */
  ghost predicate Latest(order: seq<nat>, clients: map<nat, Client>) {
    && (forall x | x in order :: x in clients)
    && forall i, j | 0 <= i < j < |order| :: clients[order[i]].session > clients[order[j]].session
  }

  lemma LatestSame(order: seq<nat>, before: map<nat, Client>, after: map<nat, Client>)
    requires Latest(order, before)
    requires forall x | x in order :: x in after && x in before && after[x].session == before[x].session
    ensures Latest(order, after)
  {
  }

  lemma {:induction false} LatestWithout(order: seq<nat>, c: nat, clients: map<nat, Client>)
    requires Latest(order, clients)
    ensures Latest(Without(order, c), clients)
    decreases |order|
  {
    if order != [] {
      var rest := Without(order[1..], c);
      assert forall i, j | 0 <= i < j < |order[1..]| :: order[1..][i] == order[i + 1] && order[1..][j] == order[j + 1];
      LatestWithout(order[1..], c, clients);
      forall x | x in rest ensures x in clients && clients[order[0]].session > clients[x].session {
        assert x in order[1..];
      }
      if order[0] != c { LatestMore(rest, order[0], clients); }
    }
  }

  lemma LatestMore(order: seq<nat>, c: nat, clients: map<nat, Client>)
    requires Latest(order, clients) && c in clients
    requires forall x | x in order :: clients[x].session < clients[c].session
    ensures Latest([c] + order, clients)
  {
  }

  lemma OwnSession(st: State, r: State, c: nat, req: Request, env: Env)
    requires Own(st, r, c, req, env) && !req.OpenSeat?
    ensures r.clients[c].session == st.clients[c].session
  {
    hide AllBack, AllLogged, AllOff, CanOpen, HasPath, HasId, CountedOn, CountedOff, Added;
  }

  lemma ComesLast(st: State, r: State, c: nat, env: Env)
    requires !st.vtBound && SeatSessions.Sessions(st) && Latest(st.order, st.clients) && c !in st.order
    requires Comes(st, r, c, env)
    requires forall x | x in st.order :: x in r.clients && r.clients[x].session == st.clients[x].session
    ensures Latest(r.order, r.clients)
  {
    hide Admits;
    LatestSame(st.order, st.clients, r.clients);
    if Admits(st, c, CurVtAfter(st, env)) { LatestMore(st.order, c, r.clients); }
  }

  lemma HandledLatest(st: State, r: State, c: nat, req: Request, env: Env)
    requires Inv(st) && Known(st) && !st.vtBound && SeatSessions.Sessions(st) && Latest(st.order, st.clients)
    requires FromClient(req) && req.c == c && Handled(st, r, c, req, env) && Known(r)
    ensures Latest(r.order, r.clients)
  {
    hide Lists, Members, Books, HandOver, Owner, Queue, Busy, AllBack, AllLogged, PassedOn, Stays, Own, Comes;
    hide SeatSessions.Sessions, Latest;
    OwnThere(st, r, c, req, env);
    if req.OpenSeat? {
      if c in st.order {
        ComesNot(st, r, c, env);
      } else {
        assert forall x | x in st.order :: x in r.clients by { OrderKept(st, r, c, env); }
        ComesLast(st, r, c, env);
      }
    } else {
      OwnSession(st, r, c, req, env);
      LatestWithout(st.order, c, st.clients);
      assert forall x | x in r.order :: x in st.clients;
      LatestSame(r.order, st.clients, r.clients);
    }
  }

  lemma OwnThere(st: State, r: State, c: nat, req: Request, env: Env)
    requires Own(st, r, c, req, env)
    ensures c in st.clients && c in r.clients
  {
    hide Opening, Closing, AllBack, AllLogged, AllOff;
  }

  /** A client of the list is not taken again. */
  lemma ComesNot(st: State, r: State, c: nat, env: Env)
    requires Inv(st) && c in st.order && Comes(st, r, c, env)
    ensures r.order == st.order && r.clients == st.clients
  {
    hide NoDup, Books, HandOver, CurVtAfter;
  }

  lemma OrderKept(st: State, r: State, c: nat, env: Env)
    requires Known(r) && Comes(st, r, c, env)
    ensures forall x | x in st.order :: x in r.clients
  {
    hide Admits, CurVtAfter;
    forall x | x in st.order ensures x in r.clients { assert x in r.order; }
  }

  lemma StepLatest(st: State, req: Request, env: Env, after: Env)
    requires Inv(st) && Known(st) && !st.vtBound && SeatSessions.Sessions(st) && Latest(st.order, st.clients)
    ensures var r := Step(st, req, env, after); Latest(r.order, r.clients)
  {
    hide Inv, Handle, Destroy, Handled, SeatSessions.Sessions;
    if req.Connect? {
      ArriveIs(st, req, env, after);
      NewcomerApart(st);
    } else if FromClient(req) && req.c in st.clients {
      var c := req.c;
      InvIsNearly(st, c);
      HandleKeeps(st, c, req, env);
      HandleIs(st, c, req, env);
      var mid := Handle(st, c, req, env).st;
      ReadyIs(mid, c);
      HandledLatest(st, mid, c, req, env);
      DropIs(mid, c, after);
      LatestWithout(mid.order, c, mid.clients);
      LatestSame(Without(mid.order, c), mid.clients, Destroy(mid, c, after).clients);
    }
  }

  lemma NewcomerApart(st: State)
    requires Inv(st)
    ensures st.born !in st.clients
  {
    hide NoDup, Books, HandOver;
  }

  // ------------------------------------------------------------ whole runs

  lemma {:induction false} RunKeepsAll(st: State, turns: seq<Turn>)
    requires Inv(st) && DrmThere(st)
    requires !st.vtBound ==> SeatSessions.Sessions(st) && Latest(st.order, st.clients)
    ensures var r := Run(st, turns);
      DrmThere(r) && (!st.vtBound ==> SeatSessions.Sessions(r) && Latest(r.order, r.clients))
    decreases |turns|
  {
    hide Inv, Step, DrmThere, Latest, SeatSessions.Sessions;
    if turns != [] {
      var t := turns[0];
      InvKnown(st);
      StepKeeps(st, t.req, t.env, t.after);
      StepKeepsDrm(st, t.req, t.env, t.after);
      if !st.vtBound {
        SeatSessions.StepSessions(st, t.req, t.env, t.after);
        StepLatest(st, t.req, t.env, t.after);
      }
      RunKeepsAll(Step(st, t.req, t.env, t.after), turns[1..]);
    }
  }

  lemma ReachedAll(vtBound: bool, turns: seq<Turn>)
    ensures var st := Reached(vtBound, turns);
      && Inv(st) && Known(st) && st.vtBound == vtBound && DrmThere(st)
      && (!vtBound ==> Latest(st.order, st.clients))
  {
    hide Inv, Run;
    InitInv(vtBound);
    ReachedKeeps(vtBound, turns);
    InvKnown(Reached(vtBound, turns));
    RunKeepsAll(Init(vtBound), turns);
  }

  /** The active client hands the seat back, or leaves it, or loses its connection. */
  predicate SeatIsFree(st: State, r: State, req: Request) {
    st.active.Some? && (st.active.value !in r.clients || GivesUp(st, req))
  }

  /** Whoever is queued, if only by the request at hand, gets the seat when it is given up
      and has not left by then; and stays queued until then. */
  lemma QueuedGetsTheSeat(vtBound: bool, turns: seq<Turn>, t: Turn, n: nat)
    ensures var st := Reached(vtBound, turns);
      Inv(st) && Known(st) &&
      var r := Step(st, t.req, t.env, t.after);
      st.active.Some? && Wanted(st, t.req) == Some(n) && n in r.order ==>
        if SeatIsFree(st, r, t.req) then
          r.active == Some(n) && r.next == None && n in r.clients && r.clients[n].state == Active
        else r.active == st.active && r.next == Some(n)
  {
    hide Inv, Reached, Step;
    ReachedAll(vtBound, turns);
    StepTurns(Reached(vtBound, turns), t.req, t.env, t.after);
  }

  /** With nobody queued, on a seat not bound to VTs, it is the client that came last of
      those that are left. */
  lemma LatestGetsTheSeat(turns: seq<Turn>, t: Turn)
    ensures var st := Reached(false, turns);
      Inv(st) && Known(st) &&
      var r := Step(st, t.req, t.env, t.after);
      st.active.Some? && (Wanted(st, t.req).None? || Wanted(st, t.req).value !in r.order) ==>
        if !SeatIsFree(st, r, t.req) then r.active == st.active
        else if r.order == [] then r.active == None
        else
          && r.active.Some? && r.active.value in r.order && r.active.value in r.clients
          && r.clients[r.active.value].state == Active
          && forall x | x in r.order :: x in r.clients && r.clients[x].session <= r.clients[r.active.value].session
  {
    hide Inv, Reached, Step;
    ReachedAll(false, turns);
    var st := Reached(false, turns);
    StepTurns(st, t.req, t.env, t.after);
    StepKeeps(st, t.req, t.env, t.after);
    var longer := turns + [t];
    LaterReached(false, turns, t);
    ReachedAll(false, longer);
  }

  lemma {:induction false} RunSnoc(st: State, turns: seq<Turn>, t: Turn)
    requires Inv(st)
    ensures Inv(Run(st, turns)) && Run(st, turns + [t]) == Step(Run(st, turns), t.req, t.env, t.after)
    decreases |turns|
  {
    hide Inv, Step;
    RunKeeps(st, turns);
    if turns == [] {
      assert turns + [t] == [t] && [t][1..] == [];
    } else {
      StepKeeps(st, turns[0].req, turns[0].env, turns[0].after);
      assert (turns + [t])[1..] == turns[1..] + [t];
      RunSnoc(Step(st, turns[0].req, turns[0].env, turns[0].after), turns[1..], t);
    }
  }

  lemma LaterReached(vtBound: bool, turns: seq<Turn>, t: Turn)
    ensures var st := Reached(vtBound, turns);
      Inv(st) && Reached(vtBound, turns + [t]) == Step(st, t.req, t.env, t.after)
  {
    hide Inv, Step, Run;
    InitInv(vtBound);
    RunSnoc(Init(vtBound), turns, t);
  }

  /** On a seat bound to VTs it is a client of the current VT, if there is one and its
      terminal opens whenever it is tried. */
  lemma VtGetsTheSeat(turns: seq<Turn>, t: Turn)
    ensures var st := Reached(true, turns);
      Inv(st) && Known(st) &&
      var r := Step(st, t.req, t.env, t.after);
      SeatIsFree(st, r, t.req) ==>
        && (r.active.Some? ==>
              && r.active.value in r.clients && r.clients[r.active.value].session == r.curVt
              && r.clients[r.active.value].state == Active && (t.env.vtOpens || t.after.vtOpens))
        && (SomeoneThere(r) && t.env.vtOpens && t.after.vtOpens ==> r.active.Some?)
  {
    hide Base, Busy, Reached, Step;
    ReachedAll(true, turns);
    var st := Reached(true, turns);
    StepTurns(st, t.req, t.env, t.after);
    StepKeeps(st, t.req, t.env, t.after);
  }

  /** A released VT takes the seat away: nobody is active any more, the client that was is
      asked to let go, and if the kernel takes its devices away nobody holds any. */
  lemma ReleaseOverRuns(turns: seq<Turn>, env: Env, after: Env)
    ensures var st := Reached(true, turns);
      Inv(st) &&
      var r := Step(st, SignalRelease, env, after);
      && r.curVt == -1 && r.active == st.active && r.clients.Keys == st.clients.Keys
      && (forall x | x in r.clients :: r.clients[x].state != Active)
      && (forall c | c in st.clients && st.clients[c].state == Active ::
            && st.active == Some(c) && r.clients[c].state == PendingDisable
            && st.log < r.log && r.log[|r.log| - 1] == Disable(c)
            && AllOff(st.clients[c].devices, r.clients[c].devices, env))
      && (DropsSucceed(turns) && env.dropFails == {} ==>
            forall x | x in r.clients :: Actives(r.clients[x].devices) == {})
  {
    hide Base, Reached, DisableClient, AllOff;
    ReachedAll(true, turns);
    var st := Reached(true, turns);
    OwnershipOverRuns(true, turns);
    var now := st.(curVt := CurVtAfter(st, env));
    if st.active.Some? {
      if st.clients[st.active.value].state == Active { DisableIs(now, st.active.value, env); }
      else { DisableNothing(now, st.active.value, env); }
    }
    if DropsSucceed(turns) && env.dropFails == {} {
      ReachedExclusive(true, turns);
      StepExclusive(st, SignalRelease, env, after);
    }
  }

  lemma ReachedExclusive(vtBound: bool, turns: seq<Turn>)
    requires DropsSucceed(turns)
    ensures Exclusive(Reached(vtBound, turns))
  {
    hide Inv, Run, Exclusive;
    InitInv(vtBound);
    RunExclusive(Init(vtBound), turns);
  }

  /** A VT that comes back: a vacant seat goes to a client of that VT, exactly if there is
      one and its terminal opens. */
  lemma AcquireOverRuns(turns: seq<Turn>, env: Env, after: Env)
    ensures var st := Reached(true, turns);
      Inv(st) &&
      var r := Step(st, SignalAcquire, env, after);
      && r.curVt == (match env.vtRead case NoTty => st.curVt case CurrentVt(vt) => vt)
      && (st.active.Some? ==> r.active == st.active)
      && (st.active.None? ==>
            && (r.active.Some? <==> SomeoneThere(r) && env.vtOpens)
            && (r.active.Some? ==>
                  && r.active.value in r.clients && r.clients[r.active.value].session == r.curVt
                  && r.clients[r.active.value].state == Active))
  {
    hide Base, Busy, Reached, Activate, AllBack, AllLogged;
    ReachedAll(true, turns);
    var st := Reached(true, turns);
    var now := st.(curVt := CurVtAfter(st, env));
    if st.active.None? {
      InvVacant(st, now);
      ActivateFills(now, env);
      var r := Activate(now, env).st;
      if r.active.Some? { SameThere(now, r); }
    }
  }

  /** Between any two requests of any run every DRM device of an active client is active. */
  lemma DrmOverRuns(vtBound: bool, turns: seq<Turn>, x: nat, k: nat)
    ensures var st := Reached(vtBound, turns);
      x in st.clients && st.clients[x].state == Active ==>
        var devices := st.clients[x].devices;
        k < |devices| && devices[k].kind == Drm ==> devices[k].active
  {
    hide Inv, Reached;
    ReachedAll(vtBound, turns);
  }

  /** In every turn of every run: a client that becomes active has the devices it had,
      the DRM ones active, and for each of those that was not the log has it reactivated;
      and the tables of all others change only by requests of their own, or as a released
      VT has it. */
  lemma FatesOverRuns(vtBound: bool, turns: seq<Turn>, t: Turn, x: nat)
    ensures var st := Reached(vtBound, turns);
      Inv(st) &&
      var r := Step(st, t.req, t.env, t.after);
      x in st.clients && x in r.clients ==>
        && Fate(st, r, x, t.req, t.env)
        && (st.clients[x].state != Active && r.clients[x].state == Active ==>
              && AllBack(st.clients[x].devices, r.clients[x].devices)
              && forall i | 0 <= i < |st.clients[x].devices| && st.clients[x].devices[i].kind == Drm
                     && !st.clients[x].devices[i].active ::
                   Reactivated(x, st.clients[x].devices[i].id, Drm) in Since(st.log, r.log))
  {
    hide Inv, Reached, Step, AllOff, Opening, Closing;
    ReachedAll(vtBound, turns);
    var st := Reached(vtBound, turns);
    if x in st.clients && x in Step(st, t.req, t.env, t.after).clients {
      StepFates(st, t.req, t.env, t.after, x);
      NewIsBare(st, x);
      hide Fate;
      if st.clients[x].state != Active && Step(st, t.req, t.env, t.after).clients[x].state == Active {
        FateEnables(st, Step(st, t.req, t.env, t.after), x, t.req, t.env);
      }
    }
  }

  lemma FateEnables(st: State, r: State, x: nat, req: Request, env: Env)
    requires x in st.clients && x in r.clients && Fate(st, r, x, req, env)
    requires st.clients[x].state != Active && r.clients[x].state == Active
    requires st.clients[x].state == New ==> st.clients[x].devices == []
    ensures AllBack(st.clients[x].devices, r.clients[x].devices)
    ensures st.clients[x].devices != [] ==> AllLogged(st.clients[x].devices, st.log, r.log, x)
  {
    hide AllOff, AllLogged, CanOpen, HasPath, HasId, CountedOn, CountedOff, Added;
  }

  // ------------------------------------------------------------ who is answered

  /** A switch request that is no error. */
  ghost predicate CanSwitch(st: State, c: nat, session: int, env: Env) {
    && c in st.clients && st.clients[c].state == Active && session > 0
    && (|| session == st.clients[c].session || st.next.Some?
        || (if st.vtBound then env.vtSwitches
            else exists x :: x in st.order && x in st.clients && st.clients[x].session == session))
  }

  /** A request that is done, or refused with an error reply that fits the connection. */
  ghost predicate Answered(st: State, c: nat, req: Request, env: Env) {
    && c in st.clients
    && match req
       case OpenSeat(_) => Admits(st, c, CurVtAfter(st, env)) && env.replies
       case CloseSeat(_) => st.clients[c].seated && env.replies
       case OpenDeviceReq(_) => st.clients[c].seated && env.replies
       case CloseDeviceReq(_, _) => st.clients[c].seated && env.replies
       case SwitchSession(_, session) => st.clients[c].seated && (CanSwitch(st, c, session, env) || env.replies)
       case DisableSeat(_) => st.clients[c].seated && (st.clients[c].state == PendingDisable || env.replies)
       case Ping(_) => env.replies
       case _ => false
  }

  lemma SwitchAnswered(st: State, c: nat, session: int, env: Env)
    requires Ready(st, c)
    ensures SetNextSession(st, c, session, env).ok <==> CanSwitch(st, c, session, env)
  {
    hide DisableClient;
    var w := FindSession(st, st.order, session);
    assert w.Some? ==> w.value in st.order;
  }

  lemma HandleAnswers(st: State, c: nat, req: Request, env: Env)
    requires Inv(st) && Ready(st, c) && FromClient(req) && req.c == c
    ensures Handle(st, c, req, env).ok <==> Answered(st, c, req, env)
  {
    hide Inv, Admits, AddClient, OpenClient, RemoveClient, OpenDevice, CloseDevice, SetNextSession, Activate, CanSwitch;
    if req.OpenSeat? { AdmitsIff(st, c, env); }
    if req.SwitchSession? { SwitchAnswered(st, c, req.session, env); }
  }

  /** A client keeps its connection through a turn exactly if the turn is not about a
      request of its own, or that is answered and the answer goes out. */
  lemma DroppedIff(vtBound: bool, turns: seq<Turn>, t: Turn, x: nat)
    ensures var st := Reached(vtBound, turns);
      Inv(st) &&
      var r := Step(st, t.req, t.env, t.after);
      x in st.clients ==>
        (x in r.clients <==> (FromClient(t.req) && t.req.c == x ==> Answered(st, x, t.req, t.env) && t.env.flushes))
  {
    hide Inv, Reached, Handle, Destroy, Answered, VtActivate, VtRelease;
    ReachedAll(vtBound, turns);
    var st := Reached(vtBound, turns);
    if x in st.clients {
      if t.req.Connect? {
        ArriveSame(st, x);
      } else if t.req.SignalAcquire? || t.req.SignalRelease? {
        SignalsFate(st, t.env, x);
      } else if t.req.c in st.clients {
        var c := t.req.c;
        InvIsNearly(st, c);
        HandleKeeps(st, c, t.req, t.env);
        HandleAnswers(st, c, t.req, t.env);
        HandleKeys(st, c, t.req, t.env);
        DropIs(Handle(st, c, t.req, t.env).st, c, t.after);
        DropsOne(Handle(st, c, t.req, t.env).st, c, t.after);
        assert x in Handle(st, c, t.req, t.env).st.clients.Keys;
      }
    }
  }

  lemma DropsOne(st: State, c: nat, env: Env)
    requires Ready(st, c)
    ensures Destroy(st, c, env).clients.Keys == st.clients.Keys - {c}
  {
    hide RemoveClient;
  }

  /** An answered open-seat request of any run: who is taken, with what session, and that
      the seat is theirs if it was vacant. */
  lemma ComesOverRuns(vtBound: bool, turns: seq<Turn>, c: nat, env: Env, after: Env)
    ensures var st := Reached(vtBound, turns);
      Inv(st) &&
      (c in st.clients && Admits(st, c, CurVtAfter(st, env)) && env.replies && env.flushes ==>
         Comes(st, Step(st, OpenSeat(c), env, after), c, env))
  {
    hide Inv, Reached, Handle, Destroy, Comes, Admits;
    ReachedAll(vtBound, turns);
    var st := Reached(vtBound, turns);
    if c in st.clients {
      InvIsNearly(st, c);
      HandleKeeps(st, c, OpenSeat(c), env);
      HandleAnswers(st, c, OpenSeat(c), env);
      HandleIs(st, c, OpenSeat(c), env);
    }
  }
}
