/** The session numbers of a seat that is not bound to VTs: who has which, over whole
    runs, and which clients a switch request can therefore reach. */
module SeatSessions {
  import opened SeatModel
  import opened SeatInvariant
  import opened SeatSteps
  import opened SeatRuns

  /** Sessions are given out once each, from 0 on; -1 is a client that has none yet. */
  ghost predicate Sessions(st: State) {
    && (forall c | c in st.clients :: -1 <= st.clients[c].session < st.sessionCnt)
    && (forall c, d | c in st.clients && d in st.clients && c != d ::
          st.clients[c].session == -1 || st.clients[c].session != st.clients[d].session)
  }

  /** No client gets or loses a session. */
  ghost predicate SameSessions(st: State, r: State) {
    && r.sessionCnt == st.sessionCnt && r.vtBound == st.vtBound
    && r.clients.Keys <= st.clients.Keys
    && forall c | c in r.clients :: r.clients[c].session == st.clients[c].session
  }

  lemma SameKeepsSessions(st: State, r: State)
    requires Sessions(st) && SameSessions(st, r)
    ensures Sessions(r)
  {
    forall c | c in r.clients ensures c in st.clients && r.clients[c].session == st.clients[c].session {
      assert c in r.clients.Keys;
    }
  }

  lemma SameThenSame(st: State, mid: State, r: State)
    requires SameSessions(st, mid) && SameSessions(mid, r)
    ensures SameSessions(st, r)
  {
    forall c | c in r.clients ensures r.clients[c].session == st.clients[c].session {
      assert c in r.clients.Keys && c in mid.clients.Keys;
    }
  }

  lemma OnlyDevicesIsSame(st: State, r: State, c: nat)
    requires OnlyDevices(st, r, c)
    ensures SameSessions(st, r)
  {
  }

  // ------------------------------------------------------------ the seat's operations

  lemma OpenClientSame(st: State, c: nat, env: Env)
    requires c in st.clients
    ensures SameSessions(st, OpenClient(st, c, env).st)
  {
    hide ActivateFrom;
    OnlyDevicesIsSame(st, ActivateFrom(st, c, 0), c);
  }

  lemma ActivateSame(st: State, env: Env)
    requires Known(st)
    ensures SameSessions(st, Activate(st, env).st)
  {
    hide OpenClient;
    if st.next.Some? { OpenClientSame(st.(next := None), st.next.value, env); }
    if st.order != [] { OpenClientSame(st, st.order[0], env); }
    var c := FindSession(st, st.order, st.curVt);
    if c.Some? { OpenClientSame(st, c.value, env); }
  }

  lemma CloseClientSame(st: State, c: nat, env: Env)
    requires c in st.clients && Known(st) && RefsPositive(st.clients[c].devices)
    ensures SameSessions(st, CloseClient(st, c, env))
  {
    hide CloseAll, Activate;
    var bare := CloseAll(st, c, env);
    OnlyDevicesIsSame(st, bare, c);
    if bare.active == Some(c) { ActivateSame(bare.(active := None), env); }
  }

  lemma RemoveClientSame(st: State, c: nat, env: Env)
    requires c in st.clients && Known(st) && RefsPositive(st.clients[c].devices)
    ensures SameSessions(st, RemoveClient(st, c, env))
  {
    hide CloseAll, CloseClient;
    var unqueued := Log(if st.next == Some(c) then st.(next := None) else st, Left(c));
    var bare := CloseAll(unqueued, c, env);
    OnlyDevicesIsSame(unqueued, bare, c);
    CloseClientSame(bare, c, env);
  }

  lemma DisableClientSame(st: State, c: nat, env: Env)
    requires c in st.clients
    ensures SameSessions(st, DisableClient(st, c, env).st)
  {
    hide DeactivateFrom;
    OnlyDevicesIsSame(st, DeactivateFrom(st, c, 0, env), c);
  }

  lemma AckDisableSame(st: State, c: nat, env: Env)
    requires c in st.clients && Known(st)
    ensures SameSessions(st, AckDisable(st, c, env).st)
  {
    hide Activate;
    var acked := Log(SetClient(st, c, st.clients[c].(state := Disabled)), Acked(c));
    ActivateSame(acked.(active := None), env);
  }

  lemma SetNextSessionSame(st: State, c: nat, session: int, env: Env)
    requires c in st.clients && Known(st)
    ensures SameSessions(st, SetNextSession(st, c, session, env).st)
  {
    hide DisableClient;
    if st.active.Some? {
      DisableClientSame(st.(next := FindSession(st, st.order, session)), st.active.value, env);
    }
  }

  lemma VtSame(st: State, env: Env)
    requires Known(st)
    ensures SameSessions(st, VtActivate(st, env)) && SameSessions(st, VtRelease(st, env))
  {
    hide Activate, DisableClient;
    var now := st.(curVt := CurVtAfter(st, env));
    ActivateSame(now, env);
    if now.active.Some? { DisableClientSame(now, now.active.value, env); }
  }

  // ------------------------------------------------------------ requests

  /** Only a client that comes to the seat gets a session: the next one. */
  lemma AddClientSessions(st: State, c: nat, env: Env)
    requires c in st.clients && Known(st) && !st.vtBound && Sessions(st)
    ensures var r := AddClient(st, c, env).st; Sessions(r) && !r.vtBound
  {
  }

  lemma OpenSeatSessions(st: State, c: nat, env: Env)
    requires Ready(st, c) && !st.vtBound && Sessions(st)
    ensures var r := HandleOpenSeat(st, c, env).st; Sessions(r) && !r.vtBound
  {
    hide AddClient, OpenClient;
    AddClientSessions(st, c, env);
    var added := AddClient(st, c, env);
    var linked := added.st.(idle := Without(added.st.idle, c), order := [c] + added.st.order);
    OpenClientSame(linked, c, env);
    SameKeepsSessions(added.st, linked);
    SameKeepsSessions(linked, OpenClient(linked, c, env).st);
  }

  lemma OpenDeviceSame(st: State, c: nat, env: Env)
    requires Ready(st, c)
    ensures SameSessions(st, HandleOpenDevice(st, c, env).st)
  {
    hide OpenDevice, CloseDevice;
    if OpenDevice(st, c, env).OpenedAt? {
      var now, k := OpenDevice(st, c, env).st, OpenDevice(st, c, env).k;
      OnlyDevicesIsSame(st, now, c);
      OnlyDevicesIsSame(now, CloseDevice(now, c, k, env), c);
      SameThenSame(st, now, CloseDevice(now, c, k, env));
    }
  }

  lemma CloseDeviceSame(st: State, c: nat, id: int, env: Env)
    requires Ready(st, c)
    ensures SameSessions(st, HandleCloseDevice(st, c, id, env).st)
  {
    hide CloseDevice;
    var k := FindId(st.clients[c].devices, id);
    if k.Some? {
      RefsPositiveAt(st.clients[c].devices, k.value);
      OnlyDevicesIsSame(st, CloseDevice(st, c, k.value, env), c);
    }
  }

  lemma HandleSessions(st: State, c: nat, req: Request, env: Env)
    requires Ready(st, c) && !st.vtBound && Sessions(st)
    ensures var r := Handle(st, c, req, env).st; Sessions(r) && !r.vtBound
  {
    hide RemoveClient, SetNextSession, AckDisable, HandleOpenSeat, HandleOpenDevice, HandleCloseDevice, Sessions;
    var r := Handle(st, c, req, env).st;
    match req {
      case OpenSeat(_) => OpenSeatSessions(st, c, env);
      case CloseSeat(_) =>
        var unlinked := st.(order := Without(st.order, c));
        if st.clients[c].seated {
          RemoveClientSame(unlinked, c, env);
          assert SameSessions(st, r);
        }
      case OpenDeviceReq(_) => OpenDeviceSame(st, c, env);
      case CloseDeviceReq(_, id) => CloseDeviceSame(st, c, id, env);
      case SwitchSession(_, session) => SetNextSessionSame(st, c, session, env);
      case DisableSeat(_) => AckDisableSame(st, c, env);
      case _ =>
    }
    if !req.OpenSeat? { SameKeepsSessions(st, r); }
  }

  lemma DestroySame(st: State, c: nat, env: Env)
    requires Ready(st, c)
    ensures SameSessions(st, Destroy(st, c, env))
  {
    hide RemoveClient;
    var unlinked := st.(order := Without(st.order, c), idle := Without(st.idle, c));
    if st.clients[c].seated { RemoveClientSame(unlinked, c, env); }
  }

  lemma ArriveSessions(st: State)
    requires Sessions(st) && st.born !in st.clients
    ensures Sessions(Arrive(st))
  {
  }

  lemma StepSessions(st: State, req: Request, env: Env, after: Env)
    requires Inv(st) && !st.vtBound && Sessions(st)
    ensures Sessions(Step(st, req, env, after))
  {
    hide Sessions, SameSessions, Handle, Destroy, VtActivate, VtRelease, Books, HandOver, NoDup, Owner, Queue, Busy,
      Members;
    InvKnown(st);
    if req.Connect? {
      ArriveSessions(st);
    } else if req.SignalAcquire? || req.SignalRelease? {
      VtSame(st, env);
      SameKeepsSessions(st, Step(st, req, env, after));
    } else if req.c in st.clients {
      InvIsNearly(st, req.c);
      HandleKeeps(st, req.c, req, env);
      HandleSessions(st, req.c, req, env);
      var r := Handle(st, req.c, req, env);
      if !(r.ok && env.flushes) {
        DestroySame(r.st, req.c, after);
        SameKeepsSessions(r.st, Destroy(r.st, req.c, after));
      }
    }
  }

  lemma {:induction false} RunSessions(st: State, turns: seq<Turn>)
    requires Inv(st) && !st.vtBound && Sessions(st)
    ensures Sessions(Run(st, turns))
    decreases |turns|
  {
    hide Inv, Sessions, Step;
    if turns != [] {
      StepKeeps(st, turns[0].req, turns[0].env, turns[0].after);
      StepSessions(st, turns[0].req, turns[0].env, turns[0].after);
      RunSessions(Step(st, turns[0].req, turns[0].env, turns[0].after), turns[1..]);
    }
  }

  // ------------------------------------------------------------ what runs guarantee

  /** No two clients of a seat ever have the same session, and sessions count from 0. */
  lemma SessionsOverRuns(turns: seq<Turn>, c: nat, d: nat)
    ensures var st := Reached(false, turns);
      && (c in st.order && c in st.clients ==> 0 <= st.clients[c].session < st.sessionCnt)
      && (c in st.order && c in st.clients && d in st.order && d in st.clients && c != d ==>
            st.clients[c].session != st.clients[d].session)
  {
    hide Run, Inv;
    InitInv(false);
    RunSessions(Init(false), turns);
    ReachedKeeps(false, turns);
    var st := Reached(false, turns);
    if c in st.order && c in st.clients { HasSession(st, c); }
  }

  lemma HasSession(st: State, c: nat)
    requires Inv(st) && c in st.order && c in st.clients
    ensures st.clients[c].session != -1
  {
    hide NoDup, Books, HandOver;
  }

  /** Which waiting client a switch request of the active one queues: the one whose session
      it names, unless that is 0. The client that was first can never be switched to. */
  lemma SwitchReachesIff(turns: seq<Turn>, w: nat, session: int, env: Env)
    ensures var st := Reached(false, turns);
      Known(st) && st.active.Some? && st.clients[st.active.value].state == Active && st.next.None?
      && w in st.order && st.active != Some(w) ==>
        (SetNextSession(st, st.active.value, session, env).st.next == Some(w)
         <==> session == st.clients[w].session && session > 0)
  {
    hide Reached, DisableClient, Inv;
    var st := Reached(false, turns);
    ReachedKeeps(false, turns);
    if Known(st) && st.active.Some? && w in st.order {
      var target := FindSession(st, st.order, session);
      if target.Some? { SessionsOverRuns(turns, w, target.value); }
      SessionsOverRuns(turns, w, st.active.value);
      ActiveIsSeated(st);
      DisableKeepsNext(st.(next := target), st.active.value, env);
    }
  }

  lemma ActiveIsSeated(st: State)
    requires Inv(st) && st.active.Some?
    ensures st.active.value in st.order && st.active.value in st.clients
  {
    hide NoDup, Books, HandOver;
  }

  lemma DisableKeepsNext(st: State, c: nat, env: Env)
    requires c in st.clients
    ensures DisableClient(st, c, env).st.next == st.next
  {
    hide DeactivateFrom;
  }

  // ------------------------------------------------------------ a client that waits for good

  /** Everything that is asked of the system works. */
  function Works(): Env {
    Env(NoTty, true, true, {}, Unresolved, true, true, true, true, true)
  }

  function Does(req: Request): Turn {
    Turn(req, Works(), Works())
  }

  /** Two clients open the seat; the first hands it to the second. */
  function HandedOver(): seq<Turn> {
    [Does(Connect), Does(OpenSeat(0)), Does(Connect), Does(OpenSeat(1)), Does(SwitchSession(0, 1)),
      Does(DisableSeat(0))]
  }

  /** What the steps of that come to. */
  lemma TwoOpen(st: State)
    requires st == Arrive(Init(false)) && Inv(st)
    ensures var a := Step(st, OpenSeat(0), Works(), Works());
      && a.order == [0] && a.idle == [] && a.active == Some(0) && a.next == None && !a.vtBound && a.sessionCnt == 1
      && a.clients == map[0 := Client(Active, 0, true, [])] && a.born == 1
  {
    hide Inv;
    assert Without([0], 0) == [];
  }

  lemma SecondOpens(st: State)
    requires Inv(st) && st.order == [0] && st.idle == [1] && st.active == Some(0) && st.next == None && !st.vtBound
    requires st.sessionCnt == 1 && st.clients == map[0 := Client(Active, 0, true, []), 1 := Client(New, -1, false, [])]
    ensures var a := Step(st, OpenSeat(1), Works(), Works());
      && a.order == [1, 0] && a.active == Some(0) && a.next == None && !a.vtBound
      && a.clients == map[0 := Client(Active, 0, true, []), 1 := Client(New, 1, true, [])]
  {
    hide Inv;
  }

  lemma FirstIsAsked(st: State)
    requires Inv(st) && st.order == [1, 0] && st.active == Some(0) && st.next == None && !st.vtBound
    requires st.clients == map[0 := Client(Active, 0, true, []), 1 := Client(New, 1, true, [])]
    ensures var a := Step(st, SwitchSession(0, 1), Works(), Works());
      && a.order == [1, 0] && a.active == Some(0) && a.next == Some(1) && !a.vtBound
      && a.clients == map[0 := Client(PendingDisable, 0, true, []), 1 := Client(New, 1, true, [])]
  {
    hide Inv;
    assert FindSession(st, st.order, 1) == Some(1);
  }

  lemma FirstLetsGo(st: State)
    requires Inv(st) && st.order == [1, 0] && st.active == Some(0) && st.next == Some(1) && !st.vtBound
    requires st.clients == map[0 := Client(PendingDisable, 0, true, []), 1 := Client(New, 1, true, [])]
    ensures var a := Step(st, DisableSeat(0), Works(), Works());
      && a.order == [1, 0] && a.active == Some(1) && a.next == None
      && a.clients == map[0 := Client(Disabled, 0, true, []), 1 := Client(Active, 1, true, [])]
  {
    hide Inv;
  }

  lemma RunOn(st: State, t: Turn, turns: seq<Turn>)
    requires Inv(st)
    ensures Inv(Step(st, t.req, t.env, t.after))
    ensures Run(st, [t] + turns) == Run(Step(st, t.req, t.env, t.after), turns)
  {
    hide Inv, Step;
    StepKeeps(st, t.req, t.env, t.after);
    assert ([t] + turns)[1..] == turns;
  }

  lemma HandedOverReaches()
    ensures var st := Reached(false, HandedOver());
      && st.order == [1, 0] && st.active == Some(1) && st.next == None
      && st.clients == map[0 := Client(Disabled, 0, true, []), 1 := Client(Active, 1, true, [])]
  {
    hide Inv, HandleOpenSeat, HandleSwitchSession, HandleDisableSeat;
    InitInv(false);
    var turns := HandedOver();
    var st0 := Init(false);
    assert turns == [turns[0]] + ([turns[1]] + ([turns[2]] + ([turns[3]] + ([turns[4]] + ([turns[5]] + [])))));
    RunOn(st0, turns[0], turns[1..]);
    var st1 := Arrive(st0);
    RunOn(st1, turns[1], turns[2..]);
    TwoOpen(st1);
    var st2 := Step(st1, OpenSeat(0), Works(), Works());
    RunOn(st2, turns[2], turns[3..]);
    var st3 := Arrive(st2);
    RunOn(st3, turns[3], turns[4..]);
    SecondOpens(st3);
    var st4 := Step(st3, OpenSeat(1), Works(), Works());
    RunOn(st4, turns[4], turns[5..]);
    FirstIsAsked(st4);
    var st5 := Step(st4, SwitchSession(0, 1), Works(), Works());
    RunOn(st5, turns[5], []);
    FirstLetsGo(st5);
  }

  /** The client that was first waits while another is active, and no switch request of
      that one queues it, whatever session it names. */
  lemma FirstIsNeverSwitchedTo(session: int, env: Env)
    ensures var st := Reached(false, HandedOver());
      && st.active == Some(1) && 0 in st.clients && st.clients[0] == Client(Disabled, 0, true, []) && 0 in st.order
      && Known(st) && SetNextSession(st, 1, session, env).st.next != Some(0)
  {
    hide Reached, HandedOver, SetNextSession;
    HandedOverReaches();
    SwitchReachesIff(HandedOver(), 0, session, env);
  }
}
