/** Every request keeps the invariant of the seat daemon, and hence every run does. */
module SeatSteps {
  import opened SeatModel
  import opened SeatLog
  import opened SeatDevices
  import opened SeatInvariant

  // ---------------------------------------------------------------- a client leaves

  /** A seated client has just been unlinked from the seat's list. */
  ghost predicate Leaving(st: State, c: nat) {
    && Lists(st, Some(c)) && Members(st) && Books(st) && HandOver(st, Some(c))
    && c in st.clients && st.clients[c].seated && st.clients[c].session != -1
    && Owner(st, Some(c)) && (Holds(st.clients[c].state) <==> st.active == Some(c))
    && (st.next.Some? ==>
          && (st.next.value in st.order || st.next == Some(c))
          && st.next.value in st.clients && Waits(st.clients[st.next.value].state)
          && st.active.Some? && st.active.value in st.clients && st.clients[st.active.value].state == PendingDisable
          && !st.vtBound)
    && Busy(st)
  }

  /** The same client once its seat has been given up. */
  ghost predicate Gone(st: State, c: nat) {
    && Base(st, Some(c)) && Owner(st, None) && Queue(st) && Busy(st)
    && c in st.clients && st.clients[c].state == Closed && !st.clients[c].seated
    && st.clients[c].devices == [] && st.clients[c].session != -1
  }

  /** The start of a removal: no longer queued, its departure noted, its devices closed. */
  function Unseated(st: State, c: nat, env: Env): (r: State)
    requires c in st.clients && RefsPositive(st.clients[c].devices)
    ensures c in r.clients
  {
    CloseAll(Log(if st.next == Some(c) then st.(next := None) else st, Left(c)), c, env)
  }

  lemma LeftHandOver(st: State, c: nat)
    requires HandOver(st, Some(c)) && c !in st.order
    requires c in st.idle ==> c !in st.clients
    ensures HandOver(Log(st, Left(c)), None)
  {
    hide Enabled, Awaited;
    AppendHandOver(st.log, Left(c));
    Append(st.log, Left(c));
    assert Disciplined(st.log + [Left(c)], st.vtBound);
  }

  lemma UnseatedBase(st: State, c: nat, env: Env)
    requires Leaving(st, c) && RefsPositive(st.clients[c].devices)
    ensures var r := Unseated(st, c, env);
      && Base(r, Some(c)) && Known(r)
      && r == st.(next := r.next, clients := st.clients[c := st.clients[c].(devices := [])], log := r.log)
      && (r.next == if st.next == Some(c) then None else st.next)
  {
    hide NoDup, HandOver, Books, Quiet, Accounted;
    var unqueued := if st.next == Some(c) then st.(next := None) else st;
    var left := Log(unqueued, Left(c));
    LeftBase(st, c);
    assert Accounted(left.clients[c].devices, left.log, c) by { BooksAt(left, c); }
    CloseAllTidy(left, c, env);
    TidyKeepsBase(left, CloseAll(left, c, env), c, Some(c));
  }

  lemma LeftBase(st: State, c: nat)
    requires Leaving(st, c)
    ensures Base(Log(if st.next == Some(c) then st.(next := None) else st, Left(c)), Some(c))
  {
    hide NoDup, HandOver, Books;
    var unqueued := if st.next == Some(c) then st.(next := None) else st;
    assert HandOver(unqueued, Some(c)) && Books(unqueued) by { NextIsNoMatter(st, unqueued, Some(c)); }
    LeftHandOver(unqueued, c);
    EventKeepsBooks(unqueued, Left(c));
  }

  lemma NextIsNoMatter(st: State, r: State, leaving: Option<nat>)
    requires r == st.(next := r.next)
    ensures HandOver(st, leaving) ==> HandOver(r, leaving)
    ensures Books(st) ==> Books(r)
  {
  }

  lemma BooksAt(st: State, c: nat)
    requires Books(st) && c in st.clients
    ensures Accounted(st.clients[c].devices, st.log, c) && RefsPositive(st.clients[c].devices)
  {
    DistinctRefs(st.clients[c].devices);
  }

  lemma {:induction false} CloseAllEmpty(st: State, c: nat, env: Env)
    requires c in st.clients && st.clients[c].devices == []
    ensures CloseAll(st, c, env) == st
  {
  }

  lemma SetOut(st: State, c: nat, cl: Client)
    requires Base(st, Some(c)) && Owner(st, None) && Queue(st) && Busy(st)
    requires c in st.clients && cl.devices == [] && st.clients[c].devices == []
    ensures var r := SetClient(st, c, cl);
      Base(r, Some(c)) && Owner(r, None) && Queue(r) && Busy(r)
  {
    hide NoDup, Books, HandOver;
    SetOutBooks(st, c, cl);
    SetOutHandOver(st, c, cl);
  }

  lemma SetOutBooks(st: State, c: nat, cl: Client)
    requires Books(st) && c in st.clients && cl.devices == st.clients[c].devices
    ensures Books(SetClient(st, c, cl))
  {
    hide Accounted, HeldBy, References, Enabled;
    var r := SetClient(st, c, cl);
    forall x | x in r.clients ensures Accounted(r.clients[x].devices, r.log, x) {
      assert r.clients[x].devices == st.clients[x].devices;
    }
  }

  lemma SetOutHandOver(st: State, c: nat, cl: Client)
    requires HandOver(st, None) && c !in st.order && c !in st.idle
    ensures HandOver(SetClient(st, c, cl), None)
  {
    hide Disciplined, Enabled, Awaited;
  }

  /** Removal gives up the seat, and hands it on if the client had it. */
  lemma RemoveKeeps(st: State, c: nat, env: Env)
    requires Leaving(st, c) && Known(st) && RefsPositive(st.clients[c].devices)
    ensures var r := RemoveClient(st, c, env);
      && Gone(r, c) && r.order == st.order && r.idle == st.idle && r.born == st.born && r.vtBound == st.vtBound
  {
    hide NoDup, Books, HandOver, Activate, CloseAll;
    UnseatedBase(st, c, env);
    var bare := Unseated(st, c, env);
    CloseAllEmpty(bare, c, env);
    var after := bare;
    if bare.active == Some(c) {
      var vacant := bare.(active := None);
      UnseatedVacant(st, c, env);
      ActivateVacant(vacant, Some(c), env);
      after := Activate(vacant, env).st;
    }
    SetOut(after, c, after.clients[c].(state := Closed));
    var closed := SetClient(after, c, after.clients[c].(state := Closed));
    SetOut(closed, c, closed.clients[c].(seated := false));
  }

  lemma ActiveIsNoMatter(st: State, r: State, out: Option<nat>)
    requires r == st.(active := r.active) && Base(st, out)
    ensures Base(r, out)
  {
  }

  lemma RemoveExclusive(st: State, c: nat, env: Env)
    requires Leaving(st, c) && Known(st) && RefsPositive(st.clients[c].devices) && Exclusive(st)
    ensures Exclusive(RemoveClient(st, c, env))
  {
    hide Lists, Members, Books, HandOver, Owner, Activate, CloseAll, AlwaysOneHolder;
    UnseatedBase(st, c, env);
    var bare := Unseated(st, c, env);
    UnseatedExclusive(st, c, env);
    CloseAllEmpty(bare, c, env);
    if bare.active == Some(c) {
      var vacant := bare.(active := None);
      UnseatedVacant(st, c, env);
      ActivateVacant(vacant, Some(c), env);
      ActivateExclusive(vacant, Some(c), env);
    }
  }

  /** A seat whose active client has given it up is vacant. */
  lemma UnseatedVacant(st: State, c: nat, env: Env)
    requires Leaving(st, c) && RefsPositive(st.clients[c].devices) && st.active == Some(c)
    ensures var vacant := Unseated(st, c, env).(active := None);
      Base(vacant, Some(c)) && Vacant(vacant) && Known(vacant)
  {
    hide NoDup, Books, HandOver, CloseAll;
    UnseatedBase(st, c, env);
    var bare := Unseated(st, c, env);
    ActiveIsNoMatter(bare, bare.(active := None), Some(c));
  }

  lemma UnseatedExclusive(st: State, c: nat, env: Env)
    requires Leaving(st, c) && RefsPositive(st.clients[c].devices) && Exclusive(st)
    ensures Exclusive(Unseated(st, c, env))
  {
    hide NoDup, HandOver, Quiet, Accounted, AlwaysOneHolder;
    var unqueued := if st.next == Some(c) then st.(next := None) else st;
    EventKeepsExclusive(unqueued, Left(c));
    EventKeepsBooks(unqueued, Left(c));
    var left := Log(unqueued, Left(c));
    BooksAt(left, c);
    CloseAllTidy(left, c, env);
  }

  // ---------------------------------------------------------------- lists

  lemma {:induction false} WithoutNoDup(s: seq<nat>, c: nat)
    requires NoDup(s)
    ensures NoDup(Without(s, c))
    decreases |s|
  {
    if s != [] {
      WithoutNoDup(s[1..], c);
      var rest := Without(s[1..], c);
      assert forall x | x in rest :: x in s[1..];
      assert s[0] !in s[1..];
    }
  }

  lemma {:induction false} WithoutAbsent(s: seq<nat>, c: nat)
    requires c !in s
    ensures Without(s, c) == s
    decreases |s|
  {
    if s != [] { WithoutAbsent(s[1..], c); }
  }

  lemma PushNoDup(s: seq<nat>, c: nat)
    requires NoDup(s) && c !in s
    ensures NoDup([c] + s)
  {
  }

  lemma SeatedIffInOrder(st: State, c: nat)
    requires Lists(st, None) && Members(st) && c in st.clients
    ensures st.clients[c].seated <==> c in st.order
    ensures !st.clients[c].seated <==> c in st.idle
    ensures Holds(st.clients[c].state) ==> c in st.order
  {
    hide NoDup;
  }

  /** The invariant, except that the seat may be idle if this client is its only one. */
  ghost predicate Nearly(st: State, c: nat) {
    && Base(st, None) && Owner(st, None) && Queue(st) && c in st.clients
    && (!st.vtBound && Without(st.order, c) != [] ==> st.active.Some?)
  }

  lemma InvIsNearly(st: State, c: nat)
    requires Inv(st) && c in st.clients
    ensures Nearly(st, c) && Ready(st, c)
  {
    hide NoDup, HandOver;
    NearlyIsReady(st, c);
  }

  lemma NearlyIsReady(st: State, c: nat)
    requires Base(st, None) && Owner(st, None) && Queue(st) && c in st.clients
    ensures Ready(st, c)
  {
    hide NoDup, HandOver, Accounted;
    BooksAt(st, c);
  }

  /** Unlinking a seated client makes it a leaving one. */
  lemma UnlinkLeaves(st: State, c: nat)
    requires Nearly(st, c) && st.clients[c].seated
    ensures Leaving(st.(order := Without(st.order, c)), c)
  {
    hide NoDup, Accounted, Disciplined;
    SeatedIffInOrder(st, c);
    UnlinkLists(st, c);
    UnlinkHandOver(st, c);
  }

  lemma UnlinkLists(st: State, c: nat)
    requires Lists(st, None) && Members(st) && c in st.order
    ensures var r := st.(order := Without(st.order, c)); Lists(r, Some(c)) && Members(r)
  {
    UnlinkOrder(st, c);
    hide Lists;
  }

  lemma UnlinkOrder(st: State, c: nat)
    requires Lists(st, None) && c in st.order
    ensures Lists(st.(order := Without(st.order, c)), Some(c))
  {
    WithoutNoDup(st.order, c);
    hide NoDup;
  }

  lemma UnlinkHandOver(st: State, c: nat)
    requires HandOver(st, None)
    ensures HandOver(st.(order := Without(st.order, c)), Some(c))
  {
    hide Disciplined;
  }

  // ---------------------------------------------------------------- requests

  lemma OpenSeatKeeps(st: State, c: nat, env: Env)
    requires Inv(st) && c in st.clients && Ready(st, c)
    ensures var r := HandleOpenSeat(st, c, env);
      && Nearly(r.st, c) && (r.ok ==> Inv(r.st))
      && r.st.born == st.born && r.st.vtBound == st.vtBound
  {
    hide NoDup, Books, HandOver, OpenClient, AddClient;
    var added := AddClient(st, c, env);
    AddedOrNot(st, c, env);
    if added.ok {
      AddedBase(st, c, env);
      OpenLinked(Linked(added.st, c), c, env);
    } else {
      VtIsNoMatter(st, added.st.curVt);
      InvIsNearly(added.st, c);
    }
  }

  lemma OpenLinked(st: State, c: nat, env: Env)
    requires Nearly(st, c) && c in st.order && Without(st.order, c) == st.order[1..]
    requires st.active.None? ==> Vacant(st) && st.next.None?
    requires st.vtBound ==> st.clients[c].session == st.curVt
    ensures var r := OpenClient(st, c, env).st;
      Inv(r) && c in r.clients && Nearly(r, c) && r.born == st.born && r.vtBound == st.vtBound
  {
    hide NoDup, Books, HandOver, OpenClient;
    if st.active.None? {
      OpenVacant(st, c, None, env);
    } else {
      OpenBusy(st, c, env);
    }
  }

  lemma OpenBusy(st: State, c: nat, env: Env)
    requires c in st.clients && st.active.Some?
    ensures OpenClient(st, c, env).st == st
  {
  }

  lemma AddedOrNot(st: State, c: nat, env: Env)
    requires c in st.clients && Known(st)
    ensures var added := AddClient(st, c, env);
      && added.st.born == st.born && added.st.vtBound == st.vtBound
      && (!added.ok ==> added.st == st.(curVt := added.st.curVt))
  {
  }

  function Linked(st: State, c: nat): State {
    st.(idle := Without(st.idle, c), order := [c] + st.order)
  }

  lemma VtIsNoMatter(st: State, vt: int)
    requires Inv(st)
    ensures Inv(st.(curVt := vt))
  {
    hide NoDup, Accounted;
  }

  lemma AddedBase(st: State, c: nat, env: Env)
    requires Inv(st) && Ready(st, c) && AddClient(st, c, env).ok
    ensures var linked := Linked(AddClient(st, c, env).st, c);
      && Base(linked, None) && Owner(linked, None) && Queue(linked)
      && Nearly(linked, c) && c in linked.order && Without(linked.order, c) == linked.order[1..]
      && (linked.active.None? ==> Vacant(linked) && linked.next.None?)
      && (linked.vtBound ==> linked.clients[c].session == linked.curVt)
  {
    hide NoDup, Books, HandOver, Lists;
    var added := AddClient(st, c, env).st;
    var linked := Linked(added, c);
    SeatedIffInOrder(st, c);
    assert c !in st.order && c in st.idle;
    assert linked.clients[c] == st.clients[c].(session := linked.clients[c].session, seated := true);
    LinkedLists(st, c, linked);
    LinkedMembers(st, c, linked);
    LinkedHandOver(st, c, linked);
    LinkedBooks(st, c, linked);
    WithoutHead(st.order, c);
    assert linked.order[1..] == st.order;
  }

  lemma WithoutHead(s: seq<nat>, c: nat)
    requires c !in s
    ensures Without([c] + s, c) == s
  {
    assert ([c] + s)[1..] == s;
    WithoutAbsent(s, c);
  }

  lemma LinkedLists(st: State, c: nat, r: State)
    requires Lists(st, None) && c in st.idle
    requires r.order == [c] + st.order && r.idle == Without(st.idle, c)
    requires r.clients.Keys == st.clients.Keys && r.born == st.born
    ensures Lists(r, None)
  {
    WithoutNoDup(st.idle, c);
    PushNoDup(st.order, c);
    hide NoDup;
    assert forall x: nat :: x in r.clients <==> x in st.clients;
  }

  lemma LinkedMembers(st: State, c: nat, r: State)
    requires Members(st) && c in st.clients && st.clients[c].state == New && st.clients[c].devices == []
    requires r.order == [c] + st.order && r.idle == Without(st.idle, c)
    requires c in r.clients && r.clients == st.clients[c := r.clients[c]]
    requires r.clients[c] == st.clients[c].(session := r.clients[c].session, seated := true)
      && r.clients[c].session != -1
    ensures Members(r)
  {
  }

  lemma LinkedHandOver(st: State, c: nat, r: State)
    requires HandOver(st, None) && c in st.idle && c in st.clients && c !in st.order && st.clients[c].state == New
    requires r.order == [c] + st.order && r.idle == Without(st.idle, c) && r.log == st.log && r.vtBound == st.vtBound
    requires c in r.clients && r.clients == st.clients[c := r.clients[c]] && r.clients[c].state == New
    ensures HandOver(r, None)
  {
    hide Disciplined, Enabled, Awaited;
  }

  lemma LinkedBooks(st: State, c: nat, r: State)
    requires Books(st) && c in st.clients && r.log == st.log && r.born == st.born
    requires c in r.clients && r.clients == st.clients[c := r.clients[c]]
      && r.clients[c].devices == st.clients[c].devices
    ensures Books(r)
  {
    hide Accounted, HeldBy, References, Enabled;
  }

  lemma CloseSeatKeeps(st: State, c: nat, env: Env)
    requires Inv(st) && Ready(st, c)
    ensures var r := HandleCloseSeat(st, c, env);
      Inv(r.st) && c in r.st.clients && r.st.born == st.born && r.st.vtBound == st.vtBound
  {
    hide NoDup, Books, HandOver, RemoveClient;
    if st.clients[c].seated {
      InvIsNearly(st, c);
      UnlinkLeaves(st, c);
      var unlinked := st.(order := Without(st.order, c));
      RemoveKeeps(unlinked, c, env);
      GoneToIdle(RemoveClient(unlinked, c, env), c);
    }
  }

  lemma GoneToIdle(st: State, c: nat)
    requires Gone(st, c)
    ensures Inv(st.(idle := [c] + st.idle))
  {
    hide NoDup, Accounted, Disciplined;
    var r := st.(idle := [c] + st.idle);
    assert Lists(r, None) by { PushNoDup(st.idle, c); }
    assert HandOver(r, None);
  }

  lemma OpenDeviceKeeps(st: State, c: nat, env: Env)
    requires Inv(st) && Ready(st, c)
    ensures var r := HandleOpenDevice(st, c, env);
      Inv(r.st) && c in r.st.clients && r.st.born == st.born && r.st.vtBound == st.vtBound
  {
    hide NoDup, Books, HandOver, Quiet, Accounted, OpenDevice, CloseDevice;
    if st.clients[c].seated && OpenDevice(st, c, env).OpenedAt? {
      var now, k := OpenDevice(st, c, env).st, OpenDevice(st, c, env).k;
      OpenNeedsActive(st, c, env);
      BooksAt(st, c);
      OpenTidy(st, c, env);
      TidyKeepsInv(st, now, c);
      if !env.dups {
        BooksAt(now, c);
        CloseTidy(now, c, k, env);
        TidyKeepsInv(now, CloseDevice(now, c, k, env), c);
      }
    }
  }

  lemma OpenNeedsActive(st: State, c: nat, env: Env)
    requires c in st.clients && OpenDevice(st, c, env).OpenedAt?
    ensures st.clients[c].state == Active
  {
  }

  lemma TidyKeepsInv(st: State, r: State, c: nat)
    requires Inv(st) && Tidy(st, r, c) && (st.clients[c].state != New || r.clients[c].devices == []) && c in st.order
    ensures Inv(r)
  {
    hide NoDup, Books, HandOver, Quiet, Accounted;
    TidyKeepsBase(st, r, c, None);
  }

  lemma CloseDeviceKeeps(st: State, c: nat, id: int, env: Env)
    requires Inv(st) && Ready(st, c)
    ensures var r := HandleCloseDevice(st, c, id, env);
      Inv(r.st) && c in r.st.clients && r.st.born == st.born && r.st.vtBound == st.vtBound
  {
    hide NoDup, Books, HandOver, Quiet, Accounted, CloseDevice;
    if st.clients[c].seated {
      var k := FindId(st.clients[c].devices, id);
      if k.Some? {
        RefsPositiveAt(st.clients[c].devices, k.value);
        SeatedIffInOrder(st, c);
        BooksAt(st, c);
        CloseTidy(st, c, k.value, env);
        TidyKeepsInv(st, CloseDevice(st, c, k.value, env), c);
      }
    }
  }

  /** Asking the active client to let go, with or without a successor queued. */
  lemma DisableKeeps(st: State, c: nat, env: Env)
    requires Base(st, None) && Owner(st, None) && Busy(st) && st.active == Some(c) && c in st.clients
    requires st.clients[c].state == Active
    requires st.next.Some? ==>
      st.next.value in st.order && st.next.value in st.clients && Waits(st.clients[st.next.value].state) && !st.vtBound
    ensures var r := DisableClient(st, c, env).st;
      && Inv(r) && r.order == st.order && r.born == st.born && r.vtBound == st.vtBound && r.active == st.active
      && r.clients.Keys == st.clients.Keys
  {
    hide NoDup, Books, HandOver, Quiet, Accounted, DeactivateFrom;
    var off := DeactivateFrom(st, c, 0, env);
    SeatedIffInOrder(st, c);
    BooksAt(st, c);
    DeactivateFromTidy(st, c, 0, env);
    TidyKeepsBase(st, off, c, None);
    DisabledBase(off, c);
  }

  lemma DisabledBase(st: State, c: nat)
    requires Base(st, None) && c in st.order && c in st.clients && st.clients[c].state == Active
    ensures Base(Log(SetClient(st, c, st.clients[c].(state := PendingDisable)), Disable(c)), None)
  {
    hide NoDup, Books, HandOver, Accounted;
    var pending := SetClient(st, c, st.clients[c].(state := PendingDisable));
    LinkedBooks(st, c, pending);
    EventKeepsBooks(pending, Disable(c));
    DisabledHandOver(st, c);
  }

  lemma DisabledHandOver(st: State, c: nat)
    requires HandOver(st, None) && c in st.order && c in st.clients && st.clients[c].state == Active && c !in st.idle
    ensures HandOver(Log(SetClient(st, c, st.clients[c].(state := PendingDisable)), Disable(c)), None)
  {
    hide Enabled, Awaited;
    AppendHandOver(st.log, Disable(c));
    Append(st.log, Disable(c));
    assert Disciplined(st.log + [Disable(c)], st.vtBound);
  }

  lemma SwitchKeeps(st: State, c: nat, session: int, env: Env)
    requires Inv(st) && Ready(st, c)
    ensures var r := HandleSwitchSession(st, c, session, env);
      Inv(r.st) && c in r.st.clients && r.st.born == st.born && r.st.vtBound == st.vtBound
  {
    hide NoDup, Books, HandOver, DisableClient;
    SeatedIffInOrder(st, c);
    var r := HandleSwitchSession(st, c, session, env);
    if r.st != st {
      var queued := st.(next := FindSession(st, st.order, session));
      NextBase(st, queued);
      DisableKeeps(queued, c, env);
    }
  }

  lemma NextBase(st: State, r: State)
    requires Base(st, None) && r == st.(next := r.next)
    ensures Base(r, None)
  {
    hide NoDup;
  }

  lemma AckKeeps(st: State, c: nat, env: Env)
    requires Inv(st) && Ready(st, c)
    ensures var r := HandleDisableSeat(st, c, env);
      Inv(r.st) && c in r.st.clients && r.st.born == st.born && r.st.vtBound == st.vtBound
  {
    hide NoDup, Books, HandOver, Activate;
    if st.clients[c].seated && st.clients[c].state == PendingDisable {
      SeatedIffInOrder(st, c);
      var vacant := Log(SetClient(st, c, st.clients[c].(state := Disabled)), Acked(c)).(active := None);
      AckedBase(st, c);
      ActivateVacant(vacant, None, env);
      ActivateSame(vacant, env);
    }
  }

  lemma ActivateSame(st: State, env: Env)
    requires Known(st)
    ensures Activate(st, env).st.clients.Keys == st.clients.Keys
  {
  }

  lemma AckedBase(st: State, c: nat)
    requires Base(st, None) && c in st.order && c in st.clients && st.clients[c].state == PendingDisable
    ensures Base(Log(SetClient(st, c, st.clients[c].(state := Disabled)), Acked(c)).(active := None), None)
  {
    hide NoDup, Books, HandOver, Accounted;
    var acked := SetClient(st, c, st.clients[c].(state := Disabled));
    LinkedBooks(st, c, acked);
    EventKeepsBooks(acked, Acked(c));
    AckedHandOver(st, c);
    ActiveIsNoMatter(Log(acked, Acked(c)), Log(acked, Acked(c)).(active := None), None);
  }

  lemma AckedHandOver(st: State, c: nat)
    requires HandOver(st, None) && c in st.order && c in st.clients && st.clients[c].state == PendingDisable
      && c !in st.idle
    ensures HandOver(Log(SetClient(st, c, st.clients[c].(state := Disabled)), Acked(c)), None)
  {
    hide Enabled, Awaited;
    AppendHandOver(st.log, Acked(c));
    Append(st.log, Acked(c));
    assert Disciplined(st.log + [Acked(c)], st.vtBound);
  }

  lemma DestroyKeeps(st: State, c: nat, env: Env)
    requires Nearly(st, c) && Ready(st, c)
    ensures var r := Destroy(st, c, env); Inv(r) && r.born == st.born && r.vtBound == st.vtBound && c !in r.clients
  {
    hide NoDup, Books, HandOver, RemoveClient;
    SeatedIffInOrder(st, c);
    if st.clients[c].seated {
      WithoutAbsent(st.idle, c);
      UnlinkLeaves(st, c);
      var unlinked := st.(order := Without(st.order, c));
      RemoveKeeps(unlinked, c, env);
      GoneAway(RemoveClient(unlinked, c, env), c);
    } else {
      WithoutAbsent(st.order, c);
      IdleAway(st, c);
    }
  }

  lemma GoneAway(st: State, c: nat)
    requires Gone(st, c)
    ensures Inv(st.(clients := st.clients - {c}))
  {
    hide NoDup, Books, HandOver, Lists;
    assert HeldBy(st.log, c) == {} by { BooksAt(st, c); }
    AwayBooks(st, c);
    AwayHandOver(st, c);
    AwayLists(st, c);
  }

  lemma AwayLists(st: State, c: nat)
    requires Lists(st, Some(c))
    ensures Lists(st.(clients := st.clients - {c}), None) && c !in st.order && c !in st.idle
  {
    hide NoDup;
  }

  lemma AwayBooks(st: State, c: nat)
    requires Books(st) && HeldBy(st.log, c) == {}
    ensures Books(st.(clients := st.clients - {c}))
  {
    hide Accounted, HeldBy, References, Enabled;
  }

  lemma AwayHandOver(st: State, c: nat)
    requires HandOver(st, None)
    ensures HandOver(st.(clients := st.clients - {c}), None)
    ensures HandOver(st.(idle := Without(st.idle, c), clients := st.clients - {c}), None)
  {
    hide Disciplined, Enabled, Awaited;
  }

  lemma IdleAway(st: State, c: nat)
    requires Nearly(st, c) && c in st.idle && Without(st.order, c) == st.order
    ensures Inv(st.(idle := Without(st.idle, c), clients := st.clients - {c}))
  {
    hide Lists, Books, HandOver;
    IdleIsOut(st, c);
    assert HeldBy(st.log, c) == {} by { BooksAt(st, c); }
    AwayBooks(st, c);
    AwayHandOver(st, c);
    BooksIgnoreIdle(st.(clients := st.clients - {c}), Without(st.idle, c));
    IdleAwayLists(st, c);
  }

  lemma IdleIsOut(st: State, c: nat)
    requires Lists(st, None) && c in st.idle
    ensures c !in st.order && c in st.clients
  {
    hide NoDup;
  }

  lemma BooksIgnoreIdle(st: State, idle: seq<nat>)
    requires Books(st)
    ensures Books(st.(idle := idle))
  {
  }

  lemma IdleAwayLists(st: State, c: nat)
    requires Lists(st, None) && Members(st) && c in st.idle
    ensures var r := st.(idle := Without(st.idle, c), clients := st.clients - {c}); Lists(r, None) && Members(r)
  {
    IdleAwayOrder(st, c);
    hide Lists;
  }

  lemma IdleAwayOrder(st: State, c: nat)
    requires Lists(st, None) && c in st.idle
    ensures Lists(st.(idle := Without(st.idle, c), clients := st.clients - {c}), None)
  {
    WithoutNoDup(st.idle, c);
    hide NoDup;
  }
}
