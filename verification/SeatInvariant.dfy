/** What holds of the seat daemon between requests, and what each seat operation makes
    of it while a client is on its way out. */
module SeatInvariant {
  import opened SeatModel
  import opened SeatLog
  import opened SeatDevices

  predicate Holds(s: ClientState) { s == Active || s == PendingDisable }

  predicate Waits(s: ClientState) { s == New || s == Disabled }

  ghost predicate NoDup(s: seq<nat>) {
    forall i, j | 0 <= i < j < |s| :: s[i] != s[j]
  }

  /** Every client is in exactly one list, but for one that is on its way out. */
  ghost predicate Lists(st: State, out: Option<nat>) {
    && NoDup(st.order) && NoDup(st.idle)
    && (forall c: nat :: c in st.clients <==> c in st.order || c in st.idle || out == Some(c))
    && (forall c | c in st.order :: c !in st.idle && out != Some(c))
    && (forall c | c in st.idle :: out != Some(c))
    && (forall c | c in st.clients :: c < st.born)
  }

  /** The seat's clients have a session and belong to it; the idle ones are new or done. */
  ghost predicate Members(st: State) {
    && (forall c | c in st.order && c in st.clients ::
          var cl := st.clients[c];
          cl.seated && cl.session != -1 && (Holds(cl.state) || Waits(cl.state))
            && (cl.state == New ==> cl.devices == []))
    && (forall c | c in st.idle && c in st.clients ::
          var cl := st.clients[c];
          !cl.seated && cl.devices == [] && (if cl.session == -1 then cl.state == New else cl.state == Closed))
  }

  /** The active client is the seat's one client that holds it. */
  ghost predicate Owner(st: State, out: Option<nat>) {
    && (forall c | c in st.order && c in st.clients :: Holds(st.clients[c].state) <==> st.active == Some(c))
    && (st.active.Some? ==> st.active.value in st.order || st.active == out)
  }

  /** A queued client waits, in the seat, for an active one that was asked to let go. */
  ghost predicate Queue(st: State) {
    st.next.Some? ==>
      && st.next.value in st.order && st.next.value in st.clients && Waits(st.clients[st.next.value].state)
      && st.active.Some? && st.active.value in st.clients && st.clients[st.active.value].state == PendingDisable
      && !st.vtBound
  }

  /** A seat that is not bound to VTs is never idle while it has a client. */
  ghost predicate Busy(st: State) {
    !st.vtBound && st.order != [] ==> st.active.Some?
  }

  /** Every device table agrees with the log; a client that is not there holds nothing,
      and one yet to come is unknown to the log. */
  ghost predicate Books(st: State) {
    && (forall c | c in st.clients :: Accounted(st.clients[c].devices, st.log, c))
    && (forall c: nat | c !in st.clients :: HeldBy(st.log, c) == {})
    && (forall c: nat, path | st.born <= c :: References(st.log, c, path) == 0)
    && (forall c: nat | st.born <= c :: !Enabled(st.log, c))
  }

  /** The states of the seat's clients are what the hand-over events say; nobody else is
      awaited. */
  ghost predicate HandOver(st: State, leaving: Option<nat>) {
    && Disciplined(st.log, st.vtBound)
    && (forall c | c in st.order && c in st.clients ::
          && (Enabled(st.log, c) <==> st.clients[c].state == Active)
          && (Awaited(st.log, c) <==> st.clients[c].state == PendingDisable))
    && (forall c: nat | c !in st.order && leaving != Some(c) :: !Awaited(st.log, c))
    && (forall c | c in st.idle && c in st.clients && st.clients[c].state == New :: !Enabled(st.log, c))
  }

  /** Only an active client has active devices, and never two clients at once. */
  ghost predicate Exclusive(st: State) {
    && AlwaysOneHolder(st.log)
    && (forall c | c in st.clients && st.clients[c].state != Active :: Actives(st.clients[c].devices) == {})
  }

  ghost predicate Base(st: State, out: Option<nat>) {
    Lists(st, out) && Members(st) && Books(st) && HandOver(st, None)
  }

  ghost predicate Inv(st: State) {
    Base(st, None) && Owner(st, None) && Queue(st) && Busy(st)
  }

  // ---------------------------------------------------------------- small steps

  lemma TidyKeepsBooks(st: State, r: State, c: nat)
    requires Books(st) && Tidy(st, r, c) && c < st.born
    ensures Books(r)
  {
    hide Disciplined, Enabled, Awaited, HeldBy, References;
    forall x | x in r.clients ensures Accounted(r.clients[x].devices, r.log, x) {
      if x != c { SameBooks(r.clients[x].devices, st.log, r.log, x); }
    }
  }

  lemma SameBooks(devices: seq<Device>, log: seq<Event>, after: seq<Event>, x: nat)
    requires Accounted(devices, log, x)
    requires HeldBy(after, x) == HeldBy(log, x)
    requires forall path :: References(after, x, path) == References(log, x, path)
    ensures Accounted(devices, after, x)
  {
  }

  lemma TidyKeepsHandOver(st: State, r: State, c: nat, leaving: Option<nat>)
    requires HandOver(st, leaving) && Tidy(st, r, c)
    ensures HandOver(r, leaving)
  {
    hide Disciplined, Enabled, Awaited, HeldBy, References, Accounted;
  }

  lemma TidyKeepsBase(st: State, r: State, c: nat, out: Option<nat>)
    requires Base(st, out) && Tidy(st, r, c)
    requires st.clients[c].state != New || r.clients[c].devices == []
    requires c in st.idle ==> r.clients[c].devices == []
    ensures Base(r, out)
  {
    hide Books, HandOver, Accounted, Quiet, NoDup;
    TidyKeepsBooks(st, r, c);
    TidyKeepsHandOver(st, r, c, None);
  }

  /** An event that is no device event leaves the books alone. */
  lemma EventKeepsBooks(st: State, e: Event)
    requires Books(st) && !IsDeviceEvent(e) && Subject(e) < st.born
    ensures Books(Log(st, e))
  {
    hide HeldBy, References, Distinct, Enabled;
    var r := Log(st, e);
    AppendHandOver(st.log, e);
    forall c: nat ensures HeldBy(r.log, c) == HeldBy(st.log, c) { AppendOther(st.log, e, c); }
    forall c: nat, path ensures References(r.log, c, path) == References(st.log, c, path) { AppendOther(st.log, e, c); }
    forall x | x in r.clients ensures Accounted(r.clients[x].devices, r.log, x) {
      SameBooks(r.clients[x].devices, st.log, r.log, x);
    }
  }

  lemma EventKeepsExclusive(st: State, e: Event)
    requires Exclusive(st) && !IsDeviceEvent(e)
    ensures Exclusive(Log(st, e))
  {
    AppendHolder(st.log, e);
  }

  predicate Bare(cl: Client) { cl.state != Active || cl.devices == [] }

  /** Nobody holds devices while no client is active. */
  lemma NobodyHolds(st: State, c: nat)
    requires Books(st) && Exclusive(st)
    requires forall x | x in st.clients && x != c :: Bare(st.clients[x])
    ensures forall x: nat | x != c :: HeldBy(st.log, x) == {}
  {
    hide AlwaysOneHolder, References;
    forall x: nat | x != c ensures HeldBy(st.log, x) == {} {
      if x in st.clients { assert Accounted(st.clients[x].devices, st.log, x); }
    }
  }

  // ---------------------------------------------------------------- activation

  /** The seat has no active client; its clients all wait. */
  ghost predicate Vacant(st: State) {
    && st.active.None?
    && (forall c | c in st.order && c in st.clients :: Waits(st.clients[c].state))
    && (st.next.Some? ==> st.next.value in st.order && !st.vtBound)
  }

  lemma ActivatedDevices(st: State, c: nat)
    requires c in st.clients && Books(st)
    ensures var on := ActivateFrom(st, c, 0);
      && Tidy(st, on, c)
      && (st.clients[c].devices == [] ==> on.clients[c].devices == [])
      && (Exclusive(st) && (forall x | x in st.clients && x != c :: Bare(st.clients[x]))
          ==> AlwaysOneHolder(on.log))
  {
    hide Accounted, Quiet, AlwaysOneHolder;
    ActivateFromTidy(st, c, 0);
    if Exclusive(st) && (forall x | x in st.clients && x != c :: Bare(st.clients[x])) {
      NobodyHolds(st, c);
    }
  }

  lemma OpenVacant(st: State, c: nat, out: Option<nat>, env: Env)
    requires Base(st, out) && Vacant(st) && st.next.None? && c in st.order
    requires st.vtBound ==> st.clients[c].session == st.curVt
    ensures var r := OpenClient(st, c, env).st;
      && Base(r, out)
      && r.order == st.order && r.idle == st.idle && r.born == st.born && r.next.None? && r.vtBound == st.vtBound
      && (forall x | x in st.clients && x != c :: r.clients[x] == st.clients[x])
      && (if st.vtBound && !env.vtOpens then r == st else r.active == Some(c) && r.clients[c].state == Active)
  {
    hide Quiet, Accounted, Books, HandOver, NoDup;
    var r := OpenClient(st, c, env).st;
    if !(st.vtBound && !env.vtOpens) {
      var on := ActivateFrom(st, c, 0);
      ActivatedDevices(st, c);
      EnabledKeepsBase(st, on, c, out);
    }
  }

  /** The client that activation opens, as it stands when its devices are back. */
  function Enabling(on: State, c: nat): State
    requires c in on.clients
  {
    SetClient(on, c, on.clients[c].(state := Active)).(active := Some(c))
  }

  lemma EnabledKeepsBase(st: State, on: State, c: nat, out: Option<nat>)
    requires Base(st, out) && Vacant(st) && st.next.None? && c in st.order
    requires st.vtBound ==> st.clients[c].session == st.curVt
    requires Tidy(st, on, c) && (st.clients[c].devices == [] ==> on.clients[c].devices == [])
    ensures Base(Log(Enabling(on, c), Enable(c, st.clients[c].session, st.curVt)), out)
  {
    hide Quiet, Accounted, Books, HandOver, NoDup;
    EnabledKeepsBooks(st, on, c);
    EnabledKeepsHandOver(st, on, c);
  }

  lemma EnabledKeepsBooks(st: State, on: State, c: nat)
    requires Books(st) && Tidy(st, on, c) && c < st.born
    ensures Books(Log(Enabling(on, c), Enable(c, st.clients[c].session, st.curVt)))
  {
    hide Quiet, Accounted, HeldBy, References, Enabled;
    TidyKeepsBooks(st, on, c);
    EventKeepsBooks(Enabling(on, c), Enable(c, st.clients[c].session, st.curVt));
  }

  lemma EnabledKeepsHandOver(st: State, on: State, c: nat)
    requires HandOver(st, None) && Vacant(st) && c in st.order
    requires forall x | x in st.order || x in st.idle :: x in st.clients
    requires c !in st.idle
    requires st.vtBound ==> st.clients[c].session == st.curVt
    requires Tidy(st, on, c)
    ensures HandOver(Log(Enabling(on, c), Enable(c, st.clients[c].session, st.curVt)), None)
  {
    hide Accounted, HeldBy, References, Enabled, Awaited;
    var e := Enable(c, st.clients[c].session, st.curVt);
    AppendHandOver(on.log, e);
    forall x: nat ensures !Awaited(on.log, x) {
      if x in st.order { assert Waits(st.clients[x].state); }
    }
    Append(on.log, e);
    assert Disciplined(on.log + [e], st.vtBound);
  }

  lemma OpenVacantExclusive(st: State, c: nat, out: Option<nat>, env: Env)
    requires Base(st, out) && Vacant(st) && st.next.None? && c in st.order
    requires Exclusive(st) && (out.Some? && out.value in st.clients ==> Bare(st.clients[out.value]))
    ensures Exclusive(OpenClient(st, c, env).st)
  {
    hide Quiet, Accounted, AlwaysOneHolder, HandOver, NoDup, Books;
    if !(st.vtBound && !env.vtOpens) {
      var on := ActivateFrom(st, c, 0);
      forall x | x in st.clients && x != c ensures Bare(st.clients[x]) {
        if x in st.idle { assert st.clients[x].devices == []; }
      }
      ActivatedDevices(st, c);
      var enabled := SetClient(on, c, on.clients[c].(state := Active)).(active := Some(c));
      EventKeepsExclusive(enabled, Enable(c, st.clients[c].session, st.curVt));
    }
  }

  /** Activation fills a vacant seat: always, when it is not bound to VTs. */
  lemma ActivateVacant(st: State, out: Option<nat>, env: Env)
    requires Base(st, out) && Vacant(st) && Known(st)
    ensures var r := Activate(st, env).st;
      && Base(r, out) && Owner(r, None) && Queue(r) && Busy(r)
      && r.order == st.order && r.idle == st.idle && r.born == st.born && r.vtBound == st.vtBound
      && (out.Some? && out.value in st.clients
        ==> out.value in r.clients && r.clients[out.value] == st.clients[out.value])
      && (r.active.Some? ==> r.active.value in r.order)
  {
    hide Books, HandOver, NoDup, OpenClient;
    var c := Chosen(st);
    if c.Some? {
      NextIsFree(st, out);
      OpenVacant(st.(next := None), c.value, out, env);
    }
  }

  lemma NextIsFree(st: State, out: Option<nat>)
    requires Base(st, out)
    ensures Base(st.(next := None), out)
  {
  }

  /** The client that activation would open. */
  function Chosen(st: State): (c: Option<nat>)
    requires Known(st)
  {
    if st.next.Some? then st.next
    else if st.order == [] || (st.vtBound && st.curVt == -1) then None
    else if st.vtBound then FindSession(st, st.order, st.curVt)
    else Some(st.order[0])
  }

  lemma ActivateExclusive(st: State, out: Option<nat>, env: Env)
    requires Base(st, out) && Vacant(st) && Known(st) && Exclusive(st)
    requires out.Some? && out.value in st.clients ==> Bare(st.clients[out.value])
    ensures Exclusive(Activate(st, env).st)
  {
    hide Books, HandOver, NoDup, OpenClient, AlwaysOneHolder;
    var c := Chosen(st);
    if c.Some? {
      NextIsFree(st, out);
      OpenVacantExclusive(st.(next := None), c.value, out, env);
    }
  }
}
