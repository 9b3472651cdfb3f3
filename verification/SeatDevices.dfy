/** The device tables: what every device operation keeps, and how the tables agree with
    the log. */
module SeatDevices {
  import opened SeatModel
  import opened SeatLog

  function Ids(devices: seq<Device>): set<int> {
    if devices == [] then {} else {devices[0].id} + Ids(devices[1..])
  }

  function Paths(devices: seq<Device>): set<string> {
    if devices == [] then {} else {devices[0].path} + Paths(devices[1..])
  }

  /** The ids of the devices marked active. */
  function Actives(devices: seq<Device>): set<int> {
    if devices == [] then {}
    else (if devices[0].active then {devices[0].id} else {}) + Actives(devices[1..])
  }

  /** The references held to a path. */
  function RefsOf(devices: seq<Device>, path: string): nat {
    if devices == [] then 0
    else (if devices[0].path == path then devices[0].refs else 0) + RefsOf(devices[1..], path)
  }

  /** Distinct positive ids, distinct paths, at least one reference each. */
  predicate Distinct(devices: seq<Device>) {
    || devices == []
    || (&& devices[0].refs > 0 && devices[0].id > 0
        && devices[0].id !in Ids(devices[1..]) && devices[0].path !in Paths(devices[1..])
        && Distinct(devices[1..]))
  }

  /** A table agrees with the log: references are opens minus closes, and the active
      devices are the ones held. */
  ghost predicate Accounted(devices: seq<Device>, log: seq<Event>, c: nat) {
    && Distinct(devices) && |devices| <= MAX_SEAT_DEVICES
    && (forall path :: References(log, c, path) == RefsOf(devices, path))
    && HeldBy(log, c) == Actives(devices)
  }

  // ---------------------------------------------------------------- tables

  lemma {:induction false} DistinctRefs(devices: seq<Device>)
    requires Distinct(devices)
    ensures RefsPositive(devices)
  {
    if devices != [] { DistinctRefs(devices[1..]); }
  }

  lemma {:induction false} At(devices: seq<Device>, k: nat)
    requires Distinct(devices) && k < |devices|
    ensures devices[k].refs > 0 && devices[k].id in Ids(devices) && devices[k].path in Paths(devices)
    ensures devices[k].active <==> devices[k].id in Actives(devices)
  {
    ActivesAreIds(devices[1..]);
    if k > 0 { At(devices[1..], k - 1); }
  }

  lemma {:induction false} ActivesAreIds(devices: seq<Device>)
    ensures Actives(devices) <= Ids(devices)
    ensures forall path | path !in Paths(devices) :: RefsOf(devices, path) == 0
  {
    if devices != [] { ActivesAreIds(devices[1..]); }
  }

  /** Changing what is mutable of one device. */
  lemma {:induction false} UpdateAt(devices: seq<Device>, k: nat, d: Device)
    requires Distinct(devices) && k < |devices|
    requires d.id == devices[k].id && d.path == devices[k].path && d.refs > 0
    ensures var after := devices[k := d];
      && Distinct(after) && Ids(after) == Ids(devices) && Paths(after) == Paths(devices)
      && Actives(after) == (if d.active then Actives(devices) + {d.id} else Actives(devices) - {d.id})
      && forall path ::
           RefsOf(after, path) == RefsOf(devices, path) + (if path == d.path then d.refs - devices[k].refs else 0)
  {
    var after := devices[k := d];
    ActivesAreIds(devices[1..]);
    if k == 0 {
      assert after[1..] == devices[1..];
    } else {
      UpdateAt(devices[1..], k - 1, d);
      assert after[1..] == devices[1..][k - 1 := d];
      At(devices[1..], k - 1);
    }
  }

  lemma {:induction false} RemoveAt(devices: seq<Device>, k: nat)
    requires Distinct(devices) && k < |devices|
    ensures var after := devices[..k] + devices[k + 1..];
      && Distinct(after) && Ids(after) == Ids(devices) - {devices[k].id}
        && Paths(after) == Paths(devices) - {devices[k].path}
      && Actives(after) == Actives(devices) - {devices[k].id}
      && forall path ::
           RefsOf(after, path) == RefsOf(devices, path) - (if path == devices[k].path then devices[k].refs else 0)
  {
    hide Ids, Paths, Actives, RefsOf, Distinct;
    var after := devices[..k] + devices[k + 1..];
    var rest := devices[1..];
    assert devices == [devices[0]] + rest;
    Prepended(devices[0], rest);
    ActivesAreIds(rest);
    if k == 0 {
      assert after == rest;
    } else {
      var less := rest[..k - 1] + rest[k..];
      RemoveAt(rest, k - 1);
      assert after == [devices[0]] + less;
      Prepended(devices[0], less);
      At(rest, k - 1);
    }
  }

  /** What a table says of its first device and the others. */
  lemma Prepended(d: Device, rest: seq<Device>)
    ensures var devices := [d] + rest;
      && Ids(devices) == {d.id} + Ids(rest) && Paths(devices) == {d.path} + Paths(rest)
      && Actives(devices) == (if d.active then {d.id} else {}) + Actives(rest)
      && (Distinct(devices)
        <==> d.refs > 0 && d.id > 0 && d.id !in Ids(rest) && d.path !in Paths(rest) && Distinct(rest))
      && forall path :: RefsOf(devices, path) == (if d.path == path then d.refs else 0) + RefsOf(rest, path)
  {
    assert ([d] + rest)[1..] == rest;
  }

  lemma {:induction false} ActivesEmptyIff(devices: seq<Device>)
    ensures Actives(devices) == {} <==> forall i | 0 <= i < |devices| :: !devices[i].active
  {
    if devices != [] {
      ActivesEmptyIff(devices[1..]);
      assert forall i | 0 < i < |devices| :: devices[i] == devices[1..][i - 1];
    }
  }

  // ---------------------------------------------------------------- one operation

  /** What a device operation of one client does to the log of the others and to the
      hand-over: nothing. */
  ghost predicate Quiet(log: seq<Event>, after: seq<Event>, c: nat) {
    && (forall x: nat | x != c :: HeldBy(after, x) == HeldBy(log, x))
    && (forall x: nat, path | x != c :: References(after, x, path) == References(log, x, path))
    && (forall x: nat :: Enabled(after, x) == Enabled(log, x) && Awaited(after, x) == Awaited(log, x))
    && (forall b :: Disciplined(log, b) ==> Disciplined(after, b))
  }

  lemma QuietEvent(log: seq<Event>, e: Event)
    requires IsDeviceEvent(e) && (e.Reactivated? ==> e.kind == Drm)
    ensures Quiet(log, log + [e], Subject(e))
  {
    hide Enabled, Awaited, HeldBy, References;
    AppendDevice(log, e);
    var after := log + [e];
    assert forall b :: Disciplined(log, b) ==> Disciplined(after, b);
    assert forall x: nat :: Enabled(after, x) == Enabled(log, x) && Awaited(after, x) == Awaited(log, x);
    forall x: nat | x != Subject(e) ensures HeldBy(after, x) == HeldBy(log, x) {
      AppendOther(log, e, x);
    }
    forall x: nat, path | x != Subject(e) ensures References(after, x, path) == References(log, x, path) {
      AppendOther(log, e, x);
    }
  }

  lemma QuietTrans(a: seq<Event>, b: seq<Event>, d: seq<Event>, c: nat)
    requires Quiet(a, b, c) && Quiet(b, d, c)
    ensures Quiet(a, d, c)
  {
  }

  /** A device operation keeps the table accounted for and is quiet. */
  ghost predicate Tidy(st: State, r: State, c: nat) {
    && OnlyDevices(st, r, c)
    && Accounted(r.clients[c].devices, r.log, c)
    && Quiet(st.log, r.log, c)
  }

  lemma DeactivateTidy(st: State, c: nat, k: nat, env: Env)
    requires c in st.clients && k < |st.clients[c].devices|
    requires Accounted(st.clients[c].devices, st.log, c)
    ensures var r := DeactivateDevice(st, c, k, env);
      && Tidy(st, r, c)
      && (AlwaysOneHolder(st.log) ==> AlwaysOneHolder(r.log))
      && r.clients[c].devices[k] ==
        (if env.dropFails == {} then st.clients[c].devices[k].(active := false) else r.clients[c].devices[k])
  {
    hide Quiet, AlwaysOneHolder, Distinct, Actives, RefsOf;
    var d := st.clients[c].devices[k];
    var r := DeactivateDevice(st, c, k, env);
    At(st.clients[c].devices, k);
    if r == st {
      QuietRefl(st.log, c);
    } else {
      var e := Released(c, d.id);
      QuietEvent(st.log, e);
      UpdateAt(st.clients[c].devices, k, d.(active := false));
      AppendOwn(st.log, e);
      if AlwaysOneHolder(st.log) { AppendHolder(st.log, e); }
    }
  }

  lemma QuietRefl(log: seq<Event>, c: nat)
    ensures Quiet(log, log, c)
  {
  }

  lemma ActivateTidy(st: State, c: nat, k: nat)
    requires c in st.clients && k < |st.clients[c].devices|
    requires Accounted(st.clients[c].devices, st.log, c)
    ensures var r := ActivateDevice(st, c, k);
      && Tidy(st, r, c)
      && (AlwaysOneHolder(st.log) && (forall x: nat | x != c :: HeldBy(st.log, x) == {}) ==> AlwaysOneHolder(r.log))
  {
    hide Quiet, AlwaysOneHolder, Distinct, Actives, RefsOf;
    var d := st.clients[c].devices[k];
    var r := ActivateDevice(st, c, k);
    At(st.clients[c].devices, k);
    if r == st {
      QuietRefl(st.log, c);
    } else {
      var e := Reactivated(c, d.id, d.kind);
      QuietEvent(st.log, e);
      UpdateAt(st.clients[c].devices, k, d.(active := true));
      AppendOwn(st.log, e);
      if AlwaysOneHolder(st.log) && (forall x: nat | x != c :: HeldBy(st.log, x) == {}) { AppendHolder(st.log, e); }
    }
  }

  lemma {:induction false} DeactivateFromTidy(st: State, c: nat, k: nat, env: Env)
    requires c in st.clients && k <= |st.clients[c].devices|
    requires Accounted(st.clients[c].devices, st.log, c)
    ensures var r := DeactivateFrom(st, c, k, env);
      && Tidy(st, r, c)
      && (AlwaysOneHolder(st.log) ==> AlwaysOneHolder(r.log))
      && (env.dropFails == {} && (forall i | 0 <= i < k :: !st.clients[c].devices[i].active)
          ==> Actives(r.clients[c].devices) == {})
    decreases |st.clients[c].devices| - k
  {
    hide Quiet, AlwaysOneHolder, Distinct, Actives, RefsOf, DeactivateDevice;
    if k == |st.clients[c].devices| {
      QuietRefl(st.log, c);
      ActivesEmptyIff(st.clients[c].devices);
    } else {
      var one := DeactivateDevice(st, c, k, env);
      DeactivateTidy(st, c, k, env);
      DeactivateFromTidy(one, c, k + 1, env);
      QuietTrans(st.log, one.log, DeactivateFrom(st, c, k, env).log, c);
      DeactivateKeepsFront(st, c, k, env);
    }
  }

  lemma DeactivateKeepsFront(st: State, c: nat, k: nat, env: Env)
    requires c in st.clients && k < |st.clients[c].devices|
    ensures DeactivateDevice(st, c, k, env).clients[c].devices[..k] == st.clients[c].devices[..k]
    ensures forall i | 0 <= i < k :: DeactivateDevice(st, c, k, env).clients[c].devices[i] == st.clients[c].devices[i]
  {
  }

  lemma {:induction false} ActivateFromTidy(st: State, c: nat, k: nat)
    requires c in st.clients && k <= |st.clients[c].devices|
    requires Accounted(st.clients[c].devices, st.log, c)
    ensures var r := ActivateFrom(st, c, k);
      && Tidy(st, r, c)
      && (AlwaysOneHolder(st.log) && (forall x: nat | x != c :: HeldBy(st.log, x) == {}) ==> AlwaysOneHolder(r.log))
    decreases |st.clients[c].devices| - k
  {
    hide AlwaysOneHolder, Distinct, Actives, RefsOf, ActivateDevice;
    if k == |st.clients[c].devices| {
      QuietRefl(st.log, c);
    } else {
      var one := ActivateDevice(st, c, k);
      ActivateTidy(st, c, k);
      ActivateFromTidy(one, c, k + 1);
      QuietTrans(st.log, one.log, ActivateFrom(st, c, k).log, c);
    }
  }

  lemma CloseTidy(st: State, c: nat, k: nat, env: Env)
    requires c in st.clients && k < |st.clients[c].devices| && st.clients[c].devices[k].refs > 0
    requires Accounted(st.clients[c].devices, st.log, c)
    ensures var r := CloseDevice(st, c, k, env);
      Tidy(st, r, c) && (AlwaysOneHolder(st.log) ==> AlwaysOneHolder(r.log))
      && Actives(r.clients[c].devices) <= Actives(st.clients[c].devices)
  {
    hide Quiet, AlwaysOneHolder, Distinct, Actives, RefsOf;
    var devices := st.clients[c].devices;
    var d := devices[k];
    var e := ClosedOnce(c, d.path);
    var counted := Log(st, e);
    At(devices, k);
    QuietEvent(st.log, e);
    AppendOwn(st.log, e);
    if AlwaysOneHolder(st.log) { AppendHolder(st.log, e); }
    if d.refs > 1 {
      UpdateAt(devices, k, d.(refs := d.refs - 1));
      AddActive(devices, d);
    } else {
      CloseLast(st, c, k, env, counted);
    }
  }

  lemma AddActive(devices: seq<Device>, d: Device)
    requires d.active <==> d.id in Actives(devices)
    ensures (if d.active then Actives(devices) + {d.id} else Actives(devices) - {d.id}) == Actives(devices)
  {
  }

  /** Dropping the last reference: the device is deactivated if it can be, and gone. */
  lemma CloseLast(st: State, c: nat, k: nat, env: Env, counted: State)
    requires c in st.clients && k < |st.clients[c].devices|
    requires Accounted(st.clients[c].devices, st.log, c)
    requires var d := st.clients[c].devices[k];
      d.refs == 1 && counted == Log(st, ClosedOnce(c, d.path))
    requires AlwaysOneHolder(st.log) ==> AlwaysOneHolder(counted.log)
    ensures var r := CloseDevice(st, c, k, env);
      Tidy(st, r, c) && (AlwaysOneHolder(st.log) ==> AlwaysOneHolder(r.log))
      && Actives(r.clients[c].devices) <= Actives(st.clients[c].devices)
  {
    hide Quiet, AlwaysOneHolder, Distinct, Actives, RefsOf;
    var devices := st.clients[c].devices;
    var d := devices[k];
    var e := ClosedOnce(c, d.path);
    var off := DeactivateDevice(counted, c, k, env);
    var gone := Gone(c, d.id);
    QuietEvent(st.log, e);
    AppendOwn(st.log, e);
    if off != counted {
      var f := Released(c, d.id);
      QuietEvent(counted.log, f);
      QuietTrans(st.log, counted.log, off.log, c);
      AppendOwn(counted.log, f);
      if AlwaysOneHolder(st.log) { AppendHolder(counted.log, f); }
    }
    QuietEvent(off.log, gone);
    QuietTrans(st.log, off.log, off.log + [gone], c);
    AppendOwn(off.log, gone);
    if AlwaysOneHolder(st.log) { AppendHolder(off.log, gone); }
    RemoveAt(devices, k);
    assert HeldBy(off.log + [gone], c) == HeldBy(off.log, c) - {d.id};
  }

  lemma {:induction false} CloseAllTidy(st: State, c: nat, env: Env)
    requires c in st.clients && RefsPositive(st.clients[c].devices)
    requires Accounted(st.clients[c].devices, st.log, c)
    ensures var r := CloseAll(st, c, env);
      Tidy(st, r, c) && (AlwaysOneHolder(st.log) ==> AlwaysOneHolder(r.log))
    decreases SumRefs(st.clients[c].devices)
  {
    hide Quiet, AlwaysOneHolder, Distinct, Actives, RefsOf;
    var devices := st.clients[c].devices;
    if devices == [] {
      QuietRefl(st.log, c);
    } else {
      var one := CloseDevice(st, c, 0, env);
      CloseTidy(st, c, 0, env);
      DistinctRefs(one.clients[c].devices);
      SumRefsDrops(st, c, env);
      CloseAllTidy(one, c, env);
      QuietTrans(st.log, one.log, CloseAll(st, c, env).log, c);
    }
  }

  lemma SumRefsDrops(st: State, c: nat, env: Env)
    requires c in st.clients && st.clients[c].devices != [] && st.clients[c].devices[0].refs > 0
    ensures SumRefs(CloseDevice(st, c, 0, env).clients[c].devices) == SumRefs(st.clients[c].devices) - 1
  {
    var devices := st.clients[c].devices;
    assert devices[0 := devices[0].(refs := devices[0].refs - 1)][1..] == devices[1..];
    assert devices[..0] + devices[1..] == devices[1..];
  }

  lemma OpenTidy(st: State, c: nat, env: Env)
    requires c in st.clients && Accounted(st.clients[c].devices, st.log, c)
    ensures match OpenDevice(st, c, env)
      case NotOpened => true
      case OpenedAt(r, k) =>
        && Tidy(st, r, c)
        && (AlwaysOneHolder(st.log) && (forall x: nat | x != c :: HeldBy(st.log, x) == {}) ==> AlwaysOneHolder(r.log))
  {
    hide Tidy, AlwaysOneHolder;
    if OpenDevice(st, c, env).OpenedAt? {
      if FindPath(st.clients[c].devices, env.resolved.path).Some? {
        OpenAgain(st, c, env);
      } else {
        OpenNew(st, c, env);
      }
    }
  }

  lemma OpenAgain(st: State, c: nat, env: Env)
    requires c in st.clients && Accounted(st.clients[c].devices, st.log, c)
    requires OpenDevice(st, c, env).OpenedAt? && FindPath(st.clients[c].devices, env.resolved.path).Some?
    ensures var r := OpenDevice(st, c, env).st;
      Tidy(st, r, c) && (AlwaysOneHolder(st.log) ==> AlwaysOneHolder(r.log))
  {
    hide Quiet, AlwaysOneHolder, Distinct, Actives, RefsOf;
    var devices, path := st.clients[c].devices, env.resolved.path;
    var k := FindPath(devices, path).value;
    var e := Opened(c, path);
    QuietEvent(st.log, e);
    AppendOwn(st.log, e);
    if AlwaysOneHolder(st.log) { AppendHolder(st.log, e); }
    At(devices, k);
    UpdateAt(devices, k, devices[k].(refs := devices[k].refs + 1));
    AddActive(devices, devices[k]);
  }

  lemma OpenNew(st: State, c: nat, env: Env)
    requires c in st.clients && Accounted(st.clients[c].devices, st.log, c)
    requires OpenDevice(st, c, env).OpenedAt? && FindPath(st.clients[c].devices, env.resolved.path).None?
    ensures var r := OpenDevice(st, c, env).st;
        && Tidy(st, r, c)
        && (AlwaysOneHolder(st.log) && (forall x: nat | x != c :: HeldBy(st.log, x) == {}) ==> AlwaysOneHolder(r.log))
  {
    hide Quiet, AlwaysOneHolder;
    var devices := st.clients[c].devices;
    var path := env.resolved.path;
    var d := Device(NextId(devices), path, env.resolved.kind, 1, true);
    var e, f := Opened(c, path), Acquired(c, d.id);
    QuietEvent(st.log, e);
    QuietEvent(st.log + [e], f);
    QuietTrans(st.log, st.log + [e], st.log + [e] + [f], c);
    AppendOwn(st.log, e);
    AppendOwn(st.log + [e], f);
    assert ([d] + devices)[1..] == devices;
    NotThere(devices, d.id, path);
    ActivesAreIds(devices);
    if AlwaysOneHolder(st.log) && (forall x: nat | x != c :: HeldBy(st.log, x) == {}) {
      AppendHolder(st.log, e);
      forall x: nat | x != c ensures HeldBy(st.log + [e], x) == {} { AppendOther(st.log, e, x); }
      AppendHolder(st.log + [e], f);
    }
  }

  lemma {:induction false} NotThere(devices: seq<Device>, id: int, path: string)
    requires forall d | d in devices :: d.id < id && d.path != path
    ensures id !in Ids(devices) && path !in Paths(devices)
  {
    if devices != [] { NotThere(devices[1..], id, path); }
  }
}
