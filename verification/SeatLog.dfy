/** What the log of the seat daemon says: references, held devices, the hand-over. */
module SeatLog {
  import opened SeatModel

  /** Opens minus closes of a path by a client. */
  function References(log: seq<Event>, c: nat, path: string): int {
    if log == [] then 0
    else
      var before := References(log[..|log| - 1], c, path);
      match log[|log| - 1]
      case Opened(d, p) => if d == c && p == path then before + 1 else before
      case ClosedOnce(d, p) => if d == c && p == path then before - 1 else before
      case _ => before
  }

  /** The devices a client holds. */
  function HeldBy(log: seq<Event>, c: nat): set<int> {
    if log == [] then {}
    else
      var before := HeldBy(log[..|log| - 1], c);
      match log[|log| - 1]
      case Acquired(d, id) => if d == c then before + {id} else before
      case Reactivated(d, id, _) => if d == c then before + {id} else before
      case Released(d, id) => if d == c then before - {id} else before
      case Gone(d, id) => if d == c then before - {id} else before
      case _ => before
  }

  /** Whether the last of the enable and disable events of a client was an enable. */
  function Enabled(log: seq<Event>, c: nat): bool {
    if log == [] then false
    else
      var before := Enabled(log[..|log| - 1], c);
      match log[|log| - 1]
      case Enable(d, _, _) => d == c || before
      case Disable(d) => d != c && before
      case _ => before
  }

  /** Whether a client was asked to let go and has neither acknowledged nor left. */
  function Awaited(log: seq<Event>, c: nat): bool {
    if log == [] then false
    else
      var before := Awaited(log[..|log| - 1], c);
      match log[|log| - 1]
      case Disable(d) => d == c || before
      case Acked(d) => d != c && before
      case Left(d) => d != c && before
      case _ => before
  }

  /** At most one client holds devices, now. */
  ghost predicate OneHolder(log: seq<Event>) {
    forall c, d | HeldBy(log, c) != {} && HeldBy(log, d) != {} :: c == d
  }

  /** ... and at every point of the log. */
  ghost predicate AlwaysOneHolder(log: seq<Event>) {
    OneHolder(log) && (log == [] || AlwaysOneHolder(log[..|log| - 1]))
  }

  /** The hand-over discipline, at every point of the log: enables and disables of a
      client alternate, enable first; an enable comes only when no disabled client is
      still awaited; a VT-bound seat enables only a client of the current VT; and only
      DRM devices ever become active again. */
  ghost predicate Disciplined(log: seq<Event>, vtBound: bool) {
    || log == []
    || (var before := log[..|log| - 1];
        && Disciplined(before, vtBound)
        && match log[|log| - 1]
           case Enable(c, session, vt) =>
             && !Enabled(before, c)
             && (forall d: nat :: !Awaited(before, d))
             && (vtBound ==> session == vt)
           case Disable(c) => Enabled(before, c)
           case Reactivated(_, _, kind) => kind == Drm
           case _ => true)
  }

  predicate IsDeviceEvent(e: Event) {
    e.Opened? || e.ClosedOnce? || e.Acquired? || e.Reactivated? || e.Released? || e.Gone?
  }

  function Subject(e: Event): nat { e.c }

  // ---------------------------------------------------------------- one event

  lemma Append(log: seq<Event>, e: Event)
    ensures (log + [e])[..|log|] == log && (log + [e])[|log|] == e
  {
  }

  /** An event about one client leaves the devices of the others alone, and one that is
      no device event leaves everybody's. */
  lemma AppendOther(log: seq<Event>, e: Event, x: nat)
    requires Subject(e) != x || !IsDeviceEvent(e)
    ensures HeldBy(log + [e], x) == HeldBy(log, x)
    ensures forall path :: References(log + [e], x, path) == References(log, x, path)
  {
    Append(log, e);
  }

  /** What one event adds to the references of its client. */
  function Change(e: Event, path: string): int {
    match e
    case Opened(_, p) => if p == path then 1 else 0
    case ClosedOnce(_, p) => if p == path then -1 else 0
    case _ => 0
  }

  /** What one event makes of the devices its client holds. */
  function HeldAfter(e: Event, held: set<int>): set<int> {
    if e.Acquired? || e.Reactivated? then held + {e.id}
    else if e.Released? || e.Gone? then held - {e.id}
    else held
  }

  lemma AppendOwn(log: seq<Event>, e: Event)
    ensures forall path ::
      References(log + [e], Subject(e), path) == References(log, Subject(e), path) + Change(e, path)
    ensures HeldBy(log + [e], Subject(e)) == HeldAfter(e, HeldBy(log, Subject(e)))
  {
    Append(log, e);
  }

  function EnabledAfter(e: Event, x: nat, before: bool): bool {
    if e.Enable? then e.c == x || before else if e.Disable? then e.c != x && before else before
  }

  function AwaitedAfter(e: Event, x: nat, before: bool): bool {
    if e.Disable? then e.c == x || before else if e.Acked? || e.Left? then e.c != x && before else before
  }

  lemma AppendHandOver(log: seq<Event>, e: Event)
    ensures forall x: nat :: Enabled(log + [e], x) == EnabledAfter(e, x, Enabled(log, x))
    ensures forall x: nat :: Awaited(log + [e], x) == AwaitedAfter(e, x, Awaited(log, x))
  {
    Append(log, e);
  }

  lemma AppendDevice(log: seq<Event>, e: Event)
    requires IsDeviceEvent(e)
    ensures forall x: nat :: Enabled(log + [e], x) == Enabled(log, x) && Awaited(log + [e], x) == Awaited(log, x)
    ensures forall b :: (e.Reactivated? ==> e.kind == Drm) && Disciplined(log, b) ==> Disciplined(log + [e], b)
  {
    Append(log, e);
  }

  /** Letting go never makes a second holder; taking does not if no one else holds. */
  lemma AppendHolder(log: seq<Event>, e: Event)
    requires AlwaysOneHolder(log)
    requires e.Acquired? || e.Reactivated? ==> forall x: nat | x != Subject(e) :: HeldBy(log, x) == {}
    ensures AlwaysOneHolder(log + [e])
  {
    Append(log, e);
    var after := log + [e];
    forall c: nat, d: nat | HeldBy(after, c) != {} && HeldBy(after, d) != {} ensures c == d {
      if e.Acquired? || e.Reactivated? {
        if c != Subject(e) { AppendOther(log, e, c); }
        if d != Subject(e) { AppendOther(log, e, d); }
      } else {
        assert HeldBy(after, c) <= HeldBy(log, c);
        assert HeldBy(after, d) <= HeldBy(log, d);
      }
    }
  }
}
