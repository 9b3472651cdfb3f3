/**
 * The seat daemon's event loop: a list of event sources, the table of descriptors given
 * to poll, and callbacks that add, change and destroy sources while they are called.
 */
module Poller {
  import opened LinkedList

  datatype Mask = Mask(readable: bool, writable: bool, error: bool, hangup: bool)

  datatype PollBits = PollBits(pollin: bool, pollout: bool, pollerr: bool, pollhup: bool, other: bool)

  datatype PollFd = PollFd(fd: int, events: PollBits, revents: PollBits)

  const QUIET := PollBits(false, false, false, false, false)

  function EventsOf(m: Mask): PollBits {
    PollBits(m.readable, m.writable, false, false, false)
  }

  function MaskOf(b: PollBits): Mask {
    Mask(b.pollin, b.pollout, b.pollerr, b.pollhup)
  }

  class Source {
    const fd: int
    var mask: Mask
    var killed: bool
    var slot: int

    constructor (fd: int, mask: Mask)
      ensures this.fd == fd && this.mask == mask && !killed && slot == -1
    {
      this.fd, this.mask, killed, slot := fd, mask, false, -1;
    }
  }

  /** The link of a source; the list itself has none. */
  type Node = Link<Source?>

  /** What happened: a source was destroyed by its owner, or called back. */
  datatype Event = Killed(source: Source) | Called(source: Source, fd: int, mask: Mask)

  ghost function KilledIn(log: seq<Event>): set<Source> {
    if log == [] then {}
    else KilledIn(log[..|log| - 1]) + if log[|log| - 1].Killed? then {log[|log| - 1].source} else {}
  }

  ghost predicate NoneAfterKill(log: seq<Event>) {
    log == [] ||
    (NoneAfterKill(log[..|log| - 1])
      && (log[|log| - 1].Called? ==> log[|log| - 1].source !in KilledIn(log[..|log| - 1])))
  }

  /** The sources whose owners still hold them. */
  ghost function Live(listed: seq<Source>, dead: set<Source>): seq<Source> {
    if listed == [] then []
    else (if listed[0] in dead then [] else [listed[0]]) + Live(listed[1..], dead)
  }

  ghost function DeadIn(listed: seq<Source>, dead: set<Source>): set<Source> {
    if listed == [] then {} else (if listed[0] in dead then {listed[0]} else {}) + DeadIn(listed[1..], dead)
  }

  ghost predicate Distinct<T>(s: seq<T>) {
    forall i, j | 0 <= i < j < |s| :: s[i] != s[j]
  }

  lemma DistinctTail<T>(s: seq<T>)
    requires s != [] && Distinct(s)
    ensures Distinct(s[1..]) && s[0] !in s[1..]
  {
  }

  lemma {:induction false} LiveMembers(listed: seq<Source>, dead: set<Source>)
    ensures forall s :: s in Live(listed, dead) <==> s in listed && s !in dead
    ensures Distinct(listed) ==> Distinct(Live(listed, dead))
  {
    if listed != [] {
      LiveMembers(listed[1..], dead);
      assert listed == [listed[0]] + listed[1..];
      assert Distinct(listed) ==> Distinct(listed[1..]) && listed[0] !in listed[1..];
    }
  }

  lemma {:induction false} LiveWithout(listed: seq<Source>, dead: set<Source>, k: nat)
    requires Distinct(listed) && k < |Live(listed, dead)|
    ensures var live := Live(listed, dead);
      Live(listed, dead + {live[k]}) == live[..k] + live[k + 1..]
  {
    hide Distinct;
    var live := Live(listed, dead);
    var rest := Live(listed[1..], dead);
    DistinctTail(listed);
    LiveMembers(listed[1..], dead);
    if listed[0] in dead {
      LiveWithout(listed[1..], dead, k);
    } else if k == 0 {
      DeadElsewhere(listed[1..], dead, listed[0]);
      assert live[..0] + live[1..] == rest;
    } else {
      assert rest[k - 1] in rest;
      LiveWithout(listed[1..], dead, k - 1);
      LeaveOut(listed[0], rest, k);
    }
  }

  lemma LeaveOut<T>(x: T, rest: seq<T>, k: nat)
    requires 0 < k <= |rest|
    ensures ([x] + rest)[k] == rest[k - 1]
    ensures ([x] + rest)[..k] + ([x] + rest)[k + 1..] == [x] + (rest[..k - 1] + rest[k..])
  {
  }

  lemma {:induction false} DeadElsewhere(listed: seq<Source>, dead: set<Source>, s: Source)
    requires s !in listed
    ensures Live(listed, dead + {s}) == Live(listed, dead)
  {
    if listed != [] { DeadElsewhere(listed[1..], dead, s); }
  }

  /** The links after the first are those of the sources. */
  ghost predicate Items(ring: seq<Node>, listed: seq<Source>) {
    |ring| == |listed| + 1 && forall i | 0 <= i < |listed| :: ring[i + 1].item == listed[i]
  }

  ghost predicate Marked(listed: seq<Source>, dead: set<Source>)
    reads listed`killed
  {
    forall i | 0 <= i < |listed| :: listed[i].killed <==> listed[i] in dead
  }

  /** A source with a slot has one of its own, which holds its descriptor. */
  ghost predicate SlotsOf(listed: seq<Source>, pollfds: array<PollFd>)
    reads listed`slot, pollfds
  {
    && (forall i | 0 <= i < |listed| && listed[i].slot != -1 ::
          1 <= listed[i].slot < pollfds.Length && pollfds[listed[i].slot].fd == listed[i].fd)
    && forall i, j | 0 <= i < j < |listed| :: listed[i].slot == -1 || listed[i].slot != listed[j].slot
  }

  /** These sources have the first slots, in order, and the table agrees with them. */
  ghost predicate Filled(done: seq<Source>, pollfds: array<PollFd>)
    reads done`slot, done`mask, pollfds
  {
    |done| < pollfds.Length && forall i | 0 <= i < |done| ::
      && done[i].slot == i + 1
      && pollfds[i + 1].fd == done[i].fd && pollfds[i + 1].events == EventsOf(done[i].mask)
  }

  lemma FilledSlots(listed: seq<Source>, pollfds: array<PollFd>)
    requires Filled(listed, pollfds)
    ensures SlotsOf(listed, pollfds)
  {
  }

  lemma {:induction false} LiveOfLive(listed: seq<Source>, dead: set<Source>)
    requires forall i | 0 <= i < |listed| :: listed[i] !in dead
    ensures Live(listed, dead) == listed && DeadIn(listed, dead) == {}
  {
    if listed != [] {
      LiveOfLive(listed[1..], dead);
      assert listed == [listed[0]] + listed[1..];
    }
  }

  ghost predicate NoneFreed(listed: seq<Source>, freed: set<Source>) {
    forall i | 0 <= i < |listed| :: listed[i] !in freed
  }

  lemma LogKilled(log: seq<Event>, s: Source)
    ensures KilledIn(log + [Killed(s)]) == KilledIn(log) + {s}
    ensures NoneAfterKill(log) ==> NoneAfterKill(log + [Killed(s)])
    ensures Calls(log + [Killed(s)]) == Calls(log)
  {
    assert (log + [Killed(s)])[..|log|] == log;
  }

  lemma LogCalled(log: seq<Event>, s: Source, fd: int, mask: Mask)
    ensures KilledIn(log + [Called(s, fd, mask)]) == KilledIn(log)
    ensures Calls(log + [Called(s, fd, mask)]) == Calls(log) + [Called(s, fd, mask)]
    ensures NoneAfterKill(log) && s !in KilledIn(log) ==> NoneAfterKill(log + [Called(s, fd, mask)])
  {
    assert (log + [Called(s, fd, mask)])[..|log|] == log;
  }

  /** A source put in front. */
  lemma PushSource(ring: seq<Node>, node: Node, listed: seq<Source>, s: Source, dead: set<Source>,
                   freed: set<Source>, pollfds: array<PollFd>)
    requires NoneFreed(listed, freed) && s !in freed
    requires Items(ring, listed) && Distinct(listed) && Marked(listed, dead) && SlotsOf(listed, pollfds)
    requires node.item == s && s !in listed && s !in dead && !s.killed && s.slot == -1
    ensures Items([ring[0], node] + ring[1..], [s] + listed) && Distinct([s] + listed)
    ensures NoneFreed([s] + listed, freed) && Marked([s] + listed, dead) && SlotsOf([s] + listed, pollfds)
    ensures Live([s] + listed, dead) == [s] + Live(listed, dead)
  {
    var more := [s] + listed;
    forall i | 1 <= i < |more| ensures more[i] == listed[i - 1] {}
    assert more[1..] == listed;
  }

  class Poller {
    const fds: Node
    const signalFd: int
    var pollfds: array<PollFd>
    var dirty: bool
    var sources: int                // with the signal descriptor
    var live: seq<Source>           // what owners hold, the latest first
    ghost var ring: seq<Node>       // the list
    ghost var listed: seq<Source>   // and the sources in it
    ghost var dead: set<Source>     // destroyed by their owners
    ghost var freed: set<Source>
    ghost var log: seq<Event>

    constructor (signalFd: int)
      ensures Valid() && listed == [] && log == [] && dirty
    {
      var list := new Link<Source?>(null);
      fds := list;
      this.signalFd := signalFd;
      pollfds := new PollFd[0];
      dirty, sources := true, 1;
      live, listed, dead, freed, log := [], [], {}, {}, [];
      ring := [list];
      new;
      Init(fds);
    }

    /** The list holds exactly the sources not freed, and says which are destroyed. */
    ghost predicate Listing()
      reads this, ring, listed
    {
      && ring != [] && Ring(ring) && ring[0] == fds && fds.item == null
      && Items(ring, listed) && Distinct(listed) && Marked(listed, dead)
      && live == Live(listed, dead)
      && sources == 1 + |live|
    }

    ghost predicate History()
      reads this
    {
      && dead == KilledIn(log) && NoneAfterKill(log) && freed <= dead
      && NoneFreed(listed, freed)
    }

    ghost predicate Slots()
      reads this, listed, pollfds
    {
      SlotsOf(listed, pollfds)
    }

    /** The table is the list, in its order. */
    ghost predicate Table()
      reads this, listed, pollfds
    {
      && listed == live && sources == |listed| + 1
      && Filled(listed, pollfds)
      && pollfds[0].fd == signalFd && pollfds[0].events == EventsOf(Mask(true, false, false, false))
    }

    ghost predicate Valid()
      reads this, ring, listed, pollfds
    {
      Listing() && History() && Slots() && (!dirty ==> Table())
    }
  
    /** What holds of the list whatever the table says. */
    ghost predicate Kept()
      reads this, ring, listed
    {
      && ring != [] && Items(ring, listed) && Ring(ring) && ring[0] == fds && fds.item == null
      && Distinct(listed) && Marked(listed, dead) && NoneFreed(listed, freed)
    }

    /** Links a new source in. */
    method Enlist(node: Node, s: Source)
      requires Kept() && SlotsOf(listed, pollfds) && Unlinked(node)
      requires node.item == s && s !in listed && s !in dead && s !in freed && !s.killed && s.slot == -1
      modifies this`ring, this`listed, node, fds, fds.next
      ensures Kept() && SlotsOf(listed, pollfds) && Live(listed, dead) == [s] + Live(old(listed), dead)
      ensures listed == [s] + old(listed) && ring == [fds, node] + old(ring)[1..]
    {
      hide Ring, Items, Marked, Distinct, SlotsOf, Live, NoneFreed;
      PushSource(ring, node, listed, s, dead, freed, pollfds);
      Insert(fds, node, ring);
      ring := [fds, node] + ring[1..];
      listed := [s] + listed;
    }

    /** Adds a source, in front of all others and without a slot; there may be no memory. */
    method AddFd(fd: int, mask: Mask, memory: bool) returns (s: Source?)
      requires Valid()
      modifies this`sources, this`dirty, this`live, this`ring, this`listed, fds, fds.next
      ensures Valid() && (s == null <==> !memory)
      ensures s == null ==> live == old(live) && listed == old(listed) && ring == old(ring) && dirty == old(dirty)
      ensures s != null ==>
        && fresh(s) && s.fd == fd && s.mask == mask && s.slot == -1
        && live == [s] + old(live) && listed == [s] + old(listed) && dirty
        && |ring| == |old(ring)| + 1 && fresh(ring[1]) && ring == [fds, ring[1]] + old(ring)[1..]
    {
      hide Ring, KilledIn, NoneAfterKill, Table, Items, Marked, Distinct, SlotsOf, Live, NoneFreed, Filled;
      if !memory { return null; }
      assert Kept() && Slots();
      var source := new Source(fd, mask);
      var node := new Link<Source?>(source);
      sources := sources + 1;
      dirty := true;
      Enlist(node, source);
      live := [source] + live;
      s := source;
    }

    /** Destroys a source: it stays in the list, marked, until the table is made anew. */
    method Destroy(s: Source, k: nat)
      requires Valid() && k < |live| && live[k] == s
      modifies this`sources, this`dirty, this`live, this`dead, this`log, s`killed
      ensures Valid() && dirty && live == old(live[..k] + live[k + 1..])
      ensures dead == old(dead) + {s} && log == old(log) + [Killed(s)] && Calls(log) == Calls(old(log))
    {
      hide Ring, Live, KilledIn, NoneAfterKill, Distinct, Items, SlotsOf, Table, NoneFreed, Calls;
      LogKilled(log, s);
      LiveMembers(listed, dead);
      LiveWithout(listed, dead, k);
      sources := sources - 1;
      dirty := true;
      s.killed := true;
      dead := dead + {s};
      log := log + [Killed(s)];
      live := live[..k] + live[k + 1..];
    }

    method Update(s: Source, mask: Mask)
      requires Valid() && s in live
      modifies this`dirty, s`mask
      ensures Valid() && dirty && s.mask == mask
    {
      hide Ring, Live, KilledIn, NoneAfterKill, Distinct, Table, Items, Marked, SlotsOf;
      s.mask := mask;
      dirty := true;
    }
  
    /** Makes room for one slot for each live source and the signal descriptor. */
    method Grow(memory: bool) returns (ok: bool)
      requires sources >= 1
      modifies this`pollfds
      ensures ok ==> sources <= pollfds.Length && (pollfds == old(pollfds) || fresh(pollfds))
      ensures !ok ==> pollfds == old(pollfds)
      ensures old(sources <= pollfds.Length) || memory ==> ok
    {
      if sources > pollfds.Length {
        if !memory { return false; }
        var more := new PollFd[sources](_ => PollFd(0, QUIET, QUIET));
        forall i | 0 <= i < pollfds.Length { more[i] := pollfds[i]; }
        pollfds := more;
      }
      ok := true;
    }

    /** Takes the link at place k, of a source that was destroyed, out of the list. */
    method Free(elem: Node, ghost k: nat)
      requires Ring(ring) && Items(ring, listed) && Distinct(listed) && Marked(listed, dead) && NoneFreed(listed, freed)
      requires 0 < k < |ring| && ring[k] == elem && listed[k - 1] in dead
      modifies this`ring, this`listed, this`freed, elem, elem.prev, elem.next
      ensures Ring(ring) && Items(ring, listed) && Distinct(listed) && Marked(listed, dead) && NoneFreed(listed, freed)
      ensures ring == old(ring[..k] + ring[k + 1..]) && listed == old(listed[..k - 1] + listed[k..])
      ensures freed == old(freed) + {old(listed[k - 1])}
    {
      Remove(elem, ring, k);
      freed := freed + {listed[k - 1]};
      ring := ring[..k] + ring[k + 1..];
      listed := listed[..k - 1] + listed[k..];
    }

    /** Gives the source the slot, and the slot to the source. */
    method Fill(s: Source, idx: nat, ghost done: seq<Source>)
      requires Filled(done, pollfds) && idx == |done| + 1 < pollfds.Length && s !in done
      modifies s`slot, pollfds
      ensures Filled(done + [s], pollfds) && pollfds[0] == old(pollfds[0])
    {
      s.slot := idx;
      pollfds[idx] := PollFd(s.fd, EventsOf(s.mask), QUIET);
    }
  
    /** The walk has dealt with some sources, which are listed and have their slots, and
        is at the first of the others, or back at the list itself. */
    ghost predicate At(elem: Node, done: seq<Source>, rest: seq<Source>)
      reads this, ring, listed, done, pollfds
    {
      && Kept() && listed == done + rest && Filled(done, pollfds)
      && elem == ring[After(|ring|, |done|)]
    }

    lemma AtSource(elem: Node, done: seq<Source>, rest: seq<Source>)
      requires At(elem, done, rest)
      ensures elem == fds <==> rest == []
      ensures |ring| == |listed| + 1 && |listed| == |done| + |rest|
      ensures rest != [] ==> ring[|done| + 1] == elem && elem.item == rest[0] == listed[|done|]
      ensures rest != [] ==> elem.prev in ring && elem.next in ring
      ensures rest != []
        ==> rest[0] !in done && rest[0] in listed && elem in ring && (rest[0].killed <==> rest[0] in dead)
    {
      if rest != [] {
        assert listed[|done|] == rest[0];
        assert ring[|done| + 1].item == listed[|done|];
        assert ring[|done| + 1].prev == ring[Before(|ring|, |done| + 1)];
        assert ring[|done| + 1].next == ring[After(|ring|, |done| + 1)];
        forall i | 0 <= i < |done| ensures done[i] != rest[0] { assert listed[i] == done[i]; }
      }
    }

    method VisitKilled(elem: Node, ghost done: seq<Source>, ghost rest: seq<Source>) returns (next: Node)
      requires At(elem, done, rest) && rest != [] && rest[0] in dead && History()
      modifies this`ring, this`listed, this`freed, elem, elem.prev, elem.next
      ensures At(next, done, rest[1..]) && freed == old(freed) + {rest[0]} && History()
      ensures forall n | n in ring :: n in old(ring)
    {
      hide Filled, Items, Distinct, Marked, NoneFreed;
      AtSource(elem, done, rest);
      ghost var k := |done| + 1;
      assert ring[k].prev == ring[Before(|ring|, k)];
      var back: Node := elem.prev;
      Free(elem, k);
      assert listed == done + rest[1..];
      assert ring[k - 1].next == ring[After(|ring|, k - 1)];
      next := back.next;
    }

    method VisitLive(elem: Node, s: Source, idx: nat, ghost done: seq<Source>, ghost rest: seq<Source>)
      returns (next: Node)
      requires At(elem, done, rest) && rest != [] && s == rest[0] && idx == |done| + 1 < pollfds.Length && History()
      modifies s`slot, pollfds
      ensures At(next, done + [rest[0]], rest[1..]) && pollfds[0] == old(pollfds[0]) && History()
    {
      hide Filled, Items, Distinct, NoneFreed;
      AtSource(elem, done, rest);
      Fill(s, idx, done);
      assert listed == (done + [s]) + rest[1..];
      assert ring[idx].next == ring[After(|ring|, idx)];
      next := elem.next;
    }
  
    lemma AtStart()
      requires Kept() && pollfds.Length > 0
      ensures At(ring[After(|ring|, 0)], [], listed)
      ensures fds.next == ring[After(|ring|, 0)]
    {
      assert [] + listed == listed;
      assert ring[0].next == ring[After(|ring|, 0)];
    }

    /** At the end of the walk only live sources are left, each with its slot. */
    lemma AtFinish(done: seq<Source>)
      requires At(fds, done, []) && History() && live == done && sources == 1 + |live|
      requires forall i | 0 <= i < |done| :: done[i] !in dead
      requires pollfds[0].fd == signalFd && pollfds[0].events == EventsOf(Mask(true, false, false, false))
      ensures Listing() && Slots() && Table()
    {
      hide Ring, Items, Distinct, Marked, NoneFreed, SlotsOf, KilledIn, NoneAfterKill;
      assert listed == done;
      LiveOfLive(listed, dead);
      FilledSlots(listed, pollfds);
    }

    /** Frees what was destroyed and makes the table anew; fails only without memory. */
    method Regenerate(memory: bool) returns (ok: bool)
      requires Valid()
      modifies this`pollfds, this`ring, this`listed, this`freed, pollfds, ring, listed`slot
      ensures ok ==> Listing() && History() && Slots() && Table()
      ensures !ok ==> Valid() && !memory && listed == old(listed) && pollfds == old(pollfds)
      ensures pollfds == old(pollfds) || fresh(pollfds)
      ensures ok ==> freed == old(freed) + DeadIn(old(listed), dead)
      ensures forall i | 0 <= i < |ring| :: ring[i] in old(ring)
      ensures forall i | 0 <= i < |listed| :: listed[i] in old(listed)
    {
      hide KilledIn, NoneAfterKill, SlotsOf, Ring, Items, Distinct, Marked, NoneFreed, At, Filled, Live, DeadIn, Walked;
      ok := Grow(memory);
      if !ok { return; }
      pollfds[0] := PollFd(signalFd, EventsOf(Mask(true, false, false, false)), QUIET);
      AtStart();
      var idx := 1;
      var elem: Node := fds.next;
      ghost var done: seq<Source> := [];
      ghost var rest := listed;
      WalkBegins(listed, dead, freed);
      while elem != fds
        invariant At(elem, done, rest) && idx == |done| + 1
        invariant History()
        invariant sources <= pollfds.Length
        invariant forall n | n in ring :: n in old(ring)
        invariant pollfds == old(pollfds) || fresh(pollfds)
        invariant Walked(done, rest, old(listed), live, dead, old(freed), freed)
        invariant pollfds[0].fd == signalFd && pollfds[0].events == EventsOf(Mask(true, false, false, false))
        decreases |rest|
      {
        AtSource(elem, done, rest);
        WalkOn(done, rest, old(listed), live, dead, old(freed), freed);
        var s: Source := elem.item;
        if s.killed {
          elem := VisitKilled(elem, done, rest);
        } else {
          elem := VisitLive(elem, s, idx, done, rest);
          done := done + [s];
          idx := idx + 1;
        }
        rest := rest[1..];
      }
      AtSource(elem, done, rest);
      WalkDone(done, old(listed), live, dead, old(freed), freed);
      AtFinish(done);
      assert listed == done;
    }

    /** Sources have only been put in front of those that were listed. */
    ghost predicate OnlyMore(nodes: seq<Node>, others: seq<Source>)
      reads this
    {
      Extends(ring, listed, nodes, others)
    }

    /** What an owner does at once. */
    method Do(act: Act)
      requires Valid()
      modifies this`sources, this`dirty, this`live, this`ring, this`listed, this`dead, this`log, ring
      modifies listed`killed, listed`mask
      ensures Valid() && old(dead) <= dead && Calls(log) == Calls(old(log))
      ensures OnlyMore(old(ring), old(listed))
      ensures forall i | 0 <= i < |ring| :: ring[i] in old(ring) || fresh(ring[i])
      ensures forall i | 0 <= i < |listed| :: listed[i] in old(listed) || fresh(listed[i])
    {
      hide Ring, Items, Distinct, Marked, SlotsOf, Table, Live, NoneFreed, KilledIn, NoneAfterKill;
      match act {
        case Add(fd, mask, memory) =>
          FirstInRing();
          var s := AddFd(fd, mask, memory);
        case Kill(k) =>
          if k < |live| {
            LiveMembers(listed, dead);
            assert live[k] in live;
            Destroy(live[k], k);
          }
        case Change(k, mask) =>
          if k < |live| {
            LiveMembers(listed, dead);
            assert live[k] in live;
            Update(live[k], mask);
          }
      }
    }

    /** What an owner does in a callback. */
    method Callback(acts: seq<Act>)
      requires Valid()
      modifies this`sources, this`dirty, this`live, this`ring, this`listed, this`dead, this`log, ring
      modifies listed`killed, listed`mask
      ensures Valid() && old(dead) <= dead && Calls(log) == Calls(old(log))
      ensures OnlyMore(old(ring), old(listed))
      ensures forall i | 0 <= i < |ring| :: ring[i] in old(ring) || fresh(ring[i])
      ensures forall i | 0 <= i < |listed| :: listed[i] in old(listed) || fresh(listed[i])
    {
      hide Ring, Items, Distinct, Marked, SlotsOf, Table, Live, NoneFreed, KilledIn, NoneAfterKill;
      ExtendsItself(ring, listed);
      hide Extends;
      var i := 0;
      while i < |acts|
        invariant Valid() && old(dead) <= dead && Calls(log) == Calls(old(log))
        invariant OnlyMore(old(ring), old(listed))
        invariant forall i | 0 <= i < |ring| :: ring[i] in old(ring) || fresh(ring[i])
        invariant forall i | 0 <= i < |listed| :: listed[i] in old(listed) || fresh(listed[i])
      {
        ghost var nodes, others := ring, listed;
        Do(acts[i]);
        ExtendsMore(ring, listed, nodes, others, old(ring), old(listed));
        i := i + 1;
      }
    }

    lemma FirstInRing()
      requires Valid()
      ensures fds in ring && fds.next != null && fds.next in ring
    {
      assert ring[0].next == ring[After(|ring|, 0)];
    }

    /** The walk is at the first of the sources still to come, or back at the list. */
    ghost predicate Facing(elem: Node, left: seq<Source>)
      reads this, ring, listed
    {
      Kept() && |left| <= |listed| && listed[|listed| - |left|..] == left
        && elem == ring[After(|ring|, |listed| - |left|)]
    }

    lemma FacingSource(elem: Node, left: seq<Source>)
      requires Facing(elem, left)
      ensures elem == fds <==> left == []
      ensures left != [] ==> elem.item == left[0] && left[0] in listed && (left[0].killed <==> left[0] in dead)
      ensures left != [] ==> elem.next != null && Facing(elem.next, left[1..])
    {
      if left != [] {
        var k := |listed| - |left|;
        assert listed[k] == left[0];
        assert ring[k + 1].item == listed[k];
        assert ring[k + 1].next == ring[After(|ring|, k + 1)];
        assert listed[k + 1..] == left[1..];
      }
    }

    /** Sources put in front meanwhile do not move the walk. */
    lemma StillFacing(elem: Node, left: seq<Source>, nodes: seq<Node>, others: seq<Source>)
      requires Kept() && OnlyMore(nodes, others) && left != [] && |left| <= |others| && |nodes| == |others| + 1
      requires others[|others| - |left|..] == left && elem == nodes[After(|nodes|, |others| - |left|)]
      ensures Facing(elem, left)
    {
      var n, k := |listed| - |others|, |others| - |left|;
      assert listed[n + k..] == listed[n..][k..];
      assert ring[n + 1..][k] == nodes[1..][k];
    }

    ghost method Record(s: Source, fd: int, mask: Mask)
      requires Valid() && s !in dead
      modifies this`log
      ensures Valid() && Kept() && |ring| == |listed| + 1
      ensures Calls(log) == Calls(old(log)) + [Called(s, fd, mask)]
    {
      hide Ring, Distinct, Marked, Live, NoneFreed, KilledIn, NoneAfterKill, Calls, SlotsOf, Filled;
      LogCalled(log, s, fd, mask);
      log := log + [Called(s, fd, mask)];
    }

    /** The callback of one source; whatever its owner and others do in it, the walk can
        go on from there. */
    method Call(elem: Node, s: Source, fd: int, mask: Mask, acts: seq<Act>, ghost left: seq<Source>)
      requires Valid() && Facing(elem, left) && left != [] && s !in dead
      modifies this`sources, this`dirty, this`live, this`ring, this`listed, this`dead, this`log, ring
      modifies listed`killed, listed`mask
      ensures Valid() && Facing(elem, left) && old(dead) <= dead
      ensures Calls(log) == Calls(old(log)) + [Called(s, fd, mask)]
      ensures forall i | 0 <= i < |ring| :: ring[i] in old(ring) || fresh(ring[i])
      ensures forall i | 0 <= i < |listed| :: listed[i] in old(listed) || fresh(listed[i])
    {
      hide Ring, Distinct, Items, Marked, Table, Live, NoneFreed, KilledIn, NoneAfterKill, Calls, SlotsOf;
      Record(s, fd, mask);
      ghost var nodes, others := ring, listed;
      Callback(acts);
      StillFacing(elem, left, nodes, others);
    }

    /** Calls a source back, if it has something to report and was not destroyed. */
    method Visit(elem: Node, s: Source, acts: seq<Act>, ghost left: seq<Source>) returns (flag: bool)
      requires Valid() && Facing(elem, left) && left != [] && s == left[0]
      modifies this`sources, this`dirty, this`live, this`ring, this`listed, this`dead, this`log, ring
      modifies listed`killed, listed`mask
      ensures Valid() && Facing(elem, left) && old(dead) <= dead
      ensures flag <==> Reports(s, pollfds) && s !in old(dead)
      ensures Calls(log) == Calls(old(log)) + if flag then [CallOf(s, pollfds)] else []
      ensures forall i | 0 <= i < |ring| :: ring[i] in old(ring) || fresh(ring[i])
      ensures forall i | 0 <= i < |listed| :: listed[i] in old(listed) || fresh(listed[i])
    {
      hide Ring, Distinct, Items, Marked, Table, Live, NoneFreed, KilledIn, NoneAfterKill, Calls, SlotsOf, Listing,
        History, Slots, Valid, Kept, Facing;
      FacingSource(elem, left);
      SlotOf(s);
      flag := false;
      if s.slot != -1 && !s.killed {
        var revents := pollfds[s.slot].revents;
        if revents != QUIET {
          flag := true;
          Call(elem, s, pollfds[s.slot].fd, MaskOf(revents), acts, left);
        }
      }
    }

    lemma SlotOf(s: Source)
      requires Valid() && s in listed
      ensures s.slot != -1 ==> 1 <= s.slot < pollfds.Length && pollfds[s.slot].fd == s.fd
    {
    }

    /** The calls of this round so far are those expected of the sources passed. */
    ghost predicate SoFar(all: seq<Source>, called: seq<bool>, before: seq<Event>)
      reads this, all`slot, pollfds
    {
      && |called| <= |all|
      && Calls(log) == before + Expected(all[..|called|], called, pollfds)
      && Fair(all[..|called|], called, dead, pollfds)
    }

    /** One step of the walk. */
    method Advance(elem: Node, acts: seq<Act>, ghost all: seq<Source>, ghost called: seq<bool>,
                   ghost before: seq<Event>)
      returns (flag: bool, next: Node)
      requires Valid() && |called| < |all| && Facing(elem, all[|called|..]) && SoFar(all, called, before)
      modifies this`sources, this`dirty, this`live, this`ring, this`listed, this`dead, this`log, ring
      modifies listed`killed, listed`mask
      ensures Valid() && Facing(next, all[|called| + 1..]) && SoFar(all, called + [flag], before)
      ensures forall i | 0 <= i < |ring| :: ring[i] in old(ring) || fresh(ring[i])
      ensures forall i | 0 <= i < |listed| :: listed[i] in old(listed) || fresh(listed[i])
    {
      hide Ring, Items, Distinct, Marked, Table, Live, NoneFreed, KilledIn, NoneAfterKill, Calls, SlotsOf, Facing,
        Reports, Expected, Fair;
      ghost var left := all[|called|..];
      FacingSource(elem, left);
      var s: Source := elem.item;
      ghost var gone, was := dead, Expected(all[..|called|], called, pollfds);
      flag := Visit(elem, s, acts, left);
      ExpectedMore(all, called, flag, pollfds);
      FairMore(all, called, flag, gone, dead, pollfds);
      Regroup(before, was, if flag then [CallOf(s, pollfds)] else []);
      FacingSource(elem, left);
      assert left[1..] == all[|called| + 1..];
      next := elem.next;
    }

    /** Calls back every source with something to report, in the order of the list, but
        none that its owner has destroyed by the time its turn comes. Sources added
        meanwhile are not called. */
    method Dispatch(callbacks: seq<seq<Act>>) returns (ghost called: seq<bool>)
      requires Valid()
      modifies this`sources, this`dirty, this`live, this`ring, this`listed, this`dead, this`log, ring
      modifies listed`killed, listed`mask
      ensures Valid() && |called| == |old(listed)|
      ensures Calls(log) == Calls(old(log)) + Expected(old(listed), called, pollfds)
      ensures Fair(old(listed), called, dead, pollfds)
    {
      hide Ring, Items, Distinct, Marked, Table, Live, NoneFreed, KilledIn, NoneAfterKill, Calls, SlotsOf, Facing,
        Expected, Fair;
      ghost var all := listed;
      called := [];
      var turn := 0;
      FirstFacing();
      ExpectedNone(pollfds);
      var elem: Node := fds.next;
      while elem != fds
        invariant |called| <= |all| && Valid() && Facing(elem, all[|called|..])
        invariant SoFar(all, called, Calls(old(log)))
        invariant forall i | 0 <= i < |ring| :: ring[i] in old(ring) || fresh(ring[i])
        invariant forall i | 0 <= i < |listed| :: listed[i] in old(listed) || fresh(listed[i])
        decreases |all| - |called|
      {
        FacingSource(elem, all[|called|..]);
        var flag;
        flag, elem := Advance(elem, if turn < |callbacks| then callbacks[turn] else [], all, called, Calls(old(log)));
        if flag { turn := turn + 1; }
        called := called + [flag];
      }
      FacingSource(elem, all[|called|..]);
      assert all[..|called|] == all;
    }

    /** What poll answers for each slot in use. */
    method SetRevents(revents: seq<PollBits>)
      requires Valid() && Table()
      modifies pollfds
      ensures Valid() && Table() && listed == live && InOrder(listed, pollfds)
      ensures forall i | 1 <= i <= |listed| :: pollfds[i].revents == BitsAt(revents, i)
    {
      hide Ring, Items, Distinct, Marked, Live, NoneFreed, KilledIn, NoneAfterKill, SlotsOf;
      var i := 0;
      while i < sources
        invariant 0 <= i <= sources && Table()
        invariant forall j | 0 <= j < i :: pollfds[j].revents == BitsAt(revents, j)
      {
        pollfds[i] := pollfds[i].(revents := BitsAt(revents, i));
        i := i + 1;
      }
      FilledSlots(listed, pollfds);
    }

    /** Makes the table anew if something has changed. */
    method Refresh(memory: bool) returns (ok: bool)
      requires Valid()
      modifies this`dirty, this`pollfds, this`ring, this`listed, this`freed, pollfds, ring, listed`slot
      ensures Valid() && (ok ==> Table()) && (memory ==> ok)
      ensures pollfds == old(pollfds) || fresh(pollfds)
      ensures forall i | 0 <= i < |ring| :: ring[i] in old(ring)
      ensures forall i | 0 <= i < |listed| :: listed[i] in old(listed)
    {
      hide Ring, Items, Distinct, Marked, Live, NoneFreed, KilledIn, NoneAfterKill, SlotsOf, Filled, DeadIn;
      ok := true;
      if dirty {
        ok := Regenerate(memory);
        if ok { dirty := false; }
      }
    }

    /** One turn of the loop: every source its owner holds is polled for its own
        descriptor, and called back with what came of that. */
    method Poll(memory: bool, fails: bool, revents: seq<PollBits>, callbacks: seq<seq<Act>>)
      returns (ok: bool, ghost called: seq<bool>)
      requires Valid()
      modifies this, pollfds, ring, listed
      ensures Valid() && (!fails && memory ==> ok)
      ensures ok ==> |called| == |old(live)| && Calls(log) == Calls(old(log)) + Reported(old(live), called, revents)
      ensures ok ==> forall k | 0 <= k < |called| ::
        if called[k] then BitsAt(revents, k + 1) != QUIET else BitsAt(revents, k + 1) == QUIET || old(live)[k] in dead
      ensures !ok ==> log == old(log) && live == old(live)
    {
      hide Valid, Listing, History, Slots, Table, Calls, Reported, Expected, Reports;
      called := [];
      ok := Refresh(memory);
      if !ok { return; }
      if fails { return false, called; }
      SetRevents(revents);
      ghost var all := listed;
      called := Dispatch(callbacks);
      ExpectedIsReported(all, called, pollfds, revents);
      ok := true;
    }

    lemma FirstFacing()
      requires Valid()
      ensures fds in ring && fds.next != null && Facing(fds.next, listed)
    {
      assert ring[0].next == ring[After(|ring|, 0)];
      assert listed[0..] == listed;
    }
  }

  /** Nodes and sources with others in front of them, behind the list itself. */
  ghost predicate Extends(ring: seq<Node>, listed: seq<Source>, nodes: seq<Node>, others: seq<Source>) {
    var n := |listed| - |others|;
    && n >= 0 && |ring| == |nodes| + n && |nodes| > 0
    && listed[n..] == others && ring[n + 1..] == nodes[1..]
  }

  lemma ExtendsItself(ring: seq<Node>, listed: seq<Source>)
    requires |ring| > 0
    ensures Extends(ring, listed, ring, listed)
  {
  }

  lemma ExtendsMore(ring: seq<Node>, listed: seq<Source>, nodes: seq<Node>, others: seq<Source>, first: seq<Node>,
                    oldest: seq<Source>)
    requires Extends(ring, listed, nodes, others) && Extends(nodes, others, first, oldest)
    ensures Extends(ring, listed, first, oldest)
  {
    var n, k := |listed| - |others|, |others| - |oldest|;
    assert listed[n + k..] == listed[n..][k..];
    assert ring[n + k + 1..] == ring[n + 1..][k..];
    assert nodes[1..][k..] == nodes[k + 1..];
  }

  function BitsAt(revents: seq<PollBits>, k: nat): PollBits {
    if k < |revents| then revents[k] else QUIET
  }

  /** The calls to some of the sources: the k-th has slot k + 1. */
  ghost function Reported(sources: seq<Source>, called: seq<bool>, revents: seq<PollBits>): seq<Event>
    requires |sources| == |called|
  {
    if sources == [] then []
    else
      var n := |sources| - 1;
      Reported(sources[..n], called[..n], revents) +
      if called[n] then [Called(sources[n], sources[n].fd, MaskOf(BitsAt(revents, n + 1)))] else []
  }

  ghost predicate InOrder(sources: seq<Source>, pollfds: array<PollFd>)
    reads sources`slot
  {
    |sources| < pollfds.Length && forall i | 0 <= i < |sources| :: sources[i].slot == i + 1
  }

  lemma {:induction false} ExpectedIsReported(sources: seq<Source>, called: seq<bool>, pollfds: array<PollFd>,
                                              revents: seq<PollBits>)
    requires |sources| == |called| && InOrder(sources, pollfds)
    requires forall i | 1 <= i <= |sources| :: pollfds[i].revents == BitsAt(revents, i)
    ensures Expected(sources, called, pollfds) == Reported(sources, called, revents)
    ensures forall k | 0 <= k < |sources| :: Reports(sources[k], pollfds) <==> BitsAt(revents, k + 1) != QUIET
    decreases |sources|
  {
    if sources != [] {
      var n := |sources| - 1;
      ExpectedIsReported(sources[..n], called[..n], pollfds, revents);
    }
  }

  ghost function CallOf(s: Source, pollfds: array<PollFd>): Event
    reads s`slot, pollfds
  {
    if 0 <= s.slot < pollfds.Length then Called(s, s.fd, MaskOf(pollfds[s.slot].revents)) else Killed(s)
  }

  lemma ExpectedNone(pollfds: array<PollFd>)
    ensures Expected([], [], pollfds) == []
    ensures forall dead :: Fair([], [], dead, pollfds)
  {
  }

  lemma ExpectedMore(all: seq<Source>, called: seq<bool>, flag: bool, pollfds: array<PollFd>)
    requires |called| < |all|
    ensures Expected(all[..|called| + 1], called + [flag], pollfds) ==
      Expected(all[..|called|], called, pollfds) + if flag then [CallOf(all[|called|], pollfds)] else []
  {
    var n := |called|;
    assert all[..n + 1][..n] == all[..n];
    assert (called + [flag])[..n] == called;
  }

  /** Those called had something to report; those not called had nothing, or were
      destroyed. */
  ghost predicate Fair(sources: seq<Source>, called: seq<bool>, dead: set<Source>, pollfds: array<PollFd>)
    reads sources`slot, pollfds
  {
    |called| == |sources| && forall k | 0 <= k < |called| ::
      if called[k] then Reports(sources[k], pollfds) else !Reports(sources[k], pollfds) || sources[k] in dead
  }

  lemma FairMore(all: seq<Source>, called: seq<bool>, flag: bool, gone: set<Source>, dead: set<Source>,
                 pollfds: array<PollFd>)
    requires |called| < |all| && Fair(all[..|called|], called, gone, pollfds) && gone <= dead
    requires flag <==> Reports(all[|called|], pollfds) && all[|called|] !in gone
    ensures Fair(all[..|called| + 1], called + [flag], dead, pollfds)
  {
    hide Reports;
    var sources, now := all[..|called| + 1], called + [flag];
    forall k | 0 <= k < |now|
      ensures if now[k] then Reports(sources[k], pollfds) else !Reports(sources[k], pollfds) || sources[k] in dead
    {
      if k < |called| { assert sources[k] == all[..|called|][k] && now[k] == called[k]; }
    }
  }

  ghost predicate Reports(s: Source, pollfds: array<PollFd>)
    reads s`slot, pollfds
  {
    s.slot != -1 && 0 <= s.slot < pollfds.Length && pollfds[s.slot].revents != QUIET
  }

  /** The calls to some of these sources: each with its own descriptor and what its own
      slot reports. */
  ghost function Expected(sources: seq<Source>, called: seq<bool>, pollfds: array<PollFd>): seq<Event>
    requires |sources| == |called|
    reads sources`slot, pollfds
  {
    if sources == [] then []
    else
      var n := |sources| - 1;
      var s := sources[n];
      Expected(sources[..n], called[..n], pollfds) + if called[n] then [CallOf(s, pollfds)] else []
  }

  datatype Act = Add(fd: int, mask: Mask, memory: bool) | Kill(k: nat) | Change(k: nat, mask: Mask)

  ghost function Calls(log: seq<Event>): seq<Event> {
    if log == [] then []
    else Calls(log[..|log| - 1]) + if log[|log| - 1].Called? then [log[|log| - 1]] else []
  }

  lemma LiveStep(done: seq<Source>, rest: seq<Source>, dead: set<Source>)
    requires rest != []
    ensures done + Live(rest, dead) == (if rest[0] in dead then done else done + [rest[0]]) + Live(rest[1..], dead)
    ensures DeadIn(rest, dead) == (if rest[0] in dead then {rest[0]} else {}) + DeadIn(rest[1..], dead)
  {
    var tail := Live(rest[1..], dead);
    if rest[0] in dead {
      assert [] + tail == tail;
    } else {
      Regroup(done, [rest[0]], tail);
    }
  }

  /** Live sources have been kept, in order, and destroyed ones freed. */
  ghost predicate Walked(done: seq<Source>, rest: seq<Source>, all: seq<Source>, live: seq<Source>, dead: set<Source>,
                         before: set<Source>, freed: set<Source>) {
    && live == done + Live(rest, dead) && (forall i | 0 <= i < |done| :: done[i] !in dead)
    && (forall i | 0 <= i < |rest| :: rest[i] in all) && (forall i | 0 <= i < |done| :: done[i] in all)
    && freed + DeadIn(rest, dead) == before + DeadIn(all, dead)
  }

  lemma WalkBegins(listed: seq<Source>, dead: set<Source>, freed: set<Source>)
    ensures Walked([], listed, listed, Live(listed, dead), dead, freed, freed)
  {
  }

  lemma WalkOn(done: seq<Source>, rest: seq<Source>, all: seq<Source>, live: seq<Source>, dead: set<Source>,
               before: set<Source>, freed: set<Source>)
    requires rest != [] && Walked(done, rest, all, live, dead, before, freed)
    ensures rest[0] in all && (rest[0] !in dead ==> |done| < |live|)
    ensures rest[0] in dead ==> Walked(done, rest[1..], all, live, dead, before, freed + {rest[0]})
    ensures rest[0] !in dead ==> Walked(done + [rest[0]], rest[1..], all, live, dead, before, freed)
  {
    hide Live, DeadIn;
    LiveStep(done, rest, dead);
    assert rest[0] in rest;
    assert rest == [rest[0]] + rest[1..];
    assert (freed + {rest[0]}) + DeadIn(rest[1..], dead) == freed + ({rest[0]} + DeadIn(rest[1..], dead));
  }

  lemma WalkDone(done: seq<Source>, all: seq<Source>, live: seq<Source>, dead: set<Source>, before: set<Source>,
                 freed: set<Source>)
    requires Walked(done, [], all, live, dead, before, freed)
    ensures live == done && (forall i | 0 <= i < |done| :: done[i] !in dead) && freed == before + DeadIn(all, dead)
    ensures forall i | 0 <= i < |done| :: done[i] in all
  {
  }

  lemma Regroup<T>(a: seq<T>, b: seq<T>, c: seq<T>)
    ensures (a + b) + c == a + (b + c)
  {
  }
}
