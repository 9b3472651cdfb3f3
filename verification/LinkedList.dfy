/**
 * The intrusive circular doubly linked list. A link is embedded in what it lists, here
 * its item; a list is a link of its own, and an unlinked link has null neighbours.
 */
module LinkedList {

  class Link<T> {
    var prev: Link?<T>
    var next: Link?<T>
    const item: T

    constructor (item: T)
      ensures this.item == item && prev == null && next == null
    {
      this.item := item;
      prev, next := null, null;
    }
  }

  function After(n: nat, k: nat): nat { if k + 1 == n then 0 else k + 1 }

  function Before(n: nat, k: nat): int { if k == 0 then n - 1 else k - 1 }

  /** The links of s, in this order, form a circle. */
  ghost predicate Ring<T>(s: seq<Link<T>>)
    reads s
  {
    && s != []
    && (forall i, j | 0 <= i < j < |s| :: s[i] != s[j])
    && (forall i {:trigger s[i].next} | 0 <= i < |s| :: s[i].next == s[After(|s|, i)])
    && (forall i {:trigger s[i].prev} | 0 <= i < |s| :: s[i].prev == s[Before(|s|, i)])
  }

  ghost predicate Unlinked<T>(e: Link<T>)
    reads e
  {
    e.prev == null && e.next == null
  }

  method Init<T>(list: Link<T>)
    modifies list
    ensures Ring([list])
  {
    list.next := list;
    list.prev := list;
  }

  /** Puts an unlinked link right after the list itself. */
  method Insert<T>(list: Link<T>, elem: Link<T>, ghost s: seq<Link<T>>)
    requires Ring(s) && s[0] == list && Unlinked(elem)
    modifies list, elem, list.next
    ensures Ring([list, elem] + s[1..])
  {
    assert elem !in s;
    ghost var r := [list, elem] + s[1..];
    assert list.next == s[After(|s|, 0)];
    elem.prev := list;
    elem.next := list.next;
    list.next := elem;
    elem.next.prev := elem;
    forall i | 0 <= i < |r| ensures r[i].next == r[After(|r|, i)] && r[i].prev == r[Before(|r|, i)] {
      if i >= 2 { assert r[i] == s[i - 1]; }
    }
  }

  /** Takes a link out of the list it is in, which is not the list itself. */
  method Remove<T>(elem: Link<T>, ghost s: seq<Link<T>>, ghost k: nat)
    requires Ring(s) && 0 < k < |s| && s[k] == elem
    modifies elem, elem.prev, elem.next
    ensures Ring(s[..k] + s[k + 1..]) && Unlinked(elem)
  {
    ghost var r := s[..k] + s[k + 1..];
    ghost var n := |s|;
    ghost var before, after := s[k - 1], s[After(n, k)];
    assert elem.prev == before && elem.next == after && before != elem && after != elem;
    elem.prev.next := elem.next;
    elem.next.prev := elem.prev;
    elem.next := null;
    elem.prev := null;
    assert before.next == after && after.prev == before;
    assert forall i | 0 <= i < n && i != k && i != k - 1 :: s[i].next == s[After(n, i)];
    assert forall i | 0 <= i < n && i != k && i != After(n, k) :: s[i].prev == s[Before(n, i)];
    Skipping(s, r, k);
  }

  /** Where the links of a list are once one of them is left out. */
  lemma Skipping<T>(s: seq<Link<T>>, r: seq<Link<T>>, k: nat)
    requires 0 < k < |s| && r == s[..k] + s[k + 1..]
    requires forall i, j | 0 <= i < j < |s| :: s[i] != s[j]
    requires s[k - 1].next == s[After(|s|, k)] && s[After(|s|, k)].prev == s[k - 1]
    requires forall i | 0 <= i < |s| && i != k && i != k - 1 :: s[i].next == s[After(|s|, i)]
    requires forall i | 0 <= i < |s| && i != k && i != After(|s|, k) :: s[i].prev == s[Before(|s|, i)]
    ensures Ring(r)
  {
    forall i, j | 0 <= i < j < |r| ensures r[i] != r[j] {
      assert r[i] == s[if i < k then i else i + 1] && r[j] == s[if j < k then j else j + 1];
    }
    forall i | 0 <= i < |r| ensures r[i].next == r[After(|r|, i)] {
      assert r[i] == s[if i < k then i else i + 1];
    }
    forall i | 0 <= i < |r| ensures r[i].prev == r[Before(|r|, i)] {
      assert r[i] == s[if i < k then i else i + 1];
    }
  }

  method Empty<T>(list: Link<T>, ghost s: seq<Link<T>>) returns (b: bool)
    requires Ring(s) && s[0] == list
    ensures b == (s == [list])
  {
    b := list.next == list;
    assert list.next == s[After(|s|, 0)];
  }

  /** Moves everything in one list to the front of another. */
  method Take<T>(target: Link<T>, source: Link<T>, ghost t: seq<Link<T>>, ghost s: seq<Link<T>>)
    requires Ring(t) && Ring(s) && t[0] == target && s[0] == source
    requires forall i, j | 0 <= i < |s| && 0 <= j < |t| :: s[i] != t[j]
    modifies target, source, target.next, source.next, source.prev
    ensures Ring([target] + s[1..] + t[1..]) && Ring([source])
  {
    var empty := Empty(source, s);
    if empty {
      assert [target] + s[1..] + t[1..] == t;
      return;
    }
    ghost var r := [target] + s[1..] + t[1..];
    assert source.next == s[1] && source.prev == s[|s| - 1];
    assert target.next == t[After(|t|, 0)];
    source.next.prev := target;
    source.prev.next := target.next;
    target.next.prev := source.prev;
    target.next := source.next;
    Init(source);
    Splicing(s, t, r);
  }

  /** Where the links of two lists are once one is in front of the other. */
  lemma Splicing<T>(s: seq<Link<T>>, t: seq<Link<T>>, r: seq<Link<T>>)
    requires |s| > 1 && |t| > 0 && r == [t[0]] + s[1..] + t[1..]
    requires forall i, j | 0 <= i < j < |s| :: s[i] != s[j]
    requires forall i, j | 0 <= i < j < |t| :: t[i] != t[j]
    requires forall i, j | 0 <= i < |s| && 0 <= j < |t| :: s[i] != t[j]
    requires t[0].next == s[1] && s[1].prev == t[0]
    requires s[|s| - 1].next == t[After(|t|, 0)] && t[After(|t|, 0)].prev == s[|s| - 1]
    requires forall i {:trigger s[i].next} | 0 < i < |s| - 1 :: s[i].next == s[i + 1]
    requires forall i {:trigger s[i].prev} | 1 < i < |s| :: s[i].prev == s[i - 1]
    requires forall i {:trigger t[i].next} | 0 < i < |t| :: t[i].next == t[After(|t|, i)]
    requires forall i {:trigger t[i].prev} | 0 <= i < |t| && i != After(|t|, 0) :: t[i].prev == t[Before(|t|, i)]
    ensures Ring(r)
  {
    SplicedApart(s, t, r);
    SplicedNext(s, t, r);
    SplicedPrev(s, t, r);
  }

  lemma SplicedAt<T>(s: seq<T>, t: seq<T>, i: nat)
    requires |s| > 1 && |t| > 0 && i < |s| + |t| - 1
    ensures ([t[0]] + s[1..] + t[1..])[i] == if i == 0 then t[0] else if i < |s| then s[i] else t[i - |s| + 1]
  {
  }

  lemma SplicedApart<T>(s: seq<T>, t: seq<T>, r: seq<T>)
    requires |s| > 1 && |t| > 0 && r == [t[0]] + s[1..] + t[1..]
    requires forall i, j | 0 <= i < j < |s| :: s[i] != s[j]
    requires forall i, j | 0 <= i < j < |t| :: t[i] != t[j]
    requires forall i, j | 0 <= i < |s| && 0 <= j < |t| :: s[i] != t[j]
    ensures forall i, j | 0 <= i < j < |r| :: r[i] != r[j]
  {
    forall i, j | 0 <= i < j < |r| ensures r[i] != r[j] {
      SplicedAt(s, t, i);
      SplicedAt(s, t, j);
    }
  }

  lemma SplicedNext<T>(s: seq<Link<T>>, t: seq<Link<T>>, r: seq<Link<T>>)
    requires |s| > 1 && |t| > 0 && r == [t[0]] + s[1..] + t[1..]
    requires t[0].next == s[1] && s[|s| - 1].next == t[After(|t|, 0)]
    requires forall i {:trigger s[i].next} | 0 < i < |s| - 1 :: s[i].next == s[i + 1]
    requires forall i {:trigger t[i].next} | 0 < i < |t| :: t[i].next == t[After(|t|, i)]
    ensures forall i {:trigger r[i].next} | 0 <= i < |r| :: r[i].next == r[After(|r|, i)]
  {
    forall i | 0 <= i < |r| ensures r[i].next == r[After(|r|, i)] {
      SplicedAt(s, t, i);
      SplicedAt(s, t, After(|r|, i));
    }
  }

  lemma SplicedPrev<T>(s: seq<Link<T>>, t: seq<Link<T>>, r: seq<Link<T>>)
    requires |s| > 1 && |t| > 0 && r == [t[0]] + s[1..] + t[1..]
    requires s[1].prev == t[0] && t[After(|t|, 0)].prev == s[|s| - 1]
    requires forall i {:trigger s[i].prev} | 1 < i < |s| :: s[i].prev == s[i - 1]
    requires forall i {:trigger t[i].prev} | 0 <= i < |t| && i != After(|t|, 0) :: t[i].prev == t[Before(|t|, i)]
    ensures forall i {:trigger r[i].prev} | 0 <= i < |r| :: r[i].prev == r[Before(|r|, i)]
  {
    forall i | 0 <= i < |r| ensures r[i].prev == r[Before(|r|, i)] {
      SplicedAt(s, t, i);
      SplicedAt(s, t, Before(|r|, i));
    }
  }
}
