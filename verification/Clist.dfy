/**
 The intrusive circular lists of State Threads: a ring of links through its head.
 */
module Clist {

  class Link {
    var next: Link?
    var prev: Link?

    constructor ()
    {
      next, prev := null, null;
    }
  }

  function After(q: seq<Link>, i: nat): Link
    requires i < |q|
  {
    if i + 1 < |q| then q[i + 1] else q[0]
  }

  function Before(q: seq<Link>, i: nat): Link
    requires i < |q|
  {
    if i == 0 then q[|q| - 1] else q[i - 1]
  }

  /** Link i of q and the one after it point at each other. */
  ghost predicate Joined(q: seq<Link>, i: nat)
    requires i < |q|
    reads q
  {
    q[i].next == After(q, i) && After(q, i).prev == q[i]
  }

  /** q lists the ring from its head q[0] on, each link once. */
  ghost predicate Ring(q: seq<Link>)
    reads q
  {
    && |q| > 0
    && (forall i, j :: 0 <= i < j < |q| ==> q[i] != q[j])
    && forall i :: 0 <= i < |q| ==> Joined(q, i)
  }

  /** `st_clist_init` */
  method Init(l: Link)
    modifies l
    ensures Ring([l])
  {
    l.next := l;
    l.prev := l;
  }

  /** `st_clist_remove`: the ring closes behind the link, which keeps its own pointers. */
  method Remove(e: Link, ghost q: seq<Link>, ghost i: nat)
    requires Ring(q) && 0 < i < |q| && q[i] == e
    modifies Before(q, i)`next, After(q, i)`prev
    ensures Ring(q[..i] + q[i + 1..]) && e.next == old(e.next) == After(q, i)
  {
    ghost var r := q[..i] + q[i + 1..];
    assert Joined(q, i - 1) && Joined(q, i);
    e.prev.next := e.next;
    e.next.prev := e.prev;
    forall k | 0 <= k < |r|
      ensures Joined(r, k)
    {
      assert old(Joined(q, if k < i then k else k + 1));
    }
  }

  /** `st_clist_insert_before`: before the head is at the end. */
  method InsertBefore(e: Link, l: Link, ghost q: seq<Link>, ghost i: nat)
    requires Ring(q) && i < |q| && q[i] == l && e !in q
    modifies e, l`prev, Before(q, i)`next
    ensures Ring(if i == 0 then q + [e] else q[..i] + [e] + q[i..])
  {
    ghost var r := if i == 0 then q + [e] else q[..i] + [e] + q[i..];
    ghost var before := if i == 0 then |q| - 1 else i - 1;
    assert Joined(q, before);
    e.next := l;
    e.prev := l.prev;
    l.prev.next := e;
    l.prev := e;
    forall k | 0 <= k < |r|
      ensures Joined(r, k)
    {
      if k <= before {
        assert old(Joined(q, k));
      } else if k > before + 1 {
        assert old(Joined(q, k - 1));
      }
    }
  }

  /** `st_clist_insert_after` */
  method InsertAfter(e: Link, l: Link, ghost q: seq<Link>, ghost i: nat)
    requires Ring(q) && i < |q| && q[i] == l && e !in q
    modifies e, l`next, After(q, i)`prev
    ensures Ring(q[..i + 1] + [e] + q[i + 1..])
  {
    ghost var r := q[..i + 1] + [e] + q[i + 1..];
    assert Joined(q, i);
    e.next := l.next;
    e.prev := l;
    l.next.prev := e;
    l.next := e;
    forall k | 0 <= k < |r|
      ensures Joined(r, k)
    {
      if k < i {
        assert old(Joined(q, k));
      } else if k > i + 1 {
        assert old(Joined(q, k - 1));
      }
    }
  }

  function Keep(q: seq<Link>, gone: set<Link>): seq<Link> {
    if q == [] then [] else (if q[0] in gone then [] else [q[0]]) + Keep(q[1..], gone)
  }

  /** The sweep over q has seen some links; r is the ring now, and i its place in it. */
  ghost predicate Swept(q: seq<Link>, gone: set<Link>, r: seq<Link>, i: nat, seen: nat) {
    && 1 <= i <= |r| && 1 <= seen <= |q| && r[0] == q[0] && (forall l :: l in r ==> l in q)
    && r[i..] == q[seen..] && r[..i] + Keep(q[seen..], gone) == Keep(q, gone)
  }

  lemma SweptRemoved(q: seq<Link>, gone: set<Link>, r: seq<Link>, i: nat, seen: nat)
    requires Swept(q, gone, r, i, seen) && i < |r| && r[i] in gone
    ensures Swept(q, gone, r[..i] + r[i + 1..], i, seen + 1)
  {
    var r' := r[..i] + r[i + 1..];
    assert r[i..][0] == q[seen..][0] && r[i..][1..] == r[i + 1..] && q[seen..][1..] == q[seen + 1..];
    assert r'[..i] == r[..i] && r'[i..] == r[i + 1..];
  }

  lemma SweptKept(q: seq<Link>, gone: set<Link>, r: seq<Link>, i: nat, seen: nat)
    requires Swept(q, gone, r, i, seen) && i < |r| && r[i] !in gone
    ensures Swept(q, gone, r, i + 1, seen + 1)
  {
    assert r[i..][0] == q[seen..][0] && r[i..][1..] == r[i + 1..] && q[seen..][1..] == q[seen + 1..];
    assert r[..i + 1] == r[..i] + [r[i]];
    assert r[..i] + ([r[i]] + Keep(q[seen + 1..], gone)) == r[..i] + [r[i]] + Keep(q[seen + 1..], gone);
  }

  lemma SweptStart(q: seq<Link>, gone: set<Link>)
    requires |q| > 0 && q[0] !in gone
    ensures Swept(q, gone, q, 1, 1)
  {
    assert q[..1] == [q[0]];
  }

  lemma SweptAll(q: seq<Link>, gone: set<Link>, r: seq<Link>, i: nat, seen: nat)
    requires Swept(q, gone, r, i, seen) && i == |r|
    ensures r == Keep(q, gone)
  {
    assert |q[seen..]| == |r[i..]| == 0;
    assert r[..i] == r && q[seen..] == [];
  }

  /** One turn of the sweep: link i is removed or kept, and the loop steps to its next. */
  method SweepOne(e: Link, gone: set<Link>, ghost q: seq<Link>, ghost r: seq<Link>, ghost i: nat)
    returns (e': Link, ghost r': seq<Link>, ghost i': nat)
    requires Ring(r) && 0 < i < |r| && r[i] == e && forall l :: l in r ==> l in q
    modifies q
    ensures r' == (if e in gone then r[..i] + r[i + 1..] else r) && i' == (if e in gone then i else i + 1)
    ensures Ring(r') && e' == if i' < |r'| then r'[i'] else r'[0]
  {
    r', i' := r, i + 1;
    assert Joined(r, i);
    assert Before(r, i) in r && After(r, i) in r;
    assert Before(r, i) in q && After(r, i) in q;
    if e in gone {
      Remove(e, r, i);
      r', i' := r[..i] + r[i + 1..], i;
    }
    e' := e.next;
  }

  /** The loop of the dispatch functions over `io_q`: links are removed while the loop steps from
      each link to its `next`; every other link is visited and stays, in order. */
  method Sweep(head: Link, gone: set<Link>, ghost q: seq<Link>) returns (ghost r: seq<Link>)
    requires Ring(q) && q[0] == head && head !in gone
    modifies q
    ensures r == Keep(q, gone) && Ring(r)
  {
    r := q;
    ghost var i, seen := 1, 1;
    assert Joined(q, 0);
    SweptStart(q, gone);
    var e := head.next;
    while e != head
      invariant Swept(q, gone, r, i, seen) && Ring(r) && e == if i < |r| then r[i] else head
      decreases |q| - seen
    {
      ghost var was, at := r, i;
      assert forall l :: l in r ==> l in q;
      assert |r[i..]| == |q[seen..]|;
      hide Keep, Swept, Ring;
      var removed := e in gone;
      e, r, i := SweepOne(e, gone, q, r, i);
      if removed {
        SweptRemoved(q, gone, was, at, seen);
      } else {
        SweptKept(q, gone, was, at, seen);
      }
      seen := seen + 1;
    }
    SweptAll(q, gone, r, i, seen);
  }
}
