/**
 The queues of the virtual processor as circular lists: each operation on the links of the threads is
 the operation on the sequence of threads that the state machine uses.
 */
module SchedLists {
  import opened SchedState
  import C = Clist

  class Queue {
    const head: C.Link
    /** The link that each thread has for this queue. */
    const link: map<Tid, C.Link>
    ghost var ring: seq<C.Link>

    /** The ring goes from the head through the links of q, in order. */
    ghost predicate Holds(q: seq<Tid>)
      reads this`ring, ring
    {
      && C.Ring(ring) && |ring| == |q| + 1 && ring[0] == head
      && (forall i :: 0 <= i < |q| ==> q[i] in link && ring[i + 1] == link[q[i]])
      && (forall t :: t in link ==> link[t] != head)
      && (forall t, u :: t in link && u in link && link[t] == link[u] ==> t == u)
    }

    constructor (link: map<Tid, C.Link>)
      requires forall t, u :: t in link && u in link && link[t] == link[u] ==> t == u
      ensures Holds([]) && this.link == link && fresh(head)
    {
      head := new C.Link();
      this.link := link;
      new;
      C.Init(head);
      ring := [head];
    }

    lemma NotInRing(q: seq<Tid>, t: Tid)
      requires Holds(q) && t in link && t !in q
      ensures link[t] !in ring
    {
      forall i | 0 <= i < |ring|
        ensures ring[i] != link[t]
      {
        if i > 0 {
          assert ring[i] == link[q[i - 1]];
        }
      }
    }

    /** `st_clist_insert_before(&thread->links, &q)` */
    method InsertLast(t: Tid, ghost q: seq<Tid>)
      requires Holds(q) && t in link && t !in q
      modifies this`ring, ring, link[t]
      ensures Holds(q + [t])
    {
      NotInRing(q, t);
      hide C.Ring;
      C.InsertBefore(link[t], head, ring, 0);
      ring := ring + [link[t]];
    }

    /** `st_clist_insert_after(&thread->links, &q)` */
    method InsertFirst(t: Tid, ghost q: seq<Tid>)
      requires Holds(q) && t in link && t !in q
      modifies this`ring, ring, link[t]
      ensures Holds([t] + q)
    {
      NotInRing(q, t);
      hide C.Ring;
      C.InsertAfter(link[t], head, ring, 0);
      ring := ring[..1] + [link[t]] + ring[1..];
    }

    /** `st_clist_remove(&thread->links)` */
    method TakeOut(t: Tid, ghost q: seq<Tid>)
      requires Holds(q) && t in q
      modifies this`ring, ring
      ensures Holds(Remove(q, t))
    {
      ghost var i := IndexOf(q, t);
      assert ring[i + 1] == link[t];
      assert Remove(q, t) == q[..i] + q[i + 1..];
      hide C.Ring, Remove;
      C.Remove(link[t], ring, i + 1);
      ring := ring[..i + 1] + ring[i + 2..];
    }

    /** The first link of the queue, or the head itself. */
    method First(ghost q: seq<Tid>) returns (l: C.Link)
      requires Holds(q)
      ensures (q == [] <==> l == head) && (q != [] ==> l == link[q[0]])
    {
      assert C.Joined(ring, 0);
      l := head.next;
    }
  }
}
