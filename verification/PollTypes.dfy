/** Poll descriptors, the requests on the io queue, and how many of them want a descriptor. */
module PollTypes {

  /** Poll flags: POLLIN, POLLOUT, POLLPRI, POLLERR, POLLHUP, and POLLNVAL or any other. */
  datatype Bits = Bits(rd: bool, wr: bool, ex: bool, err: bool, hup: bool, nval: bool)

  datatype PollFd = PollFd(fd: int, events: Bits, revents: Bits)

  /** A request on the io queue: the thread that waits, and its poll descriptors. */
  datatype PollQ = PollQ(thread: nat, pds: seq<PollFd>)

  const NONE: Bits := Bits(false, false, false, false, false, false)

  /** The three kinds of events: 0 to read, 1 to write, 2 exceptional. */
  predicate Bit(b: Bits, k: int) {
    (k == 0 && b.rd) || (k == 1 && b.wr) || (k == 2 && b.ex)
  }

  /** What both back ends demand of a poll descriptor, but for the upper bound of its number. */
  predicate Acceptable(pd: PollFd) {
    pd.fd >= 0 && pd.events != NONE && !pd.events.err && !pd.events.hup && !pd.events.nval
  }

  /** A poll entry is refused when its descriptor is negative, or when it asks for nothing or for
      anything but reading, writing and exceptions. */
  lemma AcceptableMeans(pd: PollFd)
    ensures Acceptable(pd) ==> pd.fd >= 0 && (pd.events.rd || pd.events.wr || pd.events.ex)
    ensures Acceptable(pd) ==> !pd.events.err && !pd.events.hup && !pd.events.nval
    ensures pd.fd >= 0 && pd.events.(err := false, hup := false, nval := false) == pd.events && pd.events != NONE ==>
        Acceptable(pd)
  {
  }

  function Want(pd: PollFd, fd: int, k: int): nat {
    if pd.fd == fd && Bit(pd.events, k) then 1 else 0
  }

  /** How many descriptors of pds want events of kind k of fd. */
  function Refs(pds: seq<PollFd>, fd: int, k: int): nat {
    if pds == [] then 0 else Refs(pds[..|pds| - 1], fd, k) + Want(pds[|pds| - 1], fd, k)
  }

  function QueueRefs(q: seq<PollQ>, fd: int, k: int): nat {
    if q == [] then 0 else QueueRefs(q[..|q| - 1], fd, k) + Refs(q[|q| - 1].pds, fd, k)
  }

  lemma RefsOfPrefix(pds: seq<PollFd>, i: nat, fd: int, k: int)
    requires i < |pds|
    ensures Refs(pds[..i + 1], fd, k) == Refs(pds[..i], fd, k) + Want(pds[i], fd, k)
  {
    assert pds[..i + 1][..i] == pds[..i];
  }

  lemma {:induction false} RefsGrow(pds: seq<PollFd>, i: nat, fd: int, k: int)
    requires i <= |pds|
    ensures Refs(pds[..i], fd, k) <= Refs(pds, fd, k)
    decreases |pds| - i
  {
    if i == |pds| {
      assert pds[..i] == pds;
    } else {
      RefsOfPrefix(pds, i, fd, k);
      RefsGrow(pds, i + 1, fd, k);
    }
  }

  /** A descriptor is wanted iff some entry wants it. */
  lemma {:induction false} WantedIff(pds: seq<PollFd>, fd: int, k: int)
    ensures Refs(pds, fd, k) > 0 <==> exists i :: 0 <= i < |pds| && pds[i].fd == fd && Bit(pds[i].events, k)
    decreases |pds|
  {
    if pds != [] {
      var n := |pds| - 1;
      WantedIff(pds[..n], fd, k);
      if i :| 0 <= i < |pds| && pds[i].fd == fd && Bit(pds[i].events, k) {
        assert i < n ==> pds[..n][i] == pds[i];
      }
    }
  }

  lemma {:induction false} QueueWantedIff(q: seq<PollQ>, fd: int, k: int)
    ensures QueueRefs(q, fd, k) > 0 <==> exists i :: 0 <= i < |q| && Refs(q[i].pds, fd, k) > 0
    decreases |q|
  {
    if q != [] {
      var n := |q| - 1;
      QueueWantedIff(q[..n], fd, k);
      if i :| 0 <= i < |q| && Refs(q[i].pds, fd, k) > 0 {
        assert i < n ==> q[..n][i] == q[i];
      }
    }
  }

  /** Some request of q wants events of kind k of fd. */
  predicate Wanted(q: seq<PollQ>, fd: int, k: int) {
    exists i, j :: 0 <= i < |q| && 0 <= j < |q[i].pds| && q[i].pds[j].fd == fd && Bit(q[i].pds[j].events, k)
  }

  /** Some request of q asks to read from fd. */
  predicate ToRead(q: seq<PollQ>, fd: int) {
    exists i, j :: 0 <= i < |q| && 0 <= j < |q[i].pds| && q[i].pds[j].fd == fd && q[i].pds[j].events.rd
  }

  predicate ToWrite(q: seq<PollQ>, fd: int) {
    exists i, j :: 0 <= i < |q| && 0 <= j < |q[i].pds| && q[i].pds[j].fd == fd && q[i].pds[j].events.wr
  }

  predicate ToExcept(q: seq<PollQ>, fd: int) {
    exists i, j :: 0 <= i < |q| && 0 <= j < |q[i].pds| && q[i].pds[j].fd == fd && q[i].pds[j].events.ex
  }

  lemma WantedMeans(q: seq<PollQ>, fd: int)
    ensures Wanted(q, fd, 0) <==> ToRead(q, fd)
    ensures Wanted(q, fd, 1) <==> ToWrite(q, fd)
    ensures Wanted(q, fd, 2) <==> ToExcept(q, fd)
  {
  }

  lemma WantedInQueue(q: seq<PollQ>, fd: int, k: int)
    ensures QueueRefs(q, fd, k) > 0 <==> Wanted(q, fd, k)
  {
    QueueWantedIff(q, fd, k);
    forall i | 0 <= i < |q|
      ensures Refs(q[i].pds, fd, k) > 0 <==>
        exists j :: 0 <= j < |q[i].pds| && q[i].pds[j].fd == fd && Bit(q[i].pds[j].events, k)
    {
      WantedIff(q[i].pds, fd, k);
    }
  }

  lemma {:induction false} QueueRefsOfConcat(a: seq<PollQ>, b: seq<PollQ>, fd: int, k: int)
    ensures QueueRefs(a + b, fd, k) == QueueRefs(a, fd, k) + QueueRefs(b, fd, k)
    decreases |b|
  {
    if b == [] {
      assert a + b == a;
    } else {
      assert (a + b)[..|a + b| - 1] == a + b[..|b| - 1];
      QueueRefsOfConcat(a, b[..|b| - 1], fd, k);
    }
  }

  lemma QueueRefsOfOne(p: PollQ, fd: int, k: int)
    ensures QueueRefs([p], fd, k) == Refs(p.pds, fd, k)
  {
    assert [p][..0] == [];
  }

  /** The queue without request i. */
  function Without(q: seq<PollQ>, i: nat): (r: seq<PollQ>)
    requires i < |q|
    ensures |r| == |q| - 1
  {
    q[..i] + q[i + 1..]
  }

  lemma QueueRefsWithout(q: seq<PollQ>, i: nat, fd: int, k: int)
    requires i < |q|
    ensures QueueRefs(q, fd, k) == QueueRefs(Without(q, i), fd, k) + Refs(q[i].pds, fd, k)
  {
    assert q == q[..i] + ([q[i]] + q[i + 1..]);
    QueueRefsOfConcat(q[..i], [q[i]] + q[i + 1..], fd, k);
    QueueRefsOfConcat([q[i]], q[i + 1..], fd, k);
    QueueRefsOfConcat(q[..i], q[i + 1..], fd, k);
    QueueRefsOfOne(q[i], fd, k);
  }

  lemma QueueRefsWith(q: seq<PollQ>, p: PollQ, fd: int, k: int)
    ensures QueueRefs(q + [p], fd, k) == QueueRefs(q, fd, k) + Refs(p.pds, fd, k)
  {
    QueueRefsOfConcat(q, [p], fd, k);
    QueueRefsOfOne(p, fd, k);
  }

  /** The count depends on what is asked for, not on what was answered. */
  predicate SameRequest(a: PollFd, b: PollFd) {
    a.fd == b.fd && a.events == b.events
  }

  lemma {:induction false} SameRequestSameRefs(a: seq<PollFd>, b: seq<PollFd>, fd: int, k: int)
    requires |a| == |b| && forall i :: 0 <= i < |a| ==> SameRequest(a[i], b[i])
    ensures Refs(a, fd, k) == Refs(b, fd, k)
    decreases |a|
  {
    if a != [] {
      var n := |a| - 1;
      assert forall i :: 0 <= i < n ==> a[..n][i] == a[i] && b[..n][i] == b[i];
      SameRequestSameRefs(a[..n], b[..n], fd, k);
    }
  }

  lemma QueueRefsAfterUpdate(q: seq<PollQ>, i: nat, p: PollQ, fd: int, k: int)
    requires i < |q| && |p.pds| == |q[i].pds| && forall n :: 0 <= n < |p.pds| ==> SameRequest(p.pds[n], q[i].pds[n])
    ensures QueueRefs(q[i := p], fd, k) == QueueRefs(q, fd, k)
  {
    SameRequestSameRefs(p.pds, q[i].pds, fd, k);
    QueueRefsWithout(q, i, fd, k);
    QueueRefsWithout(q[i := p], i, fd, k);
    assert q[i := p][..i] == q[..i] && q[i := p][i + 1..] == q[i + 1..];
  }

  /** The three counts of a descriptor are zero iff no request names it. */
  lemma NobodyPollsIff(q: seq<PollQ>, fd: int)
    requires forall i, j :: 0 <= i < |q| && 0 <= j < |q[i].pds| ==> Acceptable(q[i].pds[j])
    ensures (QueueRefs(q, fd, 0) == 0 && QueueRefs(q, fd, 1) == 0 && QueueRefs(q, fd, 2) == 0)
      <==> forall i, j :: 0 <= i < |q| && 0 <= j < |q[i].pds| ==> q[i].pds[j].fd != fd
  {
    forall k | 0 <= k < 3
      ensures QueueRefs(q, fd, k) > 0 <==> Wanted(q, fd, k)
    {
      WantedInQueue(q, fd, k);
    }
    forall i, j | 0 <= i < |q| && 0 <= j < |q[i].pds| && q[i].pds[j].fd == fd
      ensures exists k :: 0 <= k < 3 && Bit(q[i].pds[j].events, k)
    {
      var b := q[i].pds[j].events;
      assert Acceptable(q[i].pds[j]);
      assert Bit(b, 0) || Bit(b, 1) || Bit(b, 2);
    }
  }
}
