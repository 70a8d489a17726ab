/**
 The select back end: reference counts and descriptor sets follow the io queue.
 */
module Select {
  import opened PollTypes
  import opened PollWalk

  class Select {
    const size: nat
    const cnt: array2<int>
    const bits: array2<bool>
    var maxfd: int
    var ioQ: seq<PollQ>

    ghost predicate Shape() {
      cnt.Length0 == size && cnt.Length1 == 3 && bits.Length0 == size && bits.Length1 == 3
    }

    /** A bit of a descriptor set is on iff its count is positive. */
    ghost predicate BitsOk()
      requires Shape()
      reads cnt, bits
    {
      forall fd, k :: 0 <= fd < size && 0 <= k < 3 ==> (bits[fd, k] <==> cnt[fd, k] > 0)
    }

    ghost predicate CountsOk()
      requires Shape()
      reads this`ioQ, cnt
    {
      forall fd, k :: 0 <= fd < size && 0 <= k < 3 ==> cnt[fd, k] == QueueRefs(ioQ, fd, k)
    }

    /** Every descriptor on the queue is a valid request below size. */
    ghost predicate QueueOk(q: seq<PollQ>) {
      forall i, j :: 0 <= i < |q| && 0 <= j < |q[i].pds| ==> Acceptable(q[i].pds[j]) && q[i].pds[j].fd < size
    }

    /** The descriptors of the first n requests are at most max. */
    ghost predicate Bounded(q: seq<PollQ>, n: int, max: int) {
      n <= |q| && forall i, j :: 0 <= i < n && 0 <= j < |q[i].pds| ==> q[i].pds[j].fd <= max
    }

    /** All but that maxfd bounds the descriptors on the queue. */
    ghost predicate Sound()
      reads this`maxfd, this`ioQ, cnt, bits
    {
      Shape() && BitsOk() && CountsOk() && QueueOk(ioQ) && -1 <= maxfd < size
    }

    /** At every context switch. */
    ghost predicate Valid()
      reads this`maxfd, this`ioQ, cnt, bits
    {
      Sound() && Bounded(ioQ, |ioQ|, maxfd)
    }

    constructor (size: nat)
      ensures Valid() && this.size == size && ioQ == [] && maxfd == -1 && fresh(cnt) && fresh(bits)
    {
      this.size := size;
      cnt := new int[size, 3]((i, j) => 0);
      bits := new bool[size, 3]((i, j) => false);
      maxfd := -1;
      ioQ := [];
    }

    // ---------- counting ----------

    method Increment(fd: int, k: int)
      requires Shape() && BitsOk() && 0 <= fd < size && 0 <= k < 3 && cnt[fd, k] >= 0
      modifies cnt, bits
      ensures Shape() && BitsOk()
      ensures forall f, n :: 0 <= f < size && 0 <= n < 3 ==>
        cnt[f, n] == old(cnt[f, n]) + if f == fd && n == k then 1 else 0
    {
      bits[fd, k] := true;
      cnt[fd, k] := cnt[fd, k] + 1;
    }

    method Decrement(fd: int, k: int)
      requires Shape() && BitsOk() && 0 <= fd < size && 0 <= k < 3 && cnt[fd, k] > 0
      modifies cnt, bits
      ensures Shape() && BitsOk()
      ensures forall f, n :: 0 <= f < size && 0 <= n < 3 ==>
        cnt[f, n] == old(cnt[f, n]) - if f == fd && n == k then 1 else 0
    {
      cnt[fd, k] := cnt[fd, k] - 1;
      if cnt[fd, k] == 0 {
        bits[fd, k] := false;
      }
    }

    method IncrementAll(pd: PollFd)
      requires Shape() && BitsOk() && 0 <= pd.fd < size && forall k :: 0 <= k < 3 ==> cnt[pd.fd, k] >= 0
      modifies cnt, bits
      ensures Shape() && BitsOk()
      ensures forall f, n :: 0 <= f < size && 0 <= n < 3 ==> cnt[f, n] == old(cnt[f, n]) + Want(pd, f, n)
    {
      if pd.events.rd {
        Increment(pd.fd, 0);
      }
      if pd.events.wr {
        Increment(pd.fd, 1);
      }
      if pd.events.ex {
        Increment(pd.fd, 2);
      }
    }

    method DecrementAll(pd: PollFd)
      requires Shape() && BitsOk() && 0 <= pd.fd < size
      requires forall k :: 0 <= k < 3 ==> cnt[pd.fd, k] >= Want(pd, pd.fd, k)
      modifies cnt, bits
      ensures Shape() && BitsOk()
      ensures forall f, n :: 0 <= f < size && 0 <= n < 3 ==> cnt[f, n] == old(cnt[f, n]) - Want(pd, f, n)
    {
      assert Want(pd, pd.fd, 0) == (if pd.events.rd then 1 else 0);
      assert Want(pd, pd.fd, 1) == (if pd.events.wr then 1 else 0);
      assert Want(pd, pd.fd, 2) == (if pd.events.ex then 1 else 0);
      if pd.events.rd {
        Decrement(pd.fd, 0);
      }
      if pd.events.wr {
        Decrement(pd.fd, 1);
      }
      if pd.events.ex {
        Decrement(pd.fd, 2);
      }
    }

    // ---------- the operations ----------

    predicate Fits(pd: PollFd) {
      Acceptable(pd) && pd.fd < size
    }

    /** `_st_select_pollset_add`: refused as a whole, or counted as a whole. */
    method PollsetAdd(pds: seq<PollFd>) returns (ok: bool)
      requires Shape() && BitsOk() && forall fd, k :: 0 <= fd < size && 0 <= k < 3 ==> cnt[fd, k] >= 0
      requires -1 <= maxfd < size
      modifies this`maxfd, cnt, bits
      ensures -1 <= maxfd < size && Shape() && BitsOk() && (ok <==> forall i :: 0 <= i < |pds| ==> Fits(pds[i]))
      ensures forall fd, k :: 0 <= fd < size && 0 <= k < 3 ==>
          cnt[fd, k] == old(cnt[fd, k]) + if ok then Refs(pds, fd, k) else 0
      ensures maxfd >= old(maxfd) && (!ok ==> maxfd == old(maxfd))
          && (ok ==> forall i :: 0 <= i < |pds| ==> pds[i].fd <= maxfd)
    {
      var i := 0;
      while i < |pds|
        invariant i <= |pds| && forall j :: 0 <= j < i ==> Fits(pds[j])
      {
        if !Fits(pds[i]) {
          return false;
        }
        i := i + 1;
      }
      i := 0;
      while i < |pds|
        invariant i <= |pds| && Shape() && BitsOk() && old(maxfd) <= maxfd < size
        invariant forall j :: 0 <= j < i ==> pds[j].fd <= maxfd
        invariant forall fd, k :: 0 <= fd < size && 0 <= k < 3 ==> cnt[fd, k] == old(cnt[fd, k]) + Refs(pds[..i], fd, k)
      {
        forall fd, k
          ensures Refs(pds[..i + 1], fd, k) == Refs(pds[..i], fd, k) + Want(pds[i], fd, k)
        {
          RefsOfPrefix(pds, i, fd, k);
        }
        IncrementAll(pds[i]);
        if maxfd < pds[i].fd {
          maxfd := pds[i].fd;
        }
        i := i + 1;
      }
      assert pds[..|pds|] == pds;
      return true;
    }

    /** `_st_select_pollset_del` */
    method PollsetDel(pds: seq<PollFd>)
      requires Shape() && BitsOk() && forall i :: 0 <= i < |pds| ==> 0 <= pds[i].fd < size
      requires forall fd, k :: 0 <= fd < size && 0 <= k < 3 ==> cnt[fd, k] >= Refs(pds, fd, k)
      modifies cnt, bits
      ensures Shape() && BitsOk()
      ensures forall fd, k :: 0 <= fd < size && 0 <= k < 3 ==> cnt[fd, k] == old(cnt[fd, k]) - Refs(pds, fd, k)
    {
      var i := 0;
      while i < |pds|
        invariant i <= |pds| && Shape() && BitsOk()
        invariant forall fd, k :: 0 <= fd < size && 0 <= k < 3 ==> cnt[fd, k] == old(cnt[fd, k]) - Refs(pds[..i], fd, k)
      {
        forall fd, k
          ensures Refs(pds[..i + 1], fd, k) == Refs(pds[..i], fd, k) + Want(pds[i], fd, k) <= Refs(pds, fd, k)
        {
          RefsOfPrefix(pds, i, fd, k);
          RefsGrow(pds, i + 1, fd, k);
        }
        DecrementAll(pds[i]);
        i := i + 1;
      }
      assert pds[..|pds|] == pds;
    }

    /** The first half of `st_poll`: the request is counted and queued, or refused. */
    method Enqueue(pq: PollQ) returns (ok: bool)
      requires Valid()
      modifies this, cnt, bits
      ensures Valid() && (ok <==> forall i :: 0 <= i < |pq.pds| ==> Fits(pq.pds[i]))
      ensures ioQ == if ok then old(ioQ) + [pq] else old(ioQ)
    {
      ok := PollsetAdd(pq.pds);
      if ok {
        forall fd, k
          ensures QueueRefs(ioQ + [pq], fd, k) == QueueRefs(ioQ, fd, k) + Refs(pq.pds, fd, k)
        {
          QueueRefsWith(ioQ, pq, fd, k);
        }
        ioQ := ioQ + [pq];
      }
    }

    /** Request i leaves the queue and its counts: after a time-out or interrupt, or notified. */
    method Dequeue(i: nat)
      requires Shape() && BitsOk() && CountsOk() && QueueOk(ioQ) && i < |ioQ|
      modifies this`ioQ, cnt, bits
      ensures Shape() && BitsOk() && CountsOk() && QueueOk(ioQ)
      ensures ioQ == old(Without(ioQ, i))
    {
      forall fd, k
        ensures QueueRefs(ioQ, fd, k) == QueueRefs(Without(ioQ, i), fd, k) + Refs(ioQ[i].pds, fd, k)
      {
        QueueRefsWithout(ioQ, i, fd, k);
      }
      var pds := ioQ[i].pds;
      ioQ := Without(ioQ, i);
      PollsetDel(pds);
    }

    /** The second half of `st_poll`, when the request is still queued. */
    method Leave(i: nat)
      requires Valid() && i < |ioQ|
      modifies this, cnt, bits
      ensures Valid() && ioQ == old(Without(ioQ, i))
    {
      Dequeue(i);
    }

    /** `_st_select_fd_close`: only a descriptor that nobody polls may be closed. */
    method FdClose(fd: int) returns (ok: bool)
      requires Valid() && 0 <= fd < size
      ensures ok <==> forall i, j :: 0 <= i < |ioQ| && 0 <= j < |ioQ[i].pds| ==> ioQ[i].pds[j].fd != fd
    {
      ok := cnt[fd, 0] == 0 && cnt[fd, 1] == 0 && cnt[fd, 2] == 0;
      NobodyPollsIff(ioQ, fd);
    }

    /** The descriptor sets that select is called with: fd is in the set for reading, writing or exceptions
        iff a request on the queue asks for that, and no such descriptor lies above maxfd. */
    lemma SetsMean(fd: int)
      requires Valid() && 0 <= fd < size
      ensures bits[fd, 0] <==> ToRead(ioQ, fd)
      ensures bits[fd, 1] <==> ToWrite(ioQ, fd)
      ensures bits[fd, 2] <==> ToExcept(ioQ, fd)
      ensures fd > maxfd ==> !bits[fd, 0] && !bits[fd, 1] && !bits[fd, 2]
    {
      forall k | 0 <= k < 3
        ensures bits[fd, k] <==> Wanted(ioQ, fd, k)
      {
        WantedInQueue(ioQ, fd, k);
      }
      hide BitsOk, CountsOk;
    }

    // ---------- dispatch ----------

    /** The answer to one poll descriptor. */
    method AnswerEntry(pd: PollFd, how: How) returns (r: PollFd)
      requires !how.Reported?
      ensures r == Answer(pd, how)
    {
      var revents := NONE;
      if how.Fired? {
        if pd.events.rd && (pd.fd, 0) in how.fired {
          revents := revents.(rd := true);
        }
        if pd.events.wr && (pd.fd, 1) in how.fired {
          revents := revents.(wr := true);
        }
        if pd.events.ex && (pd.fd, 2) in how.fired {
          revents := revents.(ex := true);
        }
      } else if pd.events != NONE && pd.fd !in how.open {
        revents := revents.(nval := true);
      }
      r := pd.(revents := revents);
    }

    /** The answers to one request, and its highest descriptor. */
    method AnswerRequest(pds: seq<PollFd>, how: How) returns (r: seq<PollFd>, notify: bool, max: int)
      requires !how.Reported?
      ensures r == AnswerAll(pds, how) && notify == Notified(r)
      ensures -1 <= max && (forall i :: 0 <= i < |pds| ==> pds[i].fd <= max)
      ensures max == -1 || exists i :: 0 <= i < |pds| && pds[i].fd == max
    {
      r, notify, max := pds, false, -1;
      var i := 0;
      while i < |pds|
        invariant i <= |pds| == |r| && forall j :: 0 <= j < |pds| ==> r[j] == if j < i then Answer(pds[j], how) else pds[j]
        invariant notify <==> exists j :: 0 <= j < i && r[j].revents != NONE
        invariant -1 <= max && (forall j :: 0 <= j < i ==> pds[j].fd <= max)
        invariant max == -1 || exists j :: 0 <= j < i && pds[j].fd == max
      {
        var answer := AnswerEntry(pds[i], how);
        r := r[i := answer];
        if r[i].revents != NONE {
          notify := true;
        }
        if pds[i].fd > max {
          max := pds[i].fd;
        }
        i := i + 1;
      }
    }

    /** The answers are written into request i. */
    method Update(i: nat, pq: PollQ)
      requires Shape() && BitsOk() && CountsOk() && QueueOk(ioQ) && i < |ioQ|
      requires |pq.pds| == |ioQ[i].pds| && forall n :: 0 <= n < |pq.pds| ==> SameRequest(pq.pds[n], ioQ[i].pds[n])
      modifies this`ioQ
      ensures Shape() && BitsOk() && CountsOk() && QueueOk(ioQ) && ioQ == old(ioQ)[i := pq]
    {
      forall fd, k
        ensures QueueRefs(ioQ[i := pq], fd, k) == QueueRefs(ioQ, fd, k)
      {
        QueueRefsAfterUpdate(ioQ, i, pq, fd, k);
      }
      ioQ := ioQ[i := pq];
    }

    lemma BoundedAfterRemoval(q: seq<PollQ>, i: nat, max: int, max': int)
      requires i < |q| && Bounded(q, i, max) && max <= max'
      ensures Bounded(Without(q, i), i, max')
    {
    }

    lemma BoundedWithOneMore(q: seq<PollQ>, i: nat, pq: PollQ, max: int, max': int)
      requires i < |q| && Bounded(q, i, max) && max <= max' && forall j :: 0 <= j < |pq.pds| ==> pq.pds[j].fd <= max'
      ensures Bounded(q[i := pq], i + 1, max')
    {
    }

    /** Request q is answered, and leaves the queue when its thread is notified. */
    method AnswerOne(q: nat, how: How) returns (notify: bool, pq: PollQ)
      requires Sound() && q < |ioQ| && Bounded(ioQ, q, maxfd) && !how.Reported?
      modifies this, cnt, bits
      ensures Sound() && Bounded(ioQ, if notify then q else q + 1, maxfd)
      ensures pq == Answered(old(ioQ)[q], how) && notify == Notified(pq.pds)
      ensures ioQ == if notify then Without(old(ioQ), q) else old(ioQ)[q := pq]
    {
      pq := ioQ[q];
      assert forall i :: 0 <= i < |pq.pds| ==> Acceptable(pq.pds[i]) && pq.pds[i].fd < size;
      var pds, notified, max := AnswerRequest(pq.pds, how);
      notify := notified;
      pq := pq.(pds := pds);
      Update(q, pq);
      assert Without(ioQ, q) == Without(old(ioQ), q);
      hide BitsOk, CountsOk, QueueOk, Without;
      if notify {
        Dequeue(q);
        BoundedAfterRemoval(old(ioQ), q, maxfd, maxfd);
      } else {
        if maxfd < max {
          maxfd := max;
        }
        BoundedWithOneMore(old(ioQ), q, pq, old(maxfd), maxfd);
      }
    }

    method ResetMax()
      requires Sound()
      modifies this`maxfd
      ensures Sound() && Bounded(ioQ, 0, maxfd)
    {
      maxfd := -1;
    }

    /** The walk over the io queue: requests with an answer leave it, and the highest descriptor
        is found anew.  A request that is removed keeps its link to the next one. */
    method Walk(how: How) returns (woken: seq<PollQ>)
      requires Valid() && !how.Reported?
      modifies this, cnt, bits
      ensures Valid() && ioQ == Stay(old(ioQ), how) && woken == Woken(old(ioQ), how)
    {
      hide Sound, Bounded, Walking, Without, Answered, Notified, AnswerAll, Stay, Woken;
      ghost var all, seen := ioQ, 0;
      var q := 0;
      ResetMax();
      woken := [];
      WalkStarts(all, how);
      while q < |ioQ|
        invariant Sound() && Walking(ioQ, q, woken, all, seen, how) && 0 <= q <= |ioQ| && Bounded(ioQ, q, maxfd)
        decreases |ioQ| - q
      {
        ghost var was := ioQ;
        var notify, pq := AnswerOne(q, how);
        WalkTurn(was, q, woken, all, seen, how, ioQ);
        if notify {
          woken := woken + [pq];
        } else {
          q := q + 1;
        }
        seen := seen + 1;
      }
      WalkEnds(ioQ, q, woken, all, seen, how);
    }

    /** A walk over valid requests answers as select, or the check for closed descriptors, calls for. */
    lemma SelectParts(q: seq<PollQ>, fired: set<(int, int)>, open: set<int>)
      requires Sound() && ioQ == q
      ensures Parted(BySelect(fired), q, Stay(q, Fired(fired)), Woken(q, Fired(fired)))
      ensures Parted(ByCheck(open), q, Stay(q, Open(open)), Woken(q, Open(open)))
    {
      hide Faithful, Parted, BitsOk, CountsOk;
      forall i, j | 0 <= i < |q| && 0 <= j < |q[i].pds|
        ensures Faithful(BySelect(fired), Fired(fired), q[i].pds[j])
        ensures Faithful(ByCheck(open), Open(open), q[i].pds[j])
      {
        FiredIsFaithful(fired, q[i].pds[j]);
        OpenIsFaithful(open, q[i].pds[j]);
      }
      WalkParts(BySelect(fired), q, Fired(fired));
      WalkParts(ByCheck(open), q, Open(open));
    }

    /** `_st_select_dispatch` after the call of select, which found nfd events in fired, timed out,
        or failed; badFd says that it failed because of a descriptor that is not open. */
    method Dispatch(nfd: int, fired: set<(int, int)>, badFd: bool, open: set<int>) returns (woken: seq<PollQ>)
      requires Valid()
      modifies this, cnt, bits
      ensures Valid()
      ensures nfd > 0 ==> ioQ == Stay(old(ioQ), Fired(fired)) && woken == Woken(old(ioQ), Fired(fired))
      ensures nfd < 0 && badFd ==> ioQ == Stay(old(ioQ), Open(open)) && woken == Woken(old(ioQ), Open(open))
      ensures nfd == 0 || (nfd < 0 && !badFd) ==> ioQ == old(ioQ) && woken == []
      ensures nfd > 0 ==> Parted(BySelect(fired), old(ioQ), ioQ, woken)
      ensures nfd < 0 && badFd ==> Parted(ByCheck(open), old(ioQ), ioQ, woken)
    {
      SelectParts(ioQ, fired, open);
      woken := [];
      if nfd > 0 {
        woken := Walk(Fired(fired));
      } else if nfd < 0 {
        if badFd {
          woken := Walk(Open(open));
        }
      }
    }
  }
}
