/**
 The epoll back end: reference counts follow the io queue, and the interest that the kernel
 holds follows the counts.
 */
module Epoll {
  import opened PollTypes
  import opened PollWalk

  /** Counts of one descriptor, and the events that fired during a dispatch. */
  datatype FdData = FdData(rd: int, wr: int, ex: int, revents: Bits)

  datatype Op = Add | Mod | Del

  datatype Reply = Okay | Exists | Refused

  function Count(d: FdData, k: int): int {
    if k == 0 then d.rd else if k == 1 then d.wr else d.ex
  }

  /** `_ST_EPOLL_EVENTS`: the interest that the counts imply. */
  function Mask(d: FdData): Bits {
    Bits(d.rd != 0, d.wr != 0, d.ex != 0, false, false, false)
  }

  /** The counts of pd's events change by n. */
  function Shift(d: FdData, pd: PollFd, n: int): FdData {
    d.(rd := d.rd + (if pd.events.rd then n else 0), wr := d.wr + (if pd.events.wr then n else 0),
       ex := d.ex + (if pd.events.ex then n else 0))
  }

  /** The kernel holds for fd what the counts of d imply. */
  predicate Synced(kernel: map<int, Bits>, fd: int, d: FdData) {
    if Mask(d) == NONE then fd !in kernel else fd in kernel && kernel[fd] == Mask(d)
  }

  /** The kernel holds the same for fd in both. */
  predicate SameAt(a: map<int, Bits>, b: map<int, Bits>, fd: int) {
    (fd in a <==> fd in b) && (fd in a ==> a[fd] == b[fd])
  }

  /** How many of the first n requests are refused. */
  ghost function Refusals(refuses: nat -> bool, n: nat): nat {
    if n == 0 then 0 else Refusals(refuses, n - 1) + (if refuses(n - 1) then 1 else 0)
  }

  /** The descriptors that the requests of q name, each as often as it is named. */
  function Entries(q: seq<PollQ>): nat {
    if q == [] then 0 else Entries(q[..|q| - 1]) + |q[|q| - 1].pds|
  }

  class Epoll {
    var data: seq<FdData>
    var evtlistCnt: int
    var kernel: map<int, Bits>
    var ioQ: seq<PollQ>
    /** Whether the kernel refuses, for reasons of its own, the n-th change that fits what it holds. */
    const refuses: nat -> bool
    /** How many such changes it has been asked for. */
    var asked: nat

    /** How many of them it has refused. */
    ghost function Glitches(): nat
      reads this`asked
    {
      Refusals(refuses, asked)
    }

    /** The kernel has been asked for at most n more. */
    twostate predicate AskedFor(n: int)
      reads this`asked
    {
      old(asked) <= asked <= old(asked) + n && old(Glitches()) <= Glitches()
    }

    /** The counts are those of the requests on the io queue. */
    ghost predicate CountsOk()
      reads this`data, this`ioQ
    {
      |data| > 0 && Counted(data, ioQ)
    }

    static ghost predicate Counted(data: seq<FdData>, q: seq<PollQ>) {
      && (forall fd :: 0 <= fd < |data| ==> CountedAt(data[fd], q, fd))
      && (forall i, j :: 0 <= i < |q| && 0 <= j < |q[i].pds| ==> Acceptable(q[i].pds[j]) && q[i].pds[j].fd < |data|)
    }

    static ghost predicate CountedAt(d: FdData, q: seq<PollQ>, fd: int) {
      forall k :: 0 <= k < 3 ==> Count(d, k) == QueueRefs(q, fd, k)
    }

    /** Outside dispatch, as long as the kernel refuses nothing without reason: it holds for each
        descriptor what the counts imply, and evtlistCnt descriptors are registered. */
    ghost predicate Consistent()
      reads this`data, this`kernel, this`evtlistCnt
    {
      AllSynced(kernel, data) && Quiet(data) && evtlistCnt == |kernel|
    }

    constructor (hint: nat, refuses: nat -> bool)
      requires hint > 0
      ensures CountsOk() && Consistent() && |data| == hint && ioQ == [] && this.refuses == refuses && asked == 0
    {
      data := seq(hint, i => FdData(0, 0, 0, NONE));
      evtlistCnt := 0;
      kernel := map[];
      ioQ := [];
      this.refuses := refuses;
      asked := 0;
    }

    // ---------- the kernel ----------

    /** The answer of `epoll_ctl`: a change that does not fit fails in any case, one that fits when the
        kernel refuses it for reasons of its own. */
    static function Verdict(op: Op, known: bool, refused: bool): Reply {
      if op == Add && known then Exists
      else if op != Add && !known then Refused
      else if refused then Refused
      else Okay
    }

    method Ctl(op: Op, fd: int, mask: Bits) returns (r: Reply)
      modifies this`kernel, this`asked
      ensures r == Verdict(op, old(fd in kernel), refuses(old(asked)))
      ensures kernel == if r != Okay then old(kernel) else if op == Del then old(kernel) - {fd} else old(kernel)[fd := mask]
      ensures asked == old(asked) + if op == Add <==> fd !in old(kernel) then 1 else 0
      ensures Glitches() == old(Glitches()) + if r == Refused && (op == Add <==> fd !in old(kernel)) then 1 else 0
    {
      if op == Add && fd in kernel {
        r := Exists;
      } else if op != Add && fd !in kernel {
        r := Refused;
      } else {
        asked := asked + 1;
        if refuses(asked - 1) {
          r := Refused;
        } else {
          kernel := if op == Del then kernel - {fd} else kernel[fd := mask];
          r := Okay;
        }
      }
    }

    // ---------- leaving ----------

    /** What one turn of `_st_epoll_pollset_del` does to descriptor fd of the kernel. */
    twostate predicate Followed(fd: int)
      requires 0 <= fd < |old(data)| && 0 <= fd < |data|
      reads this
    {
      && (data[fd].revents != NONE ==> SameAt(kernel, old(kernel), fd))
      && (Mask(data[fd]) == old(Mask(data[fd])) ==> SameAt(kernel, old(kernel), fd))
      && (Glitches() == old(Glitches()) && data[fd].revents == NONE && Mask(data[fd]) != old(Mask(data[fd])) ==>
            if fd in old(kernel) then Synced(kernel, fd, data[fd]) else fd !in kernel)
    }

    method DelOne(pd: PollFd)
      requires 0 <= pd.fd < |data|
      modifies this`data, this`evtlistCnt, this`kernel, this`asked
      ensures AskedFor(1) && data == old(data)[pd.fd := Shift(old(data)[pd.fd], pd, -1)]
      ensures Followed(pd.fd) && (forall fd :: fd != pd.fd ==> SameAt(kernel, old(kernel), fd))
      ensures evtlistCnt - |kernel| == old(evtlistCnt - |kernel|)
    {
      var oldEvents := Mask(data[pd.fd]);
      data := data[pd.fd := Shift(data[pd.fd], pd, -1)];
      var events := Mask(data[pd.fd]);
      if events != oldEvents && data[pd.fd].revents == NONE {
        var op := if events != NONE then Mod else Del;
        var r := Ctl(op, pd.fd, events);
        if r == Okay && op == Del {
          evtlistCnt := evtlistCnt - 1;
        }
      }
    }

    /** `_st_epoll_pollset_del`: the counts go down in any case; as long as the kernel refuses
        nothing without reason it follows, but for the descriptors that have fired. */
    method PollsetDel(pds: seq<PollFd>)
      requires forall i :: 0 <= i < |pds| ==> 0 <= pds[i].fd < |data|
      requires forall fd, k :: 0 <= fd < |data| && 0 <= k < 3 ==> Count(data[fd], k) >= Refs(pds, fd, k)
      modifies this`data, this`evtlistCnt, this`kernel, this`asked
      ensures AskedFor(|pds|) && Lowered(old(data), pds, data)
          && evtlistCnt - |kernel| == old(evtlistCnt - |kernel|)
      ensures KernelKept(old(kernel), old(data), kernel)
      ensures Glitches() == old(Glitches()) ==> KernelFollows(old(kernel), old(data), kernel, data)
    {
      ghost var base, kern := data, kernel;
      var i := 0;
      assert Lowered(base, pds[..0], data);
      while i < |pds|
        invariant i <= |pds| && AskedFor(i) && Lowered(base, pds[..i], data)
        invariant evtlistCnt - |kernel| == old(evtlistCnt - |kernel|)
        invariant KernelKept(kern, base, kernel)
        invariant Glitches() == old(Glitches()) ==> KernelFollows(kern, base, kernel, data)
      {
        ghost var before, was, g := data, kernel, Glitches();
        LoweredOneMore(base, pds, i, data);
        NothingBelowZero(base, pds, i, data);
        DelOne(pds[i]);
        KeptOneMore(kern, base, was, kernel, pds[i].fd, data);
        if g == old(Glitches()) == Glitches() {
          FollowsOneMore(kern, base, was, before, kernel, data, pds[i]);
        }
        i := i + 1;
      }
      assert pds[..|pds|] == pds;
    }

    /** data is base with the counts of pds taken away. */
    static ghost predicate Lowered(base: seq<FdData>, pds: seq<PollFd>, data: seq<FdData>) {
      |data| == |base| && forall fd :: 0 <= fd < |data| ==> LoweredAt(base[fd], pds, fd, data[fd])
    }

    static ghost predicate LoweredAt(base: FdData, pds: seq<PollFd>, fd: int, d: FdData) {
      d.revents == base.revents && forall k :: 0 <= k < 3 ==> Count(d, k) == Count(base, k) - Refs(pds, fd, k)
    }

    static lemma LoweredOneMore(base: seq<FdData>, pds: seq<PollFd>, i: nat, data: seq<FdData>)
      requires i < |pds| && 0 <= pds[i].fd < |data| && Lowered(base, pds[..i], data)
      ensures Lowered(base, pds[..i + 1], data[pds[i].fd := Shift(data[pds[i].fd], pds[i], -1)])
    {
      var r := data[pds[i].fd := Shift(data[pds[i].fd], pds[i], -1)];
      forall fd | 0 <= fd < |r|
        ensures LoweredAt(base[fd], pds[..i + 1], fd, r[fd])
      {
        assert LoweredAt(base[fd], pds[..i], fd, data[fd]);
        forall k | 0 <= k < 3
          ensures Refs(pds[..i + 1], fd, k) == Refs(pds[..i], fd, k) + Want(pds[i], fd, k)
        {
          RefsOfPrefix(pds, i, fd, k);
        }
      }
    }

    /** A descriptor without counts is not lowered any more. */
    static lemma NothingBelowZero(base: seq<FdData>, pds: seq<PollFd>, i: nat, data: seq<FdData>)
      requires i < |pds| && 0 <= pds[i].fd < |data| && Lowered(base, pds[..i], data)
      requires forall fd, k :: 0 <= fd < |data| && 0 <= k < 3 ==> Count(base[fd], k) >= Refs(pds, fd, k)
      ensures var fd := pds[i].fd; Mask(data[fd]) == NONE ==> Mask(Shift(data[fd], pds[i], -1)) == NONE
    {
      var fd := pds[i].fd;
      assert LoweredAt(base[fd], pds[..i], fd, data[fd]);
      forall k | 0 <= k < 3
        ensures Count(data[fd], k) >= Want(pds[i], fd, k)
      {
        RefsOfPrefix(pds, i, fd, k);
        RefsGrow(pds, i + 1, fd, k);
      }
      assert Count(data[fd], 0) == data[fd].rd && Count(data[fd], 1) == data[fd].wr && Count(data[fd], 2) == data[fd].ex;
      assert Want(pds[i], fd, 0) == (if pds[i].events.rd then 1 else 0);
      assert Want(pds[i], fd, 1) == (if pds[i].events.wr then 1 else 0);
      assert Want(pds[i], fd, 2) == (if pds[i].events.ex then 1 else 0);
    }

    /** The kernel is untouched at descriptors that have fired or are out of range. */
    static ghost predicate KernelKept(kern: map<int, Bits>, base: seq<FdData>, kernel: map<int, Bits>) {
      forall fd :: (0 <= fd < |base| ==> base[fd].revents != NONE) ==> SameAt(kernel, kern, fd)
    }

    /** At a registered descriptor either nothing has changed, or the kernel has the current mask. */
    static ghost predicate Traced(kern: map<int, Bits>, base: FdData, kernel: map<int, Bits>, d: FdData, fd: int) {
      if fd in kern then (Mask(d) == Mask(base) && SameAt(kernel, kern, fd)) || Synced(kernel, fd, d) else fd !in kernel
    }

    static ghost predicate KernelFollows(kern: map<int, Bits>, base: seq<FdData>, kernel: map<int, Bits>,
        data: seq<FdData>)
    {
      |data| == |base| && forall fd :: 0 <= fd < |base| && base[fd].revents == NONE ==>
          Traced(kern, base[fd], kernel, data[fd], fd)
    }

    static lemma KeptOneMore(kern: map<int, Bits>, base: seq<FdData>, was: map<int, Bits>, kernel: map<int, Bits>,
        fd: int, data: seq<FdData>)
      requires KernelKept(kern, base, was) && 0 <= fd < |data| == |base| && data[fd].revents == base[fd].revents
      requires forall f :: f != fd ==> SameAt(kernel, was, f)
      requires data[fd].revents != NONE ==> SameAt(kernel, was, fd)
      ensures KernelKept(kern, base, kernel)
    {
      forall f | 0 <= f < |base| ==> base[f].revents != NONE
        ensures SameAt(kernel, kern, f)
      {
        assert SameAt(was, kern, f) && SameAt(kernel, was, f);
      }
    }

    static lemma FollowsOneMore(kern: map<int, Bits>, base: seq<FdData>, was: map<int, Bits>, before: seq<FdData>,
                                kernel: map<int, Bits>, data: seq<FdData>, pd: PollFd)
      requires KernelFollows(kern, base, was, before) && 0 <= pd.fd < |data| == |base|
      requires data == before[pd.fd := Shift(before[pd.fd], pd, -1)] && data[pd.fd].revents == base[pd.fd].revents
      requires forall f :: f != pd.fd ==> SameAt(kernel, was, f)
      requires Mask(data[pd.fd]) == Mask(before[pd.fd]) ==> SameAt(kernel, was, pd.fd)
      requires data[pd.fd].revents == NONE && Mask(data[pd.fd]) != Mask(before[pd.fd]) ==>
        if pd.fd in was then Synced(kernel, pd.fd, data[pd.fd]) else pd.fd !in kernel
      requires Mask(before[pd.fd]) == NONE ==> Mask(data[pd.fd]) == NONE
      ensures KernelFollows(kern, base, kernel, data)
    {
      forall f | 0 <= f < |base| && base[f].revents == NONE
        ensures Traced(kern, base[f], kernel, data[f], f)
      {
        assert Traced(kern, base[f], was, before[f], f);
        assert f != pd.fd ==> SameAt(kernel, was, f);
      }
    }

    // ---------- joining ----------

    method AddOne(pd: PollFd) returns (ok: bool)
      requires 0 <= pd.fd < |data|
      modifies this`data, this`evtlistCnt, this`kernel, this`asked
      ensures AskedFor(1) && data == old(data)[pd.fd := Shift(old(data)[pd.fd], pd, 1)]
      ensures forall fd :: fd != pd.fd ==> SameAt(kernel, old(kernel), fd)
      ensures ok ==> Glitches() == old(Glitches())
      ensures !ok ==> kernel == old(kernel) && evtlistCnt == old(evtlistCnt) && Mask(data[pd.fd]) != old(Mask(data[pd.fd]))
      ensures !ok && old(Synced(kernel, pd.fd, data[pd.fd])) ==> Glitches() == old(Glitches()) + 1
      ensures ok && Mask(data[pd.fd]) == old(Mask(data[pd.fd])) ==> kernel == old(kernel) && evtlistCnt == old(evtlistCnt)
      ensures ok && old(Synced(kernel, pd.fd, data[pd.fd]) && NonNegative(data[pd.fd])) ==>
        Synced(kernel, pd.fd, data[pd.fd]) && evtlistCnt - |kernel| == old(evtlistCnt - |kernel|)
    {
      ok := true;
      var oldEvents := Mask(data[pd.fd]);
      data := data[pd.fd := Shift(data[pd.fd], pd, 1)];
      var events := Mask(data[pd.fd]);
      if events != oldEvents {
        var op := if oldEvents != NONE then Mod else Add;
        var r := Ctl(op, pd.fd, events);
        if r == Refused {
          return false;
        }
        if op == Add {
          evtlistCnt := evtlistCnt + 1;
        }
      }
    }

    static ghost predicate Raised(base: seq<FdData>, pds: seq<PollFd>, data: seq<FdData>) {
      |data| == |base| && forall fd :: 0 <= fd < |data| ==> RaisedAt(base[fd], pds, fd, data[fd])
    }

    static ghost predicate RaisedAt(base: FdData, pds: seq<PollFd>, fd: int, d: FdData) {
      d.revents == base.revents && forall k :: 0 <= k < 3 ==> Count(d, k) == Count(base, k) + Refs(pds, fd, k)
    }

    static ghost predicate AllSynced(kernel: map<int, Bits>, data: seq<FdData>) {
      && (forall fd :: 0 <= fd < |data| ==> Synced(kernel, fd, data[fd]))
      && (forall fd :: fd in kernel ==> 0 <= fd < |data|)
    }

    static ghost predicate NoneNegative(data: seq<FdData>) {
      forall fd :: 0 <= fd < |data| ==> NonNegative(data[fd])
    }

    static predicate NonNegative(d: FdData) {
      d.rd >= 0 && d.wr >= 0 && d.ex >= 0
    }

    static lemma RaisedOneMore(base: seq<FdData>, pds: seq<PollFd>, i: nat, data: seq<FdData>)
      requires i < |pds| && 0 <= pds[i].fd < |data| && Raised(base, pds[..i], data)
      ensures Raised(base, pds[..i + 1], data[pds[i].fd := Shift(data[pds[i].fd], pds[i], 1)])
    {
      var r := data[pds[i].fd := Shift(data[pds[i].fd], pds[i], 1)];
      forall fd | 0 <= fd < |r|
        ensures RaisedAt(base[fd], pds[..i + 1], fd, r[fd])
      {
        assert RaisedAt(base[fd], pds[..i], fd, data[fd]);
        forall k | 0 <= k < 3
          ensures Refs(pds[..i + 1], fd, k) == Refs(pds[..i], fd, k) + Want(pds[i], fd, k)
        {
          RefsOfPrefix(pds, i, fd, k);
        }
      }
    }

    /** Lowering undoes raising, even when a descriptor is there more than once. */
    static lemma RaisedThenLowered(base: seq<FdData>, pds: seq<PollFd>, mid: seq<FdData>, data: seq<FdData>)
      requires Raised(base, pds, mid) && Lowered(mid, pds, data)
      ensures data == base
    {
      forall fd | 0 <= fd < |base|
        ensures data[fd] == base[fd]
      {
        assert RaisedAt(base[fd], pds, fd, mid[fd]) && LoweredAt(mid[fd], pds, fd, data[fd]);
        assert Count(data[fd], 0) == Count(base[fd], 0) && Count(data[fd], 1) == Count(base[fd], 1)
            && Count(data[fd], 2) == Count(base[fd], 2);
      }
    }

    /** A bit that is on stays on when counts grow. */
    static predicate Within(a: Bits, b: Bits) {
      (a.rd ==> b.rd) && (a.wr ==> b.wr) && (a.ex ==> b.ex)
    }

    static lemma RaisedMask(base: FdData, pds: seq<PollFd>, fd: int, d: FdData)
      requires RaisedAt(base, pds, fd, d) && NonNegative(base)
      ensures Within(Mask(base), Mask(d)) && NonNegative(d)
    {
      assert Count(base, 0) <= Count(d, 0) && Count(base, 1) <= Count(d, 1) && Count(base, 2) <= Count(d, 2);
    }

    /** After the undo the kernel holds again what it held before the whole call. */
    static lemma UndoneAt(base: FdData, prev: FdData, mid: FdData, kern: map<int, Bits>, kernel: map<int, Bits>,
        fd: int, refused: bool)
      requires Within(Mask(base), Mask(prev)) && Within(Mask(prev), Mask(mid))
      requires Synced(kern, fd, prev) && Traced(kern, mid, kernel, base, fd)
      requires if refused then Mask(prev) != Mask(mid) else prev == mid
      ensures Synced(kernel, fd, base)
    {
    }

    static lemma Undone(base: seq<FdData>, pds: seq<PollFd>, i: nat, prev: seq<FdData>, mid: seq<FdData>,
                        kern: map<int, Bits>, kernel: map<int, Bits>)
      requires i < |pds| && 0 <= pds[i].fd < |base| && NoneNegative(base) && Raised(base, pds[..i], prev)
      requires mid == prev[pds[i].fd := Shift(prev[pds[i].fd], pds[i], 1)] && Mask(prev[pds[i].fd]) != Mask(mid[pds[i].fd])
      requires AllSynced(kern, prev) && (forall fd :: 0 <= fd < |base| ==> mid[fd].revents == NONE)
      requires KernelFollows(kern, mid, kernel, base) && KernelKept(kern, mid, kernel)
      ensures AllSynced(kernel, base)
    {
      forall fd | 0 <= fd < |base|
        ensures Synced(kernel, fd, base[fd])
      {
        assert RaisedAt(base[fd], pds[..i], fd, prev[fd]);
        RaisedMask(base[fd], pds[..i], fd, prev[fd]);
        ShiftMask(prev[fd], pds[i]);
        assert Traced(kern, mid[fd], kernel, base[fd], fd);
        UndoneAt(base[fd], prev[fd], mid[fd], kern, kernel, fd, fd == pds[i].fd);
      }
      forall fd | fd in kernel
        ensures 0 <= fd < |base|
      {
        assert !(0 <= fd < |base|) ==> SameAt(kernel, kern, fd);
      }
    }

    static lemma ShiftMask(d: FdData, pd: PollFd)
      requires NonNegative(d)
      ensures Within(Mask(d), Mask(Shift(d, pd, 1)))
    {
    }

    /** No descriptor has fired: outside dispatch. */
    static ghost predicate Quiet(data: seq<FdData>) {
      forall fd :: 0 <= fd < |data| ==> data[fd].revents == NONE
    }

    static lemma RaisedNonNegative(base: seq<FdData>, pds: seq<PollFd>, data: seq<FdData>)
      requires Raised(base, pds, data) && NoneNegative(base)
      ensures NoneNegative(data)
    {
      forall fd | 0 <= fd < |data|
        ensures NonNegative(data[fd])
      {
        assert RaisedAt(base[fd], pds, fd, data[fd]);
        RaisedMask(base[fd], pds, fd, data[fd]);
      }
    }

    static lemma Lowerable(base: seq<FdData>, pds: seq<PollFd>, data: seq<FdData>)
      requires Raised(base, pds, data) && NoneNegative(base)
      ensures forall fd, k :: 0 <= fd < |data| && 0 <= k < 3 ==> Count(data[fd], k) >= Refs(pds, fd, k)
    {
      forall fd, k | 0 <= fd < |data| && 0 <= k < 3
        ensures Count(data[fd], k) >= Refs(pds, fd, k)
      {
        assert RaisedAt(base[fd], pds, fd, data[fd]) && NonNegative(base[fd]);
      }
    }

    static lemma SyncedOneMore(kern: map<int, Bits>, prev: seq<FdData>, kernel: map<int, Bits>, data: seq<FdData>, fd: int)
      requires AllSynced(kern, prev) && 0 <= fd < |data| == |prev|
          && (forall f :: 0 <= f < |data| && f != fd ==> data[f] == prev[f])
      requires Synced(kernel, fd, data[fd]) && forall f :: f != fd ==> SameAt(kernel, kern, f)
      ensures AllSynced(kernel, data)
    {
      forall f | 0 <= f < |data|
        ensures Synced(kernel, f, data[f])
      {
        assert f != fd ==> SameAt(kernel, kern, f);
      }
      forall f | f in kernel
        ensures 0 <= f < |data|
      {
        assert f != fd ==> SameAt(kernel, kern, f);
      }
    }

    /** The counting loop of `_st_epoll_pollset_add` with its undo.  The kernel refuses one change when the
        call fails; when it refuses no other, the undo restores what it held. */
    method AddAll(pds: seq<PollFd>) returns (ok: bool)
      requires NoneNegative(data) && forall i :: 0 <= i < |pds| ==> 0 <= pds[i].fd < |data|
      modifies this`data, this`evtlistCnt, this`kernel, this`asked
      ensures if ok then Raised(old(data), pds, data) else data == old(data)
      ensures AskedFor(2 * |pds|) && (ok ==> Glitches() == old(Glitches()))
      ensures old(AllSynced(kernel, data)) && !ok ==> Glitches() > old(Glitches())
      ensures old(AllSynced(kernel, data)) && old(Quiet(data)) && Glitches() <= old(Glitches()) + 1 ==>
        AllSynced(kernel, data) && evtlistCnt - |kernel| == old(evtlistCnt - |kernel|)
    {
      ghost var base := data;
      var i := 0;
      ok := true;
      assert Raised(base, pds[..0], data);
      while i < |pds|
        invariant i <= |pds| && Raised(base, pds[..i], data) && Glitches() == old(Glitches()) && AskedFor(i)
        invariant old(AllSynced(kernel, data)) ==>
            AllSynced(kernel, data) && evtlistCnt - |kernel| == old(evtlistCnt - |kernel|)
      {
        ghost var prev, kern := data, kernel;
        RaisedOneMore(base, pds, i, data);
        RaisedNonNegative(base, pds[..i], prev);
        ok := AddOne(pds[i]);
        if !ok {
          ghost var mid := data;
          Lowerable(base, pds[..i + 1], mid);
          PollsetDel(pds[..i + 1]);
          RaisedThenLowered(base, pds[..i + 1], mid, data);
          if Glitches() <= old(Glitches()) + 1 && old(AllSynced(kernel, data)) && old(Quiet(data)) {
            Undone(base, pds, i, prev, mid, kern, kernel);
          }
          return;
        }
        if old(AllSynced(kernel, data)) {
          SyncedOneMore(kern, prev, kernel, data, pds[i].fd);
        }
        i := i + 1;
      }
      assert pds[..|pds|] == pds;
    }

    // ---------- the table of descriptors ----------

    static function Padded(data: seq<FdData>, n: nat): seq<FdData>
      requires |data| <= n
    {
      data + seq(n - |data|, i => FdData(0, 0, 0, NONE))
    }

    static lemma PaddedTwice(data: seq<FdData>, n: nat, m: nat)
      requires |data| <= n <= m
      ensures Padded(Padded(data, n), m) == Padded(data, m)
    {
    }

    static lemma PaddedKeeps(data: seq<FdData>, q: seq<PollQ>, kernel: map<int, Bits>, n: nat)
      requires Counted(data, q) && |data| <= n
      ensures Counted(Padded(data, n), q) && NoneNegative(Padded(data, n))
      ensures AllSynced(kernel, data) ==> AllSynced(kernel, Padded(data, n))
      ensures Quiet(data) ==> Quiet(Padded(data, n))
    {
      var r := Padded(data, n);
      forall fd | 0 <= fd < |r|
        ensures CountedAt(r[fd], q, fd) && NonNegative(r[fd])
      {
        assert fd < |data| ==> CountedAt(data[fd], q, fd);
        forall k | 0 <= k < 3
          ensures fd >= |data| ==> QueueRefs(q, fd, k) == 0
        {
          NobodyWants(q, |data|, fd, k);
        }
        assert Count(r[fd], 0) == r[fd].rd && Count(r[fd], 1) == r[fd].wr && Count(r[fd], 2) == r[fd].ex;
      }
    }

    static lemma NobodyWants(q: seq<PollQ>, size: nat, fd: int, k: int)
      requires forall i, j :: 0 <= i < |q| && 0 <= j < |q[i].pds| ==> q[i].pds[j].fd < size
      ensures fd >= size ==> QueueRefs(q, fd, k) == 0
    {
      QueueWantedIff(q, fd, k);
      forall i | 0 <= i < |q|
        ensures fd >= size ==> Refs(q[i].pds, fd, k) == 0
      {
        WantedIff(q[i].pds, fd, k);
      }
    }

    /** `_st_epoll_fd_data_expand`; the allocation succeeds when canGrow. */
    method Expand(maxfd: nat, canGrow: bool) returns (ok: bool)
      requires |data| > 0
      modifies this`data
      ensures ok == canGrow && |data| >= old(|data|) && data == Padded(old(data), |data|) && (ok ==> maxfd < |data|)
    {
      var n := |data|;
      while maxfd >= n
        invariant n >= |data| > 0
        decreases maxfd - n
      {
        n := n * 2;
      }
      ok := canGrow;
      if canGrow {
        data := data + seq(n - |data|, i => FdData(0, 0, 0, NONE));
      }
    }

    /** The checks of `_st_epoll_pollset_add`, and the room they make. */
    method CheckAll(pds: seq<PollFd>, canGrow: bool) returns (ok: bool)
      requires |data| > 0
      modifies this`data
      ensures |data| >= old(|data|) && data == Padded(old(data), |data|)
      ensures ok ==> forall i :: 0 <= i < |pds| ==> Acceptable(pds[i]) && pds[i].fd < |data|
      ensures !ok && canGrow ==> exists i :: 0 <= i < |pds| && !Acceptable(pds[i])
    {
      var i := 0;
      assert data == Padded(old(data), |data|);
      while i < |pds|
        invariant i <= |pds| && |data| >= old(|data|) && data == Padded(old(data), |data|)
        invariant forall j :: 0 <= j < i ==> Acceptable(pds[j]) && pds[j].fd < |data|
      {
        if !Acceptable(pds[i]) {
          return false;
        }
        if pds[i].fd >= |data| {
          ghost var was := data;
          var room := Expand(pds[i].fd, canGrow);
          PaddedTwice(old(data), |was|, |data|);
          if !room {
            return false;
          }
        }
        i := i + 1;
      }
      return true;
    }

    // ---------- the operations ----------

    /** `_st_epoll_pollset_add`: all is counted or, after the undo, nothing.  When the kernel has refused
        nothing but the change that made the call fail, it holds what it held before. */
    method PollsetAdd(pds: seq<PollFd>, canGrow: bool) returns (ok: bool)
      requires CountsOk()
      modifies this`data, this`evtlistCnt, this`kernel, this`asked
      ensures |data| >= old(|data|) > 0 && AskedFor(2 * |pds|) && (ok ==> Glitches() == old(Glitches()))
      ensures if ok then Raised(Padded(old(data), |data|), pds, data) else data == Padded(old(data), |data|)
      ensures ok ==> forall i :: 0 <= i < |pds| ==> Acceptable(pds[i]) && pds[i].fd < |data|
      ensures old(Consistent()) && Glitches() <= old(Glitches()) + 1 ==>
        Consistent() && (!ok ==> kernel == old(kernel) && evtlistCnt == old(evtlistCnt))
      ensures old(Consistent()) && canGrow ==>
        (ok <==> Glitches() == old(Glitches()) && forall i :: 0 <= i < |pds| ==> Acceptable(pds[i]))
    {
      ok := CheckAll(pds, canGrow);
      PaddedKeeps(old(data), ioQ, kernel, |data|);
      if ok {
        ok := AddAll(pds);
        if ok {
          RaisedIsQuiet(Padded(old(data), |data|), pds, data);
        }
      }
      if !ok && Glitches() <= old(Glitches()) + 1 && old(Consistent()) {
        SyncedDeterminesKernel(kernel, data, old(kernel));
      }
    }

    static lemma RaisedIsQuiet(base: seq<FdData>, pds: seq<PollFd>, data: seq<FdData>)
      requires Raised(base, pds, data)
      ensures Quiet(base) ==> Quiet(data)
    {
      forall fd | 0 <= fd < |data|
        ensures data[fd].revents == base[fd].revents
      {
        assert RaisedAt(base[fd], pds, fd, data[fd]);
      }
    }

    static lemma SyncedDeterminesKernel(a: map<int, Bits>, data: seq<FdData>, b: map<int, Bits>)
      requires AllSynced(a, data) && AllSynced(b, data)
      ensures a == b
    {
      forall fd
        ensures SameAt(a, b, fd)
      {
        if 0 <= fd < |data| {
          assert Synced(a, fd, data[fd]) && Synced(b, fd, data[fd]);
        }
      }
      assert a.Keys == b.Keys by {
        forall fd: int
          ensures fd in a <==> fd in b
        {
          assert SameAt(a, b, fd);
        }
      }
      forall fd | fd in a
        ensures a[fd] == b[fd]
      {
        assert SameAt(a, b, fd);
      }
    }

    static lemma CountedWithMore(base: seq<FdData>, data: seq<FdData>, q: seq<PollQ>, pq: PollQ)
      requires Counted(base, q) && Raised(base, pq.pds, data)
      requires forall i :: 0 <= i < |pq.pds| ==> Acceptable(pq.pds[i]) && pq.pds[i].fd < |data|
      ensures Counted(data, q + [pq])
    {
      forall fd | 0 <= fd < |data|
        ensures CountedAt(data[fd], q + [pq], fd)
      {
        assert CountedAt(base[fd], q, fd) && RaisedAt(base[fd], pq.pds, fd, data[fd]);
        forall k | 0 <= k < 3
          ensures QueueRefs(q + [pq], fd, k) == QueueRefs(q, fd, k) + Refs(pq.pds, fd, k)
        {
          QueueRefsWith(q, pq, fd, k);
        }
      }
    }

    static lemma CountedWithLess(base: seq<FdData>, data: seq<FdData>, q: seq<PollQ>, i: nat)
      requires i < |q| && Counted(base, q) && Lowered(base, q[i].pds, data)
      ensures Counted(data, Without(q, i))
    {
      forall fd | 0 <= fd < |data|
        ensures CountedAt(data[fd], Without(q, i), fd)
      {
        assert CountedAt(base[fd], q, fd) && LoweredAt(base[fd], q[i].pds, fd, data[fd]);
        forall k | 0 <= k < 3
          ensures QueueRefs(q, fd, k) == QueueRefs(Without(q, i), fd, k) + Refs(q[i].pds, fd, k)
        {
          QueueRefsWithout(q, i, fd, k);
        }
      }
    }

    static lemma EnoughCounted(data: seq<FdData>, q: seq<PollQ>, i: nat)
      requires i < |q| && Counted(data, q)
      ensures forall fd, k :: 0 <= fd < |data| && 0 <= k < 3 ==> Count(data[fd], k) >= Refs(q[i].pds, fd, k)
      ensures NoneNegative(data)
    {
      forall fd, k | 0 <= fd < |data| && 0 <= k < 3
        ensures Count(data[fd], k) >= Refs(q[i].pds, fd, k)
      {
        assert CountedAt(data[fd], q, fd);
        QueueRefsWithout(q, i, fd, k);
      }
      forall fd | 0 <= fd < |data|
        ensures NonNegative(data[fd])
      {
        assert CountedAt(data[fd], q, fd);
        assert Count(data[fd], 0) >= 0 && Count(data[fd], 1) >= 0 && Count(data[fd], 2) >= 0;
      }
    }

    /** The first half of `st_poll`. */
    method Enqueue(pq: PollQ, canGrow: bool) returns (ok: bool)
      requires CountsOk()
      modifies this`data, this`evtlistCnt, this`kernel, this`asked, this`ioQ
      ensures CountsOk() && ioQ == if ok then old(ioQ) + [pq] else old(ioQ)
      ensures AskedFor(2 * |pq.pds|) && (ok ==> Glitches() == old(Glitches())) && (old(Quiet(data)) ==> Quiet(data))
      ensures old(Consistent()) && Glitches() <= old(Glitches()) + 1 ==>
        Consistent() && (!ok ==> kernel == old(kernel) && evtlistCnt == old(evtlistCnt))
      ensures old(Consistent()) && canGrow ==>
        (ok <==> Glitches() == old(Glitches()) && forall i :: 0 <= i < |pq.pds| ==> Acceptable(pq.pds[i]))
    {
      ok := PollsetAdd(pq.pds, canGrow);
      PaddedKeeps(old(data), ioQ, kernel, |data|);
      if ok {
        CountedWithMore(Padded(old(data), |data|), data, ioQ, pq);
        RaisedIsQuiet(Padded(old(data), |data|), pq.pds, data);
        ioQ := ioQ + [pq];
      }
    }

    // ---------- dispatch ----------

    /** During dispatch: descriptors that have fired are still registered, the others are synced. */
    static ghost predicate HalfSynced(kernel: map<int, Bits>, data: seq<FdData>) {
      && (forall fd :: 0 <= fd < |data| ==> if data[fd].revents == NONE then Synced(kernel, fd, data[fd]) else fd in kernel)
      && (forall fd :: fd in kernel ==> 0 <= fd < |data|)
    }

    static lemma HalfSyncedAfterDel(kern: map<int, Bits>, base: seq<FdData>, pds: seq<PollFd>,
        kernel: map<int, Bits>, data: seq<FdData>)
      requires HalfSynced(kern, base) && NoneNegative(base) && Lowered(base, pds, data)
      requires forall fd, k :: 0 <= fd < |base| && 0 <= k < 3 ==> Count(base[fd], k) >= Refs(pds, fd, k)
      requires KernelKept(kern, base, kernel) && KernelFollows(kern, base, kernel, data)
      ensures HalfSynced(kernel, data)
    {
      forall fd | 0 <= fd < |data|
        ensures if data[fd].revents == NONE then Synced(kernel, fd, data[fd]) else fd in kernel
      {
        assert LoweredAt(base[fd], pds, fd, data[fd]);
        if base[fd].revents == NONE {
          assert Traced(kern, base[fd], kernel, data[fd], fd);
          LoweredMask(base[fd], pds, fd, data[fd]);
        } else {
          assert SameAt(kernel, kern, fd);
        }
      }
      forall fd | fd in kernel
        ensures 0 <= fd < |data|
      {
        assert !(0 <= fd < |base|) ==> SameAt(kernel, kern, fd);
      }
    }

    static lemma LoweredMask(base: FdData, pds: seq<PollFd>, fd: int, d: FdData)
      requires LoweredAt(base, pds, fd, d) && forall k :: 0 <= k < 3 ==> Count(base, k) >= Refs(pds, fd, k)
      ensures Mask(base) == NONE ==> Mask(d) == NONE
    {
      assert Count(d, 0) <= Count(base, 0) && Count(d, 1) <= Count(base, 1) && Count(d, 2) <= Count(base, 2);
      assert Count(d, 0) >= 0 && Count(d, 1) >= 0 && Count(d, 2) >= 0;
    }

    /** Request i leaves the queue, its counts and, when nothing has fired, the kernel. */
    method Dequeue(i: nat)
      requires CountsOk() && i < |ioQ|
      modifies this`data, this`evtlistCnt, this`kernel, this`asked, this`ioQ
      ensures CountsOk() && ioQ == old(Without(ioQ, i)) && AskedFor(|old(ioQ)[i].pds|)
          && Lowered(old(data), old(ioQ)[i].pds, data)
      ensures evtlistCnt - |kernel| == old(evtlistCnt - |kernel|)
      ensures Glitches() == old(Glitches()) && old(HalfSynced(kernel, data)) ==> HalfSynced(kernel, data)
    {
      ghost var base, kern, q := data, kernel, ioQ;
      var pds := ioQ[i].pds;
      EnoughCounted(data, ioQ, i);
      ioQ := Without(ioQ, i);
      PollsetDel(pds);
      CountedWithLess(base, data, q, i);
      if Glitches() == old(Glitches()) && HalfSynced(kern, base) {
        HalfSyncedAfterDel(kern, base, pds, kernel, data);
      }
    }

    /** The second half of `st_poll`, when the request is still queued. */
    method Leave(i: nat)
      requires CountsOk() && i < |ioQ|
      modifies this`data, this`evtlistCnt, this`kernel, this`asked, this`ioQ
      ensures CountsOk() && ioQ == old(Without(ioQ, i)) && AskedFor(|old(ioQ)[i].pds|)
      ensures old(Quiet(data)) ==> Quiet(data)
      ensures old(Consistent()) && Glitches() == old(Glitches()) ==> Consistent()
    {
      Dequeue(i);
      LoweredIsQuiet(old(data), old(ioQ)[i].pds, data);
    }

    static lemma LoweredIsQuiet(base: seq<FdData>, pds: seq<PollFd>, data: seq<FdData>)
      requires Lowered(base, pds, data)
      ensures Quiet(base) ==> Quiet(data)
      ensures Revents(data) == Revents(base)
    {
      forall fd | 0 <= fd < |data|
        ensures data[fd].revents == base[fd].revents
      {
        assert LoweredAt(base[fd], pds, fd, data[fd]);
      }
    }

    /** What each descriptor of the table has to report. */
    static function Revents(data: seq<FdData>): map<int, Bits> {
      map fd | 0 <= fd < |data| :: data[fd].revents
    }

    // ---------- what has fired ----------

    static predicate Reportable(data: seq<FdData>, kernel: map<int, Bits>, fired: seq<(int, Bits)>) {
      && (forall i :: 0 <= i < |fired| ==> fired[i].1 != NONE && fired[i].0 in kernel)
      && Distinct(fired, |data|)
    }

    static predicate Distinct(fired: seq<(int, Bits)>, size: int) {
      && (forall i :: 0 <= i < |fired| ==> 0 <= fired[i].0 < size)
      && forall i, j :: 0 <= i < j < |fired| ==> fired[i].0 != fired[j].0
    }

    static predicate Lists(fired: seq<(int, Bits)>, fd: int) {
      exists i :: 0 <= i < |fired| && fired[i].0 == fd
    }

    /** On an error or hang-up all events that are waited for are reported as well. */
    static function Report(d: FdData, b: Bits): Bits {
      if b.err || b.hup then Bits(b.rd || d.rd != 0, b.wr || d.wr != 0, b.ex || d.ex != 0, b.err, b.hup, b.nval) else b
    }

    static function Marked(data: seq<FdData>, fired: seq<(int, Bits)>): (r: seq<FdData>)
      ensures |r| == |data|
      decreases fired
    {
      if fired == [] then data
      else if 0 <= fired[0].0 < |data| then
        Marked(data[fired[0].0 := data[fired[0].0].(revents := Report(data[fired[0].0], fired[0].1))], fired[1..])
      else Marked(data, fired[1..])
    }

    static predicate SameCounts(a: FdData, b: FdData) {
      a.rd == b.rd && a.wr == b.wr && a.ex == b.ex
    }

    /** Marking changes no counts, and gives each listed descriptor its report. */
    static lemma {:induction false} MarkedIs(data: seq<FdData>, kernel: map<int, Bits>, fired: seq<(int, Bits)>, fd: int)
      requires Reportable(data, kernel, fired) && 0 <= fd < |data|
      ensures var r := Marked(data, fired)[fd];
        && SameCounts(r, data[fd])
        && (forall i :: 0 <= i < |fired| && fired[i].0 == fd ==>
            r.revents == Report(data[fd], fired[i].1) && r.revents != NONE)
        && (!Lists(fired, fd) ==> r.revents == data[fd].revents)
      decreases fired
    {
      if fired != [] {
        var next := data[fired[0].0 := data[fired[0].0].(revents := Report(data[fired[0].0], fired[0].1))];
        var rest := fired[1..];
        assert forall i :: 0 <= i < |rest| ==> rest[i] == fired[i + 1];
        MarkedIs(next, kernel, rest, fd);
        if Lists(rest, fd) {
          var i :| 0 <= i < |rest| && rest[i].0 == fd;
          assert fired[i + 1].0 == fd;
        }
        forall i | 0 <= i < |fired| && fired[i].0 == fd
          ensures Marked(data, fired)[fd].revents == Report(data[fd], fired[i].1) && Marked(data, fired)[fd].revents != NONE
        {
          if i > 0 {
            assert rest[i - 1].0 == fd;
          }
        }
      }
    }

    static lemma MarkedState(data: seq<FdData>, kernel: map<int, Bits>, q: seq<PollQ>, fired: seq<(int, Bits)>)
      requires Reportable(data, kernel, fired) && Counted(data, q) && Quiet(data)
      ensures Counted(Marked(data, fired), q)
      ensures AllSynced(kernel, data) ==> HalfSynced(kernel, Marked(data, fired))
      ensures ListedFire(Marked(data, fired), fired)
    {
      var r := Marked(data, fired);
      forall fd | 0 <= fd < |r|
        ensures CountedAt(r[fd], q, fd) && Mask(r[fd]) == Mask(data[fd]) && (r[fd].revents != NONE <==> Lists(fired, fd))
      {
        assert CountedAt(data[fd], q, fd);
        MarkedIs(data, kernel, fired, fd);
      }
    }

    /** The listed descriptors are those that have something to report. */
    static ghost predicate ListedFire(data: seq<FdData>, fired: seq<(int, Bits)>) {
      forall fd :: 0 <= fd < |data| ==> (data[fd].revents != NONE <==> Lists(fired, fd))
    }

    method MarkFired(fired: seq<(int, Bits)>)
      requires Reportable(data, kernel, fired)
      modifies this`data
      ensures data == Marked(old(data), fired)
    {
      var i := 0;
      while i < |fired|
        invariant i <= |fired| && |data| == old(|data|) && Marked(data, fired[i..]) == Marked(old(data), fired)
      {
        assert fired[i..][0] == fired[i] && fired[i..][1..] == fired[i + 1..];
        var (fd, b) := fired[i];
        data := data[fd := data[fd].(revents := Report(data[fd], b))];
        i := i + 1;
      }
    }

    // ---------- the walk ----------

    /** The answers to one request. */
    method AnswerRequest(pds: seq<PollFd>) returns (r: seq<PollFd>, notify: bool)
      requires forall i :: 0 <= i < |pds| ==> 0 <= pds[i].fd < |data|
      ensures r == AnswerAll(pds, Reported(Revents(data))) && notify == Notified(r)
    {
      r, notify := pds, false;
      var i := 0;
      while i < |pds|
        invariant i <= |pds| == |r|
        invariant forall j :: 0 <= j < |pds| ==> r[j] == if j < i then Answer(pds[j], Reported(Revents(data))) else pds[j]
        invariant notify <==> exists j :: 0 <= j < i && r[j].revents != NONE
      {
        var pd := pds[i];
        var rev := data[pd.fd].revents;
        var revents := NONE;
        if rev != NONE {
          revents := Bits(pd.events.rd && rev.rd, pd.events.wr && rev.wr, pd.events.ex && rev.ex, rev.err, rev.hup, false);
        }
        r := r[i := pd.(revents := revents)];
        if revents != NONE {
          notify := true;
        }
        i := i + 1;
      }
    }

    static lemma CountedAfterUpdate(data: seq<FdData>, q: seq<PollQ>, i: nat, pq: PollQ)
      requires i < |q| && Counted(data, q)
      requires |pq.pds| == |q[i].pds| && forall n :: 0 <= n < |pq.pds| ==> SameRequest(pq.pds[n], q[i].pds[n])
      ensures Counted(data, q[i := pq])
    {
      forall fd | 0 <= fd < |data|
        ensures CountedAt(data[fd], q[i := pq], fd)
      {
        assert CountedAt(data[fd], q, fd);
        forall k | 0 <= k < 3
          ensures QueueRefs(q[i := pq], fd, k) == QueueRefs(q, fd, k)
        {
          QueueRefsAfterUpdate(q, i, pq, fd, k);
        }
      }
    }

    /** Request q is answered, and leaves the queue when its thread is notified. */
    method AnswerOne(q: nat) returns (notify: bool, pq: PollQ)
      requires CountsOk() && q < |ioQ|
      modifies this`data, this`evtlistCnt, this`kernel, this`asked, this`ioQ
      ensures CountsOk() && Revents(data) == Revents(old(data)) && |data| == old(|data|)
      ensures AskedFor(if notify then |pq.pds| else 0)
      ensures pq == Answered(old(ioQ)[q], Reported(Revents(old(data)))) && notify == Notified(pq.pds)
      ensures ioQ == if notify then Without(old(ioQ), q) else old(ioQ)[q := pq]
      ensures evtlistCnt - |kernel| == old(evtlistCnt - |kernel|)
      ensures Glitches() == old(Glitches()) && old(HalfSynced(kernel, data)) ==> HalfSynced(kernel, data)
    {
      pq := ioQ[q];
      var pds, notified := AnswerRequest(pq.pds);
      notify := notified;
      pq := pq.(pds := pds);
      CountedAfterUpdate(data, ioQ, q, pq);
      assert Without(ioQ[q := pq], q) == Without(ioQ, q);
      ioQ := ioQ[q := pq];
      if notify {
        ghost var base := data;
        Dequeue(q);
        LoweredIsQuiet(base, pq.pds, data);
      }
    }

    /** The walk over the io queue. */
    method Walk() returns (woken: seq<PollQ>)
      requires CountsOk()
      modifies this`data, this`evtlistCnt, this`kernel, this`asked, this`ioQ
      ensures CountsOk() && Revents(data) == Revents(old(data)) && |data| == old(|data|) && AskedFor(Entries(woken))
      ensures ioQ == Stay(old(ioQ), Reported(Revents(old(data)))) && woken == Woken(old(ioQ), Reported(Revents(old(data))))
      ensures evtlistCnt - |kernel| == old(evtlistCnt - |kernel|)
      ensures Glitches() == old(Glitches()) && old(HalfSynced(kernel, data)) ==> HalfSynced(kernel, data)
    {
      hide Counted, HalfSynced, Walking, Without, Notified, AnswerAll, Stay, Woken, Revents;
      ghost var all, how := ioQ, Reported(Revents(data));
      ghost var seen := 0;
      var q := 0;
      woken := [];
      WalkStarts(all, how);
      while q < |ioQ|
        invariant CountsOk() && Revents(data) == Revents(old(data)) && |data| == old(|data|)
        invariant AskedFor(Entries(woken))
        invariant Walking(ioQ, q, woken, all, seen, how) && 0 <= q <= |ioQ|
        invariant evtlistCnt - |kernel| == old(evtlistCnt - |kernel|)
        invariant Glitches() == old(Glitches()) && old(HalfSynced(kernel, data)) ==> HalfSynced(kernel, data)
        decreases |ioQ| - q
      {
        ghost var was := ioQ;
        var notify, pq := AnswerOne(q);
        WalkTurn(was, q, woken, all, seen, how, ioQ);
        if notify {
          woken := woken + [pq];
        } else {
          q := q + 1;
        }
        seen := seen + 1;
      }
      WalkEnds(ioQ, q, woken, all, seen, how);
    }

    // ---------- the end of dispatch ----------

    /** A descriptor that has fired is settled with the kernel. */
    method Settle(fd: int)
      requires CountsOk() && 0 <= fd < |data|
      modifies this`data, this`evtlistCnt, this`kernel, this`asked
      ensures CountsOk() && AskedFor(1) && evtlistCnt - |kernel| == old(evtlistCnt - |kernel|)
      ensures data == old(data)[fd := old(data)[fd].(revents := NONE)]
      ensures old(data)[fd].revents != NONE && Glitches() == old(Glitches()) && old(HalfSynced(kernel, data)) ==>
          HalfSynced(kernel, data)
    {
      ghost var kern, base := kernel, data;
      data := data[fd := data[fd].(revents := NONE)];
      assert forall f :: 0 <= f < |data| ==> CountedAt(base[f], ioQ, f) && SameCounts(data[f], base[f]);
      var events := Mask(data[fd]);
      var op := if events != NONE then Mod else Del;
      var r := Ctl(op, fd, events);
      if r == Okay && op == Del {
        evtlistCnt := evtlistCnt - 1;
      }
    }

    method SettleAll(fired: seq<(int, Bits)>)
      requires CountsOk() && Distinct(fired, |data|) && ListedFire(data, fired)
      modifies this`data, this`evtlistCnt, this`kernel, this`asked
      ensures CountsOk() && Quiet(data) && AskedFor(|fired|) && evtlistCnt - |kernel| == old(evtlistCnt - |kernel|)
      ensures Glitches() == old(Glitches()) && old(HalfSynced(kernel, data)) ==> AllSynced(kernel, data)
    {
      hide Counted;
      var i := 0;
      while i < |fired|
        invariant i <= |fired| && CountsOk() && |data| == old(|data|)
        invariant AskedFor(i) && evtlistCnt - |kernel| == old(evtlistCnt - |kernel|)
        invariant forall fd :: 0 <= fd < |data| ==>
            (data[fd].revents != NONE <==> exists j :: i <= j < |fired| && fired[j].0 == fd)
        invariant Glitches() == old(Glitches()) && old(HalfSynced(kernel, data)) ==> HalfSynced(kernel, data)
      {
        assert data[fired[i].0].revents != NONE;
        Settle(fired[i].0);
        i := i + 1;
      }
    }

    /** The descriptor has a count of all that is asked for. */
    static predicate Covers(d: FdData, events: Bits) {
      (events.rd ==> d.rd != 0) && (events.wr ==> d.wr != 0) && (events.ex ==> d.ex != 0)
    }

    /** A request's entry asks for nothing that its descriptor has no count of. */
    static lemma AskedIsCounted(data: seq<FdData>, q: seq<PollQ>, i: nat, j: nat)
      requires Counted(data, q) && i < |q| && j < |q[i].pds|
      ensures 0 <= q[i].pds[j].fd < |data| && Covers(data[q[i].pds[j].fd], q[i].pds[j].events)
    {
      var p := q[i].pds[j];
      var d := data[p.fd];
      assert CountedAt(d, q, p.fd) && Count(d, 0) == d.rd && Count(d, 1) == d.wr && Count(d, 2) == d.ex;
      forall k | 0 <= k < 3
        ensures Bit(p.events, k) ==> QueueRefs(q, p.fd, k) > 0
      {
        WantedInQueue(q, p.fd, k);
      }
      assert Bit(p.events, 0) == p.events.rd && Bit(p.events, 1) == p.events.wr && Bit(p.events, 2) == p.events.ex;
    }

    static lemma ReportedIsFaithful(data: seq<FdData>, kernel: map<int, Bits>, fired: seq<(int, Bits)>, p: PollFd)
      requires Reportable(data, kernel, fired) && Quiet(data) && 0 <= p.fd < |data|
      requires Covers(data[p.fd], p.events)
      ensures Faithful(ByEpoll(fired), Reported(Revents(Marked(data, fired))), p)
    {
      MarkedIs(data, kernel, fired, p.fd);
      hide Quiet, Reportable, Tells, Report, Answer, Covers;
      var revents := Revents(Marked(data, fired));
      assert p.fd in revents && revents[p.fd] == Marked(data, fired)[p.fd].revents;
      hide Marked, Revents;
      if Lists(fired, p.fd) {
        var i :| 0 <= i < |fired| && fired[i].0 == p.fd;
        OneReport(data, fired, p.fd, i);
        TellsOne(fired, p, data[p.fd], fired[i].1, revents);
      } else {
        assert forall b: Bits :: !Reports(fired, p.fd, b);
        TellsNone(fired, p, revents);
      }
    }

    static lemma TellsOne(fired: seq<(int, Bits)>, p: PollFd, d: FdData, b: Bits, revents: map<int, Bits>)
      requires forall c: Bits :: Reports(fired, p.fd, c) <==> c == b
      requires p.fd in revents && revents[p.fd] == Report(d, b) && Covers(d, p.events)
      ensures Tells(ByEpoll(fired), p, Answer(p, Reported(revents)))
    {
    }

    static lemma TellsNone(fired: seq<(int, Bits)>, p: PollFd, revents: map<int, Bits>)
      requires forall c: Bits :: !Reports(fired, p.fd, c)
      requires p.fd in revents && revents[p.fd] == NONE
      ensures Tells(ByEpoll(fired), p, Answer(p, Reported(revents)))
    {
    }

    static lemma OneReport(data: seq<FdData>, fired: seq<(int, Bits)>, fd: int, i: nat)
      requires Distinct(fired, |data|) && i < |fired| && fired[i].0 == fd
      ensures forall b: Bits :: Reports(fired, fd, b) <==> b == fired[i].1
    {
      assert fired[i] == (fd, fired[i].1);
    }

    /** A walk over valid requests answers as the report of epoll calls for. */
    static lemma EpollParts(data: seq<FdData>, kernel: map<int, Bits>, q: seq<PollQ>, fired: seq<(int, Bits)>)
      requires Counted(data, q) && Quiet(data) && Reportable(data, kernel, fired)
      ensures Parted(ByEpoll(fired), q, Stay(q, Reported(Revents(Marked(data, fired)))),
                     Woken(q, Reported(Revents(Marked(data, fired)))))
    {
      hide Counted, Faithful, Parted, Reportable, Quiet, Marked, Revents;
      var how := Reported(Revents(Marked(data, fired)));
      forall i: nat, j: nat | i < |q| && j < |q[i].pds|
        ensures Faithful(ByEpoll(fired), how, q[i].pds[j])
      {
        AskedIsCounted(data, q, i, j);
        ReportedIsFaithful(data, kernel, fired, q[i].pds[j]);
      }
      WalkParts(ByEpoll(fired), q, how);
    }

    /** The kernel watches exactly what the requests on the queue ask for. */
    lemma KernelMeans(fd: int)
      requires CountsOk() && Consistent()
      ensures fd in kernel <==> ToRead(ioQ, fd) || ToWrite(ioQ, fd) || ToExcept(ioQ, fd)
      ensures fd in kernel ==>
        kernel[fd] == Bits(ToRead(ioQ, fd), ToWrite(ioQ, fd), ToExcept(ioQ, fd), false, false, false)
    {
      if 0 <= fd < |data| {
        var d := data[fd];
        assert Synced(kernel, fd, d) && CountedAt(d, ioQ, fd);
        assert Count(d, 0) == d.rd && Count(d, 1) == d.wr && Count(d, 2) == d.ex;
        forall k | 0 <= k < 3
          ensures Count(d, k) != 0 <==> Wanted(ioQ, fd, k)
        {
          WantedInQueue(ioQ, fd, k);
        }
        WantedMeans(ioQ, fd);
      }
    }

    /** `_st_epoll_dispatch` once `epoll_wait` has reported fired, which is empty on a time-out or an
        error: the counts follow the queue in any case, and the kernel follows the counts again at the end. */
    method Dispatch(fired: seq<(int, Bits)>) returns (woken: seq<PollQ>)
      requires CountsOk() && Quiet(data) && Reportable(data, kernel, fired)
      modifies this`data, this`evtlistCnt, this`kernel, this`asked, this`ioQ
      ensures CountsOk() && Quiet(data) && AskedFor(Entries(woken) + |fired|)
      ensures fired == [] ==> ioQ == old(ioQ) && woken == []
      ensures fired != [] ==> var how := Reported(Revents(Marked(old(data), fired)));
        ioQ == Stay(old(ioQ), how) && woken == Woken(old(ioQ), how)
      ensures fired != [] ==> Parted(ByEpoll(fired), old(ioQ), ioQ, woken)
      ensures old(Consistent()) && Glitches() == old(Glitches()) ==> Consistent()
    {
      if fired == [] {
        return [];
      }
      EpollParts(data, kernel, ioQ, fired);
      MarkedState(data, kernel, ioQ, fired);
      MarkFired(fired);
      ghost var marked := data;
      woken := Walk();
      SameReventsSameList(marked, data, fired);
      SettleAll(fired);
    }

    static lemma SameReventsSameList(a: seq<FdData>, b: seq<FdData>, fired: seq<(int, Bits)>)
      requires |a| == |b| && Revents(a) == Revents(b) && ListedFire(a, fired)
      ensures ListedFire(b, fired)
    {
      forall fd | 0 <= fd < |b|
        ensures b[fd].revents == a[fd].revents
      {
        assert Revents(a)[fd] == Revents(b)[fd];
      }
    }

    /** `_st_epoll_fd_close`: only a descriptor that nobody polls may be closed. */
    method FdClose(fd: int) returns (ok: bool)
      requires CountsOk() && 0 <= fd < |data|
      ensures ok <==> forall i, j :: 0 <= i < |ioQ| && 0 <= j < |ioQ[i].pds| ==> ioQ[i].pds[j].fd != fd
    {
      ok := data[fd].rd == 0 && data[fd].wr == 0 && data[fd].ex == 0;
      assert CountedAt(data[fd], ioQ, fd);
      assert Count(data[fd], 0) == data[fd].rd && Count(data[fd], 1) == data[fd].wr && Count(data[fd], 2) == data[fd].ex;
      NobodyPollsIff(ioQ, fd);
    }
  }
}
