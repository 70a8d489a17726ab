/**
 The virtual processor together with its epoll back end.  The kernel may refuse changes of its own; what
 `st_poll` returns and who may close a descriptor does not depend on that.  The other calls do not concern
 the event system, and keep the two sides linked by OthersLinked.
 */
module SchedEpoll {
  import opened Options
  import opened SchedState
  import opened SchedApi
  import opened SchedRuns
  import opened SchedInv
  import opened SchedTheorems
  import opened SchedVp
  import opened SchedRuntime
  import opened PollWalk
  import P = PollTypes
  import E = Epoll

  class Runtime {
    const vp: Vp
    const ep: E.Epoll
    /** The poll descriptors of the threads inside `st_poll`, where dispatch writes its answers. */
    var pds: Pds

    ghost predicate Valid()
      reads this, vp, ep
    {
      vp.Valid() && ep.CountsOk() && E.Epoll.Quiet(ep.data) && Linked(vp.Abs(), ep.ioQ, pds)
    }

    constructor (now: nat, stack: nat, hint: nat, refuses: nat -> bool)
      requires hint > 0
      ensures Valid() && fresh(vp) && fresh(ep)
      ensures vp.Abs() == Initial(now, stack) && ep.ioQ == [] && ep.Consistent() && ep.refuses == refuses
    {
      vp := new Vp(now, stack);
      ep := new E.Epoll(hint, refuses);
      pds := map[];
    }

    lemma InvHere()
      requires vp.Valid()
      ensures Inv(vp.Abs())
    {
    }

    /** `st_poll` up to its context switch.  Unless an interrupt is pending the request is taken iff the
        kernel refuses nothing and all descriptors are valid; when it is not taken the kernel holds what
        it held before, if that was all that it refused. */
    method StPoll(p: seq<P.PollFd>, timeout: Option<nat>, canGrow: bool) returns (out: Outcome, ghost added: bool)
      requires Valid() && UserRuns(vp.Abs())
      modifies this, vp, ep
      ensures Valid() && (vp.Abs(), out) == PollStart(old(vp.Abs()), timeout, added)
      ensures ep.ioQ == old(ep.ioQ) + if added then [P.PollQ(old(vp.Abs()).cur.value, p)] else []
      ensures old(ep.Consistent()) && ep.Glitches() <= old(ep.Glitches()) + 1 ==>
        ep.Consistent() && (!added ==> ep.kernel == old(ep.kernel) && ep.evtlistCnt == old(ep.evtlistCnt))
      ensures old(ep.Consistent()) && canGrow ==> (added <==>
        !old(Me(vp.Abs()).intr) && ep.Glitches() == old(ep.Glitches()) && forall i :: 0 <= i < |p| ==> P.Acceptable(p[i]))
    {
      hide Vp.Valid, Inv, Linked, PollStart, E.Epoll.CountsOk, E.Epoll.Quiet, E.Epoll.Consistent, E.Epoll.Glitches;
      ghost var s := vp.Abs();
      InvHere();
      var me := vp.cur.value;
      LinkedByPoll(s, timeout, true, ep.ioQ, p, pds);
      LinkedByPoll(s, timeout, false, ep.ioQ, p, pds);
      if vp.th[me].intr {
        out := vp.StPoll(timeout, false);
        added := false;
      } else {
        var ok := ep.Enqueue(P.PollQ(me, p), canGrow);
        out := vp.StPoll(timeout, ok);
        added := ok;
        if ok {
          pds := pds[me := p];
        }
      }
    }

    /** A call goes on after its context switch; the second half of `st_poll` leaves the queue, the counts
        and the kernel, if dispatch has not done so. */
    method Resume() returns (out: Outcome)
      requires Valid() && CanReturn(vp.Abs()) && vp.cur != Some(vp.idle) && !Me(vp.Abs()).call.NoCall?
      modifies vp, ep
      ensures Valid() && (vp.Abs(), out) == Resumed(old(vp.Abs()))
      ensures old(Me(vp.Abs()).call) != Poll(true) ==> unchanged(ep)
      ensures old(Me(vp.Abs()).call).Poll? ==>
        PollReturns(old(Me(vp.Abs())), old(if vp.cur.value in pds then pds[vp.cur.value] else []), out)
      ensures old(ep.Consistent()) && ep.Glitches() == old(ep.Glitches()) ==> ep.Consistent()
    {
      hide Vp.Valid, Inv, Linked, Resumed, PollReturns, CanReturn;
      hide E.Epoll.CountsOk, E.Epoll.Quiet, E.Epoll.Consistent, E.Epoll.Glitches;
      ghost var s := vp.Abs();
      InvHere();
      CanGoOn(s);
      var me := vp.cur.value;
      if vp.th[me].call.Poll? {
        PollReturnsCount(s, ep.ioQ, pds);
      }
      if vp.th[me].call == Poll(true) {
        InvQueues(s);
        var i := IndexOf(vp.ioQ, me);
        LinkedByResume(s, ep.ioQ, pds, i);
        ep.Leave(i);
      } else {
        LinkedByResume(s, ep.ioQ, pds, 0);
      }
      out := vp.Resume();
    }

    /** What the walk reports once `epoll_wait` has reported fired; without events there is no walk. */
    static function Found(data: seq<E.FdData>, fired: seq<(int, P.Bits)>): Option<How> {
      if fired == [] then None else Some(Reported(E.Epoll.Revents(E.Epoll.Marked(data, fired))))
    }

    /** One turn of the idle thread: exactly the callers with events are woken, each with the number of its
        descriptors that have one, and those whose time has come; the answers stand in the descriptors,
        and the kernel follows the requests that are left. */
    method IdleTurn(fired: seq<(int, P.Bits)>, now: nat) returns (woken: seq<P.PollQ>, ghost order: seq<Tid>)
      requires Valid() && vp.cur == Some(vp.idle) && vp.active > 0
      requires E.Epoll.Reportable(ep.data, ep.kernel, fired)
      modifies this, vp, ep
      ensures Valid() && Dispatched(old(ep.ioQ), Found(old(ep.data), fired), ep.ioQ, woken)
      ensures ExpiryOrder(Dispatch(old(vp.Abs()), old(vp.ioQ), Counts(woken)), now, order)
      ensures vp.Abs() == Idle(old(vp.Abs()), Counts(woken), now, order) && pds == Answers(old(pds), ep.ioQ, woken)
      ensures fired != [] ==> AllServed(ByEpoll(fired), old(vp.Abs()), vp.Abs(), old(pds), pds)
      ensures fired == [] ==> forall t :: t in old(vp.ioQ) ==>
        t in old(pds) && t in pds && pds[t] == old(pds)[t] && !WasTold(vp.Abs(), t)
      ensures old(ep.Consistent()) && ep.Glitches() == old(ep.Glitches()) ==> ep.Consistent()
    {
      hide Vp.Valid, Inv, Linked, Idle, Splits, Answers, Counts, ExpiryOrder, Dispatch, Parted, AllServed, WasTold;
      hide E.Epoll.CountsOk, E.Epoll.Quiet, E.Epoll.Consistent, E.Epoll.Glitches;
      ghost var s := vp.Abs();
      ghost var q, how := ep.ioQ, Found(ep.data, fired);
      InvHere();
      woken := ep.Dispatch(fired);
      DispatchedSplits(s, q, pds, how, ep.ioQ, woken);
      order := vp.IdleTurn(Counts(woken), now);
      LinkedByIdle(s, now, order, q, pds, ep.ioQ, woken);
      ServedHere(s, now, order, q, pds, ep.ioQ, woken, fired);
      pds := WriteAnswers(pds, ep.ioQ, woken);
    }

    static lemma ServedHere(s: State, now: nat, order: seq<Tid>, q: seq<P.PollQ>, pds: Pds, stay: seq<P.PollQ>,
                            woken: seq<P.PollQ>, fired: seq<(int, P.Bits)>)
      requires Inv(s) && Linked(s, q, pds) && Splits(q, stay, woken)
      requires Enabled(s, Event.IdleTurn(Counts(woken), now, order))
      requires if fired == [] then stay == q && woken == [] else Parted(ByEpoll(fired), q, stay, woken)
      ensures var s' := Idle(s, Counts(woken), now, order); var pds' := Answers(pds, stay, woken);
        && (fired != [] ==> AllServed(ByEpoll(fired), s, s', pds, pds'))
        && (fired == [] ==> forall t :: t in s.ioQ ==>
            t in pds && t in pds' && pds'[t] == pds[t] && !WasTold(s', t))
    {
      hide Inv, Linked, Splits, Parted, Enabled, Idle, Answers, AllServed, WasTold;
      if fired != [] {
        ServedByIdle(ByEpoll(fired), s, now, order, q, pds, stay, woken);
      } else {
        forall t | t in s.ioQ
          ensures t in pds && t in Answers(pds, q, []) && Answers(pds, q, [])[t] == pds[t]
          ensures !WasTold(Idle(s, map[], now, order), t)
        {
          NobodyServed(s, now, order, q, pds, t);
        }
      }
    }

    /** `_st_epoll_fd_close`: the descriptor may be closed iff no thread that is on the io queue inside
        `st_poll` names it. */
    method FdClose(fd: int) returns (ok: bool)
      requires Valid() && 0 <= fd < |ep.data|
      ensures forall t :: t in vp.th && vp.th[t].call == Poll(true) ==> t in pds
      ensures ok <==> forall t, j :: t in vp.th && vp.th[t].call == Poll(true) && 0 <= j < |pds[t]| ==> pds[t][j].fd != fd
    {
      hide Vp.Valid, Inv, E.Epoll.CountsOk;
      ok := ep.FdClose(fd);
      ghost var q := ep.ioQ;
      InvHere();
      InvQueues(vp.Abs());
      QueuedOnce(vp.ioQ, q, pds);
    }
  }
}
