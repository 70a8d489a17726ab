/**
 Which events of a run concern the io queue and the threads that dispatch has notified: a call of
 `st_poll`, the return from one, and a turn of the idle thread.
 */
module SchedIo {
  import opened Options
  import opened SchedState
  import opened SchedApi
  import opened SchedInv
  import opened SchedRuns
  import opened SchedSteps
  import opened SchedTheorems
  import opened SchedHistory

  /** How dispatch notified t, when t has yet to return from `st_poll`. */
  ghost function View(s: State, t: Tid): Option<Wake> {
    if t in s.th && s.th[t].call == Poll(false) then Some(s.th[t].wake) else None
  }

  /** The io queue and the notified threads are the same. */
  ghost predicate SameIo(s: State, s': State) {
    s'.ioQ == s.ioQ && forall t: Tid :: View(s', t) == View(s, t)
  }

  /** A thread that dispatch has notified is runnable. */
  ghost predicate NotifiedRun(s: State) {
    forall t :: t in s.th && s.th[t].call == Poll(false) ==> s.th[t].state.Running? || s.th[t].state.Runnable?
  }

  lemma InvNotifiedRun(s: State)
    requires Core(s)
    ensures NotifiedRun(s)
  {
    forall t | t in s.th && s.th[t].call == Poll(false)
      ensures s.th[t].state.Running? || s.th[t].state.Runnable?
    {
      assert ThreadOk(s, t);
    }
  }

  // ---------- primitives ----------

  lemma WakeSameIo(s: State, t: Tid, why: Wake, front: bool)
    requires t in s.th && s.th[t].call != Poll(false) && !why.Ready?
    ensures SameIo(s, WakeUp(s, t, why, front)) && (NotifiedRun(s) ==> NotifiedRun(WakeUp(s, t, why, front)))
  {
  }

  lemma ScheduleSameIo(s: State)
    ensures SameIo(s, Schedule(s))
  {
  }

  lemma ParkSameIo(s: State, call: Call, state: Status, timeout: Option<nat>)
    requires s.cur.Some? && s.cur.value in s.th && s.th[s.cur.value].call != Poll(false) && !call.Poll?
    requires (call.Cond? ==> call.c in s.conds) && (call.Lock? ==> call.m in s.locks)
    ensures SameIo(s, Park(s, call, state, timeout))
    ensures SameIo(s, Schedule(Park(s, call, state, timeout)))
  {
    ScheduleSameIo(Park(s, call, state, timeout));
  }

  lemma {:induction false} SignalSameIo(s: State, q: seq<Tid>)
    requires NotifiedRun(s)
    ensures SameIo(s, Signal(s, q))
    decreases q
  {
    if q != [] {
      if q[0] in s.th && s.th[q[0]].state.CondWait? {
        WakeSameIo(s, q[0], Signalled, false);
      } else {
        SignalSameIo(s, q[1..]);
      }
    }
  }

  lemma {:induction false} BroadcastSameIo(s: State, q: seq<Tid>)
    requires NotifiedRun(s)
    ensures SameIo(s, Broadcast(s, q))
    decreases q
  {
    if q != [] {
      if q[0] in s.th && s.th[q[0]].state.CondWait? {
        var s' := WakeUp(s, q[0], Signalled, false);
        WakeSameIo(s, q[0], Signalled, false);
        BroadcastSameIo(s', q[1..]);
      } else {
        BroadcastSameIo(s, q[1..]);
      }
    }
  }

  lemma SetOwnerSameIo(s: State, m: MutexId, owner: Option<Tid>)
    requires m in s.locks
    ensures SameIo(s, SetOwner(s, m, owner))
  {
  }

  lemma {:induction false} UnlockSameIo(s: State, m: MutexId, q: seq<Tid>)
    requires m in s.locks && NotifiedRun(s)
    ensures SameIo(s, Unlock(s, m, q))
    decreases q
  {
    if q == [] {
      SetOwnerSameIo(s, m, None);
    } else if q[0] in s.th && s.th[q[0]].state.LockWait? {
      WakeSameIo(s, q[0], Handed, false);
      SetOwnerSameIo(WakeUp(s, q[0], Handed, false), m, Some(q[0]));
    } else {
      UnlockSameIo(s, m, q[1..]);
    }
  }

  lemma {:induction false} ExpireSameIo(s: State, order: seq<Tid>)
    requires forall t :: t in order && t in s.th ==> s.th[t].call != Poll(false)
    ensures SameIo(s, Expire(s, order))
    decreases order
  {
    if order != [] {
      if order[0] in s.th {
        var s' := WakeUp(s, order[0], Expired(s.clock), true);
        WakeSameIo(s, order[0], Expired(s.clock), true);
        ExpireSameIo(s', order[1..]);
      } else {
        ExpireSameIo(s, order[1..]);
      }
    }
  }

  lemma ClockSameIo(s: State, now: nat, order: seq<Tid>)
    requires Core(s) && ExpiryOrder(s, now, order)
    ensures SameIo(s, CheckClock(s, now, order))
  {
    forall t | t in order && t in s.th
      ensures s.th[t].call != Poll(false)
    {
      assert ThreadOk(s, t);
    }
    ExpireSameIo(s.(clock := now), order);
  }

  // ---------- events ----------

  /** The running thread is not one that has yet to return from `st_poll`. */
  lemma CallerIsFree(s: State)
    requires UserRuns(s)
    ensures s.th[s.cur.value].call != Poll(false) && SameIo(s, SetIntr(s, s.cur.value, false))
  {
  }

  lemma YieldSameIo(s: State, now: nat, order: seq<Tid>)
    requires Inv(s) && Enabled(s, YieldCall(now, order))
    ensures SameIo(s, YieldStart(s, now, order).0)
  {
    ClockSameIo(s, now, order);
    var s' := CheckClock(s, now, order);
    hide CheckClock;
    if s'.runQ != [] && UserRuns(s') {
      YieldOverSameIo(s');
      ScheduleSameIo(YieldOver(s'));
      hide YieldOver, Schedule;
    }
  }

  lemma YieldOverSameIo(s: State)
    requires UserRuns(s)
    ensures SameIo(s, YieldOver(s))
  {
  }

  lemma InterruptSameIo(s: State, t: Tid)
    requires NotifiedRun(s) && t in s.th
    ensures SameIo(s, Interrupt(s, t))
  {
    if !s.th[t].state.Zombie? && !s.th[t].state.Running? && !s.th[t].state.Runnable? {
      WakeSameIo(s, t, Interrupted, false);
    }
  }

  lemma BurySameIo(s: State)
    requires s.cur.Some? && s.cur.value in s.th && s.th[s.cur.value].call != Poll(false)
    ensures SameIo(s, Bury(s))
  {
  }

  lemma ExitSameIo(s: State)
    requires Inv(s) && UserRuns(s)
    ensures SameIo(s, ExitThread(s))
  {
    var me := s.cur.value;
    if Me(s).joinable && Term(me) in s.conds {
      var s1 := Park(s, Exit, Zombie, None);
      ParkSameIo(s, Exit, Zombie, None);
      InvNotifiedRun(s);
      assert NotifiedRun(s1);
      hide Park, Signal;
      SignalSameIo(s1, s.conds[Term(me)]);
      ScheduleSameIo(Signal(s1, s.conds[Term(me)]));
    } else {
      BurySameIo(s);
      ScheduleSameIo(Bury(s));
    }
  }

  lemma ReapSameIo(s: State, t: Tid)
    requires NotifiedRun(s) && t in s.th && s.th[t].state.Zombie?
    ensures SameIo(s, Reap(s, t).0)
  {
    WakeSameIo(s, t, Joined, false);
  }

  lemma CondWaitSameIo(s: State, c: CondId, timeout: Option<nat>)
    requires UserRuns(s) && c in s.conds
    ensures SameIo(s, SchedApi.CondWait(s, c, timeout).0)
  {
    CallerIsFree(s);
    ParkSameIo(s, Cond(c), Status.CondWait, timeout);
    hide Park, Schedule;
  }

  lemma JoinSameIo(s: State, t: Tid)
    requires Inv(s) && Enabled(s, JoinCall(t))
    ensures SameIo(s, Join(s, t).0)
  {
    InvNotifiedRun(s);
    hide Inv, Reap, SchedApi.CondWait;
    if s.th[t].state.Zombie? {
      ReapSameIo(s, t);
    }
    if s.th[t].joinable {
      CondWaitSameIo(s, Term(t), None);
    }
  }

  lemma CreateSameIo(s: State, joinable: bool, size: nat, cached: bool)
    requires Inv(s)
    ensures SameIo(s, Create(s, joinable, size, cached))
  {
    NextTidIsNew(s);
  }

  lemma LockSameIo(s: State, m: MutexId)
    requires UserRuns(s) && m in s.locks
    ensures SameIo(s, LockStart(s, m).0)
  {
    CallerIsFree(s);
    SetOwnerSameIo(s, m, s.cur);
    ParkSameIo(s, Lock(m), LockWait, None);
    hide Park, Schedule, SetOwner;
  }

  lemma UnlockBySameIo(s: State, m: MutexId)
    requires NotifiedRun(s) && m in s.locks
    ensures SameIo(s, UnlockBy(s, m).0) && SameIo(s, TryLock(s, m).0)
  {
    SetOwnerSameIo(s, m, s.cur);
    UnlockSameIo(s, m, s.locks[m].waitQ);
    hide NotifiedRun, Unlock, SetOwner;
  }

  /** No other event concerns the io queue or the notified threads. */
  ghost predicate Concerns(e: Event) {
    e.PollCall? || e.Resume? || e.IdleTurn?
  }

  lemma UsleepSameIo(s: State, timeout: Option<nat>)
    requires UserRuns(s)
    ensures SameIo(s, UsleepStart(s, timeout).0)
  {
    CallerIsFree(s);
    ParkSameIo(s, Usleep, if timeout.Some? then Sleeping else Suspended, timeout);
    hide Park, Schedule;
  }

  /** The calls that may block, but for `st_poll`. */
  lemma BlockingSameIo(s: State, e: Event, cached: bool)
    requires Inv(s) && Enabled(s, e)
    requires e.UsleepCall? || e.CondWaitCall? || e.LockCall? || e.YieldCall? || e.JoinCall? || e.ExitCall?
    ensures SameIo(s, Apply(s, e, cached).0)
  {
    hide Inv, SameIo, UsleepStart, LockStart, YieldStart, Join, ExitThread, SchedApi.CondWait, ExpiryOrder;
    match e {
      case UsleepCall(timeout) => UsleepSameIo(s, timeout);
      case CondWaitCall(c, timeout) => CondWaitSameIo(s, User(c), timeout);
      case LockCall(m) => LockSameIo(s, m);
      case YieldCall(now, order) => YieldSameIo(s, now, order);
      case JoinCall(t) => JoinSameIo(s, t);
      case _ => ExitSameIo(s);
    }
  }

  /** The calls that return at once. */
  lemma NonblockingSameIo(s: State, e: Event, cached: bool)
    requires Inv(s) && Enabled(s, e)
    requires e.SignalCall? || e.UnlockCall? || e.TryLockCall? || e.InterruptCall? || e.CreateCall?
    ensures SameIo(s, Apply(s, e, cached).0)
  {
    hide SameIo, Core, Side, NotifiedRun, Signal, Broadcast, UnlockBy, TryLock, Interrupt, Create;
    InvNotifiedRun(s);
    match e {
      case SignalCall(c, _) =>
        SignalSameIo(s, s.conds[User(c)]);
        BroadcastSameIo(s, s.conds[User(c)]);
      case UnlockCall(m) => UnlockBySameIo(s, m);
      case TryLockCall(m) => UnlockBySameIo(s, m);
      case InterruptCall(t) => InterruptSameIo(s, t);
      case CreateCall(joinable, size) => CreateSameIo(s, joinable, size, cached);
    }
  }

  lemma NewSameIo(s: State, e: Event, cached: bool)
    requires Enabled(s, e) && (e.NewCond? || e.NewMutex?)
    ensures SameIo(s, Apply(s, e, cached).0)
  {
  }

  lemma OthersSameIo(s: State, e: Event, cached: bool)
    requires Inv(s) && Enabled(s, e) && !Concerns(e)
    ensures SameIo(s, Apply(s, e, cached).0)
  {
    if e.NewCond? || e.NewMutex? {
      NewSameIo(s, e, cached);
    } else if e.SignalCall? || e.UnlockCall? || e.TryLockCall? || e.InterruptCall? || e.CreateCall? {
      NonblockingSameIo(s, e, cached);
    } else {
      BlockingSameIo(s, e, cached);
    }
    hide Inv, Enabled, SameIo, Apply;
  }

  // ---------- the three that do ----------

  /** The caller joins the io queue iff it blocks. */
  lemma PollStartIo(s: State, timeout: Option<nat>, added: bool)
    requires UserRuns(s)
    ensures var s' := PollStart(s, timeout, added).0;
      && s'.ioQ == (if added && !Me(s).intr then s.ioQ + [s.cur.value] else s.ioQ)
      && forall t: Tid :: View(s', t) == View(s, t)
  {
    CallerIsFree(s);
    if added && !Me(s).intr {
      ScheduleSameIo(Park(s, Poll(true), IoWait, timeout));
    }
  }

  lemma ReturnIo(s: State, intr: bool)
    requires CanReturn(s)
    ensures var r := Return(s, intr); var me := s.cur.value;
      && r.ioQ == (if Me(s).call == Poll(true) then Remove(s.ioQ, me) else s.ioQ)
      && (forall t: Tid :: View(r, t) == if t == me then None else View(s, t))
      && (NotifiedRun(s) ==> NotifiedRun(r)) && r.cur == s.cur && me in r.th && r.th[me].call.NoCall?
      && r.conds.Keys == s.conds.Keys
  {
  }

  /** A call that goes on leaves the io queue if it is still there, and is notified no longer. */
  lemma ResumedIo(s: State)
    requires Inv(s) && Enabled(s, Resume)
    ensures var s' := Resumed(s).0; var me := s.cur.value;
      && s'.ioQ == (if Me(s).call == Poll(true) then Remove(s.ioQ, me) else s.ioQ)
      && forall t: Tid :: View(s', t) == if t == me then None else View(s, t)
  {
    InvNotifiedRun(s);
    hide Inv, Schedule, Park, Bury, Return, Reap;
    match Me(s).call {
      case Exit =>
        BurySameIo(s);
        ScheduleSameIo(Bury(s));
      case Cond(c) =>
        ResumedCondIo(s, c);
      case _ =>
        ReturnIo(s, false);
        ReturnIo(s, Me(s).intr);
    }
  }

  lemma SameIoThen(s: State, s1: State, s2: State)
    requires SameIo(s, s1) && SameIo(s1, s2)
    ensures SameIo(s, s2)
  {
    hide View;
  }

  lemma CondIsNotNotified(s: State, c: CondId)
    requires s.cur.Some? && s.cur.value in s.th && Me(s).call == Cond(c)
    ensures View(s, s.cur.value) == None
  {
  }

  /** A thread that leaves its condition variable does not concern the io queue. */
  lemma ReturnedCondIo(s: State, c: CondId)
    requires CanReturn(s) && Me(s).call == Cond(c)
    ensures var r := Return(s, false); var me := s.cur.value;
      && SameIo(s, r) && (NotifiedRun(s) ==> NotifiedRun(r)) && r.cur == s.cur && me in r.th && r.th[me].call.NoCall?
      && r.conds.Keys == s.conds.Keys
  {
    ReturnIo(s, false);
    hide Return;
  }

  lemma ResumedCondIo(s: State, c: CondId)
    requires Inv(s) && Enabled(s, Resume) && Me(s).call == Cond(c)
    ensures SameIo(s, Resumed(s).0) && View(s, s.cur.value) == None
  {
    hide Core, Side, SameIo, View, NotifiedRun, Schedule, Park, Return, Reap;
    InvNotifiedRun(s);
    CondIsNotNotified(s, c);
    var s' := Return(s, false);
    ReturnedCondIo(s, c);
    if CondResult(Me(s)) == Ok(0) && c.Term? {
      if c.t in s'.th && s'.th[c.t].state.Zombie? {
        ReapSameIo(s', c.t);
        SameIoThen(s, s', Reap(s', c.t).0);
      } else {
        ParkSameIo(s', Cond(c), Status.CondWait, None);
        SameIoThen(s, s', Schedule(Park(s', Cond(c), Status.CondWait, None)));
      }
    }
  }

  // ---------- dispatch ----------

  /** The threads of q that are not ready, in order. */
  ghost function Unready(q: seq<Tid>, ready: map<Tid, nat>): seq<Tid> {
    if q == [] then [] else (if q[0] in ready then [] else [q[0]]) + Unready(q[1..], ready)
  }

  lemma RemoveAt(q: seq<Tid>, i: nat)
    requires NoDup(q) && i < |q|
    ensures Remove(q, q[i]) == q[..i] + q[i + 1..]
  {
    var j := IndexOf(q, q[i]);
    assert j == i;
  }

  lemma WakeReadyIo(s: State, pre: seq<Tid>, t: Tid, rest: seq<Tid>, n: nat)
    requires s.ioQ == pre + [t] + rest && NoDup(s.ioQ) && t in s.th
    ensures var s' := WakeUp(s, t, Ready(n), false);
      s'.ioQ == pre + rest && NoDup(pre + rest) && s'.th.Keys == s.th.Keys
  {
    var q := pre + [t] + rest;
    assert q[|pre|] == t && q[..|pre|] == pre && q[|pre| + 1..] == rest;
    RemoveAt(q, |pre|);
    NoDupWithout(pre, t, rest);
  }

  lemma InTurn(a: seq<Tid>, t: Tid, b: seq<Tid>)
    ensures (a + [t]) + b == a + ([t] + b)
  {
  }

  lemma UnreadyOfCons(t: Tid, q: seq<Tid>, ready: map<Tid, nat>)
    ensures Unready([t] + q, ready) == if t in ready then Unready(q, ready) else [t] + Unready(q, ready)
  {
    assert ([t] + q)[1..] == q;
    assert [] + Unready(q, ready) == Unready(q, ready);
  }

  lemma {:induction false} DispatchIoQ(s: State, pre: seq<Tid>, q: seq<Tid>, ready: map<Tid, nat>)
    requires s.ioQ == pre + q && NoDup(s.ioQ) && forall t :: t in q ==> t in s.th
    ensures Dispatch(s, q, ready).ioQ == pre + Unready(q, ready)
    decreases q
  {
    if q == [] {
      assert pre + [] == pre;
    } else {
      hide NoDup, WakeUp, Unready;
      var t, rest := q[0], q[1..];
      var left := Unready(rest, ready);
      assert q == [t] + rest;
      UnreadyOfCons(t, rest, ready);
      InTurn(pre, t, rest);
      InTurn(pre, t, left);
      if t in ready {
        WakeReadyIo(s, pre, t, rest, ready[t]);
        DispatchIoQ(WakeUp(s, t, Ready(ready[t]), false), pre, rest, ready);
      } else {
        DispatchIoQ(s, pre + [t], rest, ready);
      }
    }
  }

  lemma NoDupWithout(a: seq<Tid>, t: Tid, b: seq<Tid>)
    requires NoDup(a + [t] + b)
    ensures NoDup(a + b)
  {
    var q := a + [t] + b;
    forall i, j | 0 <= i < j < |a + b|
      ensures (a + b)[i] != (a + b)[j]
    {
      assert (a + b)[i] == q[if i < |a| then i else i + 1];
      assert (a + b)[j] == q[if j < |a| then j else j + 1];
    }
  }

  /** Dispatch takes the ready threads from the io queue, and each is notified with its number. */
  lemma DispatchIo(s: State, ready: map<Tid, nat>)
    requires Core(s)
    ensures var s' := Dispatch(s, s.ioQ, ready);
      && s'.ioQ == Unready(s.ioQ, ready)
      && forall t: Tid :: View(s', t) == if t in s.ioQ && t in ready then Some(Ready(ready[t])) else View(s, t)
  {
    DispatchIoQ(s, [], s.ioQ, ready);
    assert [] + s.ioQ == s.ioQ && [] + Unready(s.ioQ, ready) == Unready(s.ioQ, ready);
    var s' := Dispatch(s, s.ioQ, ready);
    DispatchKeys(s, s.ioQ, ready);
    forall t: Tid
      ensures View(s', t) == if t in s.ioQ && t in ready then Some(Ready(ready[t])) else View(s, t)
    {
      if t in s.th {
        DispatchThread(s, s.ioQ, ready, t);
      }
    }
  }

  lemma {:induction false} DispatchKeys(s: State, q: seq<Tid>, ready: map<Tid, nat>)
    ensures Dispatch(s, q, ready).th.Keys == s.th.Keys
    decreases q
  {
    if q != [] {
      DispatchKeys(if q[0] in ready && q[0] in s.th then WakeUp(s, q[0], Ready(ready[q[0]]), false) else s, q[1..], ready);
    }
  }

  /** One turn of the idle thread does to the io queue what dispatch does. */
  lemma IdleIo(s: State, ready: map<Tid, nat>, now: nat, order: seq<Tid>)
    requires Inv(s) && Enabled(s, IdleTurn(ready, now, order))
    ensures SameIo(Dispatch(s, s.ioQ, ready), Idle(s, ready, now, order))
  {
    forall t | t in s.ioQ
      ensures t in s.th && s.th[t].state.IoWait? && s.th[t].wake.Waiting?
    {
      IdleSeesOnlyWaiters(s, t);
    }
    DispatchKeeps(s, s.ioQ, ready);
    hide Inv, Core, Side, Dispatch;
    var d := Dispatch(s, s.ioQ, ready);
    ClockSameIo(d, now, order);
    IdleStepSameIo(CheckClock(d, now, order));
    hide CheckClock, ExpiryOrder;
  }

  lemma IdleStepSameIo(s: State)
    ensures SameIo(s, if s.idle in s.th then Schedule(IdleYield(s)) else s)
  {
    if s.idle in s.th {
      ScheduleSameIo(IdleYield(s));
    }
  }
}
