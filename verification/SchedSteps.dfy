/** Every event of a run keeps the invariant. */
module SchedSteps {
  import opened Options
  import opened SchedState
  import opened SchedApi
  import opened SchedInv
  import opened SchedRuns

  // ---------- giving up the processor ----------

  lemma NextIsRunnable(s: State)
    requires Core(s) && s.cur.None?
    ensures Next(s) in s.th && s.th[Next(s)].state.Runnable?
  {
    assert ThreadOk(s, s.idle);
    if s.runQ != [] {
      assert ThreadOk(s, s.runQ[0]);
    }
  }

  lemma ScheduleInv(s: State)
    requires Core(s) && Side(s) && s.cur.None?
    ensures Inv(Schedule(s))
  {
    NextIsRunnable(s);
    ScheduleKeepsCore(s);
    ScheduleKeepsSide(s);
  }

  lemma RunningMe(s: State)
    requires Core(s) && s.cur.Some?
    ensures ThreadOk(s, s.cur.value) && Me(s).state.Running? && !Me(s).onSleepQ
  {
    assert ThreadOk(s, s.cur.value);
  }

  lemma ParkInv(s: State, call: Call, state: Status, timeout: Option<nat>)
    requires Inv(s) && CanPark(s, call, state, timeout) && !call.Exit? && !(call.Cond? && call.c.Term?)
    ensures Inv(Schedule(Park(s, call, state, timeout)))
  {
    RunningMe(s);
    ParkKeepsCore(s, call, state, timeout);
    ParkKeepsSide(s, call, state, timeout);
    ScheduleInv(Park(s, call, state, timeout));
  }

  // ---------- flags ----------

  lemma SetIntrKeepsThread(s: State, t: Tid, intr: bool, u: Tid)
    requires t in s.th && u in s.th && ThreadOk(s, u) && ThreadOk(s, t)
    requires if intr then !Blocked(s.th[t].state) else s.th[t].call.NoCall?
    ensures ThreadOk(SetIntr(s, t, intr), u)
  {
  }

  lemma SetIntrKeepsWaiters(s: State, t: Tid, intr: bool)
    requires t in s.th && WaitersOk(s)
    ensures WaitersOk(SetIntr(s, t, intr))
  {
  }

  lemma SetIntrKeepsJoins(s: State, t: Tid, intr: bool)
    requires t in s.th && JoinOk(s)
    ensures JoinOk(SetIntr(s, t, intr))
  {
    forall u | u in s.th
      ensures JoinerOk(SetIntr(s, t, intr), u)
    {
      assert JoinerOk(s, u);
    }
  }

  lemma SetIntrKeepsCore(s: State, t: Tid, intr: bool)
    requires Core(s) && t in s.th && if intr then !Blocked(s.th[t].state) else s.th[t].call.NoCall?
    ensures Core(SetIntr(s, t, intr))
  {
    assert ThreadOk(s, t);
    forall u | u in s.th
      ensures ThreadOk(SetIntr(s, t, intr), u)
    {
      SetIntrKeepsThread(s, t, intr, u);
    }
    SetIntrKeepsWaiters(s, t, intr);
  }

  lemma SetIntrInv(s: State, t: Tid, intr: bool)
    requires Inv(s) && t in s.th && if intr then !Blocked(s.th[t].state) else s.th[t].call.NoCall?
    ensures Inv(SetIntr(s, t, intr))
  {
    hide Core, StacksOk, JoinOk, Active;
    SetIntrKeepsCore(s, t, intr);
    SetIntrKeepsJoins(s, t, intr);
    SameSideKeeps(s, SetIntr(s, t, intr));
  }

  // ---------- condition variables ----------

  /** The threads of q wait on c, if they wait at all. */
  ghost predicate AllOn(s: State, q: seq<Tid>, c: CondId) {
    forall t :: t in q && t in s.th ==> s.th[t].call == Cond(c)
  }

  lemma CondWaiterCanWake(s: State, t: Tid, c: CondId)
    requires t in s.th && ThreadOk(s, t) && s.th[t].state.CondWait? && s.th[t].call == Cond(c)
    ensures CanWake(s, t, Signalled)
  {
  }

  lemma {:induction false} SignalKeepsCore(s: State, q: seq<Tid>, c: CondId)
    requires Core(s) && AllOn(s, q, c)
    ensures Core(Signal(s, q)) && Signal(s, q).cur == s.cur
    decreases q
  {
    if q != [] {
      if q[0] in s.th && s.th[q[0]].state.CondWait? {
        assert ThreadOk(s, q[0]);
        CondWaiterCanWake(s, q[0], c);
        WakeUpKeepsCore(s, q[0], Signalled, false);
      } else {
        SignalKeepsCore(s, q[1..], c);
      }
    }
  }

  lemma {:induction false} SignalKeepsSide(s: State, q: seq<Tid>, c: CondId)
    requires Core(s) && Side(s) && AllOn(s, q, c) && (c.Term? ==> IsZombie(s, c.t))
    ensures Side(Signal(s, q))
    decreases q
  {
    if q != [] {
      if q[0] in s.th && s.th[q[0]].state.CondWait? {
        assert ThreadOk(s, q[0]);
        CondWaiterCanWake(s, q[0], c);
        WakeUpKeepsSide(s, q[0], Signalled, false);
      } else {
        SignalKeepsSide(s, q[1..], c);
      }
    }
  }

  lemma SignalOneKeeps(s: State, t: Tid, c: nat)
    requires Core(s) && Side(s) && t in s.th && s.th[t].state.CondWait? && s.th[t].call == Cond(User(c))
    ensures Core(WakeUp(s, t, Signalled, false)) && Side(WakeUp(s, t, Signalled, false))
  {
    assert ThreadOk(s, t);
    CondWaiterCanWake(s, t, User(c));
    WakeUpKeepsCore(s, t, Signalled, false);
    WakeUpKeepsSide(s, t, Signalled, false);
  }

  lemma {:induction false} BroadcastKeeps(s: State, q: seq<Tid>, c: nat)
    requires Core(s) && Side(s) && AllOn(s, q, User(c))
    ensures Core(Broadcast(s, q)) && Side(Broadcast(s, q)) && Broadcast(s, q).cur == s.cur
    decreases q
  {
    hide Core, Side;
    if q != [] {
      if q[0] in s.th && s.th[q[0]].state.CondWait? {
        SignalOneKeeps(s, q[0], c);
        BroadcastKeeps(WakeUp(s, q[0], Signalled, false), q[1..], c);
      } else {
        BroadcastKeeps(s, q[1..], c);
      }
    }
  }

  lemma QueueIsOn(s: State, c: CondId)
    requires Core(s) && c in s.conds
    ensures AllOn(s, s.conds[c], c)
  {
    forall t | t in s.conds[c] && t in s.th
      ensures s.th[t].call == Cond(c)
    {
      assert ThreadOk(s, t);
    }
  }

  // ---------- mutexes ----------

  /** The owner of m may become o: a free mutex is taken, or the owner leaves no one waiting. */
  ghost predicate CanOwn(s: State, m: MutexId, o: Option<Tid>) {
    && m in s.locks && s.cur.Some? && s.cur.value in s.th && s.th[s.cur.value].call.NoCall?
    && (s.locks[m].owner == None || s.locks[m].owner == s.cur)
    && (o == s.cur || (o == None && forall t :: t in s.locks[m].waitQ && t in s.th ==> !s.th[t].state.LockWait?))
  }

  lemma SetOwnerKeepsThread(s: State, m: MutexId, o: Option<Tid>, u: Tid)
    requires CanOwn(s, m, o) && u in s.th && ThreadOk(s, u) && ThreadOk(s, s.cur.value)
    ensures ThreadOk(SetOwner(s, m, o), u)
  {
  }

  lemma SetOwnerKeepsWaiters(s: State, m: MutexId, o: Option<Tid>)
    requires CanOwn(s, m, o) && WaitersOk(s) && ThreadOk(s, s.cur.value)
    ensures WaitersOk(SetOwner(s, m, o))
  {
    var s' := SetOwner(s, m, o);
    forall n | n in s'.locks
      ensures MutexOk(s', n)
    {
      assert MutexOk(s, n);
    }
    forall c | c in s'.conds
      ensures InOrder(s', s'.conds[c])
    {
      assert InOrder(s, s.conds[c]);
    }
  }

  lemma SetOwnerKeepsJoins(s: State, m: MutexId, o: Option<Tid>)
    requires JoinOk(s) && m in s.locks
    ensures JoinOk(SetOwner(s, m, o))
  {
    forall u | u in s.th
      ensures JoinerOk(SetOwner(s, m, o), u)
    {
      assert JoinerOk(s, u);
    }
  }

  lemma SetOwnerKeepsCore(s: State, m: MutexId, o: Option<Tid>)
    requires Core(s) && CanOwn(s, m, o)
    ensures Core(SetOwner(s, m, o))
  {
    RunningMe(s);
    forall u | u in s.th
      ensures ThreadOk(SetOwner(s, m, o), u)
    {
      SetOwnerKeepsThread(s, m, o, u);
    }
    SetOwnerKeepsWaiters(s, m, o);
  }

  lemma SetOwnerInv(s: State, m: MutexId, o: Option<Tid>)
    requires Inv(s) && CanOwn(s, m, o)
    ensures Inv(SetOwner(s, m, o))
  {
    SetOwnerKeepsCore(s, m, o);
    SetOwnerKeepsJoins(s, m, o);
    SameSideKeeps(s, SetOwner(s, m, o));
  }

  /** The running owner of m may hand it to t. */
  ghost predicate CanHand(s: State, m: MutexId, t: Tid) {
    && m in s.locks && s.cur.Some? && s.cur.value in s.th && s.th[s.cur.value].call.NoCall? && s.locks[m].owner == s.cur
    && t in s.th && t in s.locks[m].waitQ && s.th[t].state.LockWait?
  }

  lemma HandOverKeepsThread(s: State, m: MutexId, t: Tid, u: Tid)
    requires CanHand(s, m, t) && ThreadOk(s, t) && u in s.th && ThreadOk(s, u) && ThreadOk(s, s.cur.value)
    ensures ThreadOk(HandOver(s, m, t), u)
  {
  }

  lemma HandOverKeepsQueues(s: State, m: MutexId, t: Tid)
    requires CanHand(s, m, t) && ThreadOk(s, t) && QueuesOk(s)
    ensures QueuesOk(HandOver(s, m, t))
  {
    AppendKeepsNoDup(s.runQ, t);
  }

  lemma HandOverKeepsWaiters(s: State, m: MutexId, t: Tid)
    requires CanHand(s, m, t) && ThreadOk(s, t) && WaitersOk(s)
    ensures WaitersOk(HandOver(s, m, t))
  {
    var s' := HandOver(s, m, t);
    forall n | n in s'.locks
      ensures MutexOk(s', n)
    {
      assert MutexOk(s, n);
      OrderFrame(s, s', s.locks[n].waitQ);
    }
    forall c | c in s'.conds
      ensures InOrder(s', s'.conds[c])
    {
      OrderFrame(s, s', s.conds[c]);
    }
  }

  lemma HandOverKeepsJoins(s: State, m: MutexId, t: Tid)
    requires CanHand(s, m, t) && ThreadOk(s, t) && JoinOk(s)
    ensures JoinOk(HandOver(s, m, t))
  {
    var s' := HandOver(s, m, t);
    forall u | u in s'.th
      ensures JoinerOk(s', u)
    {
      assert JoinerOk(s, u);
    }
  }

  lemma HandOverKeepsCore(s: State, m: MutexId, t: Tid)
    requires Core(s) && CanHand(s, m, t)
    ensures Core(HandOver(s, m, t))
  {
    RunningMe(s);
    assert ThreadOk(s, t);
    forall u | u in s.th
      ensures ThreadOk(HandOver(s, m, t), u)
    {
      HandOverKeepsThread(s, m, t, u);
    }
    HandOverKeepsQueues(s, m, t);
    HandOverKeepsWaiters(s, m, t);
  }

  lemma HandOverKeepsSide(s: State, m: MutexId, t: Tid)
    requires Side(s) && CanHand(s, m, t) && ThreadOk(s, t)
    ensures Side(HandOver(s, m, t))
  {
    HandOverKeepsJoins(s, m, t);
    SameSideKeeps(s, HandOver(s, m, t));
  }

  lemma HandOverInv(s: State, m: MutexId, t: Tid)
    requires Inv(s) && CanHand(s, m, t) && s.cur.value != s.idle
    ensures Inv(HandOver(s, m, t))
  {
    assert ThreadOk(s, t);
    HandOverKeepsCore(s, m, t);
    HandOverKeepsSide(s, m, t);
  }

  lemma {:induction false} UnlockInv(s: State, m: MutexId, q: seq<Tid>)
    requires Inv(s) && m in s.locks && s.locks[m].owner == s.cur && UserRuns(s)
    requires forall t :: t in q ==> t in s.locks[m].waitQ
    requires forall t :: t in s.locks[m].waitQ && t !in q && t in s.th ==> !s.th[t].state.LockWait?
    ensures Inv(Unlock(s, m, q))
    decreases q
  {
    if q == [] {
      SetOwnerInv(s, m, None);
    } else if q[0] in s.th && s.th[q[0]].state.LockWait? {
      HandOverInv(s, m, q[0]);
    } else {
      UnlockInv(s, m, q[1..]);
    }
  }

  // ---------- time ----------

  lemma NewQueueKeepsWaiters(s: State, s': State)
    requires WaitersOk(s) && s'.th == s.th && s'.tick == s.tick && s'.nextTid == s.nextTid
    requires forall c :: c in s'.conds ==> s'.conds[c] == [] || (c in s.conds && s'.conds[c] == s.conds[c])
    requires forall m :: m in s'.locks ==> s'.locks[m] == Mutex(None, []) || (m in s.locks && s'.locks[m] == s.locks[m])
    ensures WaitersOk(s')
  {
    forall n | n in s'.locks
      ensures MutexOk(s', n)
    {
      if s'.locks[n] != Mutex(None, []) {
        assert MutexOk(s, n);
        OrderFrame(s, s', s.locks[n].waitQ);
      }
    }
    forall c | c in s'.conds
      ensures InOrder(s', s'.conds[c])
    {
      if s'.conds[c] != [] {
        OrderFrame(s, s', s.conds[c]);
      }
    }
  }

  lemma ClockKeepsCore(s: State, now: nat)
    requires Core(s)
    ensures Core(s.(clock := now))
  {
    var s' := s.(clock := now);
    forall u | u in s.th
      ensures ThreadOk(s', u)
    {
      assert ThreadOk(s, u);
    }
    NewQueueKeepsWaiters(s, s');
  }

  lemma ClockKeepsSide(s: State, now: nat)
    requires Side(s)
    ensures Side(s.(clock := now))
  {
    var s' := s.(clock := now);
    forall u | u in s.th
      ensures JoinerOk(s', u)
    {
      assert JoinerOk(s, u);
    }
    SameSideKeeps(s, s');
  }

  lemma ClockKeeps(s: State, now: nat)
    requires Core(s) && Side(s)
    ensures Core(s.(clock := now)) && Side(s.(clock := now))
  {
    ClockKeepsCore(s, now);
    ClockKeepsSide(s, now);
  }

  lemma SleeperCanWake(s: State, t: Tid)
    requires t in s.th && ThreadOk(s, t) && t in s.sleepQ && s.th[t].due <= s.clock
    ensures CanWake(s, t, Expired(s.clock))
  {
  }

  lemma ExpireOneKeeps(s: State, t: Tid)
    requires Core(s) && Side(s) && t in s.th && t in s.sleepQ && s.th[t].due <= s.clock
    ensures Core(WakeUp(s, t, Expired(s.clock), true)) && Side(WakeUp(s, t, Expired(s.clock), true))
  {
    assert ThreadOk(s, t);
    SleeperCanWake(s, t);
    WakeUpKeepsCore(s, t, Expired(s.clock), true);
    WakeUpKeepsSide(s, t, Expired(s.clock), true);
  }

  /** Waking the first due thread leaves the others due. */
  lemma ExpireFirst(s: State, order: seq<Tid>)
    requires order != [] && NoDup(order) && AllDue(s, order)
    ensures order[0] in s.th && order[0] in s.sleepQ && s.th[order[0]].due <= s.clock
    ensures NoDup(order[1..]) && AllDue(WakeUp(s, order[0], Expired(s.clock), true), order[1..])
    ensures Expire(s, order) == Expire(WakeUp(s, order[0], Expired(s.clock), true), order[1..])
    ensures WakeUp(s, order[0], Expired(s.clock), true).cur == s.cur
  {
    assert order[0] in order;
  }

  lemma {:induction false} ExpireKeeps(s: State, order: seq<Tid>)
    requires Core(s) && Side(s) && NoDup(order) && AllDue(s, order)
    ensures Core(Expire(s, order)) && Side(Expire(s, order)) && Expire(s, order).cur == s.cur
    decreases order
  {
    if order != [] {
      hide Core, Side, WakeUp, NoDup, AllDue, Expire;
      ExpireFirst(s, order);
      ExpireOneKeeps(s, order[0]);
      ExpireKeeps(WakeUp(s, order[0], Expired(s.clock), true), order[1..]);
    }
  }

  /** The invariant, except that threads may be runnable while the idle thread runs. */
  lemma CheckClockKeeps(s: State, now: nat, order: seq<Tid>)
    requires Core(s) && Side(s) && ExpiryOrder(s, now, order)
    ensures Core(CheckClock(s, now, order)) && Side(CheckClock(s, now, order)) && CheckClock(s, now, order).cur == s.cur
  {
    ClockKeeps(s, now);
    ExpireKeeps(s.(clock := now), order);
  }

  lemma YieldOverKeepsThread(s: State, u: Tid)
    requires UserRuns(s) && u in s.th && ThreadOk(s, u) && ThreadOk(s, s.cur.value)
    ensures ThreadOk(YieldOver(s), u)
  {
  }

  lemma YieldOverKeepsWaiters(s: State)
    requires UserRuns(s) && WaitersOk(s)
    ensures WaitersOk(YieldOver(s))
  {
  }

  lemma YieldOverKeepsCore(s: State)
    requires Core(s) && UserRuns(s)
    ensures Core(YieldOver(s))
  {
    RunningMe(s);
    forall u | u in s.th
      ensures ThreadOk(YieldOver(s), u)
    {
      YieldOverKeepsThread(s, u);
    }
    AppendKeepsNoDup(s.runQ, s.cur.value);
    YieldOverKeepsWaiters(s);
  }

  lemma YieldOverKeepsSide(s: State)
    requires Side(s) && UserRuns(s) && Me(s).state.Running?
    ensures Side(YieldOver(s))
  {
    forall u | u in s.th
      ensures JoinerOk(YieldOver(s), u)
    {
      assert JoinerOk(s, u);
    }
    SameSideKeeps(s, YieldOver(s));
  }

  lemma YieldOverInv(s: State)
    requires Core(s) && Side(s) && UserRuns(s)
    ensures Inv(Schedule(YieldOver(s)))
  {
    RunningMe(s);
    YieldOverKeepsCore(s);
    YieldOverKeepsSide(s);
    ScheduleInv(YieldOver(s));
  }

  // ---------- the idle thread ----------

  /** When the idle thread runs, every thread on the io queue still waits for its descriptors. */
  lemma IdleSeesOnlyWaiters(s: State, t: Tid)
    requires Inv(s) && s.cur == Some(s.idle) && t in s.ioQ
    ensures t in s.th && s.th[t].state.IoWait? && s.th[t].wake.Waiting?
  {
    assert ThreadOk(s, t) && ThreadOk(s, s.idle);
  }

  ghost predicate AllPolling(s: State, q: seq<Tid>) {
    forall t :: t in q ==> t in s.th && s.th[t].state.IoWait? && s.th[t].wake.Waiting?
  }

  lemma PollerCanWake(s: State, t: Tid, n: nat)
    requires t in s.th && ThreadOk(s, t) && s.th[t].state.IoWait? && s.th[t].wake.Waiting? && n >= 1
    ensures CanWake(s, t, Ready(n))
  {
  }

  lemma NotifyOneKeeps(s: State, t: Tid, n: nat)
    requires Core(s) && Side(s) && t in s.th && s.th[t].state.IoWait? && s.th[t].wake.Waiting? && n >= 1
    ensures Core(WakeUp(s, t, Ready(n), false)) && Side(WakeUp(s, t, Ready(n), false))
  {
    assert ThreadOk(s, t);
    PollerCanWake(s, t, n);
    WakeUpKeepsCore(s, t, Ready(n), false);
    WakeUpKeepsSide(s, t, Ready(n), false);
  }

  lemma {:induction false} DispatchKeeps(s: State, q: seq<Tid>, ready: map<Tid, nat>)
    requires Core(s) && Side(s) && NoDup(q) && AllPolling(s, q) && forall t :: t in ready ==> ready[t] >= 1
    ensures Core(Dispatch(s, q, ready)) && Side(Dispatch(s, q, ready)) && Dispatch(s, q, ready).cur == s.cur
    ensures Dispatch(s, q, ready).idle == s.idle
    decreases q
  {
    hide Core, Side;
    if q != [] {
      if q[0] in ready {
        NotifyOneKeeps(s, q[0], ready[q[0]]);
        DispatchKeeps(WakeUp(s, q[0], Ready(ready[q[0]]), false), q[1..], ready);
      } else {
        DispatchKeeps(s, q[1..], ready);
      }
    }
  }

  lemma IdleYieldKeepsThread(s: State, u: Tid)
    requires s.idle in s.th && s.cur == Some(s.idle) && u in s.th && ThreadOk(s, u) && ThreadOk(s, s.idle)
    ensures ThreadOk(IdleYield(s), u)
  {
  }

  lemma IdleYieldKeepsCore(s: State)
    requires Core(s) && s.cur == Some(s.idle)
    ensures Core(IdleYield(s))
  {
    assert ThreadOk(s, s.idle);
    forall u | u in s.th
      ensures ThreadOk(IdleYield(s), u)
    {
      IdleYieldKeepsThread(s, u);
    }
    IdleYieldKeepsWaiters(s);
  }

  lemma IdleYieldKeepsWaiters(s: State)
    requires s.idle in s.th && s.th[s.idle].state.Running? && WaitersOk(s)
    ensures WaitersOk(IdleYield(s))
  {
  }

  lemma IdleYieldKeepsSide(s: State)
    requires Side(s) && s.idle in s.th && s.th[s.idle].state.Running?
    ensures Side(IdleYield(s))
  {
    forall u | u in s.th
      ensures JoinerOk(IdleYield(s), u)
    {
      assert JoinerOk(s, u);
    }
    SameSideKeeps(s, IdleYield(s));
  }

  lemma IdleYieldInv(s: State)
    requires Core(s) && Side(s) && s.cur == Some(s.idle)
    ensures Inv(Schedule(IdleYield(s)))
  {
    RunningMe(s);
    IdleYieldKeepsCore(s);
    IdleYieldKeepsSide(s);
    ScheduleInv(IdleYield(s));
  }

  lemma {:induction false} ExpireKeepsIdle(s: State, order: seq<Tid>)
    ensures Expire(s, order).idle == s.idle
    decreases order
  {
    if order != [] {
      ExpireKeepsIdle(if order[0] in s.th then WakeUp(s, order[0], Expired(s.clock), true) else s, order[1..]);
    }
  }

  lemma IdleInv(s: State, ready: map<Tid, nat>, now: nat, order: seq<Tid>)
    requires Inv(s) && Enabled(s, IdleTurn(ready, now, order))
    ensures Inv(Idle(s, ready, now, order))
  {
    forall t | t in s.ioQ
      ensures t in s.th && s.th[t].state.IoWait? && s.th[t].wake.Waiting?
    {
      IdleSeesOnlyWaiters(s, t);
    }
    DispatchKeeps(s, s.ioQ, ready);
    var s1 := Dispatch(s, s.ioQ, ready);
    CheckClockKeeps(s1, now, order);
    ExpireKeepsIdle(s1.(clock := now), order);
    IdleYieldInv(CheckClock(s1, now, order));
  }

  // ---------- threads ----------

  lemma {:induction false} FitIsBigEnough(q: seq<Stack>, size: nat)
    ensures Fit(q, size).Some? ==> Fit(q, size).value < |q| && q[Fit(q, size).value].size >= size
    ensures Fit(q, size).Some? ==> forall i :: 0 <= i < Fit(q, size).value ==> q[i].size < size
    ensures Fit(q, size).None? ==> forall i :: 0 <= i < |q| ==> q[i].size < size
    decreases q
  {
    if q != [] && q[0].size < size {
      FitIsBigEnough(q[1..], size);
      assert forall i :: 0 < i < |q| ==> q[i] == q[1..][i - 1];
    }
  }

  lemma CreateKeepsThread(s: State, joinable: bool, size: nat, cached: bool, u: Tid)
    requires u in s.th && ThreadOk(s, u) && s.cur != Some(s.nextTid) && Term(s.nextTid) !in s.conds
    ensures ThreadOk(Create(s, joinable, size, cached), u)
  {
  }

  lemma NotInQueues(s: State, t: Tid)
    requires Core(s) && t !in s.th
    ensures t !in s.runQ && t !in s.ioQ && t !in s.zombieQ && t !in s.sleepQ && t != s.idle && s.cur != Some(t)
    ensures forall c :: c in s.conds ==> t !in s.conds[c]
    ensures forall m :: m in s.locks ==> t !in s.locks[m].waitQ
  {
    forall c | c in s.conds
      ensures t !in s.conds[c]
    {
      assert InOrder(s, s.conds[c]);
    }
    forall m | m in s.locks
      ensures t !in s.locks[m].waitQ
    {
      assert MutexOk(s, m);
    }
  }

  lemma NextTidIsNew(s: State)
    requires Core(s)
    ensures s.nextTid !in s.th
  {
    forall t | t in s.th
      ensures t != s.nextTid
    {
      assert ThreadOk(s, t);
    }
  }

  lemma CreateKeepsWaiters(s: State, joinable: bool, size: nat, cached: bool)
    requires WaitersOk(s) && s.nextTid !in s.th
    ensures WaitersOk(Create(s, joinable, size, cached))
  {
    var s' := Create(s, joinable, size, cached);
    forall n | n in s'.locks
      ensures MutexOk(s', n)
    {
      assert MutexOk(s, n);
      OrderFrame(s, s', s.locks[n].waitQ);
    }
    forall c | c in s'.conds
      ensures InOrder(s', s'.conds[c])
    {
      if c in s.conds && s'.conds[c] == s.conds[c] {
        OrderFrame(s, s', s.conds[c]);
      }
    }
  }

  lemma CreateKeepsCore(s: State, joinable: bool, size: nat, cached: bool)
    requires Core(s) && TermsOk(s)
    ensures Core(Create(s, joinable, size, cached))
  {
    var s' := Create(s, joinable, size, cached);
    NextTidIsNew(s);
    NotInQueues(s, s.nextTid);
    forall u | u in s'.th
      ensures ThreadOk(s', u)
    {
      if u != s.nextTid {
        CreateKeepsThread(s, joinable, size, cached, u);
      }
    }
    AppendKeepsNoDup(s.runQ, s.nextTid);
    CreateKeepsWaiters(s, joinable, size, cached);
  }

  lemma CreateKeepsJoins(s: State, joinable: bool, size: nat, cached: bool)
    requires JoinOk(s) && s.nextTid !in s.th
    ensures JoinOk(Create(s, joinable, size, cached))
  {
    var s' := Create(s, joinable, size, cached);
    forall u | u in s'.th
      ensures JoinerOk(s', u)
    {
      if u != s.nextTid {
        assert JoinerOk(s, u);
      }
    }
  }

  lemma CreateKeepsStacks(s: State, joinable: bool, size: nat, cached: bool)
    requires StacksOk(s) && s.nextTid !in s.th
    ensures StacksOk(Create(s, joinable, size, cached))
  {
    var s' := Create(s, joinable, size, cached);
    FitIsBigEnough(s.freeStacks, size);
    var id := s'.th[s.nextTid].stack.value.id;
    assert forall t: Tid, i: nat :: StackId(s', t, i) <==> if t == s.nextTid then i == id else StackId(s, t, i);
  }

  lemma CreateKeepsSide(s: State, joinable: bool, size: nat, cached: bool)
    requires Side(s) && s.nextTid !in s.th && s.idle in s.th
    ensures Side(Create(s, joinable, size, cached))
  {
    var s' := Create(s, joinable, size, cached);
    CreateKeepsJoins(s, joinable, size, cached);
    CreateKeepsStacks(s, joinable, size, cached);
    assert Active(s') == Active(s) + {s.nextTid};
  }

  lemma CreateInv(s: State, joinable: bool, size: nat, cached: bool)
    requires Inv(s) && UserRuns(s)
    ensures Inv(Create(s, joinable, size, cached))
  {
    NextTidIsNew(s);
    CreateKeepsCore(s, joinable, size, cached);
    CreateKeepsSide(s, joinable, size, cached);
  }

  // ---------- the end of a thread ----------

  ghost predicate CanDie(s: State) {
    && s.cur.Some? && s.cur.value in s.th && s.cur.value != s.idle && ThreadOk(s, s.cur.value)
    && (Me(s).call.NoCall? || Me(s).call.Exit?)
  }

  lemma BuryKeepsThread(s: State, u: Tid)
    requires CanDie(s) && u in s.th && u != s.cur.value && ThreadOk(s, u)
    ensures ThreadOk(Bury(s), u)
  {
  }

  lemma BuryKeepsWaiters(s: State)
    requires CanDie(s) && WaitersOk(s)
    ensures WaitersOk(Bury(s))
  {
    var s' := Bury(s);
    forall n | n in s'.locks
      ensures MutexOk(s', n)
    {
      assert MutexOk(s, n);
      OrderFrame(s, s', s.locks[n].waitQ);
    }
    forall c | c in s'.conds
      ensures InOrder(s', s'.conds[c])
    {
      OrderFrame(s, s', s.conds[c]);
    }
  }

  lemma BuryKeepsCore(s: State)
    requires Core(s) && CanDie(s)
    ensures Core(Bury(s))
  {
    forall u | u in s.th && u != s.cur.value
      ensures ThreadOk(Bury(s), u)
    {
      BuryKeepsThread(s, u);
    }
    BuryKeepsWaiters(s);
  }

  lemma BuryKeepsJoins(s: State)
    requires JoinOk(s) && CanDie(s)
    ensures JoinOk(Bury(s))
  {
    forall u | u in Bury(s).th
      ensures JoinerOk(Bury(s), u)
    {
      assert JoinerOk(s, u);
    }
  }

  lemma BuryKeepsStacks(s: State)
    requires StacksOk(s) && CanDie(s)
    ensures StacksOk(Bury(s))
  {
    var s' := Bury(s);
    assert forall t: Tid, id: nat :: StackId(s', t, id) <==> StackId(s, t, id) && t != s.cur.value;
    assert Me(s).stack.Some? ==> StackId(s, s.cur.value, Me(s).stack.value.id);
  }

  lemma BuryKeepsSide(s: State)
    requires Side(s) && CanDie(s)
    ensures Side(Bury(s))
  {
    BuryKeepsJoins(s);
    BuryKeepsStacks(s);
    assert Active(Bury(s)) == Active(s) - {s.cur.value};
  }

  /** The zombie me: the joins of all other threads are in order. */
  lemma ZombieKeepsJoins(s: State, u: Tid)
    requires JoinOk(s) && CanPark(s, Exit, Zombie, None) && Me(s).state.Running? && u in s.th
    ensures var s' := Park(s, Exit, Zombie, None);
      JoinerOk(s', u) || (s.th[u].call == Cond(Term(s.cur.value)) && s.th[u].wake.Waiting?)
  {
    assert JoinerOk(s, u);
  }

  lemma ZombieKeepsStacks(s: State)
    requires StacksOk(s) && s.active == |Active(s)| && CanPark(s, Exit, Zombie, None)
    ensures var s' := Park(s, Exit, Zombie, None); StacksOk(s') && s'.active == |Active(s')|
  {
    var s' := Park(s, Exit, Zombie, None);
    assert forall t: Tid, id: nat :: StackId(s', t, id) <==> StackId(s, t, id);
    assert Active(s') == Active(s) - {s.cur.value};
  }

  /** Waking w, the only thread that can wait for the end of x, puts the joins in order. */
  lemma WakeJoinerKeeps(s: State, w: Tid, x: Tid)
    requires TermsOk(s) && StacksOk(s) && s.active == |Active(s)| && IsZombie(s, x)
    requires w in s.th && s.th[w].call == Cond(Term(x)) && !IsZombie(s, w)
    requires forall u :: u in s.th && u != w ==> JoinerOk(s, u)
    ensures Side(WakeUp(s, w, Signalled, false))
  {
    var s' := WakeUp(s, w, Signalled, false);
    SameSideKeeps(s, s');
    forall u | u in s'.th
      ensures JoinerOk(s', u)
    {
      assert u != w ==> JoinerOk(s, u);
    }
  }

  lemma SignalAtMostOne(s: State, q: seq<Tid>)
    requires |q| <= 1
    ensures Signal(s, q) ==
      if q != [] && q[0] in s.th && s.th[q[0]].state.CondWait? then WakeUp(s, q[0], Signalled, false) else s
  {
    assert |q| == 1 ==> q[1..] == [];
  }

  /** Apart from a joiner that still waits, the joins are in order once me is a zombie. */
  lemma ZombieKeepsOtherJoins(s: State, u: Tid)
    requires Core(s) && JoinOk(s) && CanPark(s, Exit, Zombie, None) && Term(s.cur.value) in s.conds && u in s.th
    ensures var s' := Park(s, Exit, Zombie, None); var q := s.conds[Term(s.cur.value)];
      JoinerOk(s', u) || (q == [u] && s'.th[u].state.CondWait?)
  {
    RunningMe(s);
    assert ThreadOk(s, u);
    ZombieKeepsJoins(s, u);
  }

  /** Signalling q, which holds at most one joiner of the zombie x, puts the joins in order. */
  lemma SignalJoinerKeeps(s: State, q: seq<Tid>, x: Tid)
    requires TermsOk(s) && StacksOk(s) && s.active == |Active(s)| && IsZombie(s, x)
    requires |q| <= 1 && forall t :: t in q ==> t in s.th && s.th[t].call == Cond(Term(x))
    requires forall u :: u in s.th ==> JoinerOk(s, u) || (q == [u] && s.th[u].state.CondWait?)
    ensures Side(Signal(s, q))
  {
    SignalAtMostOne(s, q);
    if q != [] && s.th[q[0]].state.CondWait? {
      WakeJoinerKeeps(s, q[0], x);
    }
  }

  lemma ExitKeepsSide(s: State)
    requires Core(s) && Side(s) && CanPark(s, Exit, Zombie, None) && Term(s.cur.value) in s.conds
    ensures Side(Signal(Park(s, Exit, Zombie, None), s.conds[Term(s.cur.value)]))
  {
    var me := s.cur.value;
    var s' := Park(s, Exit, Zombie, None);
    var q := s.conds[Term(me)];
    ZombieKeepsStacks(s);
    forall u | u in s.th
      ensures JoinerOk(s', u) || (q == [u] && s'.th[u].state.CondWait?)
    {
      ZombieKeepsOtherJoins(s, u);
    }
    forall t | t in q
      ensures t in s'.th && s'.th[t].call == Cond(Term(me))
    {
      WaiterIsOn(s, Term(me), t);
      RunningMe(s);
    }
    SignalJoinerKeeps(s', q, me);
  }

  lemma WaiterIsOn(s: State, c: CondId, t: Tid)
    requires Core(s) && c in s.conds && t in s.conds[c]
    ensures t in s.th && s.th[t].call == Cond(c)
  {
    assert InOrder(s, s.conds[c]);
    assert ThreadOk(s, t);
  }

  lemma ExitInv(s: State)
    requires Inv(s) && UserRuns(s)
    ensures Inv(ExitThread(s))
  {
    var me := s.cur.value;
    RunningMe(s);
    if Me(s).joinable {
      var s' := Park(s, Exit, Zombie, None);
      ParkKeepsCore(s, Exit, Zombie, None);
      QueueIsOn(s', Term(me));
      SignalKeepsCore(s', s'.conds[Term(me)], Term(me));
      ExitKeepsSide(s);
      ScheduleInv(Signal(s', s.conds[Term(me)]));
    } else {
      BuryInv(s);
    }
  }

  lemma BuryInv(s: State)
    requires Inv(s) && CanDie(s)
    ensures Inv(Schedule(Bury(s)))
  {
    BuryKeepsCore(s);
    BuryKeepsSide(s);
    ScheduleInv(Bury(s));
  }
}
