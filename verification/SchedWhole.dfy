/** Every state of every run satisfies the invariant. */
module SchedWhole {
  import opened Options
  import opened SchedState
  import opened SchedApi
  import opened SchedInv
  import opened SchedRuns
  import opened SchedSteps

  // ---------- joining ----------

  ghost predicate NoJoiner(s: State, t: Tid) {
    forall u :: u in s.th ==> s.th[u].call != Cond(Term(t))
  }

  lemma ReapInv(s: State, t: Tid)
    requires Inv(s) && s.cur != Some(s.idle) && IsZombie(s, t) && NoJoiner(s, t)
    ensures Inv(Reap(s, t).0)
  {
    assert ThreadOk(s, t);
    WakeUpKeepsCore(s, t, Joined, false);
    WakeUpKeepsSide(s, t, Joined, false);
  }

  lemma NobodyOnEmpty(s: State, t: Tid)
    requires Core(s) && Term(t) in s.conds && s.conds[Term(t)] == []
    ensures NoJoiner(s, t)
  {
    forall u | u in s.th
      ensures s.th[u].call != Cond(Term(t))
    {
      assert ThreadOk(s, u);
    }
  }

  lemma JoinWaitInv(s: State, t: Tid)
    requires Inv(s) && UserRuns(s) && !Me(s).intr
    requires Term(t) in s.conds && s.conds[Term(t)] == [] && !IsZombie(s, t)
    ensures Inv(Schedule(Park(s, Cond(Term(t)), Status.CondWait, None)))
  {
    RunningMe(s);
    ParkKeepsCore(s, Cond(Term(t)), Status.CondWait, None);
    ParkKeepsSide(s, Cond(Term(t)), Status.CondWait, None);
    ScheduleInv(Park(s, Cond(Term(t)), Status.CondWait, None));
  }

  lemma JoinInv(s: State, t: Tid)
    requires Inv(s) && Enabled(s, JoinCall(t))
    ensures Inv(Join(s, t).0)
  {
    if s.th[t].joinable && t != s.cur.value && s.conds[Term(t)] == [] {
      if s.th[t].state.Zombie? {
        NobodyOnEmpty(s, t);
        ReapInv(s, t);
      } else if Me(s).intr {
        SetIntrInv(s, s.cur.value, false);
      } else {
        JoinWaitInv(s, t);
      }
    }
  }

  // ---------- the second halves ----------

  lemma ReturnInv(s: State, intr: bool)
    requires Inv(s) && s.cur != Some(s.idle) && CanReturn(s) && !Me(s).call.Exit?
    ensures Inv(Return(s, intr)) && Return(s, intr).cur != Some(s.idle)
  {
    ReturnKeepsCore(s, intr);
    ReturnKeepsSide(s, intr);
  }

  /** The test of `st_thread_join` after a successful wait: the loop ends there. */
  lemma SignalledJoinerFindsZombie(s: State)
    requires Inv(s) && CanReturn(s) && s.cur != Some(s.idle)
    requires Me(s).call.Cond? && Me(s).call.c.Term? && CondResult(Me(s)) == Ok(0)
    ensures IsZombie(s, Me(s).call.c.t) && Me(s).call.c.t != s.cur.value && IsZombie(Return(s, false), Me(s).call.c.t)
  {
    RunningMe(s);
    assert JoinerOk(s, s.cur.value);
  }

  lemma OnlyJoiner(s: State, t: Tid)
    requires Core(s) && TermsOk(s) && CanReturn(s) && Me(s).call == Cond(Term(t))
    ensures NoJoiner(Return(s, false), t)
  {
    RunningMe(s);
    var q := s.conds[Term(t)];
    assert |q| <= 1 && s.cur.value in q;
    forall u | u in s.th && u != s.cur.value
      ensures s.th[u].call != Cond(Term(t))
    {
      assert ThreadOk(s, u);
      assert u !in q;
    }
  }

  lemma ResumeJoinInv(s: State)
    requires Inv(s) && CanReturn(s) && s.cur != Some(s.idle)
    requires Me(s).call.Cond? && Me(s).call.c.Term? && CondResult(Me(s)) == Ok(0)
    ensures Inv(Resumed(s).0)
  {
    SignalledJoinerFindsZombie(s);
    OnlyJoiner(s, Me(s).call.c.t);
    ReturnInv(s, false);
    ReapInv(Return(s, false), Me(s).call.c.t);
    ResumedJoin(s);
  }

  lemma ResumedJoin(s: State)
    requires CanReturn(s) && Me(s).call.Cond? && Me(s).call.c.Term? && CondResult(Me(s)) == Ok(0)
    requires IsZombie(Return(s, false), Me(s).call.c.t)
    ensures Resumed(s) == Reap(Return(s, false), Me(s).call.c.t)
  {
  }

  lemma ResumedOther(s: State)
    requires CanReturn(s) && !Me(s).call.Exit? && !Me(s).call.NoCall? && !Me(s).call.IdleLoop?
    requires Me(s).call.Cond? && Me(s).call.c.Term? ==> CondResult(Me(s)) != Ok(0)
    ensures Resumed(s).0 == Return(s, false) || Resumed(s).0 == Return(s, Me(s).intr)
  {
  }

  lemma ResumedExit(s: State)
    requires CanReturn(s) && Me(s).call.Exit?
    ensures Resumed(s).0 == Schedule(Bury(s))
  {
  }

  lemma NotIdleLoop(s: State)
    requires Core(s) && s.cur.Some? && s.cur.value != s.idle
    ensures !Me(s).call.IdleLoop?
  {
    RunningMe(s);
  }

  lemma ResumeInv(s: State)
    requires Inv(s) && Enabled(s, Resume)
    ensures Inv(Resumed(s).0)
  {
    RunningMe(s);
    NotIdleLoop(s);
    hide Inv, ThreadOk, Resumed, Bury, Return;
    if Me(s).call.Exit? {
      ResumedExit(s);
      BuryInv(s);
    } else if Me(s).call.Cond? && Me(s).call.c.Term? && CondResult(Me(s)) == Ok(0) {
      ResumeJoinInv(s);
    } else {
      ResumedOther(s);
      ReturnInv(s, false);
      ReturnInv(s, Me(s).intr);
    }
  }

  // ---------- the other calls ----------

  lemma InterruptInv(s: State, t: Tid)
    requires Inv(s) && Enabled(s, InterruptCall(t))
    ensures Inv(Interrupt(s, t))
  {
    assert ThreadOk(s, t);
    if s.th[t].state.Running? || s.th[t].state.Runnable? {
      SetIntrInv(s, t, true);
    } else if !s.th[t].state.Zombie? {
      WakeUpKeepsCore(s, t, Interrupted, false);
      WakeUpKeepsSide(s, t, Interrupted, false);
    }
  }

  lemma SignalInv(s: State, c: nat, broadcast: bool)
    requires Inv(s) && Enabled(s, SignalCall(c, broadcast))
    ensures Inv(Apply(s, SignalCall(c, broadcast), true).0)
  {
    QueueIsOn(s, User(c));
    if broadcast {
      BroadcastKeeps(s, s.conds[User(c)], c);
      BroadcastKeepsIdle(s, s.conds[User(c)]);
    } else {
      SignalKeepsCore(s, s.conds[User(c)], User(c));
      SignalKeepsSide(s, s.conds[User(c)], User(c));
      SignalKeepsIdle(s, s.conds[User(c)]);
    }
  }

  lemma {:induction false} SignalKeepsIdle(s: State, q: seq<Tid>)
    ensures Signal(s, q).idle == s.idle
    decreases q
  {
    if q != [] {
      SignalKeepsIdle(s, q[1..]);
    }
  }

  lemma {:induction false} BroadcastKeepsIdle(s: State, q: seq<Tid>)
    ensures Broadcast(s, q).idle == s.idle
    decreases q
  {
    if q != [] {
      BroadcastKeepsIdle(if q[0] in s.th && s.th[q[0]].state.CondWait? then WakeUp(s, q[0], Signalled, false)
          else s, q[1..]);
    }
  }

  lemma LockInv(s: State, m: MutexId)
    requires Inv(s) && Enabled(s, LockCall(m)) && !Me(s).intr
    ensures Inv(Apply(s, LockCall(m), true).0)
  {
    RunningMe(s);
    if s.locks[m].owner.None? {
      SetOwnerInv(s, m, s.cur);
    } else if s.locks[m].owner != s.cur {
      ParkInv(s, Lock(m), LockWait, None);
    }
  }

  lemma {:induction false} ExpireKeepsCaller(s: State, order: seq<Tid>)
    requires Core(s) && UserRuns(s) && NoDup(order) && AllDue(s, order)
    ensures UserRuns(Expire(s, order))
    decreases order
  {
    if order != [] {
      assert ThreadOk(s, order[0]) && ThreadOk(s, s.cur.value);
      SleeperCanWake(s, order[0]);
      WakeUpKeepsCore(s, order[0], Expired(s.clock), true);
      ExpireKeepsCaller(WakeUp(s, order[0], Expired(s.clock), true), order[1..]);
    }
  }

  lemma ClockKeepsCaller(s: State, now: nat, order: seq<Tid>)
    requires Core(s) && Side(s) && UserRuns(s) && ExpiryOrder(s, now, order)
    ensures UserRuns(CheckClock(s, now, order))
  {
    ClockKeeps(s, now);
    ExpireKeepsCaller(s.(clock := now), order);
  }

  lemma YieldInv(s: State, now: nat, order: seq<Tid>)
    requires Inv(s) && Enabled(s, YieldCall(now, order))
    ensures Inv(Apply(s, YieldCall(now, order), true).0)
  {
    CheckClockKeeps(s, now, order);
    ClockKeepsCaller(s, now, order);
    var s' := CheckClock(s, now, order);
    if s'.runQ != [] {
      YieldOverInv(s');
    }
  }

  /** s' has the threads of s and perhaps a new, empty condition variable or mutex. */
  ghost predicate Extends(s: State, s': State) {
    && s'.th == s.th && s'.cur == s.cur && s'.idle == s.idle && s'.nextTid == s.nextTid && s'.tick == s.tick
    && s'.runQ == s.runQ && s'.ioQ == s.ioQ && s'.zombieQ == s.zombieQ && s'.sleepQ == s.sleepQ
    && s'.active == s.active && s'.freeStacks == s.freeStacks && s'.nextStack == s.nextStack
    && (forall c :: c in s.conds ==> c in s'.conds && s'.conds[c] == s.conds[c])
    && (forall c :: c in s'.conds && c !in s.conds ==> s'.conds[c] == [] && c.User?)
    && (forall m :: m in s.locks ==> m in s'.locks && s'.locks[m] == s.locks[m])
    && (forall m :: m in s'.locks && m !in s.locks ==> s'.locks[m] == Mutex(None, []))
  }

  lemma ExtendingKeepsThread(s: State, s': State, u: Tid)
    requires Extends(s, s') && u in s.th && ThreadOk(s, u)
    ensures ThreadOk(s', u)
  {
  }

  lemma ExtendingKeepsJoins(s: State, s': State)
    requires Extends(s, s') && JoinOk(s)
    ensures JoinOk(s')
  {
    forall u | u in s.th
      ensures JoinerOk(s', u)
    {
      assert JoinerOk(s, u);
    }
  }

  lemma ExtendingInv(s: State, s': State)
    requires Inv(s) && Extends(s, s')
    ensures Inv(s')
  {
    forall u | u in s'.th
      ensures ThreadOk(s', u)
    {
      ExtendingKeepsThread(s, s', u);
    }
    NewQueueKeepsWaiters(s, s');
    ExtendingKeepsJoins(s, s');
    SameSideKeeps(s, s');
  }

  lemma PollInv(s: State, timeout: Option<nat>)
    requires Inv(s) && UserRuns(s) && !Me(s).intr
    ensures Inv(Schedule(Park(s, Poll(true), IoWait, timeout)))
  {
    RunningMe(s);
    ParkInv(s, Poll(true), IoWait, timeout);
  }

  lemma UsleepInv(s: State, timeout: Option<nat>)
    requires Inv(s) && UserRuns(s) && !Me(s).intr
    ensures Inv(Schedule(Park(s, Usleep, if timeout.Some? then Sleeping else Suspended, timeout)))
  {
    RunningMe(s);
    ParkInv(s, Usleep, if timeout.Some? then Sleeping else Suspended, timeout);
  }

  lemma CondWaitInv(s: State, c: nat, timeout: Option<nat>)
    requires Inv(s) && UserRuns(s) && !Me(s).intr && User(c) in s.conds
    ensures Inv(Schedule(Park(s, Cond(User(c)), Status.CondWait, timeout)))
  {
    RunningMe(s);
    ParkInv(s, Cond(User(c)), Status.CondWait, timeout);
  }

  lemma BlockingCallInv(s: State, e: Event, cached: bool)
    requires Inv(s) && Enabled(s, e) && (e.PollCall? || e.UsleepCall? || e.CondWaitCall? || e.LockCall?)
    ensures Inv(Apply(s, e, cached).0)
  {
    hide Inv, SetIntr, Park, Schedule;
    if Me(s).intr {
      SetIntrInv(s, s.cur.value, false);
    } else {
      match e {
        case PollCall(timeout, added) => PollInv(s, timeout);
        case UsleepCall(timeout) => UsleepInv(s, timeout);
        case CondWaitCall(c, timeout) => CondWaitInv(s, c, timeout);
        case LockCall(m) => LockInv(s, m);
        case _ =>
      }
    }
  }

  lemma UnlockCallInv(s: State, m: MutexId)
    requires Inv(s) && Enabled(s, UnlockCall(m))
    ensures Inv(Apply(s, UnlockCall(m), true).0)
  {
    if s.locks[m].owner == s.cur {
      UnlockInv(s, m, s.locks[m].waitQ);
    }
  }

  lemma TryLockInv(s: State, m: MutexId)
    requires Inv(s) && Enabled(s, TryLockCall(m))
    ensures Inv(Apply(s, TryLockCall(m), true).0)
  {
    hide Core, Side, SetOwner;
    if s.locks[m].owner.None? {
      CallerCanOwn(s, m);
      SetOwnerInv(s, m, s.cur);
    }
  }

  lemma CallerCanOwn(s: State, m: MutexId)
    requires Core(s) && UserRuns(s) && m in s.locks && s.locks[m].owner.None?
    ensures CanOwn(s, m, s.cur)
  {
    assert MutexOk(s, m) && ThreadOk(s, s.cur.value);
  }

  /** Each event keeps the invariant. */
  lemma StepInv(s: State, e: Event, cached: bool)
    requires Inv(s) && Enabled(s, e)
    ensures Inv(Apply(s, e, cached).0)
  {
    hide Inv, Core, Side, Signal, Broadcast, UnlockBy, TryLock, YieldStart, Interrupt, Create, Join, ExitThread;
    hide Resumed, Idle, ExpiryOrder;
    match e {
      case SignalCall(c, broadcast) => SignalInv(s, c, broadcast);
      case UnlockCall(m) => UnlockCallInv(s, m);
      case TryLockCall(m) => TryLockInv(s, m);
      case YieldCall(now, order) => YieldInv(s, now, order);
      case InterruptCall(t) => InterruptInv(s, t);
      case CreateCall(joinable, size) => CreateInv(s, joinable, size, cached);
      case JoinCall(t) => JoinInv(s, t);
      case ExitCall => ExitInv(s);
      case NewCond(c) => ExtendingInv(s, Apply(s, e, cached).0);
      case NewMutex(m) => ExtendingInv(s, Apply(s, e, cached).0);
      case Resume => ResumeInv(s);
      case IdleTurn(ready, now, order) => IdleInv(s, ready, now, order);
      case _ => BlockingCallInv(s, e, cached);
    }
  }
}
