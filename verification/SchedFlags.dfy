/** The interrupt flag: what `st_thread_interrupt` achieves, when a call fails with EINTR, and how long a flag lasts. */
module SchedFlags {
  import opened Options
  import opened SchedState
  import opened SchedApi
  import opened SchedInv
  import opened SchedRuns
  import opened SchedSteps
  import opened SchedTheorems
  import opened SchedSleep

  // ---------- interrupts ----------

  /** An interrupt sets the flag of every thread that has not ended; a thread that waits becomes runnable, last
      of all, and leaves the sleep queue; all else stays. */
  lemma InterruptDoes(s: State, t: Tid, cached: bool)
    requires Enabled(s, InterruptCall(t))
    ensures var (s', out) := Apply(s, InterruptCall(t), cached); var r := s.th[t];
      && out == Returns(Ok(0))
      && (r.state.Zombie? ==> s' == s)
      && (r.state.Running? || r.state.Runnable? ==> s' == s.(th := s.th[t := r.(intr := true)]))
      && (!r.state.Zombie? && !r.state.Running? && !r.state.Runnable? ==>
            s' == s.(th := s.th[t := r.(state := Runnable, onSleepQ := false, intr := true, wake := Interrupted)],
                     runQ := s.runQ + [t], sleepQ := s.sleepQ - {t}))
  {
  }

  /** A call that may wait fails with EINTR iff the flag is set when it is made, and then only clears it. */
  lemma InterruptedCall(s: State, e: Event, cached: bool)
    requires Enabled(s, e) && (e.PollCall? || e.UsleepCall? || e.CondWaitCall? || e.LockCall?)
    ensures var (s', out) := Apply(s, e, cached); var me := s.cur.value;
      && (out == Returns(EINTR) <==> s.th[me].intr)
      && (s.th[me].intr ==> s' == s.(th := s.th[me := s.th[me].(intr := false)]))
  {
    hide Park, Schedule;
  }

  /** No thread's flag changes. */
  ghost predicate SameFlags(s: State, s': State) {
    forall t :: t in s.th && t in s'.th ==> s'.th[t].intr == s.th[t].intr
  }

  /** The same, and no thread comes or goes. */
  ghost predicate SameThreadsAndFlags(s: State, s': State) {
    s'.th.Keys == s.th.Keys && SameFlags(s, s')
  }

  lemma FlagsThen(s: State, s1: State, s2: State)
    requires SameThreadsAndFlags(s, s1) && SameFlags(s1, s2)
    ensures SameFlags(s, s2)
    ensures SameThreadsAndFlags(s1, s2) ==> SameThreadsAndFlags(s, s2)
  {
  }

  lemma WakeFlags(s: State, t: Tid, why: Wake, front: bool)
    requires t in s.th && !why.Interrupted?
    ensures SameThreadsAndFlags(s, WakeUp(s, t, why, front))
  {
  }

  lemma ScheduleFlags(s: State)
    ensures SameThreadsAndFlags(s, Schedule(s))
  {
  }

  lemma ParkFlags(s: State, call: Call, state: Status, timeout: Option<nat>)
    requires s.cur.Some? && s.cur.value in s.th
    requires (call.Cond? ==> call.c in s.conds) && (call.Lock? ==> call.m in s.locks)
    ensures SameThreadsAndFlags(s, Park(s, call, state, timeout))
    ensures SameThreadsAndFlags(s, Schedule(Park(s, call, state, timeout)))
  {
    var p := Park(s, call, state, timeout);
    assert SameThreadsAndFlags(s, p);
    ScheduleFlags(p);
    hide Park, Schedule;
    FlagsThen(s, p, Schedule(p));
  }

  lemma {:induction false} SignalFlags(s: State, q: seq<Tid>)
    ensures SameThreadsAndFlags(s, Signal(s, q))
    decreases q
  {
    if q != [] {
      if CondWaits(s, q[0]) {
        WakeFlags(s, q[0], Signalled, false);
      } else {
        SignalFlags(s, q[1..]);
      }
    }
  }

  lemma {:induction false} BroadcastFlags(s: State, q: seq<Tid>)
    ensures SameThreadsAndFlags(s, Broadcast(s, q))
    decreases q
  {
    if q != [] {
      if CondWaits(s, q[0]) {
        var s1 := WakeUp(s, q[0], Signalled, false);
        WakeFlags(s, q[0], Signalled, false);
        BroadcastFlags(s1, q[1..]);
        assert Broadcast(s, q) == Broadcast(s1, q[1..]);
        hide WakeUp, Broadcast, SameThreadsAndFlags;
        FlagsTwice(s, s1, Broadcast(s, q));
      } else {
        BroadcastFlags(s, q[1..]);
      }
    }
  }

  lemma FlagsTwice(s: State, s1: State, s2: State)
    requires SameThreadsAndFlags(s, s1) && SameThreadsAndFlags(s1, s2)
    ensures SameThreadsAndFlags(s, s2) && SameFlags(s, s2)
  {
  }

  lemma SetOwnerFlags(s: State, m: MutexId, owner: Option<Tid>)
    requires m in s.locks
    ensures SameThreadsAndFlags(s, SetOwner(s, m, owner))
  {
  }

  lemma {:induction false} UnlockFlags(s: State, m: MutexId, q: seq<Tid>)
    requires m in s.locks
    ensures SameThreadsAndFlags(s, Unlock(s, m, q))
    decreases q
  {
    if q == [] {
      SetOwnerFlags(s, m, None);
    } else if q[0] in s.th && s.th[q[0]].state.LockWait? {
      var s1 := WakeUp(s, q[0], Handed, false);
      WakeFlags(s, q[0], Handed, false);
      SetOwnerFlags(s1, m, Some(q[0]));
      hide WakeUp, SetOwner, SameThreadsAndFlags;
      FlagsTwice(s, s1, SetOwner(s1, m, Some(q[0])));
    } else {
      UnlockFlags(s, m, q[1..]);
    }
  }

  lemma {:induction false} ExpireFlags(s: State, order: seq<Tid>)
    ensures SameThreadsAndFlags(s, Expire(s, order))
    decreases order
  {
    if order != [] {
      if order[0] in s.th {
        var s1 := WakeUp(s, order[0], Expired(s.clock), true);
        WakeFlags(s, order[0], Expired(s.clock), true);
        ExpireFlags(s1, order[1..]);
        assert Expire(s, order) == Expire(s1, order[1..]);
        hide WakeUp, Expire, SameThreadsAndFlags;
        FlagsTwice(s, s1, Expire(s, order));
      } else {
        ExpireFlags(s, order[1..]);
      }
    }
  }

  lemma ClockFlags(s: State, now: nat, order: seq<Tid>)
    ensures SameThreadsAndFlags(s, CheckClock(s, now, order))
  {
    ExpireFlags(s.(clock := now), order);
    hide Expire;
  }

  lemma {:induction false} DispatchFlags(s: State, q: seq<Tid>, ready: map<Tid, nat>)
    ensures SameThreadsAndFlags(s, Dispatch(s, q, ready))
    decreases q
  {
    if q != [] {
      if q[0] in ready && q[0] in s.th {
        var s1 := WakeUp(s, q[0], Ready(ready[q[0]]), false);
        WakeFlags(s, q[0], Ready(ready[q[0]]), false);
        DispatchFlags(s1, q[1..], ready);
        assert Dispatch(s, q, ready) == Dispatch(s1, q[1..], ready);
        hide WakeUp, Dispatch, SameThreadsAndFlags;
        FlagsTwice(s, s1, Dispatch(s, q, ready));
      } else {
        DispatchFlags(s, q[1..], ready);
      }
    }
  }

  lemma BuryFlags(s: State)
    requires s.cur.Some? && s.cur.value in s.th
    ensures SameFlags(s, Schedule(Bury(s)))
  {
  }

  lemma YieldFlags(s: State, now: nat, order: seq<Tid>)
    requires UserRuns(s)
    ensures SameFlags(s, YieldStart(s, now, order).0)
  {
    var c := CheckClock(s, now, order);
    ClockFlags(s, now, order);
    hide CheckClock;
    if c.runQ != [] && UserRuns(c) {
      assert SameThreadsAndFlags(c, YieldOver(c));
      ScheduleFlags(YieldOver(c));
      hide YieldOver, Schedule, SameThreadsAndFlags;
      FlagsTwice(c, YieldOver(c), Schedule(YieldOver(c)));
      FlagsTwice(s, c, Schedule(YieldOver(c)));
    }
  }

  lemma IdleFlags(s: State, ready: map<Tid, nat>, now: nat, order: seq<Tid>)
    ensures SameFlags(s, Idle(s, ready, now, order))
  {
    var d := Dispatch(s, s.ioQ, ready);
    var c := CheckClock(d, now, order);
    DispatchFlags(s, s.ioQ, ready);
    hide Dispatch;
    ClockFlags(d, now, order);
    hide CheckClock;
    FlagsTwice(s, d, c);
    if c.idle in c.th {
      assert SameThreadsAndFlags(c, IdleYield(c));
      ScheduleFlags(IdleYield(c));
      hide IdleYield, Schedule, SameThreadsAndFlags;
      FlagsTwice(c, IdleYield(c), Schedule(IdleYield(c)));
      FlagsTwice(s, c, Schedule(IdleYield(c)));
    }
  }

  lemma ExitFlags(s: State)
    requires UserRuns(s)
    ensures SameFlags(s, ExitThread(s))
  {
    var me := s.cur.value;
    if Me(s).joinable && Term(me) in s.conds {
      var p := Park(s, Exit, Zombie, None);
      ParkFlags(s, Exit, Zombie, None);
      hide Park, Signal, Schedule, SameThreadsAndFlags;
      SignalFlags(p, s.conds[Term(me)]);
      var q := Signal(p, s.conds[Term(me)]);
      ScheduleFlags(q);
      FlagsTwice(s, p, q);
      FlagsTwice(s, q, Schedule(q));
    } else {
      BuryFlags(s);
    }
  }

  /** The events that leave every flag as it is. */
  predicate FlagFree(e: Event) {
    e.SignalCall? || e.UnlockCall? || e.TryLockCall? || e.YieldCall? || e.CreateCall? || e.ExitCall? || e.NewCond?
    || e.NewMutex? || e.IdleTurn?
  }

  lemma NewFlags(s: State, e: Event, cached: bool)
    requires Inv(s) && Enabled(s, e) && (e.NewCond? || e.NewMutex? || e.CreateCall?)
    ensures SameFlags(s, Apply(s, e, cached).0)
  {
    NextTidIsNew(s);
    hide Inv, Fit;
  }

  lemma MutexFlags(s: State, m: MutexId)
    requires m in s.locks
    ensures SameFlags(s, UnlockBy(s, m).0) && SameFlags(s, TryLock(s, m).0)
  {
    UnlockFlags(s, m, s.locks[m].waitQ);
    SetOwnerFlags(s, m, s.cur);
    hide Unlock, SetOwner;
  }

  lemma FreeFlags(s: State, e: Event, cached: bool)
    requires Inv(s) && Enabled(s, e) && FlagFree(e)
    ensures SameFlags(s, Apply(s, e, cached).0)
  {
    hide Inv, Signal, Broadcast, UnlockBy, TryLock, YieldStart, Create, ExitThread, Idle, ExpiryOrder, SameFlags;
    match e {
      case SignalCall(c, broadcast) => SignalledFlags(s, s.conds[User(c)]);
      case UnlockCall(m) => MutexFlags(s, m);
      case TryLockCall(m) => MutexFlags(s, m);
      case YieldCall(now, order) => YieldFlags(s, now, order);
      case ExitCall => ExitFlags(s);
      case IdleTurn(ready, now, order) => IdleFlags(s, ready, now, order);
      case _ => NewFlags(s, e, cached);
    }
  }

  lemma SignalledFlags(s: State, q: seq<Tid>)
    ensures SameFlags(s, Signal(s, q)) && SameFlags(s, Broadcast(s, q))
  {
    SignalFlags(s, q);
    BroadcastFlags(s, q);
    hide Signal, Broadcast;
  }

  /** What is left to a flag when it is not the same: it was cleared because its thread got EINTR. */
  ghost predicate FlagsKept(s: State, s': State, out: Outcome) {
    forall t :: t in s.th && t in s'.th ==>
      s'.th[t].intr == s.th[t].intr || (s.th[t].intr && s.cur == Some(t) && out == Returns(EINTR))
  }

  lemma SameIsKept(s: State, s': State, out: Outcome)
    requires SameFlags(s, s')
    ensures FlagsKept(s, s', out)
  {
  }

  lemma ReturnedFlags(s: State, intr: bool)
    requires CanReturn(s)
    ensures Return(s, intr).th.Keys == s.th.Keys && Return(s, intr).cur == s.cur
    ensures forall t :: t in s.th ==> Return(s, intr).th[t].intr == if s.cur == Some(t) then intr else s.th[t].intr
    ensures forall c :: c in s.conds ==> c in Return(s, intr).conds
  {
  }

  lemma JoinOnFlags(s: State, c: CondId)
    requires s.cur.Some? && s.cur.value in s.th && c.Term? && c in s.conds
    ensures c.t in s.th ==> SameFlags(s, Reap(s, c.t).0)
    ensures SameFlags(s, Schedule(Park(s, Cond(c), Status.CondWait, None)))
  {
    ParkFlags(s, Cond(c), Status.CondWait, None);
    if c.t in s.th {
      WakeFlags(s, c.t, Joined, false);
    }
    hide Park, Schedule, WakeUp;
  }

  lemma CalledFlags(s: State, e: Event, cached: bool)
    requires Enabled(s, e) && (e.PollCall? || e.UsleepCall? || e.CondWaitCall? || e.LockCall?)
    ensures FlagsKept(s, Apply(s, e, cached).0, Apply(s, e, cached).1)
  {
    hide PollStart, UsleepStart, SchedApi.CondWait, LockStart, FlagsKept;
    match e {
      case PollCall(timeout, added) => PollFlags(s, timeout, added);
      case UsleepCall(timeout) => UsleepFlags(s, timeout);
      case CondWaitCall(c, timeout) => CondWaitFlags(s, User(c), timeout);
      case LockCall(m) => LockFlags(s, m);
    }
  }

  lemma PollFlags(s: State, timeout: Option<nat>, added: bool)
    requires UserRuns(s)
    ensures FlagsKept(s, PollStart(s, timeout, added).0, PollStart(s, timeout, added).1)
  {
    hide Park, Schedule;
    ParkFlags(s, Poll(true), IoWait, timeout);
  }

  lemma UsleepFlags(s: State, timeout: Option<nat>)
    requires UserRuns(s)
    ensures FlagsKept(s, UsleepStart(s, timeout).0, UsleepStart(s, timeout).1)
  {
    hide Park, Schedule;
    ParkFlags(s, Usleep, if timeout.Some? then Sleeping else Suspended, timeout);
  }

  lemma LockFlags(s: State, m: MutexId)
    requires UserRuns(s) && m in s.locks
    ensures FlagsKept(s, LockStart(s, m).0, LockStart(s, m).1)
  {
    hide Park, Schedule, SetOwner;
    ParkFlags(s, Lock(m), LockWait, None);
    SetOwnerFlags(s, m, s.cur);
  }

  lemma CondWaitFlags(s: State, c: CondId, timeout: Option<nat>)
    requires UserRuns(s) && c in s.conds
    ensures FlagsKept(s, SchedApi.CondWait(s, c, timeout).0, SchedApi.CondWait(s, c, timeout).1)
  {
    hide Park, Schedule;
    ParkFlags(s, Cond(c), Status.CondWait, timeout);
  }

  lemma ReapFlags(s: State, t: Tid)
    requires t in s.th
    ensures SameFlags(s, Reap(s, t).0) && SameFlags(s, s)
  {
    WakeFlags(s, t, Joined, false);
    hide WakeUp;
  }

  lemma JoinedFlags(s: State, t: Tid)
    requires Enabled(s, JoinCall(t))
    ensures FlagsKept(s, Join(s, t).0, Join(s, t).1)
  {
    hide Reap, SchedApi.CondWait, FlagsKept, SameFlags;
    ReapFlags(s, t);
    SameIsKept(s, s, Join(s, t).1);
    SameIsKept(s, Reap(s, t).0, Join(s, t).1);
    if s.th[t].joinable {
      CondWaitFlags(s, Term(t), None);
    }
  }

  lemma ResumedCondFlags(s: State, c: CondId)
    requires CanReturn(s) && Me(s).call == Cond(c)
    ensures FlagsKept(s, Resumed(s).0, Resumed(s).1)
  {
    hide Return, Park, Schedule, Reap;
    ReturnedFlags(s, false);
    if CondResult(Me(s)) == Ok(0) && c.Term? {
      JoinOnFlags(Return(s, false), c);
    }
  }

  lemma ResumedFlags(s: State)
    requires Enabled(s, Resume)
    ensures FlagsKept(s, Resumed(s).0, Resumed(s).1)
  {
    hide Return, Bury, Schedule, Park, Reap;
    match Me(s).call {
      case Exit => BuryFlags(s);
      case Cond(c) => ResumedCondFlags(s, c);
      case _ =>
        ReturnedFlags(s, false);
        ReturnedFlags(s, Me(s).intr);
    }
  }

  /** The flag of a thread is cleared only when the thread itself gets EINTR, and set only by an interrupt. */
  lemma FlagLasts(s: State, e: Event, cached: bool, t: Tid)
    requires Inv(s) && Enabled(s, e) && t in s.th && t in Apply(s, e, cached).0.th
    ensures var (s', out) := Apply(s, e, cached);
      && (s.th[t].intr && !s'.th[t].intr ==> s.cur == Some(t) && out == Returns(EINTR))
      && (!s.th[t].intr && s'.th[t].intr ==> e == InterruptCall(t))
  {
    if e.InterruptCall? {
      InterruptDoes(s, e.t, cached);
      hide Inv, Apply;
    } else {
      hide Inv, Apply, SameFlags, Resumed, Join;
      var (s', out) := Apply(s, e, cached);
      if FlagFree(e) {
        FreeFlags(s, e, cached);
        SameIsKept(s, s', out);
      } else {
        OtherFlags(s, e, cached);
      }
    }
  }

  lemma OtherFlags(s: State, e: Event, cached: bool)
    requires Enabled(s, e) && !FlagFree(e) && !e.InterruptCall?
    ensures FlagsKept(s, Apply(s, e, cached).0, Apply(s, e, cached).1)
  {
    hide FlagsKept, PollStart, UsleepStart, SchedApi.CondWait, LockStart, Join, Resumed;
    match e {
      case JoinCall(t) => JoinedFlags(s, t);
      case Resume => ResumedFlags(s);
      case _ => CalledFlags(s, e, cached);
    }
  }
}
