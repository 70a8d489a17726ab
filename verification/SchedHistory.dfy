/** What can end a wait, and what can change the owner of a mutex, in one event of a run. */
module SchedHistory {
  import opened Options
  import opened SchedState
  import opened SchedApi
  import opened SchedInv
  import opened SchedRuns
  import opened SchedSteps
  import opened SchedTheorems

  // ---------- dispatch ----------

  ghost function Notified(s: State, t: Tid, ready: map<Tid, nat>): Thread
    requires t in s.th && t in ready
  {
    s.th[t].(state := Runnable, onSleepQ := false, wake := Ready(ready[t]), call := Poll(false))
  }

  lemma {:induction false} DispatchThread(s: State, q: seq<Tid>, ready: map<Tid, nat>, t: Tid)
    requires NoDup(q) && (forall u :: u in q ==> u in s.th) && t in s.th
    ensures t in Dispatch(s, q, ready).th
    ensures Dispatch(s, q, ready).th[t] == if t in q && t in ready then Notified(s, t, ready) else s.th[t]
    ensures t in Dispatch(s, q, ready).sleepQ <==> t in s.sleepQ && !(t in q && t in ready)
    decreases q
  {
    if q != [] {
      if q[0] in ready {
        DispatchThread(WakeUp(s, q[0], Ready(ready[q[0]]), false), q[1..], ready, t);
      } else {
        DispatchThread(s, q[1..], ready, t);
      }
    }
  }

  /** Dispatch in the idle thread makes runnable exactly the threads with ready descriptors
      among those still in IO_WAIT: none that already timed out or was interrupted. */
  lemma DispatchNotifies(s: State, ready: map<Tid, nat>, t: Tid)
    requires Inv(s) && s.cur == Some(s.idle) && t in s.th
    ensures var s' := Dispatch(s, s.ioQ, ready);
      && t in s'.th
      && (s.th[t].state.IoWait? && t in ready ==> s'.th[t] == Notified(s, t, ready))
      && (!(s.th[t].state.IoWait? && t in ready) ==> s'.th[t] == s.th[t])
  {
    if t in s.ioQ {
      IdleSeesOnlyWaiters(s, t);
    }
    assert ThreadOk(s, t);
    DispatchThread(s, s.ioQ, ready, t);
  }

  // ---------- causes ----------

  /** The event e at s can end the wait of t with this wake-up. */
  ghost predicate Cause(s: State, e: Event, t: Tid, wake: Wake)
    requires Enabled(s, e) && t in s.th
  {
    match wake
    case Waiting => true
    case Ready(n) => e.IdleTurn? && s.th[t].call == Poll(true) && t in e.ready && n == e.ready[t]
    case Expired(at) => (e.YieldCall? || e.IdleTurn?) && t in s.sleepQ && s.th[t].due <= e.now == at
    case Interrupted => e == InterruptCall(t)
    case Signalled =>
      || (e.SignalCall? && s.th[t].call == Cond(User(e.c)))
      || (e.ExitCall? && s.th[t].call == Cond(Term(s.cur.value)))
    case Handed => e.UnlockCall? && s.th[t].call == Lock(e.m) && s.locks[e.m].owner == s.cur
    case Joined => e == JoinCall(t) || (e.Resume? && Me(s).call == Cond(Term(t)))
    case Nothing => false
  }

  lemma ScheduleThread(s: State, t: Tid)
    requires t in s.th
    ensures t in Schedule(s).th && Schedule(s).th[t].wake == s.th[t].wake
  {
  }

  lemma WaiterIsNotMe(s: State, t: Tid)
    requires Core(s) && s.cur.Some? && t in s.th && s.th[t].wake.Waiting?
    ensures s.cur != Some(t) && !s.th[t].state.Runnable? && !s.th[t].state.Running?
  {
    assert ThreadOk(s, t);
  }

  lemma IdleTurnCause(s: State, e: Event, cached: bool, t: Tid)
    requires Inv(s) && e.IdleTurn? && Enabled(s, e) && t in s.th && s.th[t].wake.Waiting?
    ensures t in Apply(s, e, cached).0.th && Cause(s, e, t, Apply(s, e, cached).0.th[t].wake)
  {
    var s1 := Dispatch(s, s.ioQ, e.ready);
    WaiterIsNotMe(s, t);
    assert ThreadOk(s, t);
    DispatchThread(s, s.ioQ, e.ready, t);
    ExpireThread(s1.(clock := e.now), e.order, t);
    var s2 := CheckClock(s1, e.now, e.order);
    IdleStep(s2, t);
  }

  lemma IdleStep(s: State, t: Tid)
    requires t in s.th
    ensures var s' := if s.idle in s.th then Schedule(IdleYield(s)) else s; t in s'.th && s'.th[t].wake == s.th[t].wake
  {
    if s.idle in s.th {
      ScheduleThread(IdleYield(s), t);
    }
  }

  lemma YieldWake(s: State, e: Event, cached: bool, t: Tid)
    requires e.YieldCall? && Enabled(s, e) && t in CheckClock(s, e.now, e.order).th
    ensures t in Apply(s, e, cached).0.th
    ensures Apply(s, e, cached).0.th[t].wake == CheckClock(s, e.now, e.order).th[t].wake
  {
  }

  lemma ExpiryCause(s: State, e: Event, t: Tid)
    requires Inv(s) && e.YieldCall? && Enabled(s, e) && t in s.th && s.th[t].wake.Waiting?
    ensures t in CheckClock(s, e.now, e.order).th && Cause(s, e, t, CheckClock(s, e.now, e.order).th[t].wake)
  {
    ExpireThread(s.(clock := e.now), e.order, t);
  }

  lemma YieldCause(s: State, e: Event, cached: bool, t: Tid)
    requires Inv(s) && e.YieldCall? && Enabled(s, e) && t in s.th && s.th[t].wake.Waiting?
    ensures t in Apply(s, e, cached).0.th && Cause(s, e, t, Apply(s, e, cached).0.th[t].wake)
  {
    ExpiryCause(s, e, t);
    YieldWake(s, e, cached, t);
    hide Inv, Apply, CheckClock, Cause;
  }

  lemma SignalCause(s: State, e: Event, cached: bool, t: Tid)
    requires Inv(s) && e.SignalCall? && Enabled(s, e) && t in s.th && s.th[t].wake.Waiting?
    ensures t in Apply(s, e, cached).0.th && Cause(s, e, t, Apply(s, e, cached).0.th[t].wake)
  {
    var q := s.conds[User(e.c)];
    assert InOrder(s, q) && NoDup(q) && ThreadOk(s, t);
    if e.broadcast {
      BroadcastThread(s, q, t);
    } else {
      SignalThread(s, q, t);
    }
  }

  lemma {:induction false} SignalThread(s: State, q: seq<Tid>, t: Tid)
    requires t in s.th
    ensures t in Signal(s, q).th
    ensures Signal(s, q).th[t] == s.th[t] || (Signal(s, q).th[t] == Signalling(s, t, true) && t in q
        && s.th[t].state.CondWait?)
    decreases q
  {
    if q != [] {
      SignalThread(s, q[1..], t);
    }
  }

  lemma {:induction false} UnlockThread(s: State, m: MutexId, q: seq<Tid>, t: Tid)
    requires t in s.th && m in s.locks
    ensures t in Unlock(s, m, q).th
    ensures Unlock(s, m, q).th[t].wake == s.th[t].wake || (Unlock(s, m, q).th[t].wake == Handed && t in q)
    decreases q
  {
    if q != [] {
      UnlockThread(s, m, q[1..], t);
    }
  }

  lemma UnlockCause(s: State, e: Event, cached: bool, t: Tid)
    requires Inv(s) && e.UnlockCall? && Enabled(s, e) && t in s.th && s.th[t].wake.Waiting?
    ensures t in Apply(s, e, cached).0.th && Cause(s, e, t, Apply(s, e, cached).0.th[t].wake)
  {
    assert ThreadOk(s, t);
    UnlockThread(s, e.m, s.locks[e.m].waitQ, t);
  }

  lemma ExitCause(s: State, e: Event, cached: bool, t: Tid)
    requires Inv(s) && e.ExitCall? && Enabled(s, e) && t in s.th && s.th[t].wake.Waiting?
    ensures t in Apply(s, e, cached).0.th && Cause(s, e, t, Apply(s, e, cached).0.th[t].wake)
  {
    WaiterIsNotMe(s, t);
    assert ThreadOk(s, t);
    var me := s.cur.value;
    if Me(s).joinable && Term(me) in s.conds {
      var s1 := Park(s, Exit, Zombie, None);
      SignalThread(s1, s.conds[Term(me)], t);
      ScheduleThread(Signal(s1, s.conds[Term(me)]), t);
    } else {
      ScheduleThread(Bury(s), t);
    }
  }

  lemma ReturnWake(s: State, intr: bool, t: Tid)
    requires CanReturn(s) && s.cur != Some(t) && t in s.th
    ensures var r := Return(s, intr);
      r.th.Keys == s.th.Keys && r.th[t].wake == s.th[t].wake && r.cur == s.cur && forall c :: c in s.conds ==> c in r.conds
  {
  }

  lemma JoinOnWake(s: State, c: CondId, t: Tid)
    requires s.cur.Some? && s.cur.value in s.th && s.cur != Some(t) && c.Term? && c in s.conds && t in s.th
    ensures c.t in s.th ==> var r := Reap(s, c.t).0;
      t in r.th && r.th[t].wake == if t == c.t then Joined else s.th[t].wake
    ensures var r := Schedule(Park(s, Cond(c), Status.CondWait, None)); t in r.th && r.th[t].wake == s.th[t].wake
  {
  }

  lemma ResumedWake(s: State, t: Tid)
    requires CanReturn(s) && s.cur != Some(t) && t in s.th && !Me(s).call.Exit?
    ensures t in Resumed(s).0.th
    ensures Resumed(s).0.th[t].wake == s.th[t].wake || (Resumed(s).0.th[t].wake == Joined && Me(s).call == Cond(Term(t)))
  {
    hide Return, Schedule, Park, Reap;
    ReturnWake(s, false, t);
    ReturnWake(s, Me(s).intr, t);
    if Me(s).call.Cond? {
      var c := Me(s).call.c;
      if CondResult(Me(s)) == Ok(0) && c.Term? {
        JoinOnWake(Return(s, false), c, t);
      }
    }
  }

  lemma ResumeCause(s: State, e: Event, cached: bool, t: Tid)
    requires Inv(s) && e.Resume? && Enabled(s, e) && t in s.th && s.th[t].wake.Waiting?
    ensures t in Apply(s, e, cached).0.th && Cause(s, e, t, Apply(s, e, cached).0.th[t].wake)
  {
    hide Core, Side, Resumed, Schedule;
    WaiterIsNotMe(s, t);
    if Me(s).call.Exit? {
      ExitedWake(s, t);
    } else {
      ResumedWake(s, t);
    }
  }

  lemma ExitedWake(s: State, t: Tid)
    requires CanReturn(s) && s.cur != Some(t) && t in s.th && Me(s).call.Exit?
    ensures t in Resumed(s).0.th && Resumed(s).0.th[t].wake == s.th[t].wake
  {
    ScheduleThread(Bury(s), t);
  }

  lemma JoinWake(s: State, u: Tid, t: Tid)
    requires Enabled(s, JoinCall(u)) && t in s.th && s.cur != Some(t) && !s.th[t].state.Runnable?
    ensures t in Join(s, u).0.th
    ensures Join(s, u).0.th[t].wake == s.th[t].wake || (Join(s, u).0.th[t].wake == Joined && t == u)
  {
  }

  lemma JoinCause(s: State, e: Event, cached: bool, t: Tid)
    requires Inv(s) && e.JoinCall? && Enabled(s, e) && t in s.th && s.th[t].wake.Waiting?
    ensures t in Apply(s, e, cached).0.th && Cause(s, e, t, Apply(s, e, cached).0.th[t].wake)
  {
    hide Core, Side, Join;
    WaiterIsNotMe(s, t);
    JoinWake(s, e.t, t);
  }

  lemma CreateCause(s: State, e: Event, cached: bool, t: Tid)
    requires Inv(s) && e.CreateCall? && Enabled(s, e) && t in s.th && s.th[t].wake.Waiting?
    ensures t in Apply(s, e, cached).0.th && Cause(s, e, t, Apply(s, e, cached).0.th[t].wake)
  {
    NextTidIsNew(s);
  }

  lemma ParkWake(s: State, call: Call, state: Status, timeout: Option<nat>, t: Tid)
    requires UserRuns(s) && (call.Cond? ==> call.c in s.conds) && (call.Lock? ==> call.m in s.locks)
    requires t in s.th && s.cur != Some(t)
    ensures t in Schedule(Park(s, call, state, timeout)).th
    ensures Schedule(Park(s, call, state, timeout)).th[t].wake == s.th[t].wake
  {
  }

  lemma BlockingCause(s: State, e: Event, cached: bool, t: Tid)
    requires Enabled(s, e) && t in s.th && s.th[t].wake.Waiting? && s.cur != Some(t)
    requires e.PollCall? || e.UsleepCall? || e.CondWaitCall? || e.LockCall?
    ensures t in Apply(s, e, cached).0.th && Cause(s, e, t, Apply(s, e, cached).0.th[t].wake)
  {
    hide Schedule, Park;
    match e {
      case PollCall(timeout, _) => ParkWake(s, Poll(true), IoWait, timeout, t);
      case UsleepCall(timeout) => ParkWake(s, Usleep, if timeout.Some? then Sleeping else Suspended, timeout, t);
      case CondWaitCall(c, timeout) => ParkWake(s, Cond(User(c)), Status.CondWait, timeout, t);
      case LockCall(m) => ParkWake(s, Lock(m), LockWait, None, t);
      case _ =>
    }
  }

  lemma SimpleCause(s: State, e: Event, cached: bool, t: Tid)
    requires Enabled(s, e) && t in s.th && s.th[t].wake.Waiting? && s.cur != Some(t)
    requires e.InterruptCall? || e.TryLockCall? || e.NewCond? || e.NewMutex?
    ensures t in Apply(s, e, cached).0.th && Cause(s, e, t, Apply(s, e, cached).0.th[t].wake)
  {
  }

  lemma CallCause(s: State, e: Event, cached: bool, t: Tid)
    requires Enabled(s, e) && t in s.th && s.th[t].wake.Waiting? && s.cur != Some(t) && !s.th[t].state.Runnable?
    requires !(e.SignalCall? || e.UnlockCall? || e.YieldCall? || e.ExitCall? || e.Resume? || e.IdleTurn?)
    requires !e.JoinCall? && !e.CreateCall?
    ensures t in Apply(s, e, cached).0.th && Cause(s, e, t, Apply(s, e, cached).0.th[t].wake)
  {
    if e.PollCall? || e.UsleepCall? || e.CondWaitCall? || e.LockCall? {
      BlockingCause(s, e, cached, t);
    } else {
      SimpleCause(s, e, cached, t);
    }
  }

  lemma WakingCause(s: State, e: Event, cached: bool, t: Tid)
    requires Inv(s) && Enabled(s, e) && t in s.th && s.th[t].wake.Waiting?
    requires e.SignalCall? || e.UnlockCall? || e.YieldCall? || e.ExitCall? || e.Resume? || e.IdleTurn?
    ensures t in Apply(s, e, cached).0.th && Cause(s, e, t, Apply(s, e, cached).0.th[t].wake)
  {
    hide Inv, Apply, Cause, Enabled;
    match e {
      case SignalCall(_, _) => SignalCause(s, e, cached, t);
      case UnlockCall(_) => UnlockCause(s, e, cached, t);
      case YieldCall(_, _) => YieldCause(s, e, cached, t);
      case ExitCall => ExitCause(s, e, cached, t);
      case Resume => ResumeCause(s, e, cached, t);
      case IdleTurn(_, _, _) => IdleTurnCause(s, e, cached, t);
      case _ =>
    }
  }

  /** A waiting thread is woken only by what it waits for: the record of wake-ups, which decides
      what the calls return, is a faithful history. */
  lemma WakeHasCause(s: State, e: Event, cached: bool, t: Tid)
    requires Inv(s) && Enabled(s, e) && t in s.th && s.th[t].wake.Waiting?
    ensures t in Apply(s, e, cached).0.th && Cause(s, e, t, Apply(s, e, cached).0.th[t].wake)
  {
    if e.SignalCall? || e.UnlockCall? || e.YieldCall? || e.ExitCall? || e.Resume? || e.IdleTurn? {
      WakingCause(s, e, cached, t);
    } else if e.JoinCall? {
      JoinCause(s, e, cached, t);
    } else if e.CreateCall? {
      CreateCause(s, e, cached, t);
    } else {
      WaiterIsNotMe(s, t);
      CallCause(s, e, cached, t);
    }
  }

  // ---------- owners ----------

  ghost function Owners(s: State, m: MutexId): Option<Tid> {
    if m in s.locks then s.locks[m].owner else None
  }

  lemma {:induction false} SignalOwners(s: State, q: seq<Tid>, m: MutexId)
    ensures Owners(Signal(s, q), m) == Owners(s, m)
    decreases q
  {
    if q != [] {
      SignalOwners(s, q[1..], m);
    }
  }

  lemma {:induction false} BroadcastOwners(s: State, q: seq<Tid>, m: MutexId)
    ensures Owners(Broadcast(s, q), m) == Owners(s, m)
    decreases q
  {
    if q != [] {
      BroadcastOwners(if q[0] in s.th && s.th[q[0]].state.CondWait? then WakeUp(s, q[0], Signalled, false)
          else s, q[1..], m);
    }
  }

  lemma {:induction false} ExpireOwners(s: State, order: seq<Tid>, m: MutexId)
    ensures Owners(Expire(s, order), m) == Owners(s, m)
    decreases order
  {
    if order != [] {
      ExpireOwners(if order[0] in s.th then WakeUp(s, order[0], Expired(s.clock), true) else s, order[1..], m);
    }
  }

  lemma {:induction false} DispatchOwners(s: State, q: seq<Tid>, ready: map<Tid, nat>, m: MutexId)
    ensures Owners(Dispatch(s, q, ready), m) == Owners(s, m)
    decreases q
  {
    if q != [] {
      DispatchOwners(if q[0] in ready && q[0] in s.th then WakeUp(s, q[0], Ready(ready[q[0]]), false)
          else s, q[1..], ready, m);
    }
  }

  lemma {:induction false} UnlockOwners(s: State, k: MutexId, q: seq<Tid>, m: MutexId)
    requires k in s.locks && k != m
    ensures Owners(Unlock(s, k, q), m) == Owners(s, m)
    decreases q
  {
    if q != [] {
      UnlockOwners(s, k, q[1..], m);
    }
  }

  lemma ClockOwners(s: State, now: nat, order: seq<Tid>, m: MutexId)
    ensures Owners(CheckClock(s, now, order), m) == Owners(s, m)
  {
    ExpireOwners(s.(clock := now), order, m);
  }

  /** The owner of a mutex changes only when its owner unlocks it, or when it is free and
      the running thread takes it. */
  ghost predicate MayChangeOwner(s: State, e: Event, m: MutexId)
    requires Enabled(s, e)
  {
    || (e == UnlockCall(m) && Owners(s, m) == s.cur)
    || (e == LockCall(m) && Owners(s, m) == None && !Me(s).intr)
    || (e == TryLockCall(m) && Owners(s, m) == None)
  }

  /** The events that only move threads about. */
  lemma OwnersStay(s: State, e: Event, cached: bool, m: MutexId)
    requires Enabled(s, e) && (e.SignalCall? || e.YieldCall? || e.IdleTurn? || e.ExitCall? || e.Resume? || e.JoinCall?)
    ensures Owners(Apply(s, e, cached).0, m) == Owners(s, m)
  {
    match e {
      case SignalCall(c, _) =>
        SignalOwners(s, s.conds[User(c)], m);
        BroadcastOwners(s, s.conds[User(c)], m);
      case YieldCall(now, order) => ClockOwners(s, now, order, m);
      case IdleTurn(ready, now, order) =>
        DispatchOwners(s, s.ioQ, ready, m);
        ClockOwners(Dispatch(s, s.ioQ, ready), now, order, m);
      case ExitCall =>
        if Me(s).joinable && Term(s.cur.value) in s.conds {
          SignalOwners(Park(s, Exit, Zombie, None), s.conds[Term(s.cur.value)], m);
        }
      case Resume => ResumeOwners(s, m);
      case JoinCall(t) => JoinOwners(s, t, m);
      case _ =>
    }
  }

  lemma OwnerOnlyByLocking(s: State, e: Event, cached: bool, m: MutexId)
    requires Enabled(s, e)
    ensures Owners(Apply(s, e, cached).0, m) != Owners(s, m) ==> MayChangeOwner(s, e, m)
    ensures MayChangeOwner(s, e, m) && !e.UnlockCall? ==> Owners(Apply(s, e, cached).0, m) == s.cur
  {
    if e.SignalCall? || e.YieldCall? || e.IdleTurn? || e.ExitCall? || e.Resume? || e.JoinCall? {
      hide Apply;
      OwnersStay(s, e, cached, m);
    } else if e.UnlockCall? && e.m != m {
      UnlockOwners(s, e.m, s.locks[e.m].waitQ, m);
    }
  }

  lemma JoinOwners(s: State, t: Tid, m: MutexId)
    requires Enabled(s, JoinCall(t))
    ensures Owners(Join(s, t).0, m) == Owners(s, m)
  {
  }

  lemma ReturnOwners(s: State, intr: bool, m: MutexId)
    requires CanReturn(s)
    ensures var r := Return(s, intr);
      Owners(r, m) == Owners(s, m) && r.cur == s.cur && s.cur.value in r.th
      && forall c :: c in s.conds ==> c in r.conds
  {
  }

  /** Burying the running thread and scheduling the next change no owner. */
  lemma StepOwners(s: State, b: State, m: MutexId)
    requires s.cur.Some? && s.cur.value in s.th && b == Bury(s)
    ensures Owners(Schedule(b), m) == Owners(s, m)
  {
  }

  lemma JoinOnOwners(s: State, c: CondId, m: MutexId)
    requires s.cur.Some? && s.cur.value in s.th && c.Term? && c in s.conds
    ensures c.t in s.th ==> Owners(Reap(s, c.t).0, m) == Owners(s, m)
    ensures Owners(Schedule(Park(s, Cond(c), Status.CondWait, None)), m) == Owners(s, m)
  {
  }

  lemma ResumeOwners(s: State, m: MutexId)
    requires Enabled(s, Resume)
    ensures Owners(Resumed(s).0, m) == Owners(s, m)
  {
    hide Return, Schedule, Park, Bury, Reap;
    ReturnOwners(s, false, m);
    ReturnOwners(s, Me(s).intr, m);
    match Me(s).call {
      case Exit =>
        StepOwners(s, Bury(s), m);
      case Cond(c) =>
        if CondResult(Me(s)) == Ok(0) && c.Term? {
          JoinOnOwners(Return(s, false), c, m);
        }
      case _ =>
    }
  }
}
