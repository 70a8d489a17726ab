/**
 What every event of a run does to the sleeping threads: whom it takes out of the heap, whether the clock
 is checked, and whether the caller starts to sleep.
 */
module SchedSleep {
  import opened Options
  import opened SchedState
  import opened SchedApi
  import opened SchedInv
  import opened SchedRuns
  import opened SchedSteps
  import opened SchedTheorems

  // ---------- the heap operations of an event ----------

  ghost predicate CondWaits(s: State, t: Tid) {
    t in s.th && s.th[t].state.CondWait?
  }

  /** The threads of q that still wait for their condition. */
  ghost function Waiters(s: State, q: seq<Tid>): seq<Tid> {
    if q == [] then [] else (if CondWaits(s, q[0]) then [q[0]] else []) + Waiters(s, q[1..])
  }

  /** The first of them. */
  ghost function FirstWaiter(s: State, q: seq<Tid>): seq<Tid> {
    if q == [] then [] else if CondWaits(s, q[0]) then [q[0]] else FirstWaiter(s, q[1..])
  }

  /** The threads of q that dispatch wakes. */
  ghost function Notifies(s: State, q: seq<Tid>, ready: map<Tid, nat>): seq<Tid> {
    if q == [] then [] else (if q[0] in ready && q[0] in s.th then [q[0]] else []) + Notifies(s, q[1..], ready)
  }

  /** Whom the event wakes of those that may sleep. */
  ghost function Wakes(s: State, e: Event): seq<Tid>
    requires Enabled(s, e)
  {
    match e
    case SignalCall(c, broadcast) => if broadcast then Waiters(s, s.conds[User(c)]) else FirstWaiter(s, s.conds[User(c)])
    case InterruptCall(t) => if Blocked(s.th[t].state) then [t] else []
    case ExitCall =>
      if Me(s).joinable && Term(s.cur.value) in s.conds then FirstWaiter(s, s.conds[Term(s.cur.value)]) else []
    case IdleTurn(ready, _, _) => Notifies(s, s.ioQ, ready)
    case _ => []
  }

  /** The time at which the event checks the clock. */
  ghost function Checks(e: Event): Option<nat> {
    match e
    case YieldCall(now, _) => Some(now)
    case IdleTurn(_, now, _) => Some(now)
    case _ => None
  }

  /** For how long the caller starts to sleep. */
  ghost function Naps(s: State, e: Event): Option<nat>
    requires Enabled(s, e)
  {
    match e
    case PollCall(timeout, added) => if added && !Me(s).intr then timeout else None
    case UsleepCall(timeout) => if Me(s).intr then None else timeout
    case CondWaitCall(_, timeout) => if Me(s).intr then None else timeout
    case _ => None
  }

  // ---------- what they do to the sleeping threads ----------

  /** The threads of gone sleep no more; all else about the sleepers is the same. */
  ghost predicate Less(s: State, s': State, gone: set<Tid>) {
    && s'.sleepQ == s.sleepQ - gone && s'.clock == s.clock && s'.nextTid == s.nextTid
    && forall t :: t in s'.th ==> t in s.th && s'.th[t].due == s.th[t].due
  }

  lemma LessThen(s: State, s1: State, s2: State, a: set<Tid>, b: set<Tid>)
    requires Less(s, s1, a) && Less(s1, s2, b)
    ensures Less(s, s2, a + b)
  {
  }

  lemma SameThen(s: State, s1: State, s2: State)
    requires Less(s, s1, {}) && Less(s1, s2, {})
    ensures Less(s, s2, {})
  {
  }

  lemma WakeLess(s: State, t: Tid, why: Wake, front: bool)
    requires t in s.th
    ensures Less(s, WakeUp(s, t, why, front), {t}) && WakeUp(s, t, why, front).th.Keys == s.th.Keys
  {
  }

  lemma ScheduleLess(s: State)
    ensures Less(s, Schedule(s), {})
  {
  }

  lemma ReturnLess(s: State, intr: bool)
    requires CanReturn(s)
    ensures Less(s, Return(s, intr), {})
  {
  }

  lemma ParkLess(s: State, call: Call, state: Status)
    requires s.cur.Some? && s.cur.value in s.th
    requires (call.Cond? ==> call.c in s.conds) && (call.Lock? ==> call.m in s.locks)
    ensures Less(s, Park(s, call, state, None), {})
  {
  }

  lemma SetOwnerLess(s: State, m: MutexId, owner: Option<Tid>)
    requires m in s.locks
    ensures Less(s, SetOwner(s, m, owner), {})
  {
  }

  lemma BuryLess(s: State)
    requires s.cur.Some? && s.cur.value in s.th
    ensures Less(s, Bury(s), {})
  {
  }

  /** A caller that waits with a timeout sleeps from now on. */
  ghost predicate Dozes(s: State, s': State, me: Tid, timeout: Option<nat>) {
    && s'.sleepQ == (if timeout.Some? then s.sleepQ + {me} else s.sleepQ) && s'.clock == s.clock && s'.nextTid == s.nextTid
    && (forall t :: t in s'.th ==> t in s.th)
    && forall t :: t in s'.th && t in s.th ==>
      s'.th[t].due == if t == me && timeout.Some? then s.clock + timeout.value else s.th[t].due
  }

  lemma ParkNaps(s: State, call: Call, state: Status, timeout: Option<nat>)
    requires s.cur.Some? && s.cur.value in s.th
    requires (call.Cond? ==> call.c in s.conds) && (call.Lock? ==> call.m in s.locks)
    ensures Dozes(s, Schedule(Park(s, call, state, timeout)), s.cur.value, timeout)
  {
    var p := Park(s, call, state, timeout);
    assert Dozes(s, p, s.cur.value, timeout);
    ScheduleLess(p);
    hide Park, Schedule;
  }

  lemma {:induction false} SignalLess(s: State, q: seq<Tid>)
    ensures Less(s, Signal(s, q), Set(FirstWaiter(s, q))) && Signal(s, q).th.Keys == s.th.Keys
    decreases q
  {
    if q != [] {
      if CondWaits(s, q[0]) {
        WakeLess(s, q[0], Signalled, false);
        assert Set([q[0]]) == {q[0]};
      } else {
        SignalLess(s, q[1..]);
      }
    }
  }

  ghost function Set(q: seq<Tid>): set<Tid> {
    set t | t in q
  }

  lemma SetOfNone()
    ensures Set([]) == {} + {}
  {
  }

  lemma SetOfCons(t: Tid, q: seq<Tid>)
    ensures Set([t] + q) == {t} + Set(q)
  {
  }

  lemma {:induction false} WaitersAre(s: State, q: seq<Tid>, t: Tid)
    ensures t in Waiters(s, q) <==> t in q && CondWaits(s, t)
  {
    if q != [] {
      WaitersAre(s, q[1..], t);
    }
  }

  lemma {:induction false} NotifiesAre(s: State, q: seq<Tid>, ready: map<Tid, nat>, t: Tid)
    ensures t in Notifies(s, q, ready) <==> t in q && t in ready && t in s.th
  {
    if q != [] {
      NotifiesAre(s, q[1..], ready, t);
    }
  }

  /** Those who wait after one of them was woken are the others. */
  lemma WaitersAfterWake(s: State, q: seq<Tid>, why: Wake)
    requires q != [] && CondWaits(s, q[0])
    ensures {q[0]} + Set(Waiters(WakeUp(s, q[0], why, false), q[1..])) == Set(Waiters(s, q))
  {
    var s' := WakeUp(s, q[0], why, false);
    forall t: Tid
      ensures t in Waiters(s', q[1..]) <==> t in q[1..] && CondWaits(s', t)
      ensures t in Waiters(s, q) <==> t in q && CondWaits(s, t)
      ensures CondWaits(s', t) <==> CondWaits(s, t) && t != q[0]
    {
      WaitersAre(s', q[1..], t);
      WaitersAre(s, q, t);
    }
    hide WakeUp, Waiters, CondWaits;
    assert forall t :: t in q <==> t == q[0] || t in q[1..];
  }

  lemma {:induction false} BroadcastLess(s: State, q: seq<Tid>)
    ensures Less(s, Broadcast(s, q), Set(Waiters(s, q)))
    decreases q
  {
    if q != [] {
      if CondWaits(s, q[0]) {
        var s' := WakeUp(s, q[0], Signalled, false);
        WakeLess(s, q[0], Signalled, false);
        WaitersAfterWake(s, q, Signalled);
        BroadcastLess(s', q[1..]);
        assert Broadcast(s, q) == Broadcast(s', q[1..]);
        hide WakeUp, Broadcast, Waiters, Less;
        LessThen(s, s', Broadcast(s, q), {q[0]}, Set(Waiters(s', q[1..])));
      } else {
        BroadcastLess(s, q[1..]);
        assert [] + Waiters(s, q[1..]) == Waiters(s, q[1..]);
      }
    }
  }

  lemma {:induction false} DispatchLess(s: State, q: seq<Tid>, ready: map<Tid, nat>)
    ensures Less(s, Dispatch(s, q, ready), Set(Notifies(s, q, ready))) && Dispatch(s, q, ready).th.Keys == s.th.Keys
    decreases q
  {
    if q != [] {
      var rest := Notifies(s, q[1..], ready);
      if q[0] in ready && q[0] in s.th {
        var s' := WakeUp(s, q[0], Ready(ready[q[0]]), false);
        WakeLess(s, q[0], Ready(ready[q[0]]), false);
        DispatchLess(s', q[1..], ready);
        SameNotifies(s, s', q[1..], ready);
        assert Dispatch(s, q, ready) == Dispatch(s', q[1..], ready);
        SetOfCons(q[0], rest);
        assert Notifies(s, q, ready) == [q[0]] + rest;
        hide WakeUp, Dispatch, Notifies, Less, Set;
        LessThen(s, s', Dispatch(s, q, ready), {q[0]}, Set(rest));
      } else {
        DispatchLess(s, q[1..], ready);
        assert [] + rest == rest;
      }
    }
  }

  lemma {:induction false} SameNotifies(s: State, s': State, q: seq<Tid>, ready: map<Tid, nat>)
    requires s'.th.Keys == s.th.Keys
    ensures Notifies(s', q, ready) == Notifies(s, q, ready)
  {
    if q != [] {
      SameNotifies(s, s', q[1..], ready);
    }
  }

  /** A thread that waits for a mutex never sleeps. */
  lemma {:induction false} UnlockLess(s: State, m: MutexId, q: seq<Tid>)
    requires Core(s) && m in s.locks
    ensures Less(s, Unlock(s, m, q), {})
    decreases q
  {
    if q == [] {
      SetOwnerLess(s, m, None);
    } else if q[0] in s.th && s.th[q[0]].state.LockWait? {
      assert ThreadOk(s, q[0]);
      WakeLess(s, q[0], Handed, false);
      SetOwnerLess(WakeUp(s, q[0], Handed, false), m, Some(q[0]));
      hide Core;
    } else {
      UnlockLess(s, m, q[1..]);
    }
  }

  lemma {:induction false} ExpireLess(s: State, order: seq<Tid>)
    requires forall t :: t in order ==> t in s.th
    ensures Less(s, Expire(s, order), Set(order))
    decreases order
  {
    if order != [] {
      var s' := WakeUp(s, order[0], Expired(s.clock), true);
      WakeLess(s, order[0], Expired(s.clock), true);
      assert order[0] in order && Expire(s, order) == Expire(s', order[1..]);
      assert order == [order[0]] + order[1..];
      SetOfCons(order[0], order[1..]);
      hide WakeUp, Expire, Less, Set;
      ExpireLess(s', order[1..]);
      LessThen(s, s', Expire(s, order), {order[0]}, Set(order[1..]));
    }
  }

  // ---------- the theorem ----------

  /** The sleepers after an event, by what it wakes, whether it checks the clock, and who starts to sleep. */
  ghost predicate Slept(s: State, s': State, woken: set<Tid>, now: Option<nat>, nap: Option<nat>, more: bool) {
    && s'.clock == (if now.Some? then now.value else s.clock)
    && s'.nextTid == (if more then s.nextTid + 1 else s.nextTid)
    && (forall t :: t in s'.sleepQ <==>
        || (t in s.sleepQ && t !in woken && !(now.Some? && t in s.th && s.th[t].due <= now.value))
        || (nap.Some? && s.cur == Some(t)))
    && (forall t :: t in s'.th ==> t in s.th || (more && t == s.nextTid))
    && forall t :: t in s'.th && t in s.th ==>
      s'.th[t].due == if nap.Some? && s.cur == Some(t) then s.clock + nap.value else s.th[t].due
  }

  lemma LessIs(s: State, s': State, gone: set<Tid>)
    requires Less(s, s', gone)
    ensures Slept(s, s', gone, None, None, false)
  {
  }

  lemma ClockIs(s: State, now: nat, order: seq<Tid>)
    requires ExpiryOrder(s, now, order)
    ensures Slept(s, CheckClock(s, now, order), {}, Some(now), None, false)
  {
    ExpireLess(s.(clock := now), order);
    hide Expire;
  }

  lemma SleptThen(s: State, s1: State, s2: State, now: Option<nat>)
    requires Slept(s, s1, {}, now, None, false) && Less(s1, s2, {})
    ensures Slept(s, s2, {}, now, None, false)
  {
  }

  lemma NapIs(s: State, s': State, timeout: Option<nat>)
    requires s.cur.Some? && Dozes(s, s', s.cur.value, timeout)
    ensures Slept(s, s', {}, None, timeout, false)
  {
  }

  lemma YieldIs(s: State, now: nat, order: seq<Tid>)
    requires Enabled(s, YieldCall(now, order))
    ensures Slept(s, YieldStart(s, now, order).0, {}, Some(now), None, false)
  {
    var s1 := CheckClock(s, now, order);
    ClockIs(s, now, order);
    hide CheckClock, ExpiryOrder;
    if s1.runQ != [] && UserRuns(s1) {
      assert Less(s1, YieldOver(s1), {});
      ScheduleLess(YieldOver(s1));
      hide Schedule;
      SleptThen(s, s1, Schedule(YieldOver(s1)), Some(now));
    }
  }

  lemma InterruptedIs(s: State)
    requires UserRuns(s)
    ensures Slept(s, SetIntr(s, s.cur.value, false), {}, None, None, false)
  {
  }

  lemma BlockingIs(s: State, call: Call, state: Status, timeout: Option<nat>)
    requires UserRuns(s) && (call.Cond? ==> call.c in s.conds) && (call.Lock? ==> call.m in s.locks)
    ensures var r := Interruptible(s, (Schedule(Park(s, call, state, timeout)), Switches)).0;
      Slept(s, r, {}, None, if Me(s).intr then None else timeout, false)
  {
    InterruptedIs(s);
    ParkNaps(s, call, state, timeout);
    NapIs(s, Schedule(Park(s, call, state, timeout)), timeout);
    hide Schedule, Park, SetIntr, Slept, Dozes;
  }

  lemma PollIs(s: State, timeout: Option<nat>, added: bool)
    requires UserRuns(s)
    ensures Slept(s, PollStart(s, timeout, added).0, {}, None, if added && !Me(s).intr then timeout else None, false)
  {
    InterruptedIs(s);
    BlockingIs(s, Poll(true), IoWait, timeout);
    hide Schedule, Park, SetIntr;
  }

  lemma LockIs(s: State, m: MutexId)
    requires UserRuns(s) && m in s.locks
    ensures Slept(s, LockStart(s, m).0, {}, None, None, false)
  {
    InterruptedIs(s);
    BlockingIs(s, Lock(m), LockWait, None);
    SetOwnerLess(s, m, s.cur);
    hide Schedule, Park, SetIntr, SetOwner;
  }

  lemma UnlockIs(s: State, m: MutexId)
    requires Core(s) && UserRuns(s) && m in s.locks
    ensures Slept(s, UnlockBy(s, m).0, {}, None, None, false)
    ensures Slept(s, TryLock(s, m).0, {}, None, None, false)
  {
    hide Core, Unlock, SetOwner;
    UnlockLess(s, m, s.locks[m].waitQ);
    SetOwnerLess(s, m, s.cur);
  }

  lemma SetIntrLess(s: State, t: Tid)
    requires t in s.th
    ensures Less(s, SetIntr(s, t, true), {})
  {
  }

  lemma InterruptIs(s: State, t: Tid)
    requires Enabled(s, InterruptCall(t))
    ensures Slept(s, Interrupt(s, t), Set(Wakes(s, InterruptCall(t))), None, None, false)
  {
    if Blocked(s.th[t].state) {
      WakeLess(s, t, Interrupted, false);
      assert Set([t]) == {t};
      LessIs(s, WakeUp(s, t, Interrupted, false), {t});
    } else {
      SetIntrLess(s, t);
      LessIs(s, SetIntr(s, t, true), {});
      LessIs(s, s, {});
    }
    hide WakeUp, SetIntr, Slept, Less;
  }

  /** A joinable thread stops and tells its joiner. */
  lemma StopLess(s: State, p: State, q: seq<Tid>)
    requires Less(s, p, {}) && forall t :: CondWaits(p, t) <==> CondWaits(s, t)
    ensures Less(s, Schedule(Signal(p, q)), Set(FirstWaiter(s, q)))
  {
    var woken := Set(FirstWaiter(s, q));
    SameFirstWaiter(s, p, q);
    SignalLess(p, q);
    ScheduleLess(Signal(p, q));
    hide Signal, Schedule, FirstWaiter, Set, Less, CondWaits;
    LessThen(s, p, Signal(p, q), {}, woken);
    LessThen(s, Signal(p, q), Schedule(Signal(p, q)), {} + woken, {});
    assert {} + woken + {} == woken;
  }

  lemma StoppedWaits(s: State)
    requires Core(s) && UserRuns(s)
    ensures forall t :: CondWaits(Park(s, Exit, Zombie, None), t) <==> CondWaits(s, t)
  {
    assert ThreadOk(s, s.cur.value);
  }

  lemma ExitIs(s: State)
    requires Core(s) && Enabled(s, ExitCall)
    ensures Slept(s, ExitThread(s), Set(Wakes(s, ExitCall)), None, None, false)
  {
    hide Core, Park, Signal, Schedule, Bury, FirstWaiter, Set, Less, CondWaits, Slept;
    var me := s.cur.value;
    if Me(s).joinable && Term(me) in s.conds {
      ParkLess(s, Exit, Zombie);
      StoppedWaits(s);
      StopLess(s, Park(s, Exit, Zombie, None), s.conds[Term(me)]);
    } else {
      BuryLess(s);
      ScheduleLess(Bury(s));
      LessThen(s, Bury(s), Schedule(Bury(s)), {}, {});
      SetOfNone();
    }
    LessIs(s, ExitThread(s), Set(Wakes(s, ExitCall)));
  }

  lemma {:induction false} SameFirstWaiter(s: State, s': State, q: seq<Tid>)
    requires forall t :: CondWaits(s', t) <==> CondWaits(s, t)
    ensures FirstWaiter(s', q) == FirstWaiter(s, q)
  {
    if q != [] {
      SameFirstWaiter(s, s', q[1..]);
    }
  }

  lemma SignalIs(s: State, c: nat, broadcast: bool)
    requires Enabled(s, SignalCall(c, broadcast))
    ensures Slept(s, Apply(s, SignalCall(c, broadcast), true).0, Set(Wakes(s, SignalCall(c, broadcast))), None, None, false)
  {
    var q := s.conds[User(c)];
    if broadcast {
      BroadcastLess(s, q);
      LessIs(s, Broadcast(s, q), Set(Waiters(s, q)));
    } else {
      SignalLess(s, q);
      LessIs(s, Signal(s, q), Set(FirstWaiter(s, q)));
    }
    hide Signal, Broadcast, Waiters, FirstWaiter, Slept, Set;
  }

  lemma CreateIs(s: State, joinable: bool, size: nat, cached: bool)
    requires Core(s)
    ensures Slept(s, Create(s, joinable, size, cached), {}, None, None, true)
  {
    NextTidIsNew(s);
  }

  /** A thread that has ended does not sleep. */
  lemma ReapLess(s: State, t: Tid)
    requires Core(s) && t in s.th && s.th[t].state.Zombie?
    ensures Less(s, Reap(s, t).0, {})
  {
    assert ThreadOk(s, t);
    WakeLess(s, t, Joined, false);
    hide Core;
  }

  lemma JoinIs(s: State, t: Tid)
    requires Core(s) && Enabled(s, JoinCall(t))
    ensures Slept(s, Join(s, t).0, {}, None, None, false)
  {
    hide Core, Slept, Reap, Schedule, Park, SetIntr;
    LessIs(s, s, {});
    if s.th[t].state.Zombie? {
      ReapLess(s, t);
      LessIs(s, Reap(s, t).0, {});
    }
    if s.th[t].joinable {
      BlockingIs(s, Cond(Term(t)), Status.CondWait, None);
    }
  }

  /** A joiner goes on to wait, or lets the thread that has ended go. */
  lemma JoinOnLess(s: State, c: CondId)
    requires Core(s) && s.cur.Some? && s.cur.value in s.th && c.Term? && c in s.conds
    ensures Less(s, if c.t in s.th && s.th[c.t].state.Zombie? then Reap(s, c.t).0
                    else Schedule(Park(s, Cond(c), Status.CondWait, None)), {})
  {
    if c.t in s.th && s.th[c.t].state.Zombie? {
      ReapLess(s, c.t);
    } else {
      var p := Park(s, Cond(c), Status.CondWait, None);
      ParkLess(s, Cond(c), Status.CondWait);
      ScheduleLess(p);
      LessThen(s, p, Schedule(p), {}, {});
    }
    hide Core, Park, Schedule, Reap, Less;
  }

  lemma ReturnStays(s: State, intr: bool, c: CondId)
    requires CanReturn(s)
    ensures var r := Return(s, intr); r.cur == s.cur && s.cur.value in r.th && (c in s.conds ==> c in r.conds)
  {
  }

  lemma ResumedCondIs(s: State, c: CondId)
    requires Inv(s) && Enabled(s, Resume) && Me(s).call == Cond(c)
    ensures Less(s, Resumed(s).0, {})
  {
    hide Core, Return, Schedule, Park, Reap, Side, Less;
    var r := Return(s, false);
    ReturnLess(s, false);
    ReturnStays(s, false, c);
    if CondResult(Me(s)) == Ok(0) && c.Term? {
      ReturnKeepsCore(s, false);
      JoinOnLess(r, c);
      SameThen(s, r, Resumed(s).0);
    }
  }

  lemma ResumedIs(s: State)
    requires Inv(s) && Enabled(s, Resume)
    ensures Slept(s, Resumed(s).0, {}, None, None, false)
  {
    hide Core, Side, Bury, Schedule, Return, Park, Reap, Less, Slept;
    match Me(s).call {
      case Exit =>
        BuryLess(s);
        ScheduleLess(Bury(s));
        LessThen(s, Bury(s), Schedule(Bury(s)), {}, {});
      case Cond(c) =>
        ResumedCondIs(s, c);
      case _ =>
        ReturnLess(s, false);
        ReturnLess(s, Me(s).intr);
    }
    LessIs(s, Resumed(s).0, {});
  }

  /** After some threads have been woken the clock is checked. */
  lemma ThenClock(s: State, s1: State, s2: State, woken: set<Tid>, now: nat)
    requires Less(s, s1, woken) && s1.th.Keys == s.th.Keys && Slept(s1, s2, {}, Some(now), None, false)
    ensures Slept(s, s2, woken, Some(now), None, false)
  {
  }

  lemma ThenNothing(s: State, s1: State, s2: State, woken: set<Tid>, now: Option<nat>)
    requires Slept(s, s1, woken, now, None, false) && Less(s1, s2, {})
    ensures Slept(s, s2, woken, now, None, false)
  {
  }

  lemma IdleYieldLess(s: State)
    requires s.idle in s.th
    ensures Less(s, IdleYield(s), {})
  {
  }

  lemma IdleIs(s: State, ready: map<Tid, nat>, now: nat, order: seq<Tid>)
    requires Enabled(s, IdleTurn(ready, now, order))
    ensures Slept(s, Idle(s, ready, now, order), Set(Notifies(s, s.ioQ, ready)), Some(now), None, false)
  {
    var woken := Set(Notifies(s, s.ioQ, ready));
    var d := Dispatch(s, s.ioQ, ready);
    DispatchLess(s, s.ioQ, ready);
    hide Dispatch, Notifies, Set, ExpiryOrder;
    ClockIs(d, now, order);
    var c := CheckClock(d, now, order);
    hide CheckClock;
    ThenClock(s, d, c, woken, now);
    if c.idle in c.th {
      IdleYieldLess(c);
      ThenNothing(s, c, IdleYield(c), woken, Some(now));
      ScheduleLess(IdleYield(c));
      hide IdleYield, Schedule, Slept, Less;
      ThenNothing(s, IdleYield(c), Schedule(IdleYield(c)), woken, Some(now));
    }
  }

  lemma NewIs(s: State, e: Event, cached: bool)
    requires Enabled(s, e) && (e.NewCond? || e.NewMutex?)
    ensures Slept(s, Apply(s, e, cached).0, {}, None, None, false)
  {
  }

  lemma NoneWoken(s: State, e: Event)
    requires Enabled(s, e) && !Wakers(e)
    ensures Set(Wakes(s, e)) == {}
  {
  }

  /** The events that may wake sleeping threads. */
  predicate Wakers(e: Event) {
    e.SignalCall? || e.InterruptCall? || e.ExitCall? || e.IdleTurn?
  }

  lemma WakingSleeps(s: State, e: Event, cached: bool)
    requires Core(s) && Enabled(s, e) && Wakers(e)
    ensures Slept(s, Apply(s, e, cached).0, Set(Wakes(s, e)), Checks(e), Naps(s, e), e.CreateCall?)
  {
    hide Core, Enabled, Slept, Set, ExpiryOrder, Notifies, Waiters, FirstWaiter, Interrupt, ExitThread, Idle;
    hide Signal, Broadcast;
    match e {
      case SignalCall(c, broadcast) => SignalIs(s, c, broadcast);
      case InterruptCall(t) => InterruptIs(s, t);
      case ExitCall => ExitIs(s);
      case IdleTurn(ready, now, order) => IdleIs(s, ready, now, order);
    }
  }

  lemma CallSleeps(s: State, e: Event, cached: bool)
    requires Core(s) && Enabled(s, e) && !Wakers(e) && !e.Resume?
    ensures Slept(s, Apply(s, e, cached).0, {}, Checks(e), Naps(s, e), e.CreateCall?)
  {
    hide Core, Slept, ExpiryOrder, PollStart, UsleepStart, LockStart, UnlockBy, TryLock, YieldStart, Create, Join;
    hide Schedule, Park, SetIntr;
    match e {
      case PollCall(timeout, added) => PollIs(s, timeout, added);
      case UsleepCall(timeout) => UsleepIs(s, timeout);
      case CondWaitCall(c, timeout) => BlockingIs(s, Cond(User(c)), Status.CondWait, timeout);
      case LockCall(m) => LockIs(s, m);
      case UnlockCall(m) => UnlockIs(s, m);
      case TryLockCall(m) => UnlockIs(s, m);
      case YieldCall(now, order) => YieldIs(s, now, order);
      case CreateCall(joinable, size) => CreateIs(s, joinable, size, cached);
      case JoinCall(t) => JoinIs(s, t);
      case _ => NewIs(s, e, cached);
    }
  }

  lemma InvHolds(s: State)
    requires Inv(s)
    ensures Core(s)
  {
  }

  /** What an event does to the sleeping threads, in terms of its heap operations. */
  lemma EventSleeps(s: State, e: Event, cached: bool)
    requires Inv(s) && Enabled(s, e)
    ensures Slept(s, Apply(s, e, cached).0, Set(Wakes(s, e)), Checks(e), Naps(s, e), e.CreateCall?)
  {
    hide Inv, Enabled, Slept, Set, Wakes, Resumed;
    InvHolds(s);
    if Wakers(e) {
      WakingSleeps(s, e, cached);
    } else {
      NoneWoken(s, e);
      if e.Resume? {
        ResumedIs(s);
      } else {
        CallSleeps(s, e, cached);
      }
    }
  }

  lemma UsleepIs(s: State, timeout: Option<nat>)
    requires UserRuns(s)
    ensures Slept(s, UsleepStart(s, timeout).0, {}, None, if Me(s).intr then None else timeout, false)
  {
    BlockingIs(s, Usleep, if timeout.Some? then Sleeping else Suspended, timeout);
    hide Schedule, Park, SetIntr, Slept;
  }
}
