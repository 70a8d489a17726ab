/**
 What each call does and returns, in terms of the threads, queues and owners themselves: mutexes, conditions,
 waits, yields, joins, and the start and the end of a thread.
 */
module SchedResults {
  import opened Options
  import opened SchedState
  import opened SchedApi
  import opened SchedInv
  import opened SchedRuns
  import opened SchedSteps
  import opened SchedTheorems

  // ---------- waiting ----------

  /** The caller now stands as r; the head of the run queue has the processor, or the idle thread if nobody
      is ready. */
  ghost predicate Leaves(s: State, s': State, r: Thread)
    requires s.cur.Some?
  {
    var n := if s.runQ == [] then s.idle else s.runQ[0];
    && n in s.th && n != s.cur.value && s'.cur == Some(n)
    && s'.runQ == (if s.runQ == [] then [] else s.runQ[1..])
    && s'.th == s.th[s.cur.value := r][n := s.th[n].(state := Running)]
  }

  /** The record of a caller that starts to wait, for as long as timeout. */
  ghost predicate StartsToWait(s: State, r: Thread, call: Call, st: Status, timeout: Option<nat>)
    requires s.cur.Some? && s.cur.value in s.th
  {
    && r.state == st && r.call == call && r.wake == Waiting && r.since == s.tick
    && r.onSleepQ == timeout.Some? && (timeout.Some? ==> r.due == s.clock + timeout.value)
    && r.(state := Running, call := NoCall, wake := Nothing, since := 0, onSleepQ := false, due := 0)
       == s.th[s.cur.value].(state := Running, call := NoCall, wake := Nothing, since := 0, onSleepQ := false, due := 0)
  }

  /** The caller waits in call, and another thread has the processor. */
  ghost predicate Waits(s: State, s': State, call: Call, st: Status, timeout: Option<nat>)
    requires s.cur.Some? && s.cur.value in s.th
  {
    && s.cur.value in s'.th && StartsToWait(s, s'.th[s.cur.value], call, st, timeout)
    && Leaves(s, s', s'.th[s.cur.value])
    && s'.sleepQ == (if timeout.Some? then s.sleepQ + {s.cur.value} else s.sleepQ)
    && s'.tick == s.tick + 1
  }

  /** The thread that runs when the caller gives up the processor. */
  ghost predicate OtherIsNext(s: State)
    requires s.cur.Some?
  {
    var n := if s.runQ == [] then s.idle else s.runQ[0];
    n in s.th && n != s.cur.value
  }

  lemma NextIsOther(s: State)
    requires Inv(s) && UserRuns(s)
    ensures OtherIsNext(s) && !Me(s).onSleepQ
  {
    RunningMe(s);
    hide Side;
    if s.runQ != [] {
      assert ThreadOk(s, s.runQ[0]);
    }
  }

  lemma ScheduleLeaves(s: State, b: State)
    requires UserRuns(s) && OtherIsNext(s) && b.runQ == s.runQ && b.idle == s.idle
    requires s.cur.value in b.th && b.th == s.th[s.cur.value := b.th[s.cur.value]]
    ensures var s' := Schedule(b); s' == b.(th := s'.th, cur := s'.cur, runQ := s'.runQ)
    ensures Leaves(s, Schedule(b), b.th[s.cur.value]) && Schedule(b).th[s.cur.value] == b.th[s.cur.value]
  {
  }

  lemma ParkIs(s: State, call: Call, st: Status, timeout: Option<nat>)
    requires UserRuns(s) && !Me(s).onSleepQ
    requires (call.Cond? ==> call.c in s.conds) && (call.Lock? ==> call.m in s.locks)
    ensures var b := Park(s, call, st, timeout); var me := s.cur.value;
      me in b.th && b.th == s.th[me := b.th[me]] && StartsToWait(s, b.th[me], call, st, timeout)
  {
  }

  lemma ParkWaits(s: State, call: Call, st: Status, timeout: Option<nat>)
    requires UserRuns(s) && OtherIsNext(s) && !Me(s).onSleepQ
    requires (call.Cond? ==> call.c in s.conds) && (call.Lock? ==> call.m in s.locks)
    ensures var s' := Schedule(Park(s, call, st, timeout)); var b := Park(s, call, st, timeout);
      Waits(s, s', call, st, timeout) && s' == b.(th := s'.th, cur := s'.cur, runQ := s'.runQ)
  {
    var b := Park(s, call, st, timeout);
    ParkIs(s, call, st, timeout);
    assert b.runQ == s.runQ && b.idle == s.idle && b.tick == s.tick + 1;
    assert b.sleepQ == (if timeout.Some? then s.sleepQ + {s.cur.value} else s.sleepQ);
    hide Park, Schedule, StartsToWait, Leaves, OtherIsNext;
    ScheduleLeaves(s, b);
  }

  /** `st_poll`, `st_usleep`: a refused poll changes nothing, and else the caller waits until timeout, a poll last
      of all on the io queue. */
  lemma SleepResult(s: State, e: Event, cached: bool)
    requires Inv(s) && Enabled(s, e) && (e.PollCall? || e.UsleepCall?) && !Me(s).intr
    ensures var (s', out) := Apply(s, e, cached);
      && (e.PollCall? && !e.added ==> out == Returns(AddFailed) && s' == s)
      && (e.PollCall? && e.added ==>
            out == Switches && Waits(s, s', Poll(true), IoWait, e.timeout) && s'.ioQ == s.ioQ + [s.cur.value])
      && (e.UsleepCall? && e.timeout.Some? ==>
            out == Switches && Waits(s, s', Usleep, Sleeping, e.timeout) && s'.ioQ == s.ioQ)
      && (e.UsleepCall? && e.timeout.None? ==>
            out == Switches && Waits(s, s', Usleep, Suspended, None) && s'.ioQ == s.ioQ)
      && s' == s.(th := s'.th, cur := s'.cur, runQ := s'.runQ, sleepQ := s'.sleepQ, tick := s'.tick, ioQ := s'.ioQ)
  {
    hide Inv, Schedule, Waits, OtherIsNext;
    NextIsOther(s);
    if e.PollCall? {
      ParkWaits(s, Poll(true), IoWait, e.timeout);
    } else {
      ParkWaits(s, Usleep, if e.timeout.Some? then Sleeping else Suspended, e.timeout);
    }
  }

  /** `st_cond_timedwait`: the caller waits last of all in the queue of the condition. */
  lemma CondWaitStarts(s: State, c: nat, timeout: Option<nat>, cached: bool)
    requires Inv(s) && Enabled(s, CondWaitCall(c, timeout)) && !Me(s).intr
    ensures var (s', out) := Apply(s, CondWaitCall(c, timeout), cached);
      && out == Switches && Waits(s, s', Cond(User(c)), Status.CondWait, timeout)
      && s'.conds == s.conds[User(c) := s.conds[User(c)] + [s.cur.value]]
      && s' == s.(th := s'.th, cur := s'.cur, runQ := s'.runQ, sleepQ := s'.sleepQ, tick := s'.tick, conds := s'.conds)
  {
    hide Inv, Schedule, Waits, OtherIsNext;
    NextIsOther(s);
    ParkWaits(s, Cond(User(c)), Status.CondWait, timeout);
  }

  /** `st_mutex_lock`: a free mutex is taken, one's own is refused, and else the caller waits last of all in the
      queue of the mutex. */
  lemma LockResult(s: State, m: MutexId, cached: bool)
    requires Inv(s) && Enabled(s, LockCall(m)) && !Me(s).intr
    ensures var (s', out) := Apply(s, LockCall(m), cached); var l := s.locks[m];
      && (out == Returns(Ok(0)) <==> l.owner == None)
      && (l.owner == None ==> s' == s.(locks := s.locks[m := Mutex(s.cur, l.waitQ)]))
      && (out == Returns(EDEADLK) <==> l.owner == s.cur) && (l.owner == s.cur ==> s' == s)
      && (out == Switches <==> l.owner != None && l.owner != s.cur)
      && (l.owner != None && l.owner != s.cur ==>
            && Waits(s, s', Lock(m), LockWait, None) && s'.locks == s.locks[m := Mutex(l.owner, l.waitQ + [s.cur.value])]
            && s' == s.(th := s'.th, cur := s'.cur, runQ := s'.runQ, tick := s'.tick, locks := s'.locks))
  {
    hide Inv, Schedule, OtherIsNext, StartsToWait, Leaves;
    NextIsOther(s);
    ParkWaits(s, Lock(m), LockWait, None);
  }

  // ---------- mutexes ----------

  /** `st_mutex_trylock` takes a free mutex, and fails without a trace on any other. */
  lemma TryLockResult(s: State, m: MutexId, cached: bool)
    requires Enabled(s, TryLockCall(m))
    ensures var (s', out) := Apply(s, TryLockCall(m), cached); var l := s.locks[m];
      && (out == Returns(Ok(0)) <==> l.owner == None)
      && (l.owner == None ==> s' == s.(locks := s.locks[m := Mutex(s.cur, l.waitQ)]))
      && (l.owner != None ==> out == Returns(EBUSY) && s' == s)
  {
  }

  /** t is the first of those who wait for the mutex. */
  ghost predicate EarliestFor(s: State, t: Tid, m: MutexId) {
    t in s.th && WaitsForLock(s, t, m) && forall u :: WaitsForLock(s, u, m) && u != t ==> s.th[t].since < s.th[u].since
  }

  /** t, ready and last of all, owns the mutex. */
  ghost predicate Handed(s: State, s': State, m: MutexId, t: Tid)
    requires t in s.th && m in s.locks
  {
    s' == s.(locks := s.locks[m := Mutex(Some(t), s.locks[m].waitQ)], runQ := s.runQ + [t], sleepQ := s.sleepQ - {t},
             th := s.th[t := s.th[t].(state := Runnable, onSleepQ := false, wake := Wake.Handed)])
  }

  /** What `st_mutex_unlock` by the owner does: the thread that has waited longest is the new owner, and the mutex
      is free iff nobody waits for it. */
  ghost predicate Unlocked(s: State, s': State, m: MutexId)
    requires m in s.locks && m in s'.locks
  {
    var owner := s'.locks[m].owner;
    && (owner == None <==> forall t :: !WaitsForLock(s, t, m))
    && (owner == None ==> s' == s.(locks := s.locks[m := Mutex(None, s.locks[m].waitQ)]))
    && (owner.Some? ==> EarliestFor(s, owner.value, m) && Handed(s, s', m, owner.value))
  }

  lemma HandOverIs(s: State, m: MutexId, t: Tid)
    requires m in s.locks && t in s.th
    ensures m in HandOver(s, m, t).locks && HandOver(s, m, t).locks[m].owner == Some(t)
    ensures Handed(s, HandOver(s, m, t), m, t)
  {
  }

  lemma HandedOver(s: State, m: MutexId, t: Tid)
    requires m in s.locks && t in s.th && WaitsForLock(s, t, m)
    requires forall u :: WaitsForLock(s, u, m) && u != t ==> s.th[t].since < s.th[u].since
    ensures m in HandOver(s, m, t).locks && Unlocked(s, HandOver(s, m, t), m)
  {
    HandOverIs(s, m, t);
    hide HandOver, Handed, WaitsForLock;
  }

  lemma SetFree(s: State, m: MutexId)
    requires m in s.locks && forall t :: !WaitsForLock(s, t, m)
    ensures m in SetOwner(s, m, None).locks && Unlocked(s, SetOwner(s, m, None), m)
  {
    hide WaitsForLock;
  }

  lemma UnlockIsUnlocked(s: State, m: MutexId)
    requires Inv(s) && m in s.locks
    ensures var s' := Unlock(s, m, s.locks[m].waitQ); m in s'.locks && Unlocked(s, s', m)
  {
    hide Inv, Unlock, Handed, SetOwner, HandOver, Unlocked;
    UnlockHandsToEarliest(s, m);
    if exists t :: WaitsForLock(s, t, m) {
      var t :| WaitsForLock(s, t, m) && Unlock(s, m, s.locks[m].waitQ) == HandOver(s, m, t)
        && forall u :: WaitsForLock(s, u, m) && u != t ==> s.th[t].since < s.th[u].since;
      hide WaitsForLock;
      HandedOver(s, m, t);
    } else {
      hide WaitsForLock;
      SetFree(s, m);
    }
  }

  /** `st_mutex_unlock` works for the owner only. */
  lemma UnlockResult(s: State, m: MutexId, cached: bool)
    requires Inv(s) && Enabled(s, UnlockCall(m))
    ensures var (s', out) := Apply(s, UnlockCall(m), cached); var mine := s.locks[m].owner == s.cur;
      && (out == Returns(Ok(0)) <==> mine)
      && (mine ==> m in s'.locks && Unlocked(s, s', m))
      && (!mine ==> out == Returns(EPERM) && s' == s)
  {
    hide Inv, Unlock, Unlocked;
    UnlockIsUnlocked(s, m);
  }

  // ---------- conditions ----------

  /** t has waited longest for the condition. */
  ghost predicate LongestOn(s: State, t: Tid, c: CondId) {
    t in s.th && WaitsOn(s, t, c) && forall u :: WaitsOn(s, u, c) && u != t ==> s.th[t].since < s.th[u].since
  }

  /** The record of a thread that was signalled. */
  ghost predicate WasSignalled(r: Thread, r': Thread) {
    r' == r.(state := Runnable, onSleepQ := false, wake := Signalled)
  }

  /** t was signalled and is ready, last of all. */
  ghost predicate SignalledLast(s: State, s': State, t: Tid)
    requires t in s.th
  {
    && t in s'.th && WasSignalled(s.th[t], s'.th[t])
    && s' == s.(th := s.th[t := s'.th[t]], runQ := s.runQ + [t], sleepQ := s.sleepQ - {t})
  }

  /** A signal reaches the thread that has waited longest, if there is one. */
  ghost predicate SignalReaches(s: State, s': State, c: CondId) {
    if exists t :: WaitsOn(s, t, c) then exists t :: LongestOn(s, t, c) && SignalledLast(s, s', t) else s' == s
  }

  lemma SignalledReaches(s: State, t: Tid, c: CondId)
    requires WaitsOn(s, t, c) && forall u :: WaitsOn(s, u, c) && u != t ==> s.th[t].since < s.th[u].since
    ensures SignalReaches(s, WakeUp(s, t, Signalled, false), c)
  {
    SignalledIs(s, t, c);
    hide WakeUp, SignalledLast;
    assert LongestOn(s, t, c);
  }

  lemma NobodySignalled(s: State, c: CondId)
    requires !exists t :: WaitsOn(s, t, c)
    ensures SignalReaches(s, s, c)
  {
    hide WaitsOn;
  }

  lemma SignalReachesLongest(s: State, c: CondId)
    requires Inv(s) && c in s.conds
    ensures SignalReaches(s, Signal(s, s.conds[c]), c)
  {
    hide Inv, Signal, SignalReaches, WakeUp;
    SignalWakesLongest(s, c);
    if exists t :: WaitsOn(s, t, c) {
      var t :| WaitsOn(s, t, c) && Signal(s, s.conds[c]) == WakeUp(s, t, Signalled, false)
        && forall u :: WaitsOn(s, u, c) && u != t ==> s.th[t].since < s.th[u].since;
      SignalledReaches(s, t, c);
    } else {
      hide WaitsOn;
      NobodySignalled(s, c);
    }
  }

  lemma SignalledIs(s: State, t: Tid, c: CondId)
    requires WaitsOn(s, t, c)
    ensures t in s.th && SignalledLast(s, WakeUp(s, t, Signalled, false), t)
  {
  }

  lemma SignalResult(s: State, c: nat, cached: bool)
    requires Inv(s) && Enabled(s, SignalCall(c, false))
    ensures var (s', out) := Apply(s, SignalCall(c, false), cached);
      out == Returns(Ok(0)) && SignalReaches(s, s', User(c))
  {
    hide Inv, Signal, SignalReaches;
    SignalReachesLongest(s, User(c));
  }

  lemma {:induction false} BroadcastFrame(s: State, q: seq<Tid>)
    requires NoDup(q)
    ensures var s' := Broadcast(s, q); s' == s.(th := s'.th, runQ := s'.runQ, sleepQ := s'.sleepQ)
    ensures Broadcast(s, q).th.Keys == s.th.Keys
    decreases q
  {
    if q != [] {
      if q[0] in s.th && s.th[q[0]].state.CondWait? {
        BroadcastFrame(WakeUp(s, q[0], Signalled, false), q[1..]);
      } else {
        BroadcastFrame(s, q[1..]);
      }
    }
  }

  lemma {:induction false} BroadcastSleepers(s: State, q: seq<Tid>, t: Tid)
    requires NoDup(q)
    ensures t in Broadcast(s, q).sleepQ <==> t in s.sleepQ && !(t in q && t in s.th && s.th[t].state.CondWait?)
    decreases q
  {
    if q != [] {
      if q[0] in s.th && s.th[q[0]].state.CondWait? {
        BroadcastSleepers(WakeUp(s, q[0], Signalled, false), q[1..], t);
      } else {
        BroadcastSleepers(s, q[1..], t);
      }
    }
  }

  /** Exactly the waiters were signalled; woken lists them, the longest first, and they are ready, last of all. */
  ghost predicate BroadcastReaches(s: State, s': State, c: CondId, woken: seq<Tid>) {
    && InOrder(s, woken) && (forall t :: t in woken <==> WaitsOn(s, t, c)) && s'.runQ == s.runQ + woken
    && (forall t :: t in s'.sleepQ <==> t in s.sleepQ && !WaitsOn(s, t, c))
    && s'.th.Keys == s.th.Keys
    && (forall t :: t in s.th && WaitsOn(s, t, c) ==> WasSignalled(s.th[t], s'.th[t]))
    && (forall t :: t in s.th && !WaitsOn(s, t, c) ==> s'.th[t] == s.th[t])
    && s' == s.(th := s'.th, runQ := s'.runQ, sleepQ := s'.sleepQ)
  }

  lemma BroadcastResult(s: State, c: nat, cached: bool)
    requires Inv(s) && Enabled(s, SignalCall(c, true))
    ensures var (s', out) := Apply(s, SignalCall(c, true), cached);
      out == Returns(Ok(0)) && |s.runQ| <= |s'.runQ| && BroadcastReaches(s, s', User(c), s'.runQ[|s.runQ|..])
  {
    hide Inv, Broadcast, BroadcastReaches;
    BroadcastIs(s, User(c));
  }

  lemma BroadcastThreads(s: State, c: CondId)
    requires Inv(s) && c in s.conds
    ensures var s' := Broadcast(s, s.conds[c]);
      && s'.th.Keys == s.th.Keys
      && (forall t :: t in s.th && WaitsOn(s, t, c) ==> WasSignalled(s.th[t], s'.th[t]))
      && (forall t :: t in s.th && !WaitsOn(s, t, c) ==> s'.th[t] == s.th[t])
  {
    QueueOnce(s, c);
    hide Inv, Broadcast, WaitsOn, StillWaiting;
    BroadcastWakesAll(s, c);
    hide InOrder;
    BroadcastFrame(s, s.conds[c]);
  }

  lemma BroadcastSleeps(s: State, c: CondId)
    requires Inv(s) && c in s.conds
    ensures forall t :: t in Broadcast(s, s.conds[c]).sleepQ <==> t in s.sleepQ && !WaitsOn(s, t, c)
  {
    WaitersAreQueued(s, c);
    QueueOnce(s, c);
    hide Core, Inv, Broadcast, WaitsOn;
    forall t: Tid
      ensures t in Broadcast(s, s.conds[c]).sleepQ <==> t in s.sleepQ && !WaitsOn(s, t, c)
    {
      BroadcastSleepers(s, s.conds[c], t);
    }
  }

  lemma BroadcastOrder(s: State, c: CondId)
    requires Inv(s) && c in s.conds
    ensures var woken := StillWaiting(s, s.conds[c]);
      InOrder(s, woken) && (forall t :: t in woken <==> WaitsOn(s, t, c)) && Broadcast(s, s.conds[c]).runQ == s.runQ + woken
  {
    hide Inv, Broadcast, WaitsOn, Signalling, StillWaiting, InOrder;
    BroadcastWakesAll(s, c);
  }

  lemma AllReached(s: State, s': State, c: CondId, woken: seq<Tid>)
    requires InOrder(s, woken) && (forall t :: t in woken <==> WaitsOn(s, t, c)) && s'.runQ == s.runQ + woken
    requires forall t :: t in s'.sleepQ <==> t in s.sleepQ && !WaitsOn(s, t, c)
    requires s'.th.Keys == s.th.Keys
    requires forall t :: t in s.th && WaitsOn(s, t, c) ==> WasSignalled(s.th[t], s'.th[t])
    requires forall t :: t in s.th && !WaitsOn(s, t, c) ==> s'.th[t] == s.th[t]
    requires s' == s.(th := s'.th, runQ := s'.runQ, sleepQ := s'.sleepQ)
    ensures BroadcastReaches(s, s', c, woken)
  {
    hide WaitsOn, InOrder, WasSignalled;
  }

  lemma BroadcastIs(s: State, c: CondId)
    requires Inv(s) && c in s.conds
    ensures var s' := Broadcast(s, s.conds[c]);
      |s.runQ| <= |s'.runQ| && BroadcastReaches(s, s', c, s'.runQ[|s.runQ|..])
  {
    QueueOnce(s, c);
    hide Inv, Broadcast, WaitsOn, WasSignalled, StillWaiting, InOrder, NoDup, BroadcastReaches;
    var s', woken := Broadcast(s, s.conds[c]), StillWaiting(s, s.conds[c]);
    BroadcastThreads(s, c);
    BroadcastSleeps(s, c);
    BroadcastFrame(s, s.conds[c]);
    BroadcastOrder(s, c);
    AllReached(s, s', c, woken);
    assert s'.runQ[|s.runQ|..] == woken;
  }

  lemma QueueOnce(s: State, c: CondId)
    requires Core(s) && c in s.conds
    ensures NoDup(s.conds[c])
  {
    assert InOrder(s, s.conds[c]);
  }
}
