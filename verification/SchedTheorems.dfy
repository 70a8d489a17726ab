/** What the invariant means for callers of the State Threads API, over every run. */
module SchedTheorems {
  import opened Options
  import opened SchedState
  import opened SchedApi
  import opened SchedInv
  import opened SchedRuns
  import opened SchedSteps
  import opened SchedWhole

  // ---------- runs ----------

  /** `st_init`: the primordial thread 0 runs, the idle thread 1 is ready. */
  ghost function Initial(clock: nat, size: nat): State {
    State(map[0 := Thread(Running, false, false, false, 0, NoCall, Nothing, 0, false, None),
              1 := Thread(Runnable, false, false, false, 0, IdleLoop, Nothing, 0, false, Some(Stack(0, size)))],
          Some(0), 1, 2, [], [], [], {}, map[], map[], clock, 0, 1, [], 1)
  }

  ghost predicate IsRun(states: seq<State>, events: seq<Event>, cached: bool) {
    && |states| == |events| + 1
    && (exists clock, size :: states[0] == Initial(clock, size))
    && forall i :: 0 <= i < |events| ==>
        Enabled(states[i], events[i]) && states[i + 1] == Apply(states[i], events[i], cached).0
  }

  lemma InitialInv(clock: nat, size: nat)
    ensures Inv(Initial(clock, size))
  {
    var s := Initial(clock, size);
    assert Active(s) == {0};
    assert forall t: Tid, id: nat :: StackId(s, t, id) <==> t == 1 && id == 0;
  }

  /** Every state of every run satisfies the invariant. */
  lemma {:induction false} RunInv(states: seq<State>, events: seq<Event>, cached: bool, i: nat)
    requires IsRun(states, events, cached) && i < |states|
    ensures Inv(states[i])
  {
    if i == 0 {
      var clock, size :| states[0] == Initial(clock, size);
      InitialInv(clock, size);
    } else {
      RunInv(states, events, cached, i - 1);
      hide Inv, Apply;
      StepInv(states[i - 1], events[i - 1], cached);
    }
  }

  // ---------- where threads are ----------

  lemma {:induction false} OnceInQueue(q: seq<Tid>, t: Tid)
    requires NoDup(q)
    ensures multiset(q)[t] == if t in q then 1 else 0
  {
    if q != [] {
      assert q == [q[0]] + q[1..];
      OnceInQueue(q[1..], t);
    }
  }

  /** A live thread that is neither running nor idle is queued once, in the place its state says. */
  lemma Placement(s: State, t: Tid)
    requires Inv(s) && t in s.th && t != s.idle && s.cur != Some(t)
    ensures multiset(s.runQ)[t] == if s.th[t].state.Runnable? then 1 else 0
    ensures multiset(s.zombieQ)[t] == if s.th[t].state.Zombie? then 1 else 0
    ensures t in s.sleepQ <==> s.th[t].onSleepQ
    ensures s.th[t].state.Runnable? || s.th[t].state.Zombie? ==> t !in s.sleepQ
    ensures s.th[t].state.Sleeping? ==> t in s.sleepQ
    ensures multiset(s.ioQ)[t] <= 1 && (s.th[t].state.IoWait? ==> t in s.ioQ)
  {
    assert ThreadOk(s, t);
    OnceInQueue(s.runQ, t);
    OnceInQueue(s.zombieQ, t);
    OnceInQueue(s.ioQ, t);
  }

  /** A thread that is gone is in no queue at all; nor is the running thread, but for the queue of the
      call that it has yet to leave. */
  lemma NotQueued(s: State, t: Tid)
    requires Inv(s) && (s.cur == Some(t) || t !in s.th)
    ensures t !in s.runQ && t !in s.zombieQ && t !in s.sleepQ
    ensures t !in s.th || s.th[t].call.NoCall? ==>
      && t !in s.ioQ && (forall c :: c in s.conds ==> t !in s.conds[c])
      && (forall m :: m in s.locks ==> t !in s.locks[m].waitQ)
    ensures t in s.th ==> (t in s.ioQ <==> s.th[t].call == Poll(true))
    ensures t in s.th ==> forall c :: c in s.conds && t in s.conds[c] ==> s.th[t].call == Cond(c)
    ensures t in s.th ==> forall m :: m in s.locks && t in s.locks[m].waitQ ==> s.th[t].call == Lock(m)
  {
    if t in s.th {
      assert ThreadOk(s, t);
    } else {
      NotInQueues(s, t);
    }
  }

  // ---------- time ----------

  ghost function Reversed(q: seq<Tid>): seq<Tid> {
    if q == [] then [] else Reversed(q[1..]) + [q[0]]
  }

  lemma {:induction false} ExpireRunQ(s: State, order: seq<Tid>)
    requires forall t :: t in order ==> t in s.th
    ensures Expire(s, order).runQ == Reversed(order) + s.runQ
    decreases order
  {
    if order == [] {
      assert Reversed(order) + s.runQ == s.runQ;
    } else {
      ExpireRunQ(WakeUp(s, order[0], Expired(s.clock), true), order[1..]);
      assert Reversed(order) + s.runQ == Reversed(order[1..]) + ([order[0]] + s.runQ);
    }
  }

  ghost function Expiry(r: Thread, now: nat): Thread {
    r.(state := Runnable, onSleepQ := false, wake := Expired(now), timedOut := r.timedOut || r.state.CondWait?)
  }

  lemma {:induction false} ExpireThread(s: State, order: seq<Tid>, t: Tid)
    requires NoDup(order) && (forall u :: u in order ==> u in s.th) && t in s.th
    ensures t in Expire(s, order).th
    ensures Expire(s, order).th[t] == if t in order then Expiry(s.th[t], s.clock) else s.th[t]
    ensures t in Expire(s, order).sleepQ <==> t in s.sleepQ && t !in order
    decreases order
  {
    if order != [] {
      ExpireThread(WakeUp(s, order[0], Expired(s.clock), true), order[1..], t);
    }
  }

  /** After the clock is checked only threads due later sleep; the expired ones are at the
      head of the run queue, the latest first; TIMEDOUT was set exactly on those in COND_WAIT. */
  lemma ClockChecked(s: State, now: nat, order: seq<Tid>, t: Tid)
    requires Inv(s) && ExpiryOrder(s, now, order) && t in s.th
    ensures var s' := CheckClock(s, now, order);
      && s'.clock == now && s'.runQ == Reversed(order) + s.runQ
      && t in s'.th && (t in s'.sleepQ <==> t in s.sleepQ && s.th[t].due > now)
      && (t in s.sleepQ && s.th[t].due <= now ==> s'.th[t] == Expiry(s.th[t], now))
      && (!(t in s.sleepQ && s.th[t].due <= now) ==> s'.th[t] == s.th[t])
      && (!s.th[t].timedOut && s'.th[t].timedOut <==> t in s.sleepQ && s.th[t].due <= now && s.th[t].state.CondWait?)
  {
    assert ThreadOk(s, t);
    ClockKeepsQueues(s, now);
    ExpireRunQ(s.(clock := now), order);
    ExpireThread(s.(clock := now), order, t);
    ExpireClock(s.(clock := now), order);
  }

  lemma ClockKeepsQueues(s: State, now: nat)
    ensures s.(clock := now).th == s.th && s.(clock := now).runQ == s.runQ && s.(clock := now).sleepQ == s.sleepQ
  {
  }

  lemma {:induction false} ExpireClock(s: State, order: seq<Tid>)
    ensures Expire(s, order).clock == s.clock
    decreases order
  {
    if order != [] {
      ExpireClock(if order[0] in s.th then WakeUp(s, order[0], Expired(s.clock), true) else s, order[1..]);
    }
  }

  lemma {:induction false} ReversedAt(q: seq<Tid>, i: nat)
    requires i < |q|
    ensures |Reversed(q)| == |q| && Reversed(q)[i] == q[|q| - 1 - i]
    decreases q
  {
    if |q| > 1 {
      ReversedAt(q[1..], if i < |q| - 1 then i else 0);
    }
  }

  /** The expired threads run in the order of non-increasing due times. */
  lemma ExpiredRunLatestFirst(s: State, now: nat, order: seq<Tid>, i: nat, j: nat)
    requires ExpiryOrder(s, now, order) && i < j < |order|
    ensures |Reversed(order)| == |order| && Reversed(order)[i] in s.th && Reversed(order)[j] in s.th
    ensures s.th[Reversed(order)[i]].due >= s.th[Reversed(order)[j]].due
  {
    ReversedAt(order, i);
    ReversedAt(order, j);
  }

  /** The assertions of `_st_vp_check_clock` hold at every turn of its loop. */
  lemma ClockAssertions(s: State, order: seq<Tid>, i: nat)
    requires Core(s) && Side(s) && NoDup(order) && AllDue(s, order) && i < |order|
    ensures var s' := Expire(s, order[..i]);
      order[i] in s'.th && s'.th[order[i]].onSleepQ && order[i] != s'.idle
  {
    var q := order[..i];
    assert NoDup(q) && order[i] !in q;
    ExpireKeeps(s, q);
    SleeperFlags(s, order[i]);
    ExpireThread(s, q, order[i]);
    ExpireKeepsIdle(s, q);
  }

  lemma SleeperFlags(s: State, t: Tid)
    requires Core(s) && t in s.sleepQ
    ensures t in s.th && s.th[t].onSleepQ && t != s.idle
  {
    assert ThreadOk(s, t);
  }

  // ---------- what a blocked call returns ----------

  /** Once it has blocked, `st_poll` returns the count that dispatch found iff dispatch notified
      it, 0 iff it timed out, unless it was interrupted before it ran again. */
  lemma PollResult(s: State)
    requires Inv(s) && Enabled(s, Resume) && Me(s).call.Poll?
    ensures var (s', out) := Resumed(s);
      && out.Returns?
      && (out.r == EINTR <==> Me(s).intr)
      && ((out.r.Ok? && out.r.n >= 1) <==> Me(s).wake.Ready? && !Me(s).intr)
      && (out.r == Ok(0) <==> Me(s).wake.Expired? && !Me(s).intr)
      && (out.r.Ok? && out.r.n >= 1 ==> out.r.n == Me(s).wake.n)
      && s.cur.value !in s'.ioQ && s.cur.value !in s'.sleepQ && !s'.th[s.cur.value].intr
  {
    RunningMe(s);
    ReturnInv(s, false);
    RunningMe(Return(s, false));
  }

  /** `st_cond_timedwait` on an application's condition variable. */
  lemma CondWaitResult(s: State)
    requires Inv(s) && Enabled(s, Resume) && Me(s).call.Cond? && Me(s).call.c.User?
    ensures var (s', out) := Resumed(s);
      && out.Returns?
      && (out.r == Ok(0) <==> Me(s).wake.Signalled? && !Me(s).intr)
      && (out.r == ETIME <==> Me(s).wake.Expired? && !Me(s).intr)
      && (out.r == EINTR <==> Me(s).intr)
      && s.cur.value !in s'.conds[Me(s).call.c]
      && !s'.th[s.cur.value].timedOut && !s'.th[s.cur.value].intr
  {
    RunningMe(s);
    RemoveKeepsOrder(s, s.conds[Me(s).call.c], s.cur.value);
  }

  /** `st_usleep` fails iff interrupted; otherwise the clock had reached its due time. */
  lemma UsleepResult(s: State)
    requires Inv(s) && Enabled(s, Resume) && Me(s).call.Usleep?
    ensures var (s', out) := Resumed(s);
      && out == Returns(if Me(s).intr then EINTR else Ok(0))
      && (!Me(s).intr ==> Me(s).wake.Expired? && Me(s).due <= Me(s).wake.at)
  {
    RunningMe(s);
  }

  // ---------- signals ----------

  /** t waits on c and has been neither signalled nor interrupted nor timed out. */
  ghost predicate WaitsOn(s: State, t: Tid, c: CondId) {
    t in s.th && s.th[t].call == Cond(c) && s.th[t].state.CondWait?
  }

  /** The position of the first thread of q in state st, or |q|. */
  ghost function First(s: State, q: seq<Tid>, st: Status): (i: nat)
    ensures i <= |q| && (i < |q| ==> q[i] in s.th && s.th[q[i]].state == st)
    ensures forall j :: 0 <= j < i && q[j] in s.th ==> s.th[q[j]].state != st
  {
    if q == [] || (q[0] in s.th && s.th[q[0]].state == st) then 0
    else
      assert forall j :: 0 < j < |q| ==> q[j] == q[1..][j - 1];
      1 + First(s, q[1..], st)
  }

  lemma {:induction false} SignalPicksFirst(s: State, q: seq<Tid>)
    ensures var i := First(s, q, Status.CondWait); Signal(s, q) == if i < |q| then WakeUp(s, q[i], Signalled, false) else s
    decreases q
  {
    if q != [] {
      SignalPicksFirst(s, q[1..]);
    }
  }

  /** A signal wakes the thread that has waited longest and still waits, and no other. */
  lemma SignalWakesLongest(s: State, c: CondId)
    requires Inv(s) && c in s.conds
    ensures var s' := Signal(s, s.conds[c]);
      if exists t :: WaitsOn(s, t, c)
      then exists t :: WaitsOn(s, t, c) && s' == WakeUp(s, t, Signalled, false)
             && forall u :: WaitsOn(s, u, c) && u != t ==> s.th[t].since < s.th[u].since
      else s' == s
  {
    var q := s.conds[c];
    var i := First(s, q, Status.CondWait);
    WaitersAreQueued(s, c);
    SignalPicksFirst(s, q);
    hide Core, Side;
    if i < |q| {
      assert WaitsOn(s, q[i], c);
      LongestIsFirst(s, q, c, i);
    }
  }

  lemma WaitersAreQueued(s: State, c: CondId)
    requires Core(s) && c in s.conds
    ensures forall t :: WaitsOn(s, t, c) <==> t in s.conds[c] && t in s.th && s.th[t].state.CondWait?
  {
    forall t | t in s.th
      ensures t in s.conds[c] <==> s.th[t].call == Cond(c)
    {
      assert ThreadOk(s, t);
    }
  }

  lemma LongestIsFirst(s: State, q: seq<Tid>, c: CondId, i: nat)
    requires InOrder(s, q) && i < |q| && (forall t :: WaitsOn(s, t, c) ==> t in q)
    requires forall j :: 0 <= j < i && q[j] in s.th ==> !s.th[q[j]].state.CondWait?
    ensures forall u :: WaitsOn(s, u, c) && u != q[i] ==> s.th[q[i]].since < s.th[u].since
  {
    forall u | WaitsOn(s, u, c) && u != q[i]
      ensures s.th[q[i]].since < s.th[u].since
    {
      var k :| 0 <= k < |q| && q[k] == u;
    }
  }

  /** The threads of q that still wait, in order. */
  ghost function StillWaiting(s: State, q: seq<Tid>): seq<Tid> {
    if q == [] then []
    else (if q[0] in s.th && s.th[q[0]].state.CondWait? then [q[0]] else []) + StillWaiting(s, q[1..])
  }

  lemma {:induction false} StillWaitingFrame(s: State, s': State, q: seq<Tid>)
    requires forall t :: t in q ==> (t in s.th <==> t in s'.th) && (t in s.th ==> s.th[t].state == s'.th[t].state)
    ensures StillWaiting(s, q) == StillWaiting(s', q)
    decreases q
  {
    if q != [] {
      StillWaitingFrame(s, s', q[1..]);
    }
  }

  lemma {:induction false} BroadcastRunQ(s: State, q: seq<Tid>)
    requires NoDup(q)
    ensures Broadcast(s, q).runQ == s.runQ + StillWaiting(s, q)
    decreases q
  {
    if q != [] {
      if q[0] in s.th && s.th[q[0]].state.CondWait? {
        var s' := WakeUp(s, q[0], Signalled, false);
        BroadcastRunQ(s', q[1..]);
        StillWaitingFrame(s, s', q[1..]);
        assert (s.runQ + [q[0]]) + StillWaiting(s, q[1..]) == s.runQ + ([q[0]] + StillWaiting(s, q[1..]));
      } else {
        BroadcastRunQ(s, q[1..]);
      }
    }
  }

  /** The record of t, after a signal reached it when hit. */
  ghost function Signalling(s: State, t: Tid, hit: bool): Thread
    requires t in s.th
  {
    if hit then s.th[t].(state := Runnable, onSleepQ := false, wake := Signalled) else s.th[t]
  }

  lemma {:induction false} BroadcastThread(s: State, q: seq<Tid>, t: Tid)
    requires NoDup(q) && t in s.th
    ensures t in Broadcast(s, q).th
    ensures Broadcast(s, q).th[t] == Signalling(s, t, t in q && s.th[t].state.CondWait?)
    decreases q
  {
    if q != [] {
      if q[0] in s.th && s.th[q[0]].state.CondWait? {
        BroadcastThread(WakeUp(s, q[0], Signalled, false), q[1..], t);
      } else {
        BroadcastThread(s, q[1..], t);
      }
    }
  }

  lemma {:induction false} StillWaitingInOrder(s: State, q: seq<Tid>)
    requires InOrder(s, q)
    ensures InOrder(s, StillWaiting(s, q))
    ensures forall t :: t in StillWaiting(s, q) <==> t in q && t in s.th && s.th[t].state.CondWait?
    decreases q
  {
    if q != [] {
      StillWaitingInOrder(s, q[1..]);
      forall t | t in StillWaiting(s, q[1..])
        ensures s.th[q[0]].since < s.th[t].since
      {
        assert t in q[1..];
        var k :| 0 <= k < |q| - 1 && q[1..][k] == t;
        assert q[k + 1] == t;
      }
    }
  }

  /** A broadcast wakes all threads that still wait, and only those, once each and in the
      order in which they started to wait. */
  lemma BroadcastWakesAll(s: State, c: CondId)
    requires Inv(s) && c in s.conds
    ensures var s' := Broadcast(s, s.conds[c]); var woken := StillWaiting(s, s.conds[c]);
      && s'.runQ == s.runQ + woken && InOrder(s, woken) && (forall t :: t in woken <==> WaitsOn(s, t, c))
      && forall t :: t in s.th ==> t in s'.th && s'.th[t] == Signalling(s, t, WaitsOn(s, t, c))
  {
    var q := s.conds[c];
    assert InOrder(s, q) && NoDup(q);
    WaitersAreQueued(s, c);
    StillWaitingInOrder(s, q);
    BroadcastRunQ(s, q);
    forall t | t in s.th
      ensures t in Broadcast(s, q).th && Broadcast(s, q).th[t] == Signalling(s, t, WaitsOn(s, t, c))
    {
      BroadcastThread(s, q, t);
    }
  }

  // ---------- mutexes ----------

  ghost predicate WaitsForLock(s: State, t: Tid, m: MutexId) {
    t in s.th && s.th[t].call == Lock(m) && s.th[t].state.LockWait?
  }

  /** A mutex without an owner has nobody waiting for it. */
  lemma FreeMutexHasNoWaiters(s: State, m: MutexId, t: Tid)
    requires Inv(s) && m in s.locks && s.locks[m].owner == None
    ensures !WaitsForLock(s, t, m)
  {
    if t in s.th {
      assert ThreadOk(s, t);
    }
    assert MutexOk(s, m);
  }

  lemma {:induction false} UnlockPicksFirst(s: State, m: MutexId, q: seq<Tid>)
    requires m in s.locks
    ensures var i := First(s, q, LockWait); Unlock(s, m, q) == if i < |q| then HandOver(s, m, q[i])
        else SetOwner(s, m, None)
    decreases q
  {
    if q != [] {
      UnlockPicksFirst(s, m, q[1..]);
    }
  }

  lemma LockWaitersAreQueued(s: State, m: MutexId)
    requires Core(s) && m in s.locks
    ensures forall t :: WaitsForLock(s, t, m) <==> t in s.locks[m].waitQ && t in s.th && s.th[t].state.LockWait?
  {
    forall t | t in s.th
      ensures t in s.locks[m].waitQ <==> s.th[t].call == Lock(m)
    {
      assert ThreadOk(s, t);
    }
  }

  lemma EarliestIsFirst(s: State, q: seq<Tid>, m: MutexId, i: nat)
    requires InOrder(s, q) && i < |q| && (forall t :: WaitsForLock(s, t, m) ==> t in q)
    requires forall j :: 0 <= j < i && q[j] in s.th ==> !s.th[q[j]].state.LockWait?
    ensures forall u :: WaitsForLock(s, u, m) && u != q[i] ==> s.th[q[i]].since < s.th[u].since
  {
    forall u | WaitsForLock(s, u, m) && u != q[i]
      ensures s.th[q[i]].since < s.th[u].since
    {
      var k :| 0 <= k < |q| && q[k] == u;
    }
  }

  /** `st_mutex_unlock` by the owner hands the mutex to the earliest waiter not yet interrupted. */
  lemma UnlockHandsToEarliest(s: State, m: MutexId)
    requires Inv(s) && m in s.locks
    ensures var s' := Unlock(s, m, s.locks[m].waitQ);
      if exists t :: WaitsForLock(s, t, m)
      then exists t :: WaitsForLock(s, t, m) && s' == HandOver(s, m, t)
             && forall u :: WaitsForLock(s, u, m) && u != t ==> s.th[t].since < s.th[u].since
      else s' == SetOwner(s, m, None)
  {
    hide Side, Unlock, HandOver, SetOwner, ThreadOk, QueuesOk, WaitsForLock;
    assert MutexOk(s, m);
    var q := s.locks[m].waitQ;
    var i := First(s, q, LockWait);
    LockWaitersAreQueued(s, m);
    UnlockPicksFirst(s, m, q);
    hide Core, MutexOk;
    if i < |q| {
      assert WaitsForLock(s, q[i], m);
      EarliestIsFirst(s, q, m, i);
    }
  }

  /** A thread that blocked in `st_mutex_lock` gets 0 iff it owns the mutex, in whatever order
      the hand-off and interrupts came; a hand-off is never lost to an interrupt. */
  lemma BlockedLockResult(s: State, m: MutexId)
    requires Inv(s) && Enabled(s, Resume) && Me(s).call == Lock(m)
    ensures var (s', out) := Resumed(s);
      && out.Returns? && (out.r == Ok(0) <==> s'.locks[m].owner == s.cur) && (out.r == Ok(0) || out.r == EINTR)
      && s'.locks[m].owner == s.locks[m].owner && s.cur.value !in s'.locks[m].waitQ
      && (out.r == Ok(0) <==> Me(s).wake.Handed?) && (out.r == Ok(0) ==> s'.th[s.cur.value].intr == Me(s).intr)
  {
    RunningMe(s);
    assert MutexOk(s, m);
    RemoveKeepsOrder(s, s.locks[m].waitQ, s.cur.value);
  }

  /** A call of `st_mutex_lock` that returns at once gives 0 iff the caller then owns the mutex,
      exactly when the caller did not own it before. */
  lemma LockResultIffOwner(s: State, m: MutexId)
    requires Inv(s) && Enabled(s, LockCall(m)) && Apply(s, LockCall(m), true).1.Returns?
    ensures var (s', out) := Apply(s, LockCall(m), true);
      (out.r == Ok(0) <==> s'.locks[m].owner == s.cur) <==> s.locks[m].owner != s.cur
  {
    RunningMe(s);
  }

  /** Locking twice fails although the caller owns the mutex. */
  lemma LockTwice(clock: nat, size: nat)
    ensures var s := Apply(Apply(Initial(clock, size), NewMutex(0), true).0, LockCall(0), true);
      && s.1 == Returns(Ok(0)) && Enabled(s.0, LockCall(0))
      && Apply(s.0, LockCall(0), true).1 == Returns(EDEADLK) && s.0.locks[0].owner == s.0.cur
  {
    var s0 := Initial(clock, size);
    assert UserRuns(s0);
    var s1 := Apply(s0, NewMutex(0), true).0;
    assert UserRuns(s1) && 0 in s1.locks;
  }

  // ---------- stacks ----------

  /** A new thread never gets the stack of a live thread, nor one that is too small, and when
      free stacks are released none of them is in use. */
  lemma CreateUsesFreeStack(s: State, joinable: bool, size: nat, cached: bool)
    requires Inv(s) && UserRuns(s)
    ensures var s' := Create(s, joinable, size, cached); var stack := s'.th[s.nextTid].stack;
      && stack.Some? && stack.value.size >= size
      && (forall t: Tid :: t in s.th ==> !StackId(s, t, stack.value.id))
      && (forall x :: x in s.freeStacks && (x !in s'.freeStacks) ==> forall t: Tid :: !StackId(s, t, x.id))
  {
    FitIsBigEnough(s.freeStacks, size);
    forall x | x in s.freeStacks
      ensures forall t: Tid :: !StackId(s, t, x.id)
    {
      var i :| 0 <= i < |s.freeStacks| && s.freeStacks[i] == x;
    }
  }
}
