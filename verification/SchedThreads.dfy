/**
 What the calls that start, stop and take turns between threads do, in terms of the threads and queues themselves:
 yields, the idle thread, joins, creation and exit, and the run queue as a whole.
 */
module SchedThreads {
  import opened Options
  import opened SchedState
  import opened SchedApi
  import opened SchedInv
  import opened SchedRuns
  import opened SchedSteps
  import opened SchedWhole
  import opened SchedTheorems
  import opened SchedHistory
  import opened SchedSleep
  import opened SchedIo
  import opened SchedFlags
  import opened SchedResults

  // ---------- the clock ----------

  /** t sleeps and is due. */
  ghost predicate IsDue(s: State, t: Tid, now: nat) {
    t in s.sleepQ && t in s.th && s.th[t].due <= now
  }

  /** r was due: its thread is ready, and timed out if it waited for a condition. */
  ghost predicate WasDue(r: Thread, r': Thread, now: nat) {
    r' == r.(state := Runnable, onSleepQ := false, wake := Expired(now), timedOut := r.state.CondWait?)
  }

  /** b is s once the clock was checked: the threads that were due, in the order first, are at the head of the run
      queue, the one due first behind the others. */
  ghost predicate ClockSeen(s: State, b: State, now: nat, order: seq<Tid>) {
    && b == s.(th := b.th, runQ := Reversed(order) + s.runQ, sleepQ := b.sleepQ, clock := now)
    && b.th.Keys == s.th.Keys
    && (forall t :: t in s.th && IsDue(s, t, now) ==> WasDue(s.th[t], b.th[t], now))
    && (forall t :: t in s.th && !IsDue(s, t, now) ==> b.th[t] == s.th[t])
    && (forall t :: t in b.sleepQ <==> t in s.sleepQ && !IsDue(s, t, now))
  }

  lemma {:induction false} ExpireFrame(s: State, order: seq<Tid>)
    ensures var b := Expire(s, order); b == s.(th := b.th, runQ := b.runQ, sleepQ := b.sleepQ)
    ensures Expire(s, order).th.Keys == s.th.Keys
    decreases order
  {
    if order != [] {
      ExpireFrame(if order[0] in s.th then WakeUp(s, order[0], Expired(s.clock), true) else s, order[1..]);
    }
  }

  lemma {:induction false} ExpireSleepers(s: State, order: seq<Tid>, t: Tid)
    requires forall u :: u in order ==> u in s.th
    ensures t in Expire(s, order).sleepQ <==> t in s.sleepQ && t !in order
    decreases order
  {
    if order != [] {
      ExpireSleepers(WakeUp(s, order[0], Expired(s.clock), true), order[1..], t);
    }
  }

  lemma SleeperNotTimedOut(s: State, t: Tid)
    requires Core(s) && t in s.sleepQ
    ensures t in s.th && !s.th[t].timedOut
  {
    assert ThreadOk(s, t);
  }

  lemma DueThread(s: State, now: nat, order: seq<Tid>, t: Tid)
    requires Core(s) && ExpiryOrder(s, now, order) && t in s.th
    ensures var b := CheckClock(s, now, order);
      && t in b.th && (IsDue(s, t, now) ==> WasDue(s.th[t], b.th[t], now))
      && (!IsDue(s, t, now) ==> b.th[t] == s.th[t])
  {
    ExpireThread(s.(clock := now), order, t);
    if t in s.sleepQ {
      SleeperNotTimedOut(s, t);
    }
    hide Core, Expire, NoDup;
  }

  lemma ClockIsSeen(s: State, now: nat, order: seq<Tid>)
    requires Core(s) && ExpiryOrder(s, now, order)
    ensures ClockSeen(s, CheckClock(s, now, order), now, order)
  {
    var c, b := s.(clock := now), CheckClock(s, now, order);
    ExpireRunQ(c, order);
    ExpireFrame(c, order);
    assert b == s.(th := b.th, runQ := Reversed(order) + s.runQ, sleepQ := b.sleepQ, clock := now);
    hide Core, WasDue, NoDup, Reversed;
    forall t: Tid
      ensures t in b.sleepQ <==> t in s.sleepQ && !IsDue(s, t, now)
    {
      ExpireSleepers(c, order, t);
    }
    hide Expire, CheckClock, ExpiryOrder;
    forall t | t in s.th
      ensures IsDue(s, t, now) ==> WasDue(s.th[t], b.th[t], now)
      ensures !IsDue(s, t, now) ==> b.th[t] == s.th[t]
    {
      DueThread(s, now, order, t);
    }
  }

  // ---------- taking turns ----------

  /** From b, where nobody runs, the processor goes to the head of the run queue, or else to the idle thread. */
  ghost predicate RunsNext(b: State, s': State) {
    var n := if b.runQ == [] then b.idle else b.runQ[0];
    && n in b.th
    && s' == b.(th := b.th[n := b.th[n].(state := Running)], cur := Some(n),
                runQ := if b.runQ == [] then [] else b.runQ[1..])
  }

  lemma ScheduleRunsNext(b: State)
    requires if b.runQ == [] then b.idle in b.th else b.runQ[0] in b.th
    ensures RunsNext(b, Schedule(b))
  {
  }

  lemma NextExists(b: State)
    requires Core(b)
    ensures if b.runQ == [] then b.idle in b.th else b.runQ[0] in b.th
  {
  }

  /** Once the clock was checked at b, the caller goes on iff nobody is ready; else it stands in line behind those
      who are, and the first of them runs. */
  ghost predicate Yields(b: State, s': State, out: Outcome, me: Tid)
    requires me in b.th
  {
    var inLine := b.(th := b.th[me := b.th[me].(state := Runnable, call := Yield)], cur := None, runQ := b.runQ + [me]);
    if b.runQ == [] then out == Returns(Ok(0)) && s' == b else out == Switches && RunsNext(inLine, s')
  }

  /** `st_thread_yield` */
  lemma YieldResult(s: State, now: nat, order: seq<Tid>, cached: bool)
    requires Inv(s) && Enabled(s, YieldCall(now, order))
    ensures var (s', out) := Apply(s, YieldCall(now, order), cached);
      exists b :: ClockSeen(s, b, now, order) && s.cur.value in b.th && Yields(b, s', out, s.cur.value)
  {
    hide Inv, CheckClock, ExpiryOrder, ClockSeen, Yields;
    var b := CheckClock(s, now, order);
    YieldClock(s, now, order);
    YieldsFrom(s, b, now, order);
    assert Yields(b, YieldStart(s, now, order).0, YieldStart(s, now, order).1, s.cur.value);
  }

  lemma YieldClock(s: State, now: nat, order: seq<Tid>)
    requires Inv(s) && UserRuns(s) && ExpiryOrder(s, now, order)
    ensures var b := CheckClock(s, now, order); ClockSeen(s, b, now, order) && UserRuns(b) && b.cur == s.cur && Core(b)
  {
    CheckClockKeeps(s, now, order);
    ClockIsSeen(s, now, order);
    RunningMe(s);
    var me := s.cur.value;
    assert !IsDue(s, me, now);
    hide Core, Side, CheckClock, ExpiryOrder;
  }

  lemma YieldsFrom(s: State, b: State, now: nat, order: seq<Tid>)
    requires UserRuns(s) && b == CheckClock(s, now, order) && UserRuns(b) && b.cur == s.cur && Core(b)
    ensures Yields(b, YieldStart(s, now, order).0, YieldStart(s, now, order).1, s.cur.value)
  {
    hide CheckClock, Schedule, RunsNext;
    NextExists(b);
    hide Core;
    if b.runQ != [] {
      ScheduleRunsNext(YieldOver(b));
    }
  }

  /** After the yield the caller goes on as before, an interrupt that came meanwhile still pending. */
  lemma YieldReturns(s: State, cached: bool)
    requires Inv(s) && Enabled(s, Resume) && Me(s).call.Yield?
    ensures var (s', out) := Apply(s, Resume, cached); var me := s.cur.value;
      out == Returns(Ok(0)) && s' == s.(th := s.th[me := s.th[me].(call := NoCall, wake := Nothing)])
  {
    RunningMe(s);
  }

  // ---------- the idle thread ----------

  /** t waits for descriptors, and some are ready. */
  ghost predicate HasNews(s: State, t: Tid, ready: map<Tid, nat>) {
    t in s.ioQ && t in ready
  }

  /** r was told the number n. */
  ghost predicate WasTold(r: Thread, r': Thread, n: nat) {
    r' == r.(state := Runnable, onSleepQ := false, wake := Ready(n), call := Poll(false))
  }

  /** d is s once the event system has reported: whoever has news was told, left the io queue and is ready, in the
      order of the io queue. */
  ghost predicate Reported(s: State, d: State, ready: map<Tid, nat>) {
    && d == s.(th := d.th, runQ := s.runQ + Notifies(s, s.ioQ, ready), sleepQ := d.sleepQ, ioQ := Unready(s.ioQ, ready))
    && d.th.Keys == s.th.Keys
    && (forall t :: t in s.th && HasNews(s, t, ready) ==> WasTold(s.th[t], d.th[t], ready[t]))
    && (forall t :: t in s.th && !HasNews(s, t, ready) ==> d.th[t] == s.th[t])
    && (forall t :: t in d.sleepQ <==> t in s.sleepQ && !HasNews(s, t, ready))
  }

  lemma {:induction false} DispatchFrame(s: State, q: seq<Tid>, ready: map<Tid, nat>)
    ensures var d := Dispatch(s, q, ready); d == s.(th := d.th, runQ := d.runQ, sleepQ := d.sleepQ, ioQ := d.ioQ)
    decreases q
  {
    if q != [] {
      DispatchFrame(if q[0] in ready && q[0] in s.th then WakeUp(s, q[0], Ready(ready[q[0]]), false) else s, q[1..], ready);
    }
  }

  lemma {:induction false} DispatchRunQ(s: State, q: seq<Tid>, ready: map<Tid, nat>)
    ensures Dispatch(s, q, ready).runQ == s.runQ + Notifies(s, q, ready)
    decreases q
  {
    if q != [] {
      var rest := Notifies(s, q[1..], ready);
      if q[0] in ready && q[0] in s.th {
        var s1 := WakeUp(s, q[0], Ready(ready[q[0]]), false);
        assert s1.runQ == s.runQ + [q[0]] && s1.th.Keys == s.th.Keys;
        SameNotifies(s, s1, q[1..], ready);
        assert Dispatch(s, q, ready) == Dispatch(s1, q[1..], ready);
        assert Notifies(s, q, ready) == [q[0]] + rest;
        hide WakeUp, Dispatch, Notifies;
        DispatchRunQ(s1, q[1..], ready);
        assert s.runQ + [q[0]] + rest == s.runQ + ([q[0]] + rest);
      } else {
        DispatchRunQ(s, q[1..], ready);
        assert [] + rest == rest;
      }
    }
  }

  lemma DispatchIsReported(s: State, ready: map<Tid, nat>)
    requires Core(s)
    ensures Reported(s, Dispatch(s, s.ioQ, ready), ready)
  {
    var d := Dispatch(s, s.ioQ, ready);
    hide Core;
    DispatchFrame(s, s.ioQ, ready);
    DispatchRunQ(s, s.ioQ, ready);
    DispatchIo(s, ready);
    DispatchKeys(s, s.ioQ, ready);
    hide Dispatch, Notifies, Unready, WasTold;
    var q := s.runQ + Notifies(s, s.ioQ, ready);
    assert d == s.(th := d.th, runQ := q, sleepQ := d.sleepQ, ioQ := Unready(s.ioQ, ready));
    forall t | t in s.th
      ensures HasNews(s, t, ready) ==> WasTold(s.th[t], d.th[t], ready[t])
      ensures !HasNews(s, t, ready) ==> d.th[t] == s.th[t]
    {
      ToldThread(s, ready, t);
    }
    forall t: Tid
      ensures t in d.sleepQ <==> t in s.sleepQ && !HasNews(s, t, ready)
    {
      ToldSleepers(s, ready, t);
    }
  }

  lemma ToldThread(s: State, ready: map<Tid, nat>, t: Tid)
    requires Core(s) && t in s.th
    ensures var d := Dispatch(s, s.ioQ, ready);
      && t in d.th && (HasNews(s, t, ready) ==> WasTold(s.th[t], d.th[t], ready[t]))
      && (!HasNews(s, t, ready) ==> d.th[t] == s.th[t])
  {
    DispatchThread(s, s.ioQ, ready, t);
    hide Core, Dispatch;
  }

  lemma ToldSleepers(s: State, ready: map<Tid, nat>, t: Tid)
    requires Core(s)
    ensures t in Dispatch(s, s.ioQ, ready).sleepQ <==> t in s.sleepQ && !HasNews(s, t, ready)
  {
    DispatchLess(s, s.ioQ, ready);
    NotifiesAre(s, s.ioQ, ready, t);
    assert HasNews(s, t, ready) ==> t in s.th;
    hide Core, Dispatch, Notifies;
  }

  /** The idle thread has the event system report, checks the clock, and yields. */
  lemma IdleTurnResult(s: State, ready: map<Tid, nat>, now: nat, order: seq<Tid>, cached: bool)
    requires Inv(s) && Enabled(s, IdleTurn(ready, now, order))
    ensures var (s', out) := Apply(s, IdleTurn(ready, now, order), cached);
      && out == Switches
      && exists d, b :: Reported(s, d, ready) && ClockSeen(d, b, now, order) && IdleYields(b, s')
  {
    hide Inv, Dispatch, CheckClock, ExpiryOrder, Reported, ClockSeen, Idle, IdleYields;
    IdleTurnIs(s, ready, now, order);
    var d := Dispatch(s, s.ioQ, ready);
    var b := CheckClock(d, now, order);
    assert Reported(s, d, ready) && ClockSeen(d, b, now, order) && IdleYields(b, Idle(s, ready, now, order));
  }

  /** The idle thread is ready again, outside the run queue, and the next thread runs. */
  ghost predicate IdleYields(b: State, s': State) {
    b.idle in b.th && RunsNext(b.(th := b.th[b.idle := b.th[b.idle].(state := Runnable)], cur := None), s')
  }

  lemma IdleIsReported(s: State, ready: map<Tid, nat>)
    requires Inv(s) && s.cur == Some(s.idle) && forall t :: t in ready ==> ready[t] >= 1
    ensures var d := Dispatch(s, s.ioQ, ready); Reported(s, d, ready) && Core(d) && Side(d)
  {
    hide Dispatch, Reported;
    forall t | t in s.ioQ
      ensures t in s.th && s.th[t].state.IoWait? && s.th[t].wake.Waiting?
    {
      IdleSeesOnlyWaiters(s, t);
    }
    hide ThreadOk, WaitersOk;
    DispatchKeeps(s, s.ioQ, ready);
    DispatchIsReported(s, ready);
  }

  lemma IdleTurnIs(s: State, ready: map<Tid, nat>, now: nat, order: seq<Tid>)
    requires Inv(s) && Enabled(s, IdleTurn(ready, now, order))
    ensures var d := Dispatch(s, s.ioQ, ready); var b := CheckClock(d, now, order);
      && Reported(s, d, ready) && ClockSeen(d, b, now, order) && Core(b)
      && IdleYields(b, Idle(s, ready, now, order))
  {
    hide Inv, Dispatch, CheckClock, ExpiryOrder, Reported, ClockSeen, Core, Side;
    var d := Dispatch(s, s.ioQ, ready);
    IdleIsReported(s, ready);
    CheckClockKeeps(d, now, order);
    ClockIsSeen(d, now, order);
    IdleYieldsOn(CheckClock(d, now, order));
  }

  lemma IdleYieldsOn(b: State)
    requires Core(b)
    ensures b.idle in b.th && IdleYields(b, Schedule(IdleYield(b)))
  {
    NextExists(b);
    hide Core, Schedule, RunsNext;
    ScheduleRunsNext(IdleYield(b));
  }

  // ---------- joins ----------

  /** The zombie t left its queue and is ready to finish, last of all. */
  ghost predicate Reaped(s: State, s': State, t: Tid)
    requires t in s.th
  {
    s' == s.(th := s.th[t := s.th[t].(state := Runnable, wake := Joined)], zombieQ := Remove(s.zombieQ, t),
             runQ := s.runQ + [t])
  }

  lemma ReapIs(s: State, t: Tid)
    requires t in s.th && !s.th[t].onSleepQ && t !in s.sleepQ
    ensures Reaped(s, Reap(s, t).0, t) && Reap(s, t).1 == Returns(Ok(0))
  {
    assert s.sleepQ - {t} == s.sleepQ;
  }

  lemma ZombieSleepsNot(s: State, t: Tid)
    requires Core(s) && t in s.th && s.th[t].state.Zombie?
    ensures !s.th[t].onSleepQ && t !in s.sleepQ
  {
    assert ThreadOk(s, t);
  }

  /** t may be joined: somebody else may wait for its end, and nobody does yet. */
  ghost predicate MayJoin(s: State, t: Tid)
    requires s.cur.Some? && t in s.th && (s.th[t].joinable ==> Term(t) in s.conds)
  {
    s.th[t].joinable && t != s.cur.value && s.conds[Term(t)] == []
  }

  /** The caller waits for the end of t. */
  ghost predicate WaitsForEnd(s: State, s': State, t: Tid)
    requires s.cur.Some? && s.cur.value in s.th
  {
    && Waits(s, s', Cond(Term(t)), Status.CondWait, None) && s'.conds == s.conds[Term(t) := [s.cur.value]]
    && s' == s.(th := s'.th, cur := s'.cur, runQ := s'.runQ, tick := s'.tick, conds := s'.conds)
  }

  /** `st_thread_join` refuses a thread that cannot be joined or that somebody waits for, and oneself. */
  lemma JoinRefused(s: State, t: Tid, cached: bool)
    requires Enabled(s, JoinCall(t))
    ensures var (s', out) := Apply(s, JoinCall(t), cached); var j := s.th[t].joinable;
      && (out == Returns(EINVAL) <==> !j || (t != s.cur.value && s.conds[Term(t)] != []))
      && (out == Returns(EDEADLK) <==> j && t == s.cur.value)
      && (!MayJoin(s, t) ==> s' == s && (out == Returns(EINVAL) || out == Returns(EDEADLK)))
  {
    hide Park, Schedule, WakeUp;
  }

  /** Any other thread is let go if it is a zombie, and else the caller waits for its end, unless interrupted. */
  lemma JoinResult(s: State, t: Tid, cached: bool)
    requires Inv(s) && Enabled(s, JoinCall(t)) && MayJoin(s, t)
    ensures var (s', out) := Apply(s, JoinCall(t), cached); var me := s.cur.value; var z := s.th[t].state.Zombie?;
      && (z ==> out == Returns(Ok(0)) && Reaped(s, s', t))
      && (!z && s.th[me].intr ==> out == Returns(EINTR) && s' == s.(th := s.th[me := s.th[me].(intr := false)]))
      && (!z && !s.th[me].intr ==> out == Switches && WaitsForEnd(s, s', t))
  {
    hide Inv, Reap, Reaped, Schedule, Park, WaitsForEnd;
    if s.th[t].state.Zombie? {
      ZombieReaped(s, t);
    } else {
      JoinWaits(s, t);
    }
  }

  lemma ZombieReaped(s: State, t: Tid)
    requires Inv(s) && t in s.th && s.th[t].state.Zombie?
    ensures Reaped(s, Reap(s, t).0, t) && Reap(s, t).1 == Returns(Ok(0))
  {
    ZombieSleepsNot(s, t);
    hide Inv;
    ReapIs(s, t);
    hide Reap, Reaped;
  }

  lemma JoinWaits(s: State, t: Tid)
    requires Inv(s) && UserRuns(s) && Term(t) in s.conds && s.conds[Term(t)] == []
    ensures WaitsForEnd(s, Schedule(Park(s, Cond(Term(t)), Status.CondWait, None)), t)
  {
    hide Inv, Schedule, Waits, OtherIsNext;
    NextIsOther(s);
    ParkWaits(s, Cond(Term(t)), Status.CondWait, None);
    assert [] + [s.cur.value] == [s.cur.value];
  }

  /** The state once the caller has left the call in which it waited for the condition c. */
  ghost function Left(s: State, c: CondId): State
    requires s.cur.Some? && s.cur.value in s.th && c in s.conds
  {
    var me := s.cur.value;
    s.(th := s.th[me := s.th[me].(call := NoCall, wake := Nothing, timedOut := false, intr := false)],
       conds := s.conds[c := Remove(s.conds[c], me)])
  }

  /** The joiner goes on: it was interrupted, or it lets go the zombie for whose end it was told. */
  lemma JoinResumes(s: State, t: Tid, cached: bool)
    requires Inv(s) && Enabled(s, Resume) && Me(s).call == Cond(Term(t))
    ensures var (s', out) := Apply(s, Resume, cached); var r := Me(s);
      && (r.intr ==> out == Returns(EINTR) && s' == Left(s, Term(t)))
      && (!r.intr && r.wake.Expired? ==> out == Returns(ETIME) && s' == Left(s, Term(t)))
      && (!r.intr && !r.wake.Expired? ==> r.wake.Signalled? && out == Returns(Ok(0)) && LetsGo(s, s', t))
  {
    hide Inv, Resumed, Left, LetsGo;
    JoinWake(s, t);
    if CondResult(Me(s)) == Ok(0) {
      JoinEnds(s, t);
    } else {
      JoinFails(s, t);
    }
  }

  lemma JoinWake(s: State, t: Tid)
    requires Inv(s) && Enabled(s, Resume) && Me(s).call == Cond(Term(t))
    ensures Me(s).wake.Signalled? || Me(s).wake.Expired? || Me(s).intr
    ensures Me(s).timedOut <==> Me(s).wake.Expired?
  {
    RunningMe(s);
  }

  lemma JoinFails(s: State, t: Tid)
    requires Enabled(s, Resume) && Me(s).call == Cond(Term(t)) && CondResult(Me(s)) != Ok(0)
    ensures Resumed(s) == (Left(s, Term(t)), Returns(CondResult(Me(s))))
  {
    LeftIs(s, t);
    hide Return, Left, Reap;
  }

  /** The caller leaves its call, and t, a zombie, may finish. */
  ghost predicate LetsGo(s: State, s': State, t: Tid)
    requires CanReturn(s) && Me(s).call == Cond(Term(t))
  {
    t in s.th && s.th[t].state.Zombie? && t in Left(s, Term(t)).th && Reaped(Left(s, Term(t)), s', t)
  }

  lemma JoinEnds(s: State, t: Tid)
    requires Inv(s) && Enabled(s, Resume) && Me(s).call == Cond(Term(t)) && CondResult(Me(s)) == Ok(0)
    ensures Resumed(s).1 == Returns(Ok(0)) && LetsGo(s, Resumed(s).0, t)
  {
    SignalledJoinerFindsZombie(s);
    ZombieSleepsNot(s, t);
    ResumedJoin(s);
    LeftIs(s, t);
    hide Inv, Resumed, Return, Reaped, Left;
    ReapIs(Left(s, Term(t)), t);
    hide Reap;
  }

  lemma LeftIs(s: State, t: Tid)
    requires CanReturn(s) && Me(s).call == Cond(Term(t))
    ensures Return(s, false) == Left(s, Term(t))
    ensures t in s.th && t != s.cur.value ==> t in Left(s, Term(t)).th && Left(s, Term(t)).th[t] == s.th[t]
    ensures Left(s, Term(t)).sleepQ == s.sleepQ
  {
  }

  // ---------- creation ----------

  /** The first free stack that is big enough. */
  ghost predicate FirstFit(q: seq<Stack>, i: nat, size: nat) {
    i < |q| && q[i].size >= size && forall k :: 0 <= k < i ==> q[k].size < size
  }

  /** The stack at i was taken from the list. */
  ghost predicate Taken(q: seq<Stack>, q': seq<Stack>, i: nat, ts: Stack) {
    i < |q| && ts == q[i] && q' == q[..i] + q[i + 1..]
  }

  ghost predicate SomeFits(q: seq<Stack>, size: nat) {
    exists i :: 0 <= i < |q| && q[i].size >= size
  }

  /** A cached stack is used again when one is big enough; else the stack is new, and without a cache every free
      stack goes. */
  ghost predicate StackIsFrom(s: State, s': State, ts: Stack, size: nat, cached: bool) {
    var q := s.freeStacks;
    if cached && SomeFits(q, size)
    then s'.nextStack == s.nextStack && exists i: nat :: FirstFit(q, i, size) && Taken(q, s'.freeStacks, i, ts)
    else ts == Stack(s.nextStack, size) && s'.nextStack == s.nextStack + 1 && s'.freeStacks == if cached then q else []
  }

  /** `st_thread_create`: a new thread is ready, last of all; nobody yet waits for the end of a joinable one. */
  lemma CreateResult(s: State, joinable: bool, size: nat, cached: bool)
    requires Inv(s) && Enabled(s, CreateCall(joinable, size))
    ensures s.nextTid !in s.th
    ensures var (s', out) := Apply(s, CreateCall(joinable, size), cached); var t := s.nextTid;
      && out == Returns(Ok(0)) && t in s'.th && s'.th[t].stack.Some?
      && s'.th == s.th[t := Thread(Runnable, false, false, false, 0, NoCall, Nothing, 0, joinable, s'.th[t].stack)]
      && StackIsFrom(s, s', s'.th[t].stack.value, size, cached)
      && s'.conds == (if joinable then s.conds[Term(t) := []] else s.conds)
      && s' == s.(th := s'.th, nextTid := t + 1, active := s.active + 1, runQ := s.runQ + [t], conds := s'.conds,
                  freeStacks := s'.freeStacks, nextStack := s'.nextStack)
  {
    NextTidIsNew(s);
    hide Inv;
    StackOfNew(s, joinable, size, cached);
    hide Fit, StackIsFrom;
  }

  lemma StackOfNew(s: State, joinable: bool, size: nat, cached: bool)
    ensures var s' := Create(s, joinable, size, cached); var t := s.nextTid;
      t in s'.th && s'.th[t].stack.Some? && StackIsFrom(s, s', s'.th[t].stack.value, size, cached)
  {
    FitIsFirst(s.freeStacks, size);
    hide Fit, SomeFits;
  }

  lemma FitIsFirst(q: seq<Stack>, size: nat)
    ensures Fit(q, size).Some? ==> FirstFit(q, Fit(q, size).value, size)
    ensures Fit(q, size).Some? <==> SomeFits(q, size)
  {
    FitIsBigEnough(q, size);
  }

  // ---------- the end of a thread ----------

  /** The caller is a zombie, last of all, and counts as active no longer. */
  ghost predicate Stopped(s: State, p: State)
    requires s.cur.Some? && s.cur.value in s.th
  {
    var me := s.cur.value;
    && me in p.th && StartsToWait(s, p.th[me], Exit, Zombie, None)
    && p == s.(th := s.th[me := p.th[me]], cur := None, tick := s.tick + 1, active := s.active - 1,
               zombieQ := s.zombieQ + [me])
  }

  /** The one thread of q, if there is one and it still waits, was told. */
  ghost predicate JoinerTold(p: State, b: State, q: seq<Tid>) {
    if |q| == 1 && q[0] in p.th && p.th[q[0]].state.CondWait? then SignalledLast(p, b, q[0]) else b == p
  }

  /** The stack of a thread that is gone is free, the last but one of the free stacks. */
  ghost predicate StackIsBack(q: seq<Stack>, q': seq<Stack>, stack: Option<Stack>) {
    var i := if q == [] then 0 else |q| - 1;
    if stack.None? then q' == q
    else |q'| == |q| + 1 && q'[i] == stack.value && q'[..i] == q[..i] && q'[i + 1..] == q[i..]
  }

  /** The caller is gone, its stack is free, and so is the condition for its end when nobody waits for it. */
  ghost predicate Gone(s: State, b: State, active: int)
    requires s.cur.Some? && s.cur.value in s.th
  {
    var me := s.cur.value;
    && b == s.(th := s.th - {me}, cur := None, active := active, conds := b.conds, freeStacks := b.freeStacks)
    && StackIsBack(s.freeStacks, b.freeStacks, s.th[me].stack)
    && b.conds == if Term(me) in s.conds && s.conds[Term(me)] == [] then s.conds - {Term(me)} else s.conds
  }

  /** `st_thread_exit`: a joinable thread becomes a zombie and its joiner is told; any other is gone. */
  lemma ExitResult(s: State, cached: bool)
    requires Inv(s) && Enabled(s, ExitCall)
    ensures var (s', out) := Apply(s, ExitCall, cached); var c := Term(s.cur.value);
      && out == Switches
      && (Me(s).joinable ==>
            c in s.conds && exists p, b :: Stopped(s, p) && JoinerTold(p, b, s.conds[c]) && RunsNext(b, s'))
      && (!Me(s).joinable ==> exists b :: Gone(s, b, s.active - 1) && RunsNext(b, s'))
  {
    hide Inv, Stopped, JoinerTold, Gone, RunsNext, Park, Signal, Bury, Schedule;
    if Me(s).joinable {
      ExitStops(s);
    } else {
      DiesNow(s);
      hide CanDie;
      BuryGoes(s);
    }
  }

  lemma ExitStops(s: State)
    requires Inv(s) && UserRuns(s) && Me(s).joinable
    ensures Term(s.cur.value) in s.conds
    ensures var p := Park(s, Exit, Zombie, None); var b := Signal(p, s.conds[Term(s.cur.value)]);
      Stopped(s, p) && JoinerTold(p, b, s.conds[Term(s.cur.value)]) && RunsNext(b, Schedule(b))
  {
    hide Stopped, JoinerTold, RunsNext, Schedule, Core;
    var me := s.cur.value;
    RunningMe(s);
    StoppedIs(s);
    var p := Park(s, Exit, Zombie, None);
    var q := s.conds[Term(me)];
    ZombieKeeps(s);
    hide Inv, Park, Signal;
    JoinerIsTold(p, q);
    NextExists(Signal(p, q));
    ScheduleRunsNext(Signal(p, q));
  }

  lemma ZombieKeeps(s: State)
    requires Inv(s) && UserRuns(s) && Me(s).joinable
    ensures Term(s.cur.value) in s.conds && |s.conds[Term(s.cur.value)]| <= 1
    ensures var b := Signal(Park(s, Exit, Zombie, None), s.conds[Term(s.cur.value)]); Core(b)
  {
    var me := s.cur.value;
    RunningMe(s);
    var p := Park(s, Exit, Zombie, None);
    ParkKeepsCore(s, Exit, Zombie, None);
    QueueIsOn(p, Term(me));
    SignalKeepsCore(p, p.conds[Term(me)], Term(me));
  }

  lemma StoppedIs(s: State)
    requires UserRuns(s) && !Me(s).onSleepQ
    ensures Stopped(s, Park(s, Exit, Zombie, None))
  {
    ParkIs(s, Exit, Zombie, None);
  }

  lemma JoinerIsTold(p: State, q: seq<Tid>)
    requires |q| <= 1
    ensures JoinerTold(p, Signal(p, q), q)
  {
    SignalAtMostOne(p, q);
  }

  lemma BuryIs(s: State)
    requires s.cur.Some? && s.cur.value in s.th
    ensures Gone(s, Bury(s), if Me(s).call.Exit? then s.active else s.active - 1)
  {
  }

  lemma BuryGoes(s: State)
    requires Inv(s) && CanDie(s)
    ensures Gone(s, Bury(s), if Me(s).call.Exit? then s.active else s.active - 1)
    ensures RunsNext(Bury(s), Schedule(Bury(s)))
  {
    hide RunsNext, Gone, Schedule, Bury, Side, Core;
    BuryIs(s);
    BuryKeepsCore(s);
    NextExists(Bury(s));
    ScheduleRunsNext(Bury(s));
  }

  lemma DiesNow(s: State)
    requires Inv(s) && (UserRuns(s) || (Enabled(s, Resume) && Me(s).call.Exit?))
    ensures CanDie(s)
  {
    RunningMe(s);
  }

  /** A zombie that was let go is gone when it runs again. */
  lemma ExitEnds(s: State, cached: bool)
    requires Inv(s) && Enabled(s, Resume) && Me(s).call.Exit?
    ensures var (s', out) := Apply(s, Resume, cached);
      out == Switches && exists b :: Gone(s, b, s.active) && RunsNext(b, s')
  {
    hide Inv, CanDie, RunsNext, Gone, Schedule, Bury, Return, Reap, Park;
    DiesNow(s);
    BuryGoes(s);
  }

  // ---------- the run queue ----------

  /** The first of q that waits for a mutex. */
  ghost function FirstLocker(s: State, q: seq<Tid>): seq<Tid> {
    if q == [] then [] else if q[0] in s.th && s.th[q[0]].state.LockWait? then [q[0]] else FirstLocker(s, q[1..])
  }

  /** Whom an event makes ready, in order. */
  ghost function Arrivals(s: State, e: Event): seq<Tid>
    requires Enabled(s, e)
  {
    match e
    case SignalCall(c, broadcast) =>
      if broadcast then StillWaiting(s, s.conds[User(c)]) else FirstWaiter(s, s.conds[User(c)])
    case UnlockCall(m) => if s.locks[m].owner == s.cur then FirstLocker(s, s.locks[m].waitQ) else []
    case InterruptCall(t) => if Blocked(s.th[t].state) then [t] else []
    case CreateCall(_, _) => [s.nextTid]
    case JoinCall(t) => if MayJoin(s, t) && s.th[t].state.Zombie? then [t] else []
    case ExitCall =>
      if Me(s).joinable && Term(s.cur.value) in s.conds then FirstWaiter(s, s.conds[Term(s.cur.value)]) else []
    case Resume =>
      var r := Me(s);
      if r.call.Cond? && r.call.c.Term? && r.wake.Signalled? && !r.intr then [r.call.c.t] else []
    case YieldCall(_, order) => if order == [] && s.runQ == [] then [] else [s.cur.value]
    case IdleTurn(ready, _, _) => Notifies(s, s.ioQ, ready)
    case _ => []
  }

  /** Those whose time has come go before everybody else, the one due first behind the others. */
  ghost function Heads(e: Event): seq<Tid> {
    match e
    case YieldCall(_, order) => Reversed(order)
    case IdleTurn(_, _, order) => Reversed(order)
    case _ => []
  }

  /** The ready threads stand in line as q: the caller goes on, or the first of them runs, or else the idle thread. */
  ghost predicate InLine(s: State, s': State, out: Outcome, q: seq<Tid>) {
    match out
    case Returns(_) => s'.runQ == q && s'.cur == s.cur
    case Switches =>
      if q == [] then s'.cur == Some(s.idle) && s'.runQ == [] else s'.cur == Some(q[0]) && s'.runQ == q[1..]
  }

  lemma WaitsInLine(s: State, s': State, call: Call, st: Status, timeout: Option<nat>)
    requires UserRuns(s) && Waits(s, s', call, st, timeout)
    ensures InLine(s, s', Switches, s.runQ)
  {
    hide StartsToWait;
  }

  lemma RunsInLine(s: State, b: State, s': State, q: seq<Tid>)
    requires RunsNext(b, s') && b.runQ == q && b.idle == s.idle
    ensures InLine(s, s', Switches, q)
  {
  }

  lemma NothingArrives(q: seq<Tid>)
    ensures [] + q + [] == q
  {
  }

  /** The calls that wait put nobody on the run queue. */
  lemma BlockingInLine(s: State, e: Event, cached: bool)
    requires Inv(s) && Enabled(s, e) && (e.PollCall? || e.UsleepCall? || e.CondWaitCall? || e.LockCall?)
    ensures var (s', out) := Apply(s, e, cached); InLine(s, s', out, s.runQ)
  {
    hide Inv, Apply, Waits;
    var s' := Apply(s, e, cached).0;
    InterruptedCall(s, e, cached);
    if !Me(s).intr {
      match e {
        case PollCall(timeout, added) =>
          SleepResult(s, e, cached);
          if added {
            WaitsInLine(s, s', Poll(true), IoWait, timeout);
          }
        case UsleepCall(timeout) =>
          SleepResult(s, e, cached);
          WaitsInLine(s, s', Usleep, if timeout.Some? then Sleeping else Suspended, timeout);
        case CondWaitCall(c, timeout) =>
          CondWaitStarts(s, c, timeout, cached);
          WaitsInLine(s, s', Cond(User(c)), Status.CondWait, timeout);
        case LockCall(m) =>
          LockResult(s, m, cached);
          if s.locks[m].owner != None && s.locks[m].owner != s.cur {
            WaitsInLine(s, s', Lock(m), LockWait, None);
          }
      }
    }
  }

  lemma {:induction false} SignalLine(s: State, q: seq<Tid>)
    ensures Signal(s, q).runQ == s.runQ + FirstWaiter(s, q) && Signal(s, q).cur == s.cur && Signal(s, q).idle == s.idle
    decreases q
  {
    if q == [] {
      assert s.runQ + [] == s.runQ;
    } else {
      SignalLine(s, q[1..]);
    }
  }

  lemma {:induction false} UnlockLine(s: State, m: MutexId, q: seq<Tid>)
    requires m in s.locks
    ensures Unlock(s, m, q).runQ == s.runQ + FirstLocker(s, q) && Unlock(s, m, q).cur == s.cur
    decreases q
  {
    if q == [] {
      assert s.runQ + [] == s.runQ;
    } else {
      UnlockLine(s, m, q[1..]);
    }
  }

  lemma BroadcastLine(s: State, c: CondId)
    requires Inv(s) && c in s.conds
    ensures Broadcast(s, s.conds[c]).runQ == s.runQ + StillWaiting(s, s.conds[c]) && Broadcast(s, s.conds[c]).cur == s.cur
  {
    QueueOnce(s, c);
    hide Inv, Broadcast, StillWaiting;
    BroadcastRunQ(s, s.conds[c]);
    BroadcastFrame(s, s.conds[c]);
  }

  /** The calls that tell or let go others put them last. */
  lemma TellingInLine(s: State, e: Event, cached: bool)
    requires Inv(s) && Enabled(s, e) && (e.SignalCall? || e.UnlockCall? || e.TryLockCall?)
    ensures var (s', out) := Apply(s, e, cached); InLine(s, s', out, s.runQ + Arrivals(s, e))
  {
    hide Inv, Signal, Broadcast, Unlock, FirstWaiter, StillWaiting, FirstLocker;
    assert s.runQ + [] == s.runQ;
    if e.SignalCall? {
      SignalLine(s, s.conds[User(e.c)]);
      BroadcastLine(s, User(e.c));
    } else if e.UnlockCall? {
      UnlockLine(s, e.m, s.locks[e.m].waitQ);
    }
  }

  lemma InterruptInLine(s: State, t: Tid, cached: bool)
    requires Inv(s) && Enabled(s, InterruptCall(t))
    ensures var (s', out) := Apply(s, InterruptCall(t), cached); InLine(s, s', out, s.runQ + Arrivals(s, InterruptCall(t)))
  {
    hide Inv, Apply;
    InterruptDoes(s, t, cached);
    assert s.runQ + [] == s.runQ;
  }

  lemma NewInLine(s: State, e: Event, cached: bool)
    requires Inv(s) && Enabled(s, e) && (e.NewCond? || e.NewMutex? || e.CreateCall?)
    ensures var (s', out) := Apply(s, e, cached); InLine(s, s', out, s.runQ + Arrivals(s, e))
  {
    hide Inv, Fit;
    assert s.runQ + [] == s.runQ;
  }

  lemma JoinInLine(s: State, t: Tid, cached: bool)
    requires Inv(s) && Enabled(s, JoinCall(t))
    ensures var (s', out) := Apply(s, JoinCall(t), cached); InLine(s, s', out, s.runQ + Arrivals(s, JoinCall(t)))
  {
    hide Inv, Apply, Waits;
    assert s.runQ + [] == s.runQ;
    JoinRefused(s, t, cached);
    if MayJoin(s, t) {
      JoinResult(s, t, cached);
      if !s.th[t].state.Zombie? && !Me(s).intr {
        WaitsInLine(s, Apply(s, JoinCall(t), cached).0, Cond(Term(t)), Status.CondWait, None);
      }
    }
  }

  lemma YieldInLine(s: State, now: nat, order: seq<Tid>, cached: bool)
    requires Inv(s) && Enabled(s, YieldCall(now, order))
    ensures var (s', out) := Apply(s, YieldCall(now, order), cached);
      InLine(s, s', out, Reversed(order) + s.runQ + Arrivals(s, YieldCall(now, order)))
  {
    hide Inv, Apply, ExpiryOrder, Reversed, ClockSeen, Yields;
    var (s', out) := Apply(s, YieldCall(now, order), cached);
    YieldResult(s, now, order, cached);
    var b :| ClockSeen(s, b, now, order) && s.cur.value in b.th && Yields(b, s', out, s.cur.value);
    ReversedEmpty(order);
    SeenQueue(s, b, now, order);
    YieldsInLine(s, b, s', out);
    assert b.runQ + [] == b.runQ;
  }

  lemma SeenQueue(s: State, b: State, now: nat, order: seq<Tid>)
    requires ClockSeen(s, b, now, order)
    ensures b.runQ == Reversed(order) + s.runQ && b.idle == s.idle && b.cur == s.cur
  {
    hide Reversed, IsDue, WasDue;
  }

  lemma YieldsInLine(s: State, b: State, s': State, out: Outcome)
    requires b.cur.Some? && b.cur.value in b.th && Yields(b, s', out, b.cur.value) && b.idle == s.idle && b.cur == s.cur
    ensures InLine(s, s', out, b.runQ + if b.runQ == [] then [] else [b.cur.value])
  {
    hide RunsNext;
    var me := b.cur.value;
    if b.runQ != [] {
      RunsInLine(s, b.(th := b.th[me := b.th[me].(state := Runnable, call := Yield)], cur := None,
                       runQ := b.runQ + [me]), s', b.runQ + [me]);
    }
  }

  lemma ReversedEmpty(order: seq<Tid>)
    ensures Reversed(order) == [] <==> order == []
  {
  }

  lemma IdleInLine(s: State, ready: map<Tid, nat>, now: nat, order: seq<Tid>, cached: bool)
    requires Inv(s) && Enabled(s, IdleTurn(ready, now, order))
    ensures var (s', out) := Apply(s, IdleTurn(ready, now, order), cached);
      InLine(s, s', out, Reversed(order) + s.runQ + Notifies(s, s.ioQ, ready))
  {
    hide Inv, Apply, ExpiryOrder, Reversed, Notifies, Dispatch, Reported, ClockSeen, IdleYields;
    var e := IdleTurn(ready, now, order);
    var s' := Apply(s, e, cached).0;
    IdleTurnResult(s, ready, now, order, cached);
    var d, b :| Reported(s, d, ready) && ClockSeen(d, b, now, order) && IdleYields(b, s');
    ReportedQueue(s, d, ready);
    SeenQueue(d, b, now, order);
    IdleYieldsInLine(s, b, s');
    assert Reversed(order) + (s.runQ + Notifies(s, s.ioQ, ready)) == Reversed(order) + s.runQ + Notifies(s, s.ioQ, ready);
  }

  lemma ReportedQueue(s: State, d: State, ready: map<Tid, nat>)
    requires Reported(s, d, ready)
    ensures d.runQ == s.runQ + Notifies(s, s.ioQ, ready) && d.idle == s.idle
  {
    hide Notifies, Unready, HasNews, WasTold;
  }

  lemma IdleYieldsInLine(s: State, b: State, s': State)
    requires IdleYields(b, s') && b.idle == s.idle
    ensures InLine(s, s', Switches, b.runQ)
  {
    hide RunsNext;
    RunsInLine(s, b.(th := b.th[b.idle := b.th[b.idle].(state := Runnable)], cur := None), s', b.runQ);
  }

  lemma JoinerArrives(s: State, p: State, b: State, q: seq<Tid>)
    requires JoinerTold(p, b, q) && |q| <= 1 && p.runQ == s.runQ && p.idle == s.idle
    requires forall t :: SchedSleep.CondWaits(p, t) <==> SchedSleep.CondWaits(s, t)
    ensures b.runQ == s.runQ + FirstWaiter(s, q) && b.idle == s.idle
  {
    SameFirstWaiter(s, p, q);
    assert |q| == 1 ==> q[1..] == [];
    assert s.runQ + [] == s.runQ;
  }

  lemma ExitInLine(s: State, cached: bool)
    requires Inv(s) && Enabled(s, ExitCall)
    ensures var (s', out) := Apply(s, ExitCall, cached); InLine(s, s', out, s.runQ + Arrivals(s, ExitCall))
  {
    hide Inv, Apply, FirstWaiter, JoinerTold, RunsNext, Stopped, StackIsBack;
    ExitResult(s, cached);
    assert s.runQ + [] == s.runQ;
    var s' := Apply(s, ExitCall, cached).0;
    if Me(s).joinable {
      var p, b :| Stopped(s, p) && JoinerTold(p, b, s.conds[Term(s.cur.value)]) && RunsNext(b, s');
      StoppedInLine(s, p, b);
      RunsInLine(s, b, s', s.runQ + FirstWaiter(s, s.conds[Term(s.cur.value)]));
    } else {
      var b :| Gone(s, b, s.active - 1) && RunsNext(b, s');
      RunsInLine(s, b, s', s.runQ);
    }
  }

  lemma OneJoiner(s: State, t: Tid)
    requires Inv(s) && Term(t) in s.conds
    ensures |s.conds[Term(t)]| <= 1
  {
  }

  lemma StoppedInLine(s: State, p: State, b: State)
    requires Inv(s) && UserRuns(s) && Term(s.cur.value) in s.conds
    requires Stopped(s, p) && JoinerTold(p, b, s.conds[Term(s.cur.value)])
    ensures b.runQ == s.runQ + FirstWaiter(s, s.conds[Term(s.cur.value)]) && b.idle == s.idle
  {
    hide Stopped, JoinerTold, FirstWaiter, SchedSleep.CondWaits;
    OneJoiner(s, s.cur.value);
    RunningMe(s);
    hide Inv;
    StoppedWaitersSame(s, p);
    StoppedQueue(s, p);
    JoinerArrives(s, p, b, s.conds[Term(s.cur.value)]);
  }

  lemma StoppedWaitersSame(s: State, p: State)
    requires s.cur.Some? && s.cur.value in s.th && Stopped(s, p) && Me(s).state.Running?
    ensures forall t :: SchedSleep.CondWaits(p, t) <==> SchedSleep.CondWaits(s, t)
  {
  }

  lemma StoppedQueue(s: State, p: State)
    requires s.cur.Some? && s.cur.value in s.th && Stopped(s, p)
    ensures p.runQ == s.runQ && p.idle == s.idle
  {
  }

  lemma ReturnInLine(s: State, cached: bool)
    requires Enabled(s, Resume) && !Me(s).call.Exit? && !(Me(s).call.Cond? && Me(s).call.c.Term?)
    ensures var (s', out) := Apply(s, Resume, cached); out.Returns? && s'.runQ == s.runQ && s'.cur == s.cur
  {
  }

  lemma ResumeInLine(s: State, cached: bool)
    requires Inv(s) && Enabled(s, Resume)
    ensures var (s', out) := Apply(s, Resume, cached); InLine(s, s', out, s.runQ + Arrivals(s, Resume))
  {
    hide Inv, Apply, RunsNext, StackIsBack;
    assert s.runQ + [] == s.runQ;
    if Me(s).call.Exit? {
      EndInLine(s, cached);
    } else if Me(s).call.Cond? && Me(s).call.c.Term? {
      JoinWake(s, Me(s).call.c.t);
      JoinResumes(s, Me(s).call.c.t, cached);
    } else {
      ReturnInLine(s, cached);
    }
  }

  lemma EndInLine(s: State, cached: bool)
    requires Inv(s) && Enabled(s, Resume) && Me(s).call.Exit?
    ensures var (s', out) := Apply(s, Resume, cached); InLine(s, s', out, s.runQ)
  {
    hide Inv, Apply, RunsNext, StackIsBack;
    ExitEnds(s, cached);
    var b :| Gone(s, b, s.active) && RunsNext(b, Apply(s, Resume, cached).0);
    RunsInLine(s, b, Apply(s, Resume, cached).0, s.runQ);
  }

  /** The run queue is first in, first out: those whose time has come go before all others, whoever an event makes
      ready goes behind them, and whenever the caller gives up the processor the first of the line runs. */
  lemma RunQueueIsFifo(s: State, e: Event, cached: bool)
    requires Inv(s) && Enabled(s, e)
    ensures var (s', out) := Apply(s, e, cached); InLine(s, s', out, Heads(e) + s.runQ + Arrivals(s, e))
  {
    hide Inv, Apply, InLine;
    NothingArrives(s.runQ);
    assert [] + s.runQ == s.runQ;
    match e {
      case YieldCall(now, order) => YieldInLine(s, now, order, cached);
      case IdleTurn(ready, now, order) => IdleInLine(s, ready, now, order, cached);
      case InterruptCall(t) => InterruptInLine(s, t, cached);
      case JoinCall(t) => JoinInLine(s, t, cached);
      case ExitCall => ExitInLine(s, cached);
      case Resume => ResumeInLine(s, cached);
      case SignalCall(_, _) => TellingInLine(s, e, cached);
      case UnlockCall(_) => TellingInLine(s, e, cached);
      case TryLockCall(_) => TellingInLine(s, e, cached);
      case CreateCall(_, _) => NewInLine(s, e, cached);
      case NewCond(_) => NewInLine(s, e, cached);
      case NewMutex(_) => NewInLine(s, e, cached);
      case _ => BlockingInLine(s, e, cached);
    }
  }
}
