/**
 The virtual processor as the program keeps it: fields that the calls update in place.  Each
 method changes them exactly as the corresponding event of SchedApi says.
 */
module SchedVp {
  import opened Options
  import opened SchedState
  import opened SchedApi
  import opened SchedInv
  import opened SchedRuns
  import opened SchedSteps
  import opened SchedWhole
  import opened SchedTheorems
  import SchedFlags

  lemma WakeKeepsClock(s: State, t: Tid, why: Wake, front: bool)
    ensures t in s.th ==> WakeUp(s, t, why, front).clock == s.clock
  {
  }

  lemma {:induction false} ExpireAppend(s: State, order: seq<Tid>, t: Tid)
    ensures Expire(s, order + [t]) ==
      if t in Expire(s, order).th then WakeUp(Expire(s, order), t, Expired(s.clock), true) else Expire(s, order)
    decreases order
  {
    if order == [] {
      assert order + [t] == [t] && [t][1..] == [];
    } else {
      WakeKeepsClock(s, order[0], Expired(s.clock), true);
      hide WakeUp;
      assert (order + [t])[0] == order[0] && (order + [t])[1..] == order[1..] + [t];
      ExpireAppend(if order[0] in s.th then WakeUp(s, order[0], Expired(s.clock), true) else s, order[1..], t);
    }
  }

  /** A nonempty set of threads has one that is due first. */
  lemma {:induction false} EarliestExists(q: set<Tid>, th: map<Tid, Thread>)
    requires q != {} && forall t :: t in q ==> t in th
    ensures exists t :: t in q && forall u :: u in q ==> th[t].due <= th[u].due
    decreases |q|
  {
    var t :| t in q;
    if q == {t} {
      assert forall u :: u in q ==> th[t].due <= th[u].due;
    } else {
      var rest := q - {t};
      EarliestExists(rest, th);
      var e :| e in rest && forall u :: u in rest ==> th[e].due <= th[u].due;
      var first := if th[t].due < th[e].due then t else e;
      forall u | u in q
        ensures th[first].due <= th[u].due
      {
        assert u == t || u in rest;
      }
      assert first in q;
    }
  }

  /** The first free stack that fits is taken from the list.  Without one the stack is
      new, and without caching the list is released. */
  ghost predicate TakesStack(free: seq<Stack>, next: nat, size: nat, cached: bool, ts: Stack,
                             free': seq<Stack>, next': nat) {
    var fit := if cached then Fit(free, size) else None;
    if fit.Some? && fit.value < |free| then
      ts == free[fit.value] && next' == next && free' == free[..fit.value] + free[fit.value + 1..]
    else
      ts == Stack(next, size) && next' == next + 1 && free' == if cached then free else []
  }

  lemma CreateTakesStack(s: State, joinable: bool, size: nat, cached: bool, ts: Stack, free: seq<Stack>, next: nat)
    requires TakesStack(s.freeStacks, s.nextStack, size, cached, ts, free, next)
    ensures
      var t := s.nextTid;
      Create(s, joinable, size, cached) == s.(
        th := s.th[t := Thread(Runnable, false, false, false, 0, NoCall, Nothing, 0, joinable, Some(ts))],
        nextTid := t + 1, active := s.active + 1, runQ := s.runQ + [t],
        conds := if joinable then s.conds[Term(t) := []] else s.conds, freeStacks := free, nextStack := next)
  {
  }

  class Vp {
    const idle: Tid
    var th: map<Tid, Thread>
    var cur: Option<Tid>
    var nextTid: Tid
    var runQ: seq<Tid>
    var ioQ: seq<Tid>
    var zombieQ: seq<Tid>
    var sleepQ: set<Tid>
    var conds: map<CondId, seq<Tid>>
    var locks: map<MutexId, Mutex>
    var clock: nat
    var tick: nat
    var active: int
    var freeStacks: seq<Stack>
    var numFreeStacks: int
    var nextStack: nat

    ghost function Abs(): State
      reads this
    {
      State(th, cur, idle, nextTid, runQ, ioQ, zombieQ, sleepQ, conds, locks, clock, tick, active, freeStacks, nextStack)
    }

    /** `st_init` */
    constructor (now: nat, size: nat)
      ensures Abs() == Initial(now, size) && Inv(Abs()) && numFreeStacks == |freeStacks|
    {
      idle, nextTid, cur := 1, 2, Some(0);
      th := map[0 := Thread(Running, false, false, false, 0, NoCall, Nothing, 0, false, None),
                1 := Thread(Runnable, false, false, false, 0, IdleLoop, Nothing, 0, false, Some(Stack(0, size)))];
      runQ, ioQ, zombieQ, sleepQ := [], [], [], {};
      conds, locks, clock, tick, active := map[], map[], now, 0, 1;
      freeStacks, numFreeStacks, nextStack := [], 0, 1;
      new;
      InitialInv(now, size);
    }

    // ---------- primitives ----------

    /** t leaves the timeout heap and the queue it is removed from, and becomes runnable. */
    method Wake(t: Tid, why: Wake, front: bool)
      requires t in th
      modifies this`th, this`sleepQ, this`ioQ, this`zombieQ, this`runQ
      ensures Abs() == WakeUp(old(Abs()), t, why, front)
    {
      var r := th[t];
      sleepQ := sleepQ - {t};
      if why.Ready? {
        ioQ := Remove(ioQ, t);
        r := r.(call := Poll(false));
      }
      if why.Joined? {
        zombieQ := Remove(zombieQ, t);
      }
      if why.Expired? && r.state.CondWait? {
        r := r.(timedOut := true);
      }
      if why.Interrupted? {
        r := r.(intr := true);
      }
      th := th[t := r.(state := Runnable, onSleepQ := false, wake := why)];
      runQ := if front then [t] + runQ else runQ + [t];
    }

    // ---------- condition variables and mutexes ----------

    /** `_st_cond_signal` */
    method CondSignal(c: CondId, broadcast: bool)
      requires c in conds && Listing(Abs(), conds[c])
      modifies this`th, this`sleepQ, this`ioQ, this`zombieQ, this`runQ
      ensures Abs() == if broadcast then Broadcast(old(Abs()), old(conds[c])) else Signal(old(Abs()), old(conds[c]))
    {
      hide WakeUp;
      var q := conds[c];
      var i := 0;
      while i < |q|
        invariant i <= |q| && th.Keys == old(th.Keys)
        invariant if broadcast then Broadcast(Abs(), q[i..]) == Broadcast(old(Abs()), q)
            else Signal(Abs(), q[i..]) == Signal(old(Abs()), q)
      {
        assert q[i..][0] == q[i] && q[i..][1..] == q[i + 1..] && q[i] in q;
        if th[q[i]].state.CondWait? {
          WakeKeys(Abs(), q[i], Signalled, false);
          Wake(q[i], Signalled, false);
          if !broadcast {
            return;
          }
        }
        i := i + 1;
      }
    }

    static lemma WakeKeys(s: State, t: Tid, why: Wake, front: bool)
      requires t in s.th
      ensures WakeUp(s, t, why, front).th.Keys == s.th.Keys
    {
    }

    /** The mutex goes to the first thread in its queue that still waits, or becomes free. */
    method GiveAway(m: MutexId)
      requires m in locks && forall t :: t in locks[m].waitQ ==> t in th
      modifies this`th, this`sleepQ, this`ioQ, this`zombieQ, this`runQ, this`locks
      ensures Abs() == Unlock(old(Abs()), m, old(locks[m].waitQ))
    {
      hide WakeUp;
      var q := locks[m].waitQ;
      var i := 0;
      while i < |q|
        invariant i <= |q| && Abs() == old(Abs()) && Unlock(old(Abs()), m, q[i..]) == Unlock(old(Abs()), m, q)
      {
        assert q[i..][0] == q[i] && q[i..][1..] == q[i + 1..] && q[i] in q;
        if th[q[i]].state.LockWait? {
          Wake(q[i], Handed, false);
          locks := locks[m := locks[m].(owner := Some(q[i]))];
          return;
        }
        i := i + 1;
      }
      locks := locks[m := locks[m].(owner := None)];
    }

    /** The queues when thread me has joined the one of its call. */
    static ghost function InQueue(s: State, me: Tid, call: Call): State
      requires (call.Cond? ==> call.c in s.conds) && (call.Lock? ==> call.m in s.locks)
    {
      s.(ioQ := if call.Poll? then s.ioQ + [me] else s.ioQ,
         zombieQ := if call.Exit? then s.zombieQ + [me] else s.zombieQ,
         conds := if call.Cond? then s.conds[call.c := s.conds[call.c] + [me]] else s.conds,
         locks := if call.Lock? then s.locks[call.m := s.locks[call.m].(waitQ := s.locks[call.m].waitQ + [me])]
             else s.locks)
    }

    method JoinQueue(me: Tid, call: Call)
      requires (call.Cond? ==> call.c in conds) && (call.Lock? ==> call.m in locks)
      modifies this`ioQ, this`zombieQ, this`conds, this`locks
      ensures Abs() == InQueue(old(Abs()), me, call)
    {
      match call {
        case Poll(_) => ioQ := ioQ + [me];
        case Exit => zombieQ := zombieQ + [me];
        case Cond(c) => conds := conds[c := conds[c] + [me]];
        case Lock(m) => locks := locks[m := locks[m].(waitQ := locks[m].waitQ + [me])];
        case _ =>
      }
    }

    /** The record of the running thread when it gives up the processor. */
    static ghost function Stopped(s: State, call: Call, state: Status, timeout: Option<nat>): State
      requires s.cur.Some? && s.cur.value in s.th
    {
      var me := s.cur.value;
      var r := s.th[me].(state := state, call := call, wake := Waiting, since := s.tick);
      s.(th := s.th[me := if timeout.Some? then r.(onSleepQ := true, due := s.clock + timeout.value) else r],
         cur := None, tick := s.tick + 1,
         active := if call.Exit? then s.active - 1 else s.active,
         sleepQ := if timeout.Some? then s.sleepQ + {me} else s.sleepQ)
    }

    method Stop(call: Call, state: Status, timeout: Option<nat>)
      requires cur.Some? && cur.value in th
      modifies this`th, this`cur, this`tick, this`active, this`sleepQ
      ensures Abs() == Stopped(old(Abs()), call, state, timeout)
    {
      var me := cur.value;
      var r := th[me].(state := state, call := call, wake := Waiting, since := tick);
      if timeout.Some? {
        r := r.(onSleepQ := true, due := clock + timeout.value);
        sleepQ := sleepQ + {me};
      }
      if call.Exit? {
        active := active - 1;
      }
      th := th[me := r];
      cur, tick := None, tick + 1;
    }

    static lemma ParkInSteps(s: State, call: Call, state: Status, timeout: Option<nat>)
      requires s.cur.Some? && s.cur.value in s.th && (call.Cond? ==> call.c in s.conds)
          && (call.Lock? ==> call.m in s.locks)
      ensures InQueue(s, s.cur.value, call).cur == s.cur && InQueue(s, s.cur.value, call).th == s.th
      ensures Stopped(InQueue(s, s.cur.value, call), call, state, timeout) == Park(s, call, state, timeout)
    {
    }

    /** The running thread starts to wait. */
    method StartWaiting(call: Call, state: Status, timeout: Option<nat>)
      requires cur.Some? && cur.value in th && (call.Cond? ==> call.c in conds) && (call.Lock? ==> call.m in locks)
      modifies this`th, this`cur, this`tick, this`active, this`sleepQ, this`ioQ, this`zombieQ, this`conds, this`locks
      ensures Abs() == Park(old(Abs()), call, state, timeout)
    {
      ParkInSteps(Abs(), call, state, timeout);
      hide Park, InQueue, Stopped;
      JoinQueue(cur.value, call);
      Stop(call, state, timeout);
    }

    /** `_st_vp_schedule` */
    method ScheduleNext()
      requires idle in th && forall t :: t in runQ ==> t in th
      modifies this`th, this`cur, this`runQ
      ensures Abs() == Schedule(old(Abs()))
    {
      var thread := idle;
      if runQ != [] {
        thread := runQ[0];
        assert runQ[0] in runQ;
        runQ := runQ[1..];
      }
      th := th[thread := th[thread].(state := Running)];
      cur := Some(thread);
    }

    /** The running thread goes on after its wait, and leaves the queues of its call. */
    method FinishWaiting(intr: bool)
      requires CanReturn(Abs())
      modifies this`th, this`ioQ, this`conds, this`locks
      ensures Abs() == Return(old(Abs()), intr)
    {
      var me := cur.value;
      match th[me].call {
        case Poll(onIoQ) =>
          if onIoQ {
            ioQ := Remove(ioQ, me);
          }
        case Cond(c) => conds := conds[c := Remove(conds[c], me)];
        case Lock(m) => locks := locks[m := locks[m].(waitQ := Remove(locks[m].waitQ, me))];
        case _ =>
      }
      th := th[me := th[me].(call := NoCall, wake := Nothing, timedOut := false, intr := intr)];
    }

    // ---------- time ----------

    /** `_st_vp_check_clock`; order lists the threads in the order in which they left the heap. */
    method CheckTheClock(now: nat) returns (ghost order: seq<Tid>)
      requires forall t :: t in sleepQ ==> t in th
      modifies this`th, this`clock, this`sleepQ, this`ioQ, this`zombieQ, this`runQ
      ensures ExpiryOrder(old(Abs()), now, order) && Abs() == CheckClock(old(Abs()), now, order)
    {
      ghost var s := Abs();
      clock, order := now, [];
      while sleepQ != {}
        invariant Abs() == Expire(s.(clock := now), order) && SoFar(s, Abs(), now, order)
        decreases |sleepQ|
      {
        SoFarLive(s, Abs(), now, order);
        EarliestExists(sleepQ, th);
        var thread :| thread in sleepQ && forall u :: u in sleepQ ==> th[thread].due <= th[u].due;
        if th[thread].due > now {
          break;
        }
        hide WakeUp, Expire;
        ghost var mid := Abs();
        ExpireAppend(s.(clock := now), order, thread);
        Wake(thread, Expired(now), true);
        SoFarMore(s, mid, now, order, thread);
        order := order + [thread];
      }
      SoFarAll(s, Abs(), now, order);
    }

    /** order has left the heap: those threads were due no later than any that is still in it. */
    static ghost predicate SoFar(s: State, mid: State, now: nat, order: seq<Tid>) {
      && NoDup(order) && mid.th.Keys == s.th.Keys && (forall t :: t in s.sleepQ ==> t in s.th)
      && (forall t :: t in s.th ==> mid.th[t].due == s.th[t].due)
      && (forall t :: t in order ==> t in s.sleepQ && s.th[t].due <= now)
      && (forall t :: t in mid.sleepQ <==> t in s.sleepQ && t !in order)
      && (forall i, j :: 0 <= i < j < |order| ==> s.th[order[i]].due <= s.th[order[j]].due)
      && (forall i, t :: 0 <= i < |order| && t in mid.sleepQ ==> s.th[order[i]].due <= s.th[t].due)
    }

    static lemma SoFarLive(s: State, mid: State, now: nat, order: seq<Tid>)
      requires SoFar(s, mid, now, order)
      ensures forall t :: t in mid.sleepQ ==> t in mid.th
    {
    }

    static lemma SoFarMore(s: State, mid: State, now: nat, order: seq<Tid>, t: Tid)
      requires SoFar(s, mid, now, order) && t in mid.sleepQ && t in mid.th && mid.th[t].due <= now
      requires forall u :: u in mid.sleepQ && u in mid.th ==> mid.th[t].due <= mid.th[u].due
      ensures SoFar(s, WakeUp(mid, t, Expired(now), true), now, order + [t])
    {
      AppendKeepsNoDup(order, t);
    }

    static lemma SoFarAll(s: State, mid: State, now: nat, order: seq<Tid>)
      requires SoFar(s, mid, now, order) && forall t :: t in mid.sleepQ ==> t in mid.th && mid.th[t].due > now
      ensures ExpiryOrder(s, now, order)
    {
    }

    // ---------- the idle thread ----------

    /** The walk of a dispatch over the io queue. */
    method DispatchReady(ready: map<Tid, nat>)
      requires forall t :: t in ioQ ==> t in th
      modifies this`th, this`sleepQ, this`ioQ, this`zombieQ, this`runQ
      ensures Abs() == Dispatch(old(Abs()), old(ioQ), ready)
    {
      hide WakeUp;
      var q := ioQ;
      var i := 0;
      while i < |q|
        invariant i <= |q| && th.Keys == old(th.Keys) && Dispatch(Abs(), q[i..], ready) == Dispatch(old(Abs()), q, ready)
      {
        assert q[i..][0] == q[i] && q[i..][1..] == q[i + 1..] && q[i] in q;
        if q[i] in ready {
          WakeKeys(Abs(), q[i], Ready(ready[q[i]]), false);
          Wake(q[i], Ready(ready[q[i]]), false);
        }
        i := i + 1;
      }
    }

    // ---------- stacks ----------

    /** `_st_stack_new`: a cached stack that is big enough, or a new one; without the cache all
        free stacks are released first. */
    method StackNew(size: nat, cached: bool) returns (ts: Stack)
      requires numFreeStacks == |freeStacks|
      modifies this`freeStacks, this`numFreeStacks, this`nextStack
      ensures numFreeStacks == |freeStacks|
      ensures TakesStack(old(freeStacks), old(nextStack), size, cached, ts, freeStacks, nextStack)
    {
      if cached {
        var i := 0;
        while i < |freeStacks|
          invariant i <= |freeStacks| && freeStacks == old(freeStacks)
          invariant nextStack == old(nextStack) && numFreeStacks == old(numFreeStacks)
          invariant Fit(freeStacks, size) == match Fit(freeStacks[i..], size) case None => None case Some(j) => Some(i + j)
        {
          assert freeStacks[i..][0] == freeStacks[i] && freeStacks[i..][1..] == freeStacks[i + 1..];
          if freeStacks[i].size >= size {
            ts := freeStacks[i];
            freeStacks := freeStacks[..i] + freeStacks[i + 1..];
            numFreeStacks := numFreeStacks - 1;
            return;
          }
          i := i + 1;
        }
      } else {
        while freeStacks != []
          invariant numFreeStacks == |freeStacks| && nextStack == old(nextStack)
          decreases |freeStacks|
        {
          freeStacks := freeStacks[1..];
          numFreeStacks := numFreeStacks - 1;
        }
      }
      ts := Stack(nextStack, size);
      nextStack := nextStack + 1;
    }

    /** `_st_stack_free` */
    method StackFree(ts: Stack)
      modifies this`freeStacks, this`numFreeStacks
      ensures freeStacks == FreeStack(old(freeStacks), ts) && |freeStacks| == |old(freeStacks)| + 1
          && numFreeStacks == old(numFreeStacks) + 1
    {
      var n := |freeStacks|;
      freeStacks := if n == 0 then [ts] else freeStacks[..n - 1] + [ts] + [freeStacks[n - 1]];
      numFreeStacks := numFreeStacks + 1;
    }

    // ---------- the calls ----------

    /** At every moment when a thread runs. */
    ghost predicate Valid()
      reads this
    {
      Inv(Abs()) && numFreeStacks == |freeStacks|
    }

    /** What every call relies on: the caller and the threads in the queues are live. */
    ghost predicate Live()
      reads this
    {
      cur.Some? && cur.value in th && idle in th && forall t :: t in runQ ==> t in th
    }

    static lemma InvIsLive(s: State)
      requires Inv(s)
      ensures s.idle in s.th && s.cur.Some? && s.cur.value in s.th
      ensures forall t :: t in s.runQ ==> t in s.th
      ensures forall t :: t in s.ioQ ==> t in s.th
      ensures forall t :: t in s.sleepQ ==> t in s.th
      ensures forall c :: c in s.conds ==> Listing(s, s.conds[c])
      ensures forall m :: m in s.locks ==> forall t :: t in s.locks[m].waitQ ==> t in s.th
    {
      forall c | c in s.conds
        ensures Listing(s, s.conds[c])
      {
        assert InOrder(s, s.conds[c]);
      }
      forall m | m in s.locks
        ensures forall t :: t in s.locks[m].waitQ ==> t in s.th
      {
        assert MutexOk(s, m);
      }
    }

    /** Every call that may block first takes a pending interrupt. */
    method TakeInterrupt() returns (taken: bool)
      requires cur.Some? && cur.value in th
      modifies this`th
      ensures taken == old(Me(Abs())).intr && Abs() == if taken then SetIntr(old(Abs()), cur.value, false) else old(Abs())
    {
      var me := cur.value;
      taken := th[me].intr;
      if taken {
        th := th[me := th[me].(intr := false)];
      }
    }

    /** The running thread waits in call, and the next thread runs. */
    method WaitIn(call: Call, state: Status, timeout: Option<nat>)
      requires Live() && (call.Cond? ==> call.c in conds) && (call.Lock? ==> call.m in locks)
      modifies this
      ensures Abs() == Schedule(Park(old(Abs()), call, state, timeout))
      ensures numFreeStacks == old(numFreeStacks) && freeStacks == old(freeStacks)
    {
      StartWaiting(call, state, timeout);
      ScheduleNext();
    }

    static lemma PollStartInv(s: State, timeout: Option<nat>, added: bool)
      requires Inv(s) && UserRuns(s)
      ensures Inv(PollStart(s, timeout, added).0)
    {
      hide Inv;
      StepInv(s, PollCall(timeout, added), true);
    }

    /** `st_poll`, when the event system has accepted the descriptors or refused them. */
    method StPoll(timeout: Option<nat>, added: bool) returns (out: Outcome)
      requires Valid() && UserRuns(Abs())
      modifies this
      ensures Valid() && (Abs(), out) == PollStart(old(Abs()), timeout, added)
    {
      hide Inv, Park, Schedule;
      InvIsLive(Abs());
      PollStartInv(Abs(), timeout, added);
      var taken := TakeInterrupt();
      if taken {
        return Returns(EINTR);
      }
      if !added {
        return Returns(AddFailed);
      }
      WaitIn(Poll(true), IoWait, timeout);
      out := Switches;
    }

    static lemma UsleepStartInv(s: State, timeout: Option<nat>)
      requires Inv(s) && UserRuns(s)
      ensures Inv(UsleepStart(s, timeout).0)
    {
      hide Inv;
      StepInv(s, UsleepCall(timeout), true);
    }

    /** `st_usleep` */
    method StUsleep(timeout: Option<nat>) returns (out: Outcome)
      requires Valid() && UserRuns(Abs())
      modifies this
      ensures Valid() && (Abs(), out) == UsleepStart(old(Abs()), timeout)
    {
      hide Inv, Park, Schedule;
      InvIsLive(Abs());
      UsleepStartInv(Abs(), timeout);
      var taken := TakeInterrupt();
      if taken {
        return Returns(EINTR);
      }
      WaitIn(Usleep, if timeout.Some? then Sleeping else Suspended, timeout);
      out := Switches;
    }

    /** The first half of `st_cond_timedwait`. */
    method TimedWait(c: CondId, timeout: Option<nat>) returns (out: Outcome)
      requires Live() && UserRuns(Abs()) && c in conds
      modifies this
      ensures (Abs(), out) == SchedApi.CondWait(old(Abs()), c, timeout)
      ensures numFreeStacks == old(numFreeStacks) && freeStacks == old(freeStacks)
    {
      hide Park, Schedule;
      var taken := TakeInterrupt();
      if taken {
        return Returns(EINTR);
      }
      WaitIn(Cond(c), Status.CondWait, timeout);
      out := Switches;
    }

    static lemma CondWaitKeepsInv(s: State, c: nat, timeout: Option<nat>)
      requires Inv(s) && UserRuns(s) && User(c) in s.conds
      ensures Inv(SchedApi.CondWait(s, User(c), timeout).0)
    {
      hide Inv;
      StepInv(s, CondWaitCall(c, timeout), true);
    }

    /** `st_cond_timedwait` on an application's condition variable. */
    method StCondTimedwait(c: nat, timeout: Option<nat>) returns (out: Outcome)
      requires Valid() && UserRuns(Abs()) && User(c) in conds
      modifies this
      ensures Valid() && (Abs(), out) == SchedApi.CondWait(old(Abs()), User(c), timeout)
    {
      hide Inv, SchedApi.CondWait;
      InvIsLive(Abs());
      CondWaitKeepsInv(Abs(), c, timeout);
      out := TimedWait(User(c), timeout);
    }

    static lemma SignalKeepsInv(s: State, c: nat, broadcast: bool)
      requires Inv(s) && UserRuns(s) && User(c) in s.conds
      ensures Inv(if broadcast then Broadcast(s, s.conds[User(c)]) else Signal(s, s.conds[User(c)]))
    {
      hide Inv;
      StepInv(s, SignalCall(c, broadcast), true);
    }

    /** `st_cond_signal` and `st_cond_broadcast` */
    method StCondSignal(c: nat, broadcast: bool)
      requires Valid() && UserRuns(Abs()) && User(c) in conds
      modifies this
      ensures Valid()
      ensures Abs() == if broadcast then Broadcast(old(Abs()), old(conds[User(c)]))
          else Signal(old(Abs()), old(conds[User(c)]))
    {
      hide Inv, Signal, Broadcast;
      InvIsLive(Abs());
      SignalKeepsInv(Abs(), c, broadcast);
      CondSignal(User(c), broadcast);
    }

    static lemma LockingKeepsInv(s: State, m: MutexId)
      requires Inv(s) && UserRuns(s) && m in s.locks
      ensures Inv(LockStart(s, m).0) && Inv(UnlockBy(s, m).0) && Inv(TryLock(s, m).0)
    {
      hide Inv, LockStart, UnlockBy, TryLock;
      StepInv(s, LockCall(m), true);
      StepInv(s, UnlockCall(m), true);
      StepInv(s, TryLockCall(m), true);
    }

    /** `st_mutex_lock` */
    method StMutexLock(m: MutexId) returns (out: Outcome)
      requires Valid() && UserRuns(Abs()) && m in locks
      modifies this
      ensures Valid() && (Abs(), out) == LockStart(old(Abs()), m)
    {
      hide Inv, Park, Schedule;
      InvIsLive(Abs());
      LockingKeepsInv(Abs(), m);
      var taken := TakeInterrupt();
      if taken {
        return Returns(EINTR);
      }
      if locks[m].owner == None {
        locks := locks[m := locks[m].(owner := cur)];
        return Returns(Ok(0));
      }
      if locks[m].owner == cur {
        return Returns(EDEADLK);
      }
      WaitIn(Lock(m), LockWait, None);
      out := Switches;
    }

    /** `st_mutex_unlock` */
    method StMutexUnlock(m: MutexId) returns (out: Outcome)
      requires Valid() && UserRuns(Abs()) && m in locks
      modifies this
      ensures Valid() && (Abs(), out) == UnlockBy(old(Abs()), m)
    {
      hide Inv, Unlock;
      InvIsLive(Abs());
      LockingKeepsInv(Abs(), m);
      if locks[m].owner != cur {
        return Returns(EPERM);
      }
      GiveAway(m);
      out := Returns(Ok(0));
    }

    /** `st_mutex_trylock` */
    method StMutexTrylock(m: MutexId) returns (out: Outcome)
      requires Valid() && UserRuns(Abs()) && m in locks
      modifies this
      ensures Valid() && (Abs(), out) == TryLock(old(Abs()), m)
      ensures out == Returns(Ok(0)) <==> old(locks)[m].owner == None
      ensures out == Returns(Ok(0)) ==> Abs() == old(Abs()).(locks := old(locks)[m := Mutex(cur, old(locks)[m].waitQ)])
      ensures out != Returns(Ok(0)) ==> out == Returns(EBUSY) && Abs() == old(Abs())
    {
      hide Inv;
      LockingKeepsInv(Abs(), m);
      if locks[m].owner != None {
        return Returns(EBUSY);
      }
      locks := locks[m := locks[m].(owner := cur)];
      out := Returns(Ok(0));
    }

    /** The running thread goes to the end of the run queue, and the next one runs. */
    method GoLast()
      requires Live()
      modifies this`th, this`cur, this`runQ
      ensures Abs() == Schedule(YieldOver(old(Abs())))
    {
      hide Schedule;
      var me := cur.value;
      th := th[me := th[me].(state := Runnable, call := Yield)];
      cur, runQ := None, runQ + [me];
      ScheduleNext();
    }

    /** After the clock check the caller still runs, and the run queue names live threads. */
    static lemma YieldIsLive(s: State, now: nat, order: seq<Tid>)
      requires Inv(s) && UserRuns(s) && ExpiryOrder(s, now, order)
      ensures UserRuns(CheckClock(s, now, order))
      ensures var mid := CheckClock(s, now, order); mid.idle in mid.th && forall t :: t in mid.runQ ==> t in mid.th
    {
      CheckClockKeeps(s, now, order);
      ClockKeepsCaller(s, now, order);
      CoreIsLive(CheckClock(s, now, order));
    }

    static lemma CoreIsLive(s: State)
      requires Core(s)
      ensures s.idle in s.th && forall t :: t in s.runQ ==> t in s.th
    {
    }

    static lemma YieldKeepsInv(s: State, now: nat, order: seq<Tid>)
      requires Inv(s) && UserRuns(s) && ExpiryOrder(s, now, order)
      ensures Inv(YieldStart(s, now, order).0)
    {
      hide Inv, ExpiryOrder;
      StepInv(s, YieldCall(now, order), true);
    }

    /** `st_thread_yield`; order is the order in which the clock check wakes threads. */
    method StThreadYield(now: nat) returns (out: Outcome, ghost order: seq<Tid>)
      requires Valid() && UserRuns(Abs())
      modifies this
      ensures ExpiryOrder(old(Abs()), now, order)
      ensures Valid() && (Abs(), out) == YieldStart(old(Abs()), now, order)
    {
      ghost var s := Abs();
      hide Inv, CheckClock, Schedule, ExpiryOrder, YieldOver;
      InvIsLive(s);
      order := CheckTheClock(now);
      YieldKeepsInv(s, now, order);
      YieldIsLive(s, now, order);
      if runQ == [] {
        return Returns(Ok(0)), order;
      }
      GoLast();
      out := Switches;
    }

    static lemma InterruptKeepsInv(s: State, t: Tid)
      requires Inv(s) && UserRuns(s) && t in s.th && t != s.idle
      ensures Inv(Interrupt(s, t))
    {
      hide Inv;
      StepInv(s, InterruptCall(t), true);
    }

    /** `st_thread_interrupt` */
    method StThreadInterrupt(t: Tid)
      requires Valid() && UserRuns(Abs()) && t in th && t != idle
      modifies this
      ensures Valid() && Abs() == Interrupt(old(Abs()), t)
      ensures old(th)[t].state.Zombie? ==> Abs() == old(Abs())
      ensures !old(th)[t].state.Zombie? ==> t in th && th[t].intr && !Blocked(th[t].state)
      ensures Blocked(old(th)[t].state) ==> runQ == old(runQ) + [t] && t !in sleepQ
    {
      hide Inv, WakeUp;
      SchedFlags.InterruptDoes(Abs(), t, true);
      InterruptKeepsInv(Abs(), t);
      var st := th[t].state;
      if st.Zombie? {
        return;
      }
      if st.Running? || st.Runnable? {
        th := th[t := th[t].(intr := true)];
        return;
      }
      Wake(t, Interrupted, false);
    }

    method NewThread(joinable: bool, size: nat, cached: bool)
      requires numFreeStacks == |freeStacks|
      modifies this`th, this`nextTid, this`active, this`runQ, this`conds, this`freeStacks, this`numFreeStacks,
          this`nextStack
      ensures Abs() == Create(old(Abs()), joinable, size, cached) && numFreeStacks == |freeStacks|
    {
      hide Create, TakesStack;
      ghost var s := Abs();
      var t := nextTid;
      var ts := StackNew(size, cached);
      CreateTakesStack(s, joinable, size, cached, ts, freeStacks, nextStack);
      if joinable {
        conds := conds[Term(t) := []];
      }
      th := th[t := Thread(Runnable, false, false, false, 0, NoCall, Nothing, 0, joinable, Some(ts))];
      nextTid, active, runQ := t + 1, active + 1, runQ + [t];
    }

    /** `st_cond_destroy` of the termination condition, which fails when somebody waits on it. */
    method CloseTerm(me: Tid)
      modifies this`conds
      ensures Abs() == old(Abs()).(conds :=
          if Term(me) in old(conds) && old(conds[Term(me)]) == [] then old(conds) - {Term(me)} else old(conds))
    {
      if Term(me) in conds && conds[Term(me)] == [] {
        conds := conds - {Term(me)};
      }
    }

    /** `st_thread_create` */
    method StThreadCreate(joinable: bool, size: nat, cached: bool) returns (t: Tid)
      requires Valid() && UserRuns(Abs())
      modifies this
      ensures Valid() && Abs() == Create(old(Abs()), joinable, size, cached) && t == old(nextTid)
    {
      hide Inv, Create;
      CreateInv(Abs(), joinable, size, cached);
      t := nextTid;
      NewThread(joinable, size, cached);
    }

    /** The end of `st_thread_exit`: the thread is gone and its stack is free. */
    method Finish()
      requires cur.Some? && cur.value in th
      modifies this`th, this`cur, this`active, this`conds, this`freeStacks, this`numFreeStacks
      ensures Abs() == Bury(old(Abs())) && numFreeStacks - |freeStacks| == old(numFreeStacks - |freeStacks|)
    {
      hide FreeStack;
      ghost var p := Bury(Abs());
      var me := cur.value;
      var r := th[me];
      active := if r.call.Exit? then active else active - 1;
      CloseTerm(me);
      if r.stack.Some? {
        StackFree(r.stack.value);
      }
      th := th - {me};
      cur := None;
      assert conds == p.conds && freeStacks == p.freeStacks && active == p.active && th == p.th;
    }

    static lemma BuriedIsLive(s: State)
      requires Inv(s) && UserRuns(s)
      ensures Bury(s).idle in Bury(s).th && forall t :: t in Bury(s).runQ ==> t in Bury(s).th
    {
      RunningMe(s);
      BuryKeepsCore(s);
      hide Bury;
      CoreIsLive(Bury(s));
    }

    static lemma OrderedIsListing(s: State, q: seq<Tid>)
      requires InOrder(s, q)
      ensures Listing(s, q)
    {
    }

    static lemma ParkZombieConds(s: State)
      requires s.cur.Some? && s.cur.value in s.th
      ensures Park(s, Exit, Zombie, None).conds == s.conds
    {
    }

    static lemma ZombieIsLive(s: State)
      requires Inv(s) && UserRuns(s) && Term(s.cur.value) in s.conds
      ensures var p := Park(s, Exit, Zombie, None); var q := s.conds[Term(s.cur.value)];
        p.conds == s.conds && Listing(p, q) && Signal(p, q).idle in Signal(p, q).th
      ensures var e := Signal(Park(s, Exit, Zombie, None), s.conds[Term(s.cur.value)]);
          forall t :: t in e.runQ ==> t in e.th
    {
      hide Side, Park, Signal, InOrder, Listing;
      var c := Term(s.cur.value);
      var p := Park(s, Exit, Zombie, None);
      RunningMe(s);
      ParkKeepsCore(s, Exit, Zombie, None);
      ParkZombieConds(s);
      assert InOrder(p, p.conds[c]);
      OrderedIsListing(p, p.conds[c]);
      QueueIsOn(p, c);
      SignalKeepsCore(p, p.conds[c], c);
      CoreIsLive(Signal(p, p.conds[c]));
    }

    /** A joinable thread becomes a zombie and tells its joiner. */
    method BecomeZombie()
      requires Inv(Abs()) && UserRuns(Abs()) && Term(cur.value) in conds
      modifies this`th, this`cur, this`tick, this`active, this`sleepQ, this`ioQ, this`zombieQ, this`runQ,
          this`conds, this`locks
      ensures Abs() == Schedule(Signal(Park(old(Abs()), Exit, Zombie, None), old(conds[Term(cur.value)])))
    {
      hide Inv, Park, Signal, Schedule;
      var c := Term(cur.value);
      ZombieIsLive(Abs());
      StartWaiting(Exit, Zombie, None);
      CondSignal(c, false);
      ScheduleNext();
    }

    /** `st_thread_exit` up to its first context switch. */
    method StThreadExit()
      requires Valid() && UserRuns(Abs())
      modifies this
      ensures Valid() && Abs() == ExitThread(old(Abs()))
    {
      hide Inv, Park, Bury, Signal, Schedule;
      BuriedIsLive(Abs());
      ExitInv(Abs());
      if th[cur.value].joinable && Term(cur.value) in conds {
        BecomeZombie();
      } else {
        Finish();
        ScheduleNext();
      }
    }

    static lemma JoinKeepsInv(s: State, t: Tid)
      requires Inv(s) && UserRuns(s) && t in s.th && t != s.idle && (s.th[t].joinable ==> Term(t) in s.conds)
      ensures Inv(Join(s, t).0)
    {
      hide Inv;
      JoinInv(s, t);
    }

    /** `st_thread_join` up to its context switch; the loop of the source is entered at most once,
        since a signalled joiner finds a zombie. */
    method StThreadJoin(t: Tid) returns (out: Outcome)
      requires Valid() && UserRuns(Abs()) && t in th && t != idle && (th[t].joinable ==> Term(t) in conds)
      modifies this
      ensures Valid() && (Abs(), out) == Join(old(Abs()), t)
    {
      hide Inv, WakeUp, SchedApi.CondWait;
      InvIsLive(Abs());
      JoinKeepsInv(Abs(), t);
      if !th[t].joinable {
        return Returns(EINVAL);
      }
      if cur == Some(t) {
        return Returns(EDEADLK);
      }
      if conds[Term(t)] != [] {
        return Returns(EINVAL);
      }
      if th[t].state.Zombie? {
        Wake(t, Joined, false);
        return Returns(Ok(0));
      }
      out := TimedWait(Term(t), None);
    }

    // ---------- after the context switch ----------

    static lemma ResumeIsLive(s: State)
      requires Inv(s) && CanReturn(s) && s.cur != Some(s.idle) && !Me(s).call.NoCall?
      ensures Inv(Resumed(s).0) && s.cur.value !in s.runQ
    {
      hide Inv, Resumed;
      ResumeInv(s);
      NotQueued(s, s.cur.value);
    }

    /** A thread goes on in the second half of its call. */
    method Resume() returns (out: Outcome)
      requires Valid() && CanReturn(Abs()) && cur != Some(idle) && !Me(Abs()).call.NoCall?
      modifies this
      ensures Valid() && (Abs(), out) == Resumed(old(Abs()))
    {
      hide Inv, WakeUp, Park, Schedule, Bury, Return;
      InvIsLive(Abs());
      ResumeIsLive(Abs());
      out := Returns(Ok(0));
      var me := cur.value;
      var r := th[me];
      match r.call {
        case Poll(onIoQ) =>
          FinishWaiting(false);
          out := Returns(if r.intr then EINTR else Ok(if !onIoQ && r.wake.Ready? then r.wake.n else 0));
        case Usleep =>
          FinishWaiting(false);
          out := Returns(if r.intr then EINTR else Ok(0));
        case Cond(c) =>
          out := ResumeCond(c);
        case Lock(m) =>
          if r.intr && locks[m].owner != Some(me) {
            FinishWaiting(false);
            return Returns(EINTR);
          }
          FinishWaiting(r.intr);
          out := Returns(Ok(0));
        case Yield =>
          FinishWaiting(r.intr);
          out := Returns(Ok(0));
        case Exit =>
          FinishAndSwitch();
          out := Switches;
        case _ =>
      }
    }

    method FinishAndSwitch()
      requires Live() && cur.value != idle && forall t :: t in runQ ==> t != cur.value
      modifies this
      ensures Abs() == Schedule(Bury(old(Abs()))) && numFreeStacks - |freeStacks| == old(numFreeStacks - |freeStacks|)
    {
      BuryKeepsOthers(Abs());
      hide Bury, Schedule;
      Finish();
      ScheduleNext();
    }

    static lemma BuryKeepsOthers(s: State)
      requires s.cur.Some? && s.cur.value in s.th
      ensures Bury(s).idle == s.idle && Bury(s).runQ == s.runQ && Bury(s).th == s.th - {s.cur.value}
    {
    }

    static lemma ReturnKeepsOthers(s: State, intr: bool)
      requires CanReturn(s)
      ensures var r := Return(s, intr);
          r.idle == s.idle && r.runQ == s.runQ && r.th.Keys == s.th.Keys && r.cur == s.cur && r.conds.Keys == s.conds.Keys
      ensures Return(s, intr).freeStacks == s.freeStacks
    {
    }

    /** The second half of `st_cond_timedwait`, and of the loop of `st_thread_join` around it. */
    method ResumeCond(c: CondId) returns (out: Outcome)
      requires CanReturn(Abs()) && Live() && Me(Abs()).call == Cond(c)
      modifies this
      ensures (Abs(), out) == Resumed(old(Abs())) && numFreeStacks == old(numFreeStacks) && freeStacks == old(freeStacks)
    {
      var r := th[cur.value];
      ReturnKeepsOthers(Abs(), false);
      hide WakeUp, Park, Schedule, Return;
      FinishWaiting(false);
      if r.intr {
        return Returns(EINTR);
      }
      if r.timedOut {
        return Returns(ETIME);
      }
      if c.User? {
        return Returns(Ok(0));
      }
      if c.t in th && th[c.t].state.Zombie? {
        Wake(c.t, Joined, false);
        return Returns(Ok(0));
      }
      WaitIn(Cond(c), Status.CondWait, None);
      out := Switches;
    }

    // ---------- the idle thread ----------

    /** One turn of the idle thread. */
    method IdleTurn(ready: map<Tid, nat>, now: nat) returns (ghost order: seq<Tid>)
      requires Valid() && cur == Some(idle) && active > 0 && forall t :: t in ready ==> ready[t] >= 1
      modifies this
      ensures ExpiryOrder(Dispatch(old(Abs()), old(ioQ), ready), now, order)
      ensures Valid() && Abs() == Idle(old(Abs()), ready, now, order)
    {
      ghost var s := Abs();
      hide Inv, Core, Side, Dispatch, CheckClock, Idle, Schedule, IdleYield, ExpiryOrder;
      DispatchedIsLive(s, ready);
      InvIsLive(s);
      DispatchReady(ready);
      order := CheckTheClock(now);
      IdleIsLive(s, ready, now, order);
      IdleGivesUp();
    }

    method IdleGivesUp()
      requires idle in th && forall t :: t in runQ ==> t in th
      modifies this`th, this`cur, this`runQ
      ensures Abs() == Schedule(IdleYield(old(Abs())))
    {
      hide Schedule;
      th := th[idle := th[idle].(state := Runnable)];
      cur := None;
      ScheduleNext();
    }

    static lemma DispatchedIsLive(s: State, ready: map<Tid, nat>)
      requires Inv(s) && s.cur == Some(s.idle) && forall t :: t in ready ==> ready[t] >= 1
      ensures Core(Dispatch(s, s.ioQ, ready)) && Side(Dispatch(s, s.ioQ, ready)) && Dispatch(s, s.ioQ, ready).idle == s.idle
      ensures forall t :: t in Dispatch(s, s.ioQ, ready).sleepQ ==> t in Dispatch(s, s.ioQ, ready).th
    {
      forall t | t in s.ioQ
        ensures t in s.th && s.th[t].state.IoWait? && s.th[t].wake.Waiting?
      {
        IdleSeesOnlyWaiters(s, t);
      }
      DispatchKeeps(s, s.ioQ, ready);
    }

    static lemma IdleIsLive(s: State, ready: map<Tid, nat>, now: nat, order: seq<Tid>)
      requires Inv(s) && s.cur == Some(s.idle) && s.active > 0 && forall t :: t in ready ==> ready[t] >= 1
      requires ExpiryOrder(Dispatch(s, s.ioQ, ready), now, order)
      ensures var mid := CheckClock(Dispatch(s, s.ioQ, ready), now, order);
        && mid.idle in mid.th && (forall t :: t in mid.runQ ==> t in mid.th)
        && Idle(s, ready, now, order) == Schedule(IdleYield(mid)) && Inv(Schedule(IdleYield(mid)))
    {
      DispatchedIsLive(s, ready);
      IdleInv(s, ready, now, order);
      var d := Dispatch(s, s.ioQ, ready);
      hide Inv, Dispatch, IdleYield, Schedule;
      CheckClockKeeps(d, now, order);
      CoreIsLive(CheckClock(d, now, order));
    }
  }
}
