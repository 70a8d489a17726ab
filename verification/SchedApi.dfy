/**
 What each call of the State Threads API does to the virtual processor.  A call that
 may wait is given in two halves: the part before `_st_switch_context`, and Resume,
 the part after it.  Apply says what one event of a run does.
 */
module SchedApi {
  import opened Options
  import opened SchedState

  /** What a call returns: a count, or -1 with an errno. */
  datatype Result = Ok(n: nat) | EINTR | ETIME | EINVAL | EDEADLK | EPERM | EBUSY | AddFailed

  /** Either the call returns, or the processor goes to another thread. */
  datatype Outcome = Returns(r: Result) | Switches

  datatype Event =
    | PollCall(timeout: Option<nat>, added: bool)
    | UsleepCall(timeout: Option<nat>)
    | CondWaitCall(c: nat, timeout: Option<nat>)
    | SignalCall(c: nat, broadcast: bool)
    | LockCall(m: MutexId)
    | UnlockCall(m: MutexId)
    | TryLockCall(m: MutexId)
    | YieldCall(now: nat, order: seq<Tid>)
    | InterruptCall(t: Tid)
    | CreateCall(joinable: bool, size: nat)
    | JoinCall(t: Tid)
    | ExitCall
    | NewCond(c: nat)
    | NewMutex(m: MutexId)
    | Resume
    | IdleTurn(ready: map<Tid, nat>, now: nat, order: seq<Tid>)

  ghost predicate UserRuns(s: State) {
    s.cur.Some? && s.cur.value in s.th && s.cur.value != s.idle && s.th[s.cur.value].call.NoCall?
  }

  ghost function Me(s: State): Thread
    requires s.cur.Some? && s.cur.value in s.th
  {
    s.th[s.cur.value]
  }

  ghost function SetIntr(s: State, t: Tid, intr: bool): State
    requires t in s.th
  {
    s.(th := s.th[t := s.th[t].(intr := intr)])
  }

  /** Every blocking call starts with this test of the interrupt flag. */
  ghost function Interruptible(s: State, call: (State, Outcome)): (State, Outcome)
    requires s.cur.Some? && s.cur.value in s.th
  {
    if Me(s).intr then (SetIntr(s, s.cur.value, false), Returns(EINTR)) else call
  }

  // ---------- condition variables ----------

  /** `_st_cond_signal` for one thread: the first of q that still waits is woken. */
  ghost function Signal(s: State, q: seq<Tid>): State {
    if q == [] then s
    else if q[0] in s.th && s.th[q[0]].state.CondWait? then WakeUp(s, q[0], Signalled, false)
    else Signal(s, q[1..])
  }

  ghost function Broadcast(s: State, q: seq<Tid>): State
    decreases q
  {
    if q == [] then s
    else if q[0] in s.th && s.th[q[0]].state.CondWait? then Broadcast(WakeUp(s, q[0], Signalled, false), q[1..])
    else Broadcast(s, q[1..])
  }

  ghost function CondWait(s: State, c: CondId, timeout: Option<nat>): (State, Outcome)
    requires UserRuns(s) && c in s.conds
  {
    Interruptible(s, (Schedule(Park(s, Cond(c), SchedState.Status.CondWait, timeout)), Switches))
  }

  // ---------- mutexes ----------

  ghost function SetOwner(s: State, m: MutexId, owner: Option<Tid>): State
    requires m in s.locks
  {
    s.(locks := s.locks[m := s.locks[m].(owner := owner)])
  }

  ghost function HandOver(s: State, m: MutexId, t: Tid): State
    requires m in s.locks && t in s.th
  {
    SetOwner(WakeUp(s, t, Handed, false), m, Some(t))
  }

  /** `st_mutex_unlock`: the first of q that still waits becomes the owner. */
  ghost function Unlock(s: State, m: MutexId, q: seq<Tid>): State
    requires m in s.locks
  {
    if q == [] then SetOwner(s, m, None)
    else if q[0] in s.th && s.th[q[0]].state.LockWait? then HandOver(s, m, q[0])
    else Unlock(s, m, q[1..])
  }

  /** `st_mutex_lock` up to its context switch. */
  ghost function LockStart(s: State, m: MutexId): (State, Outcome)
    requires UserRuns(s) && m in s.locks
  {
    Interruptible(s,
      if s.locks[m].owner.None? then (SetOwner(s, m, s.cur), Returns(Ok(0)))
      else if s.locks[m].owner == s.cur then (s, Returns(EDEADLK))
      else (Schedule(Park(s, Lock(m), LockWait, None)), Switches))
  }

  ghost function UnlockBy(s: State, m: MutexId): (State, Outcome)
    requires m in s.locks
  {
    if s.locks[m].owner != s.cur then (s, Returns(EPERM))
    else (Unlock(s, m, s.locks[m].waitQ), Returns(Ok(0)))
  }

  /** `st_mutex_trylock` */
  ghost function TryLock(s: State, m: MutexId): (State, Outcome)
    requires m in s.locks
  {
    if s.locks[m].owner.Some? then (s, Returns(EBUSY)) else (SetOwner(s, m, s.cur), Returns(Ok(0)))
  }

  // ---------- time ----------

  /** order lists the threads due by now, the earliest first: the order in which the
      timeout heap hands them out. */
  ghost predicate ExpiryOrder(s: State, now: nat, order: seq<Tid>) {
    && NoDup(order)
    && (forall t :: t in order <==> t in s.sleepQ && t in s.th && s.th[t].due <= now)
    && (forall i, j :: 0 <= i < j < |order| && order[i] in s.th && order[j] in s.th ==>
        s.th[order[i]].due <= s.th[order[j]].due)
  }

  /** Every thread of order sleeps, and its time has come. */
  ghost predicate AllDue(s: State, order: seq<Tid>) {
    forall t :: t in order ==> t in s.sleepQ && t in s.th && s.th[t].due <= s.clock
  }

  ghost function Expire(s: State, order: seq<Tid>): State
    decreases order
  {
    if order == [] then s
    else if order[0] in s.th then Expire(WakeUp(s, order[0], Expired(s.clock), true), order[1..])
    else Expire(s, order[1..])
  }

  /** `_st_vp_check_clock` */
  ghost function CheckClock(s: State, now: nat, order: seq<Tid>): State {
    Expire(s.(clock := now), order)
  }

  ghost function YieldOver(s: State): State
    requires s.cur.Some? && s.cur.value in s.th
  {
    var me := s.cur.value;
    s.(th := s.th[me := s.th[me].(state := Runnable, call := Yield)], cur := None, runQ := s.runQ + [me])
  }

  /** `st_thread_yield` up to its context switch; the clock check never stops the caller. */
  ghost function YieldStart(s: State, now: nat, order: seq<Tid>): (State, Outcome)
    requires UserRuns(s)
  {
    var s' := CheckClock(s, now, order);
    if s'.runQ == [] || !UserRuns(s') then (s', Returns(Ok(0))) else (Schedule(YieldOver(s')), Switches)
  }

  /** `st_poll` up to its context switch; added says that the event system took the descriptors. */
  ghost function PollStart(s: State, timeout: Option<nat>, added: bool): (State, Outcome)
    requires UserRuns(s)
  {
    Interruptible(s, if !added then (s, Returns(AddFailed)) else (Schedule(Park(s, Poll(true), IoWait, timeout)), Switches))
  }

  /** `st_usleep` up to its context switch. */
  ghost function UsleepStart(s: State, timeout: Option<nat>): (State, Outcome)
    requires UserRuns(s)
  {
    Interruptible(s, (Schedule(Park(s, Usleep, if timeout.Some? then Sleeping else Suspended, timeout)), Switches))
  }

  // ---------- the idle thread ----------

  /** Dispatch walks over the io queue and wakes the threads with ready descriptors. */
  ghost function Dispatch(s: State, q: seq<Tid>, ready: map<Tid, nat>): State
    decreases q
  {
    if q == [] then s
    else if q[0] in ready && q[0] in s.th then Dispatch(WakeUp(s, q[0], Ready(ready[q[0]]), false), q[1..], ready)
    else Dispatch(s, q[1..], ready)
  }

  ghost function IdleYield(s: State): State
    requires s.idle in s.th
  {
    s.(th := s.th[s.idle := s.th[s.idle].(state := Runnable)], cur := None)
  }

  /** One turn of the idle thread: dispatch, check the clock, yield. */
  ghost function Idle(s: State, ready: map<Tid, nat>, now: nat, order: seq<Tid>): State {
    var s' := CheckClock(Dispatch(s, s.ioQ, ready), now, order);
    if s'.idle in s'.th then Schedule(IdleYield(s')) else s'
  }

  // ---------- threads ----------

  ghost function Interrupt(s: State, t: Tid): State
    requires t in s.th
  {
    if s.th[t].state.Zombie? then s
    else if s.th[t].state.Running? || s.th[t].state.Runnable? then SetIntr(s, t, true)
    else WakeUp(s, t, Interrupted, false)
  }

  /** `_st_stack_new`, when stacks are cached: the first free stack that is big enough. */
  ghost function Fit(q: seq<Stack>, size: nat): Option<nat> {
    if q == [] then None
    else if q[0].size >= size then Some(0)
    else match Fit(q[1..], size) case None => None case Some(i) => Some(i + 1)
  }

  /** `_st_stack_free`: the list head names its last element, and the new one goes before that. */
  ghost function FreeStack(q: seq<Stack>, ts: Stack): seq<Stack> {
    if q == [] then [ts] else q[..|q| - 1] + [ts, q[|q| - 1]]
  }

  /** The new thread gets a cached stack when one fits; without the cache every free
      stack is released and a new one is made. */
  ghost function Create(s: State, joinable: bool, size: nat, cached: bool): State {
    var t := s.nextTid;
    var fit := if cached then Fit(s.freeStacks, size) else None;
    var reused := fit.Some? && fit.value < |s.freeStacks|;
    var stack := if reused then s.freeStacks[fit.value] else Stack(s.nextStack, size);
    s.(th := s.th[t := Thread(Runnable, false, false, false, 0, NoCall, Nothing, 0, joinable, Some(stack))],
       nextTid := t + 1, active := s.active + 1, runQ := s.runQ + [t],
       conds := if joinable then s.conds[Term(t) := []] else s.conds,
       freeStacks := if reused then s.freeStacks[..fit.value] + s.freeStacks[fit.value + 1..]
                     else if cached then s.freeStacks else [],
       nextStack := if reused then s.nextStack else s.nextStack + 1)
  }

  /** The running thread is gone, and its stack is free.  A joinable thread stopped
      counting as active when it became a zombie. */
  ghost function Bury(s: State): State
    requires s.cur.Some? && s.cur.value in s.th
  {
    var me := s.cur.value;
    var r := s.th[me];
    s.(th := s.th - {me}, cur := None, active := if r.call.Exit? then s.active else s.active - 1,
       conds := if Term(me) in s.conds && s.conds[Term(me)] == [] then s.conds - {Term(me)} else s.conds,
       freeStacks := if r.stack.Some? then FreeStack(s.freeStacks, r.stack.value) else s.freeStacks)
  }

  /** `st_thread_exit` up to the first context switch. */
  ghost function ExitThread(s: State): State
    requires UserRuns(s)
  {
    var me := s.cur.value;
    if Me(s).joinable && Term(me) in s.conds
    then Schedule(Signal(Park(s, Exit, Zombie, None), s.conds[Term(me)]))
    else Schedule(Bury(s))
  }

  /** The end of `st_thread_join`: the zombie t may finish. */
  ghost function Reap(s: State, t: Tid): (State, Outcome)
    requires t in s.th
  {
    (WakeUp(s, t, Joined, false), Returns(Ok(0)))
  }

  ghost function Join(s: State, t: Tid): (State, Outcome)
    requires UserRuns(s) && t in s.th && (s.th[t].joinable ==> Term(t) in s.conds)
  {
    if !s.th[t].joinable then (s, Returns(EINVAL))
    else if t == s.cur.value then (s, Returns(EDEADLK))
    else if s.conds[Term(t)] != [] then (s, Returns(EINVAL))
    else if s.th[t].state.Zombie? then Reap(s, t)
    else CondWait(s, Term(t), None)
  }

  // ---------- after the context switch ----------

  /** The second half of `st_cond_timedwait`. */
  ghost function CondResult(r: Thread): Result {
    if r.intr then EINTR else if r.timedOut then ETIME else Ok(0)
  }

  ghost predicate CanReturn(s: State) {
    && s.cur.Some? && s.cur.value in s.th
    && (Me(s).call.Cond? ==> Me(s).call.c in s.conds)
    && (Me(s).call.Lock? ==> Me(s).call.m in s.locks)
  }

  /** The running thread goes on after the switch inside its call. */
  ghost function Resumed(s: State): (State, Outcome)
    requires CanReturn(s)
  {
    var me := s.cur.value;
    var r := s.th[me];
    match r.call
    case Poll(onIoQ) =>
      if r.intr then (Return(s, false), Returns(EINTR))
      else (Return(s, false), Returns(Ok(if !onIoQ && r.wake.Ready? then r.wake.n else 0)))
    case Usleep => (Return(s, false), Returns(if r.intr then EINTR else Ok(0)))
    case Cond(c) =>
      var s' := Return(s, false);
      if CondResult(r) != Ok(0) || c.User? then (s', Returns(CondResult(r)))
      else if c.t in s'.th && s'.th[c.t].state.Zombie? then Reap(s', c.t)
      else (Schedule(Park(s', Cond(c), Status.CondWait, None)), Switches)
    case Lock(m) =>
      if r.intr && s.locks[m].owner != Some(me) then (Return(s, false), Returns(EINTR))
      else (Return(s, r.intr), Returns(Ok(0)))
    case Yield => (Return(s, r.intr), Returns(Ok(0)))
    case Exit => (Schedule(Bury(s)), Switches)
    case _ => (s, Returns(Ok(0)))
  }

  // ---------- one event ----------

  /** What the callers of the API and the world outside guarantee. */
  ghost predicate Enabled(s: State, e: Event) {
    match e
    case PollCall(_, _) => UserRuns(s)
    case UsleepCall(_) => UserRuns(s)
    case CondWaitCall(c, _) => UserRuns(s) && User(c) in s.conds
    case SignalCall(c, _) => UserRuns(s) && User(c) in s.conds
    case LockCall(m) => UserRuns(s) && m in s.locks
    case UnlockCall(m) => UserRuns(s) && m in s.locks
    case TryLockCall(m) => UserRuns(s) && m in s.locks
    case YieldCall(now, order) => UserRuns(s) && ExpiryOrder(s, now, order)
    case InterruptCall(t) => UserRuns(s) && t in s.th && t != s.idle
    case CreateCall(_, _) => UserRuns(s)
    case JoinCall(t) => UserRuns(s) && t in s.th && t != s.idle && (s.th[t].joinable ==> Term(t) in s.conds)
    case ExitCall => UserRuns(s)
    case NewCond(c) => UserRuns(s) && User(c) !in s.conds
    case NewMutex(m) => UserRuns(s) && m !in s.locks
    case Resume => CanReturn(s) && s.cur.value != s.idle && !Me(s).call.NoCall?
    case IdleTurn(ready, now, order) =>
      && s.cur == Some(s.idle) && s.active > 0
      && (forall t :: t in ready ==> ready[t] >= 1)
      && ExpiryOrder(Dispatch(s, s.ioQ, ready), now, order)
  }

  ghost function Apply(s: State, e: Event, cached: bool): (State, Outcome)
    requires Enabled(s, e)
  {
    match e
    case PollCall(timeout, added) =>
      PollStart(s, timeout, added)
    case UsleepCall(timeout) =>
      UsleepStart(s, timeout)
    case CondWaitCall(c, timeout) => CondWait(s, User(c), timeout)
    case SignalCall(c, broadcast) =>
      (if broadcast then Broadcast(s, s.conds[User(c)]) else Signal(s, s.conds[User(c)]), Returns(Ok(0)))
    case LockCall(m) =>
      LockStart(s, m)
    case UnlockCall(m) =>
      UnlockBy(s, m)
    case TryLockCall(m) =>
      TryLock(s, m)
    case YieldCall(now, order) =>
      YieldStart(s, now, order)
    case InterruptCall(t) => (Interrupt(s, t), Returns(Ok(0)))
    case CreateCall(joinable, size) => (Create(s, joinable, size, cached), Returns(Ok(0)))
    case JoinCall(t) => Join(s, t)
    case ExitCall => (ExitThread(s), Switches)
    case NewCond(c) => (s.(conds := s.conds[User(c) := []]), Returns(Ok(0)))
    case NewMutex(m) => (s.(locks := s.locks[m := Mutex(None, [])]), Returns(Ok(0)))
    case Resume => Resumed(s)
    case IdleTurn(ready, now, order) => (Idle(s, ready, now, order), Switches)
  }
}
