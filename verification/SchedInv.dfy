/** Every primitive change keeps the invariant. */
module SchedInv {
  import opened Options
  import opened SchedState

  /** When t, waiting, may be woken with `why`. */
  ghost predicate CanWake(s: State, t: Tid, why: Wake) {
    && t in s.th && s.th[t].wake.Waiting? && (why.Expired? ==> s.th[t].due <= why.at)
    && match s.th[t].call
       case Poll(_) => why.Expired? || why.Interrupted? || (why.Ready? && why.n >= 1)
       case Usleep => why.Expired? || why.Interrupted?
       case Cond(_) => why.Signalled? || why.Expired? || why.Interrupted?
       case Lock(_) => why.Interrupted?
       case Exit => why.Joined?
       case _ => false
  }

  lemma WakeUpKeepsThread(s: State, t: Tid, why: Wake, front: bool, u: Tid)
    requires u in s.th && ThreadOk(s, u) && CanWake(s, t, why) && ThreadOk(s, t)
    requires NoDup(s.ioQ) && NoDup(s.zombieQ)
    ensures ThreadOk(WakeUp(s, t, why, front), u)
  {
    RemoveKeeps(s.ioQ, t);
    RemoveKeeps(s.zombieQ, t);
  }

  lemma AppendKeepsNoDup(q: seq<Tid>, t: Tid)
    requires NoDup(q) && t !in q
    ensures NoDup(q + [t]) && NoDup([t] + q)
  {
  }

  lemma WakeUpKeepsQueues(s: State, t: Tid, why: Wake, front: bool)
    requires QueuesOk(s) && CanWake(s, t, why) && ThreadOk(s, t)
    ensures QueuesOk(WakeUp(s, t, why, front))
  {
    RemoveKeeps(s.ioQ, t);
    RemoveKeeps(s.zombieQ, t);
    AppendKeepsNoDup(s.runQ, t);
  }

  lemma WakeUpKeepsWaiters(s: State, t: Tid, why: Wake, front: bool)
    requires WaitersOk(s) && CanWake(s, t, why)
    ensures WaitersOk(WakeUp(s, t, why, front))
  {
  }

  lemma WakeUpKeepsCore(s: State, t: Tid, why: Wake, front: bool)
    requires Core(s) && CanWake(s, t, why)
    ensures Core(WakeUp(s, t, why, front))
  {
    var s' := WakeUp(s, t, why, front);
    forall u | u in s'.th
      ensures ThreadOk(s', u)
    {
      WakeUpKeepsThread(s, t, why, front, u);
    }
    WakeUpKeepsQueues(s, t, why, front);
    WakeUpKeepsWaiters(s, t, why, front);
  }

  // ---------- Park ----------

  /** The running thread may start to wait in call. */
  ghost predicate CanPark(s: State, call: Call, state: Status, timeout: Option<nat>) {
    && s.cur.Some? && s.cur.value in s.th && s.cur.value != s.idle
    && s.th[s.cur.value].call.NoCall? && !s.th[s.cur.value].onSleepQ
    && WakeFits(call, Waiting) && WaitsAs(call, state)
    && (call.Poll? ==> call.onIoQ)
    && (!call.Exit? ==> !s.th[s.cur.value].intr)
    && (timeout.Some? <==> state.Sleeping? || (timeout.Some? && (state.IoWait? || state.CondWait?)))
    && (call.Cond? ==> call.c in s.conds)
    && (call.Lock? ==> call.m in s.locks && s.locks[call.m].owner.Some? && s.locks[call.m].owner != s.cur)
  }

  lemma ParkKeepsThread(s: State, call: Call, state: Status, timeout: Option<nat>, u: Tid)
    requires CanPark(s, call, state, timeout) && u in s.th && ThreadOk(s, u) && ThreadOk(s, s.cur.value)
    ensures ThreadOk(Park(s, call, state, timeout), u)
  {
  }

  lemma ParkKeepsQueues(s: State, call: Call, state: Status, timeout: Option<nat>)
    requires CanPark(s, call, state, timeout) && QueuesOk(s) && ThreadOk(s, s.cur.value)
    ensures QueuesOk(Park(s, call, state, timeout))
  {
    AppendKeepsNoDup(s.ioQ, s.cur.value);
    AppendKeepsNoDup(s.zombieQ, s.cur.value);
  }

  /** The order of a queue depends only on when its threads started to wait. */
  lemma OrderFrame(s: State, s': State, q: seq<Tid>)
    requires InOrder(s, q) && s.tick <= s'.tick
    requires forall t :: t in q ==> t in s'.th && s'.th[t].since == s.th[t].since
    ensures InOrder(s', q)
  {
  }

  lemma OrderAppend(s: State, s': State, q: seq<Tid>, t: Tid)
    requires InOrder(s', q) && t in s'.th && s'.th[t].since == s.tick < s'.tick
    requires forall u :: u in q ==> s'.th[u].since < s.tick
    ensures InOrder(s', q + [t])
  {
  }

  lemma ParkKeepsConds(s: State, call: Call, state: Status, timeout: Option<nat>, c: CondId)
    requires CanPark(s, call, state, timeout) && ThreadOk(s, s.cur.value) && c in s.conds && InOrder(s, s.conds[c])
    ensures InOrder(Park(s, call, state, timeout), Park(s, call, state, timeout).conds[c])
  {
    var s' := Park(s, call, state, timeout);
    OrderFrame(s, s', s.conds[c]);
    if call == Cond(c) {
      OrderAppend(s, s', s.conds[c], s.cur.value);
    }
  }

  lemma ParkKeepsMutex(s: State, call: Call, state: Status, timeout: Option<nat>, m: MutexId)
    requires CanPark(s, call, state, timeout) && ThreadOk(s, s.cur.value) && m in s.locks && MutexOk(s, m)
    ensures MutexOk(Park(s, call, state, timeout), m)
  {
    var s' := Park(s, call, state, timeout);
    var q := s.locks[m].waitQ;
    OrderFrame(s, s', q);
    if call == Lock(m) {
      OrderAppend(s, s', q, s.cur.value);
    }
  }

  lemma ParkKeepsWaiters(s: State, call: Call, state: Status, timeout: Option<nat>)
    requires CanPark(s, call, state, timeout) && WaitersOk(s) && ThreadOk(s, s.cur.value)
    ensures WaitersOk(Park(s, call, state, timeout))
  {
    var s' := Park(s, call, state, timeout);
    forall c | c in s'.conds
      ensures InOrder(s', s'.conds[c])
    {
      ParkKeepsConds(s, call, state, timeout, c);
    }
    forall m | m in s'.locks
      ensures MutexOk(s', m)
    {
      ParkKeepsMutex(s, call, state, timeout, m);
    }
  }

  lemma ParkKeepsCore(s: State, call: Call, state: Status, timeout: Option<nat>)
    requires Core(s) && CanPark(s, call, state, timeout)
    ensures Core(Park(s, call, state, timeout))
  {
    var s' := Park(s, call, state, timeout);
    forall u | u in s'.th
      ensures ThreadOk(s', u)
    {
      ParkKeepsThread(s, call, state, timeout, u);
    }
    ParkKeepsQueues(s, call, state, timeout);
    ParkKeepsWaiters(s, call, state, timeout);
  }

  // ---------- Schedule ----------

  lemma ScheduleKeepsThread(s: State, u: Tid)
    requires s.cur.None? && s.idle in s.th && s.th[s.idle].state.Runnable?
    requires Listing(s, s.runQ) && u in s.th && ThreadOk(s, u)
    requires s.runQ != [] ==> ThreadOk(s, s.runQ[0])
    ensures ThreadOk(Schedule(s), u)
  {
  }

  lemma NextIsRunnable(s: State)
    requires Core(s) && s.cur.None?
    ensures Next(s) in s.th && s.th[Next(s)].state.Runnable? && s.th[s.idle].state.Runnable? && ThreadOk(s, Next(s))
  {
    assert ThreadOk(s, s.idle);
    if s.runQ != [] {
      assert ThreadOk(s, s.runQ[0]);
    }
  }

  lemma ScheduleKeepsCore(s: State)
    requires Core(s) && s.cur.None?
    ensures Core(Schedule(s)) && Schedule(s).cur.Some?
    ensures Schedule(s).cur == Some(s.idle) ==> Schedule(s).runQ == []
    ensures s.th[Schedule(s).cur.value].state.Runnable?
  {
    NextIsRunnable(s);
    hide ThreadOk, WaitersOk;
    var s' := Schedule(s);
    forall u | u in s'.th
      ensures ThreadOk(s', u)
    {
      ScheduleKeepsThread(s, u);
    }
    ScheduleKeepsWaiters(s);
  }

  lemma ScheduleKeepsWaiters(s: State)
    requires WaitersOk(s) && s.cur.None? && s.idle in s.th && Listing(s, s.runQ)
    ensures WaitersOk(Schedule(s))
  {
  }

  // ---------- Return ----------

  lemma RemoveKeepsOrder(s: State, q: seq<Tid>, t: Tid)
    requires InOrder(s, q)
    ensures InOrder(s, Remove(q, t)) && forall u :: u in Remove(q, t) <==> u in q && u != t
  {
    hide Remove, IndexOf;
    RemoveKeeps(q, t);
    if t in q {
      RemovedAt(q, t);
    } else {
      RemovedNone(q, t);
    }
  }

  lemma ReturnKeepsThread(s: State, intr: bool, u: Tid)
    requires s.cur.Some? && s.cur.value in s.th && s.cur.value != s.idle && ThreadOk(s, s.cur.value)
    requires u in s.th && ThreadOk(s, u)
    requires NoDup(s.ioQ) && (s.th[s.cur.value].call.Cond? ==> NoDup(s.conds[s.th[s.cur.value].call.c]))
    requires s.th[s.cur.value].call.Lock? ==> NoDup(s.locks[s.th[s.cur.value].call.m].waitQ)
    ensures ThreadOk(Return(s, intr), u)
  {
    var me := s.cur.value;
    var r := s.th[me];
    RemoveKeeps(s.ioQ, me);
    if r.call.Cond? {
      RemoveKeeps(s.conds[r.call.c], me);
    }
    if r.call.Lock? {
      RemoveKeeps(s.locks[r.call.m].waitQ, me);
    }
  }

  lemma ReturnKeepsWaiters(s: State, intr: bool)
    requires s.cur.Some? && s.cur.value in s.th && ThreadOk(s, s.cur.value) && WaitersOk(s)
    ensures WaitersOk(Return(s, intr))
  {
    var s' := Return(s, intr);
    var me := s.cur.value;
    forall c | c in s'.conds
      ensures InOrder(s', s'.conds[c])
    {
      RemoveKeepsOrder(s, s.conds[c], me);
      OrderFrame(s, s', s'.conds[c]);
    }
    forall m | m in s'.locks
      ensures MutexOk(s', m)
    {
      RemoveKeepsOrder(s, s.locks[m].waitQ, me);
      OrderFrame(s, s', s'.locks[m].waitQ);
    }
  }

  lemma ReturnKeepsCore(s: State, intr: bool)
    requires Core(s) && s.cur.Some? && s.cur.value != s.idle
    ensures Core(Return(s, intr))
  {
    var s' := Return(s, intr);
    assert ThreadOk(s, s.cur.value);
    RemoveKeeps(s.ioQ, s.cur.value);
    forall u | u in s'.th
      ensures ThreadOk(s', u)
    {
      ReturnKeepsThread(s, intr, u);
    }
    ReturnKeepsWaiters(s, intr);
  }
}
