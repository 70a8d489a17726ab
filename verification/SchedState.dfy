/**
 The state of a State Threads virtual processor, and its primitive changes.
 Threads are named by numbers that are never reused; every `_st_switch_context`
 splits a C function in two, and `call` says in which function a thread stands
 between the halves.  `wake` is a history variable: it records what ended a wait.
 */
module SchedState {
  import opened Options

  type Tid = nat
  type MutexId = nat

  datatype CondId = User(n: nat) | Term(t: Tid)

  datatype Status = Running | Runnable | IoWait | LockWait | CondWait | Sleeping | Zombie | Suspended

  datatype Call = NoCall | Poll(onIoQ: bool) | Usleep | Cond(c: CondId) | Lock(m: MutexId) | Yield | Exit | IdleLoop

  datatype Wake = Nothing | Waiting | Ready(n: nat) | Signalled | Handed | Expired(at: nat) | Interrupted | Joined

  datatype Stack = Stack(id: nat, size: nat)

  datatype Thread = Thread(state: Status, onSleepQ: bool, intr: bool, timedOut: bool, due: nat,
                           call: Call, wake: Wake, since: nat, joinable: bool, stack: Option<Stack>)

  datatype Mutex = Mutex(owner: Option<Tid>, waitQ: seq<Tid>)

  /** cur is None only between the moment a thread gives up the processor and the next dispatch. */
  datatype State = State(th: map<Tid, Thread>, cur: Option<Tid>, idle: Tid, nextTid: Tid,
                         runQ: seq<Tid>, ioQ: seq<Tid>, zombieQ: seq<Tid>, sleepQ: set<Tid>,
                         conds: map<CondId, seq<Tid>>, locks: map<MutexId, Mutex>,
                         clock: nat, tick: nat, active: int, freeStacks: seq<Stack>, nextStack: nat)

  ghost predicate Blocked(st: Status) {
    st.IoWait? || st.LockWait? || st.CondWait? || st.Sleeping? || st.Suspended?
  }

  // ---------- queues ----------

  ghost predicate NoDup(q: seq<Tid>) {
    forall i, j :: 0 <= i < j < |q| ==> q[i] != q[j]
  }

  function IndexOf(q: seq<Tid>, t: Tid): (i: nat)
    requires t in q
    ensures i < |q| && q[i] == t
  {
    if q[0] == t then 0 else 1 + IndexOf(q[1..], t)
  }

  /** `st_clist_remove` */
  function Remove(q: seq<Tid>, t: Tid): seq<Tid> {
    if t in q then var i := IndexOf(q, t); q[..i] + q[i + 1..] else q
  }

  lemma RemovedAt(q: seq<Tid>, t: Tid)
    requires t in q
    ensures var r := Remove(q, t); var i := IndexOf(q, t);
      && |r| == |q| - 1 && (forall k :: 0 <= k < i ==> r[k] == q[k]) && (forall k :: i <= k < |r| ==> r[k] == q[k + 1])
      && i < |q| && q[i] == t
  {
  }

  lemma RemovedNone(q: seq<Tid>, t: Tid)
    requires t !in q
    ensures Remove(q, t) == q
  {
  }

  lemma RemoveKeeps(q: seq<Tid>, t: Tid)
    requires NoDup(q)
    ensures NoDup(Remove(q, t)) && forall u :: u in Remove(q, t) <==> u in q && u != t
  {
    if t in q {
      hide IndexOf, Remove;
      RemovedAt(q, t);
      var i := IndexOf(q, t);
      var r := Remove(q, t);
      forall u | u in q && u != t
        ensures u in r
      {
        var k :| 0 <= k < |q| && q[k] == u;
        assert r[if k < i then k else k - 1] == u;
      }
    } else {
      assert Remove(q, t) == q;
    }
  }

  /** The first place of t closes, and the others keep their order; without t the queue stays. */
  lemma RemoveClosesGap(q: seq<Tid>, t: Tid)
    ensures t !in q ==> Remove(q, t) == q
    ensures t in q ==> |Remove(q, t)| == |q| - 1 && forall j :: 0 <= j < IndexOf(q, t) ==> q[j] != t
    ensures t in q ==> forall k :: 0 <= k < |q| - 1 ==> Remove(q, t)[k] == if k < IndexOf(q, t) then q[k] else q[k + 1]
  {
    if t in q {
      FirstIndex(q, t);
    }
  }

  lemma {:induction false} FirstIndex(q: seq<Tid>, t: Tid)
    requires t in q
    ensures forall j :: 0 <= j < IndexOf(q, t) ==> q[j] != t
  {
    if q[0] != t {
      FirstIndex(q[1..], t);
      forall j | 0 < j < IndexOf(q, t)
        ensures q[j] != t
      {
        assert q[j] == q[1..][j - 1];
      }
    }
  }

  // ---------- primitive changes ----------

  /** Ends the wait of t and puts it on the run queue, at its head when front. */
  ghost function WakeUp(s: State, t: Tid, why: Wake, front: bool): State
    requires t in s.th
  {
    var r := s.th[t];
    s.(th := s.th[t := r.(state := Runnable, onSleepQ := false, wake := why,
                          timedOut := r.timedOut || (why.Expired? && r.state.CondWait?),
                          intr := r.intr || why.Interrupted?,
                          call := if why.Ready? then Poll(false) else r.call)],
       sleepQ := s.sleepQ - {t},
       ioQ := if why.Ready? then Remove(s.ioQ, t) else s.ioQ,
       zombieQ := if why.Joined? then Remove(s.zombieQ, t) else s.zombieQ,
       runQ := if front then [t] + s.runQ else s.runQ + [t])
  }

  /** The running thread starts to wait in call and gives up the processor. */
  ghost function Park(s: State, call: Call, state: Status, timeout: Option<nat>): State
    requires s.cur.Some? && s.cur.value in s.th
    requires call.Cond? ==> call.c in s.conds
    requires call.Lock? ==> call.m in s.locks
  {
    var me := s.cur.value;
    var r := s.th[me].(state := state, call := call, wake := Waiting, since := s.tick);
    s.(th := s.th[me := if timeout.Some? then r.(onSleepQ := true, due := s.clock + timeout.value) else r],
       cur := None, tick := s.tick + 1,
       active := if call.Exit? then s.active - 1 else s.active,
       sleepQ := if timeout.Some? then s.sleepQ + {me} else s.sleepQ,
       ioQ := if call.Poll? then s.ioQ + [me] else s.ioQ,
       zombieQ := if call.Exit? then s.zombieQ + [me] else s.zombieQ,
       conds := if call.Cond? then s.conds[call.c := s.conds[call.c] + [me]] else s.conds,
       locks := if call.Lock? then s.locks[call.m := s.locks[call.m].(waitQ := s.locks[call.m].waitQ + [me])] else s.locks)
  }

  /** The head of the run queue, or else the idle thread. */
  ghost function Next(s: State): Tid {
    if s.runQ == [] then s.idle else s.runQ[0]
  }

  /** `_st_vp_schedule`: the next thread gets the processor. */
  ghost function Schedule(s: State): State {
    var t := Next(s);
    if t !in s.th then s
    else s.(th := s.th[t := s.th[t].(state := Running)], cur := Some(t), runQ := if s.runQ == [] then [] else s.runQ[1..])
  }

  /** The running thread takes up its call again, leaves the queues of that call and returns. */
  ghost function Return(s: State, intr: bool): State
    requires s.cur.Some? && s.cur.value in s.th
    requires s.th[s.cur.value].call.Cond? ==> s.th[s.cur.value].call.c in s.conds
    requires s.th[s.cur.value].call.Lock? ==> s.th[s.cur.value].call.m in s.locks
  {
    var me := s.cur.value;
    var r := s.th[me];
    s.(th := s.th[me := r.(call := NoCall, wake := Nothing, timedOut := false, intr := intr)],
       ioQ := if r.call == Poll(true) then Remove(s.ioQ, me) else s.ioQ,
       conds := if r.call.Cond? then s.conds[r.call.c := Remove(s.conds[r.call.c], me)] else s.conds,
       locks := if r.call.Lock?
           then s.locks[r.call.m := s.locks[r.call.m].(waitQ := Remove(s.locks[r.call.m].waitQ, me))]
           else s.locks)
  }

  // ---------- the invariant ----------

  /** The kinds of wake-up that each call can see. */
  ghost predicate WakeFits(call: Call, wake: Wake) {
    match call
    case Poll(onIoQ) => if onIoQ then wake.Waiting? || wake.Expired? || wake.Interrupted? else wake.Ready? && wake.n >= 1
    case Usleep => wake.Waiting? || wake.Expired? || wake.Interrupted?
    case Cond(_) => wake.Waiting? || wake.Signalled? || wake.Expired? || wake.Interrupted?
    case Lock(_) => wake.Waiting? || wake.Handed? || wake.Interrupted?
    case Exit => wake.Waiting? || wake.Joined?
    case _ => wake.Nothing?
  }

  ghost predicate WaitsAs(call: Call, st: Status) {
    match call
    case Poll(_) => st.IoWait?
    case Usleep => st.Sleeping? || st.Suspended?
    case Cond(_) => st.CondWait?
    case Lock(_) => st.LockWait?
    case Exit => st.Zombie?
    case _ => false
  }

  /** What a thread record says on its own. */
  ghost predicate RecordOk(r: Thread) {
    && WakeFits(r.call, r.wake)
    && (if r.wake.Waiting? then WaitsAs(r.call, r.state) else r.state.Running? || r.state.Runnable?)
    && (r.onSleepQ ==> r.state.IoWait? || r.state.CondWait? || r.state.Sleeping?)
    && (r.state.Sleeping? ==> r.onSleepQ)
    && (Blocked(r.state) ==> !r.intr)
    && (r.wake.Interrupted? ==> r.intr)
    && (r.timedOut <==> r.call.Cond? && r.wake.Expired?)
    && (r.wake.Expired? ==> r.due <= r.wake.at)
  }

  /** What the queues say about thread t agrees with its record. */
  ghost predicate Placed(s: State, t: Tid)
    requires t in s.th
  {
    var r := s.th[t];
    && (t in s.runQ <==> r.state.Runnable? && t != s.idle)
    && (t in s.zombieQ <==> r.state.Zombie?)
    && (t in s.sleepQ <==> r.onSleepQ)
    && (t in s.ioQ <==> r.call == Poll(true))
    && (r.state.Running? <==> s.cur == Some(t))
    && (t == s.idle <==> r.call.IdleLoop?)
  }

  /** The wait queues agree with the record of t; a lock was handed to t iff t owns it. */
  ghost predicate Enqueued(s: State, t: Tid)
    requires t in s.th
  {
    var r := s.th[t];
    && (forall c :: c in s.conds ==> (t in s.conds[c] <==> r.call == Cond(c)))
    && (forall m :: m in s.locks ==> (t in s.locks[m].waitQ <==> r.call == Lock(m)))
    && (r.call.Cond? ==> r.call.c in s.conds)
    && (r.call.Lock? ==> r.call.m in s.locks && (r.wake.Handed? <==> s.locks[r.call.m].owner == Some(t)))
  }

  /** q lists threads once each, in the order in which they started to wait. */
  ghost predicate InOrder(s: State, q: seq<Tid>) {
    && (forall i :: 0 <= i < |q| ==> q[i] in s.th && s.th[q[i]].since < s.tick)
    && (forall i, j :: 0 <= i < j < |q| ==> s.th[q[i]].since < s.th[q[j]].since)
  }

  /** q lists threads once each. */
  ghost predicate Listing(s: State, q: seq<Tid>) {
    NoDup(q) && forall t :: t in q ==> t in s.th
  }

  ghost predicate MutexOk(s: State, m: MutexId)
    requires m in s.locks
  {
    && InOrder(s, s.locks[m].waitQ)
    && (s.locks[m].owner == None ==> forall t :: t in s.locks[m].waitQ ==> t in s.th && !s.th[t].state.LockWait?)
    && (s.locks[m].owner.Some? ==> s.locks[m].owner.value < s.nextTid)
  }

  ghost predicate QueuesOk(s: State) {
    && Listing(s, s.runQ) && Listing(s, s.ioQ) && Listing(s, s.zombieQ)
    && (forall t :: t in s.sleepQ ==> t in s.th)
  }

  ghost predicate WaitersOk(s: State) {
    && (forall c :: c in s.conds ==> InOrder(s, s.conds[c]))
    && (forall m :: m in s.locks ==> MutexOk(s, m))
  }

  ghost predicate ThreadOk(s: State, t: Tid)
    requires t in s.th
  {
    t < s.nextTid && RecordOk(s.th[t]) && Placed(s, t) && Enqueued(s, t)
  }

  ghost predicate Core(s: State) {
    && s.idle in s.th && (s.cur.Some? ==> s.cur.value in s.th)
    && (forall t :: t in s.th ==> ThreadOk(s, t))
    && QueuesOk(s) && WaitersOk(s)
  }
}
