/**
 The sleeping threads of the virtual processor in the pointer heap: each change of the state machine
 that puts threads to sleep or wakes them has its heap operation, and the order in which the heap hands
 out the threads that are due is an order in which the state machine may expire them.
 */
module SchedHeap {
  import opened Options
  import opened SchedState
  import opened SchedApi
  import opened SchedInv
  import opened SchedSteps
  import opened SchedTheorems
  import opened SchedRuns
  import opened SchedSleep
  import opened SchedWhole
  import W = DispatchWait
  import H = TimeoutHeap

  /** What a change of the state does to the sleeping threads. */
  ghost predicate Sleeps(s: State, s': State, more: set<Tid>, less: set<Tid>) {
    && s'.sleepQ == s.sleepQ + more - less && s'.th.Keys == s.th.Keys && s'.nextTid == s.nextTid
    && forall t :: t in s.th && t !in more ==> s'.th[t].due == s.th[t].due
  }

  lemma ParkSleeps(s: State, call: Call, state: Status, timeout: nat, me: Tid)
    requires Core(s) && CanPark(s, call, state, Some(timeout)) && s.cur == Some(me)
    ensures var p := Park(s, call, state, Some(timeout));
      Sleeps(s, p, {me}, {}) && p.th[me].due == s.clock + timeout && p.clock == s.clock && me !in s.sleepQ && me in s.th
  {
    assert ThreadOk(s, me);
  }

  lemma WakeUpSleeps(s: State, t: Tid, why: Wake, front: bool)
    requires t in s.th
    ensures Sleeps(s, WakeUp(s, t, why, front), {}, {t}) && WakeUp(s, t, why, front).clock == s.clock
  {
  }

  lemma CreateSleeps(s: State, joinable: bool, size: nat, cached: bool)
    requires Core(s)
    ensures var s' := Create(s, joinable, size, cached);
      && s'.sleepQ == s.sleepQ && s'.clock == s.clock && s'.th.Keys == s.th.Keys + {s.nextTid} && s.nextTid !in s.th
      && s'.nextTid == s.nextTid + 1
      && forall t :: t in s.th ==> s'.th[t].due == s.th[t].due
  {
    NextTidIsNew(s);
  }

  lemma {:induction false} ExpireSleeps(s: State, order: seq<Tid>)
    requires forall t :: t in order ==> t in s.th
    ensures Sleeps(s, Expire(s, order), {}, set t | t in order) && Expire(s, order).clock == s.clock
    decreases order
  {
    if order != [] {
      WakeUpSleeps(s, order[0], Expired(s.clock), true);
      var s' := WakeUp(s, order[0], Expired(s.clock), true);
      hide WakeUp;
      ExpireSleeps(s', order[1..]);
    }
  }

  /** m is the least remaining time of the sleeping threads of s; there is none iff nobody sleeps. */
  ghost predicate LeastSleep(s: State, m: Option<nat>) {
    match m
    case None => s.sleepQ == {}
    case Some(w) =>
      && (exists t :: t in s.sleepQ && t in s.th && W.Remaining(s.th[t].due, s.clock) == w)
      && (forall t :: t in s.sleepQ && t in s.th ==> w <= W.Remaining(s.th[t].due, s.clock))
  }

  lemma LeastIsUnique(s: State, w: Option<nat>)
    requires LeastSleep(s, w) && forall t :: t in s.sleepQ ==> t in s.th
    ensures forall m: Option<nat> :: LeastSleep(s, m) ==> m == w
  {
    forall m: Option<nat> | LeastSleep(s, m)
      ensures m == w
    {
      if m.Some? && w.Some? {
        var t :| t in s.sleepQ && t in s.th && W.Remaining(s.th[t].due, s.clock) == w.value;
        var u :| u in s.sleepQ && u in s.th && W.Remaining(s.th[u].due, s.clock) == m.value;
      }
    }
  }

  /** t starts to sleep. */
  ghost function Dozing(s: State, t: Tid, timeout: nat): State
    requires t in s.th
  {
    s.(sleepQ := s.sleepQ + {t}, th := s.th[t := s.th[t].(due := s.clock + timeout)])
  }

  class Sleepers {
    const heap: H.SleepQ
    /** The heap node of each thread. */
    var node: map<Tid, H.Thread>
    ghost var owner: map<H.Thread, Tid>

    ghost predicate Named()
      reads this, heap
    {
      && (forall t :: t in node ==> node[t] in heap.threads && node[t] in owner && owner[node[t]] == t)
      && (forall x :: x in heap.threads ==> x in owner && owner[x] in node && node[owner[x]] == x)
    }

    /** Exactly the sleeping threads of s are in the heap, with their due times. */
    ghost predicate Mirrors(s: State)
      reads this, heap, heap.threads
    {
      && heap.Valid() && heap.lastClock == s.clock && Named()
      && (forall t :: t in s.th ==> t in node) && (forall t :: t in node ==> t < s.nextTid)
      && (forall t :: t in s.sleepQ ==> t in s.th && t in node)
      && (forall t :: t in node ==> (node[t] in heap.Members() <==> t in s.sleepQ))
      && (forall t :: t in s.sleepQ && t in s.th && t in node ==> node[t].due == s.th[t].due)
    }

    constructor (now: nat, stack: nat)
      ensures Mirrors(Initial(now, stack)) && fresh(heap) && fresh(heap.threads)
    {
      var a := new H.Thread();
      var b := new H.Thread();
      heap := new H.SleepQ(now, {a, b});
      node := map[0 := a, 1 := b];
      owner := map[a := 0, b := 1];
      new;
      assert node[0] == a && node[1] == b;
    }

    /** A thread that starts to wait with a timeout enters the heap. */
    method Sleep(ghost s: State, call: Call, state: Status, timeout: nat, me: Tid)
      requires Mirrors(s) && Core(s) && CanPark(s, call, state, Some(timeout)) && s.cur == Some(me)
      modifies heap, heap.threads
      ensures Mirrors(Park(s, call, state, Some(timeout)))
      ensures node == old(node) && heap.threads == old(heap.threads)
    {
      hide H.SleepQ.Valid, H.SleepQ.Members, Core, CanPark, Park;
      ParkSleeps(s, call, state, timeout, me);
      OnQueue(me);
      heap.AddSleepQ(node[me], timeout);
    }

    /** A thread that is woken leaves the heap if it is there. */
    method Wake(ghost s: State, t: Tid, why: Wake, front: bool)
      requires Mirrors(s) && t in s.th
      modifies heap, heap.threads
      ensures Mirrors(WakeUp(s, t, why, front))
      ensures node == old(node) && heap.threads == old(heap.threads)
    {
      hide H.SleepQ.Valid, H.SleepQ.Members, WakeUp;
      WakeUpSleeps(s, t, why, front);
      OnQueue(t);
      if node[t].onSleepQ {
        heap.DelSleepQ(node[t]);
      }
    }

    /** A new thread gets a node outside the heap. */
    method Create(ghost s: State, t: Tid, ghost joinable: bool, ghost size: nat, ghost cached: bool)
      requires Mirrors(s) && Core(s) && t == s.nextTid
      modifies this`node, this`owner, heap
      ensures Mirrors(SchedApi.Create(s, joinable, size, cached)) && node.Keys == old(node.Keys) + {t}
    {
      hide SchedApi.Create, Core, H.SleepQ.Valid, H.SleepQ.Members, Named;
      CreateSleeps(s, joinable, size, cached);
      NewNode(t);
    }

    method NewNode(t: Tid)
      requires heap.Valid() && Named() && t !in node
      modifies this`node, this`owner, heap
      ensures heap.Valid() && Named() && heap.lastClock == old(heap.lastClock) && heap.Members() == old(heap.Members())
      ensures node.Keys == old(node.Keys) + {t} && (forall u :: u in old(node) ==> node[u] == old(node)[u])
      ensures fresh(node[t]) && node[t] !in heap.Members() && fresh(heap.threads - old(heap.threads))
    {
      hide H.SleepQ.Valid;
      var x := new H.Thread();
      assert x !in heap.Members();
      heap.Admit(x);
      hide H.SleepQ.Members;
      node, owner := node[t := x], owner[x := t];
    }

    /** Changes that put nobody to sleep and wake nobody leave the heap as it is. */
    lemma Otherwise(s: State, s': State)
      requires Mirrors(s) && s'.sleepQ == s.sleepQ && s'.clock == s.clock && s'.nextTid == s.nextTid
      requires forall t :: t in s'.th ==> t in node
      requires forall t :: t in s.sleepQ && t in s.th ==> t in s'.th && s'.th[t].due == s.th[t].due
      ensures Mirrors(s')
    {
      hide H.SleepQ.Valid, H.SleepQ.Members;
    }

    /** The flag ON_SLEEPQ tells whether a thread is in the heap. */
    lemma OnQueue(t: Tid)
      requires heap.Valid() && t in node && node[t] in heap.threads
      ensures node[t].onSleepQ <==> node[t] in heap.Members()
    {
    }

    /** The threads in the order in which they left the heap: the last of expired first. */
    ghost function Order(expired: seq<H.Thread>): (r: seq<Tid>)
      requires Named() && forall x :: x in expired ==> x in heap.threads
      reads this, heap
      ensures |r| == |expired| && forall i :: 0 <= i < |r| ==> r[i] in node && node[r[i]] == expired[|expired| - 1 - i]
    {
      if expired == [] then [] else Order(expired[1..]) + [owner[expired[0]]]
    }

    lemma OrderIs(expired: seq<H.Thread>)
      requires Named() && heap.LatestFirst(expired) && forall x :: x in expired ==> x in heap.threads
      ensures NoDup(Order(expired))
      ensures forall t :: t in node ==> (t in Order(expired) <==> node[t] in expired)
      ensures forall t :: t in Order(expired) ==> t in node
      ensures var r := Order(expired); forall i, j :: 0 <= i < j < |r| ==> node[r[i]].due <= node[r[j]].due
    {
      var r := Order(expired);
      forall t | t in node
        ensures t in r <==> node[t] in expired
      {
        if node[t] in expired {
          var k :| 0 <= k < |expired| && expired[k] == node[t];
          assert r[|expired| - 1 - k] == t;
        }
      }
    }

    /** The expired threads are the sleeping threads whose time has come. */
    ghost predicate Expired(expired: seq<H.Thread>, now: nat, s: State)
      reads this, heap, heap.threads, expired
    {
      && Named() && heap.LatestFirst(expired) && (forall x :: x in expired ==> x in heap.threads)
      && (forall t :: t in s.sleepQ ==> t in s.th && t in node && node[t].due == s.th[t].due)
      && (forall t :: t in node ==> (node[t] in expired <==> t in s.sleepQ && node[t].due <= now))
    }

    ghost method OrderOf(expired: seq<H.Thread>, now: nat, s: State) returns (order: seq<Tid>)
      requires Expired(expired, now, s)
      ensures ExpiryOrder(s, now, order)
    {
      hide H.SleepQ.LatestFirst, NoDup;
      order := Order(expired);
      OrderIs(expired);
      forall t: Tid
        ensures t in order <==> t in s.sleepQ && t in s.th && s.th[t].due <= now
        ensures t in order ==> t in node && s.th[t].due == node[t].due
      {
        assert t in order ==> t in node;
      }
      forall i, j | 0 <= i < j < |order|
        ensures order[i] in s.th && order[j] in s.th && s.th[order[i]].due <= s.th[order[j]].due
      {
        assert order[i] in order && order[j] in order;
        assert node[Order(expired)[i]].due <= node[Order(expired)[j]].due;
      }
    }

    /** `_st_vp_check_clock` on the heap. */
    method CheckClock(ghost s: State, now: nat) returns (ghost order: seq<Tid>)
      requires Mirrors(s)
      modifies heap, heap.threads
      ensures ExpiryOrder(s, now, order)
      ensures node == old(node) && heap.threads == old(heap.threads)
      ensures Mirrors(SchedApi.CheckClock(s, now, order))
    {
      hide H.SleepQ.Valid, H.SleepQ.LatestFirst, SchedApi.CheckClock, ExpiryOrder, NoDup;
      var runQ, expired := heap.CheckClock(now, []);
      assert Expired(expired, now, s);
      order := OrderOf(expired, now, s);
      ClockSleeps(s, now, order);
    }

    // ---------- whole events ----------

    method Doze(ghost s: State, t: Tid, timeout: nat)
      requires Mirrors(s) && t in s.th && t !in s.sleepQ
      modifies heap, heap.threads
      ensures Mirrors(Dozing(s, t, timeout))
      ensures node == old(node) && heap.threads == old(heap.threads)
    {
      hide H.SleepQ.Valid, H.SleepQ.Members;
      OnQueue(t);
      heap.AddSleepQ(node[t], timeout);
    }

    /** The threads that an event wakes leave the heap if they are there. */
    method WakeAll(ghost s: State, woken: seq<Tid>) returns (ghost s': State)
      requires Mirrors(s) && forall t :: t in woken ==> t in s.th
      modifies heap, heap.threads
      ensures Mirrors(s') && Less(s, s', Set(woken)) && s'.th.Keys == s.th.Keys && s'.cur == s.cur
      ensures node == old(node) && heap.threads == old(heap.threads)
    {
      hide Mirrors, WakeUp, Less;
      s' := s;
      var i := 0;
      NobodyLess(s);
      while i < |woken|
        invariant i <= |woken| && Mirrors(s') && Less(s, s', Set(woken[..i]))
        invariant s'.th.Keys == s.th.Keys && s'.cur == s.cur
        invariant node == old(node) && heap.threads == old(heap.threads)
      {
        Wake(s', woken[i], Interrupted, false);
        OneLess(s, s', woken, i);
        s' := WakeUp(s', woken[i], Interrupted, false);
        i := i + 1;
      }
      assert woken[..i] == woken;
    }

    /** The clock is checked, if at all. */
    method TickIf(ghost s: State, ghost s1: State, now: Option<nat>, ghost woken: set<Tid>) returns (ghost s2: State)
      requires Mirrors(s1) && Less(s, s1, woken) && s1.th.Keys == s.th.Keys && s1.cur == s.cur
      modifies heap, heap.threads
      ensures Mirrors(s2) && Slept(s, s2, woken, now, None, false) && s2.th.Keys == s.th.Keys
      ensures node == old(node) && heap.threads == old(heap.threads)
    {
      hide Mirrors, Less, Slept, SchedApi.CheckClock, ExpiryOrder;
      if now.Some? {
        ghost var order := CheckClock(s1, now.value);
        s2 := SchedApi.CheckClock(s1, now.value, order);
        ClockIs(s1, now.value, order);
        ThenClock(s, s1, s2, woken, now.value);
        ClockSleeps(s1, now.value, order);
      } else {
        s2 := s1;
        LessIs(s, s1, woken);
      }
    }

    /** The caller starts to sleep, if at all. */
    method DozeIf(ghost s: State, ghost s2: State, nap: Option<(Tid, nat)>, ghost woken: set<Tid>, ghost now: Option<nat>)
      returns (ghost s3: State)
      requires Mirrors(s2) && Slept(s, s2, woken, now, None, false) && s2.th.Keys == s.th.Keys
      requires nap.Some? ==> s.cur == Some(nap.value.0) && nap.value.0 in s.th && nap.value.0 !in s.sleepQ && now == None
      modifies heap, heap.threads
      ensures Mirrors(s3) && Slept(s, s3, woken, now, if nap == None then None else Some(nap.value.1), false)
      ensures s3.th.Keys == s.th.Keys
      ensures node == old(node) && heap.threads == old(heap.threads)
    {
      hide Mirrors;
      s3 := s2;
      if nap.Some? {
        var (t, timeout) := nap.value;
        Doze(s2, t, timeout);
        s3 := Dozing(s2, t, timeout);
      }
    }

    /** The heap operations of event e: whom it wakes, whether it checks the clock, whether the caller starts
        to sleep, and whether there is a new thread.  Afterwards the heap holds the sleeping threads of the
        next state. */
    method Step(ghost s: State, ghost e: Event, ghost cached: bool, woken: seq<Tid>, now: Option<nat>,
                nap: Option<(Tid, nat)>, more: Option<Tid>)
      requires Mirrors(s) && Inv(s) && Enabled(s, e)
      requires woken == Wakes(s, e) && now == Checks(e) && nap == Napper(s, e)
      requires more == if e.CreateCall? then Some(s.nextTid) else None
      modifies this`node, this`owner, heap, heap.threads
      ensures Mirrors(Apply(s, e, cached).0)
    {
      hide Mirrors, Inv, Core, Enabled, Wakes, Naps, Slept, Less, Checks;
      if more.Some? {
        InvHolds(s);
        Create(s, more.value, e.joinable, e.size, cached);
        assert Apply(s, e, cached).0 == SchedApi.Create(s, e.joinable, e.size, cached);
      } else {
        WakesLive(s, e);
        NapperIs(s, e);
        ghost var s' := WakeAll(s, woken);
        s' := TickIf(s, s', now, Set(woken));
        s' := DozeIf(s, s', nap, Set(woken), now);
        EventSleeps(s, e, cached);
        StepInv(s, e, cached);
        SameSleepers(s, s', Apply(s, e, cached).0, Set(woken), now, Naps(s, e));
      }
    }

    lemma SameSleepers(s: State, s1: State, s2: State, woken: set<Tid>, now: Option<nat>, nap: Option<nat>)
      requires Mirrors(s1) && s1.th.Keys == s.th.Keys && Inv(s2)
      requires Slept(s, s1, woken, now, nap, false) && Slept(s, s2, woken, now, nap, false)
      ensures Mirrors(s2)
    {
      assert s1.sleepQ == s2.sleepQ;
      Otherwise(s1, s2);
    }

    // ---------- how long to wait ----------

    lemma LeastAgrees(s: State, m: Option<nat>)
      requires Mirrors(s)
      ensures heap.Valid() && (W.LeastOf(heap, m) ==> LeastSleep(s, m))
    {
    }

    /** The wait that the idle thread hands to select: the least remaining time of the sleeping threads. */
    method SelectWait(ghost s: State) returns (tv: Option<W.Timeval>)
      requires Mirrors(s)
      ensures tv == None <==> s.sleepQ == {}
      ensures forall m: Option<nat> :: LeastSleep(s, m) ==> tv == W.SelectTimeout(m)
      ensures exists m: Option<nat> :: LeastSleep(s, m)
    {
      hide W.SelectTimeout, Mirrors;
      ghost var least := LeastHere(s);
      LeastIsUnique(s, least);
      tv := W.SelectWait(heap);
    }

    /** The root of the heap decides. */
    ghost method LeastHere(s: State) returns (least: Option<nat>)
      requires Mirrors(s)
      ensures LeastSleep(s, least) && heap.Valid() && W.LeastOf(heap, least) && forall t :: t in s.sleepQ ==> t in s.th
    {
      if heap.Members() == {} {
        least := None;
      } else {
        var x :| x in heap.Members();
        heap.RootDueFirst(x);
        least := Some(W.Remaining(heap.root.due, heap.lastClock));
        forall t | t in heap.Members()
          ensures heap.root.due <= t.due
        {
          heap.RootDueFirst(t);
        }
        assert W.LeastOf(heap, least);
      }
      LeastAgrees(s, least);
    }

    /** The same for epoll. */
    method EpollWait(ghost s: State) returns (timeout: int)
      requires Mirrors(s)
      ensures forall m: Option<nat> :: LeastSleep(s, m) ==> timeout == W.EpollTimeout(m)
      ensures exists m: Option<nat> :: LeastSleep(s, m)
    {
      hide W.EpollTimeout, Mirrors;
      ghost var least := LeastHere(s);
      LeastIsUnique(s, least);
      timeout := W.EpollWait(heap);
    }
  }

  lemma NobodyLess(s: State)
    ensures Less(s, s, Set([]))
  {
  }

  lemma OneLess(s: State, s': State, woken: seq<Tid>, i: nat)
    requires i < |woken| && woken[i] in s'.th && Less(s, s', Set(woken[..i]))
    ensures var s2 := WakeUp(s', woken[i], Interrupted, false);
      Less(s, s2, Set(woken[..i + 1])) && s2.th.Keys == s'.th.Keys && s2.cur == s'.cur
  {
    WakeLess(s', woken[i], Interrupted, false);
    assert woken[..i + 1] == woken[..i] + [woken[i]];
    assert Set(woken[..i + 1]) == Set(woken[..i]) + {woken[i]};
  }

  /** The caller, when it starts to sleep, and for how long. */
  ghost function Napper(s: State, e: Event): Option<(Tid, nat)>
    requires Enabled(s, e)
  {
    match Naps(s, e) case None => None case Some(w) => if s.cur.Some? then Some((s.cur.value, w)) else None
  }

  lemma NapperIs(s: State, e: Event)
    requires Inv(s) && Enabled(s, e)
    ensures Naps(s, e) == (if Napper(s, e) == None then None else Some(Napper(s, e).value.1))
    ensures Napper(s, e).Some? ==> var t := Napper(s, e).value.0;
      s.cur == Some(t) && t in s.th && t !in s.sleepQ && Checks(e) == None
  {
    if s.cur.Some? {
      NotQueued(s, s.cur.value);
    }
  }

  lemma {:induction false} WaitersLive(s: State, q: seq<Tid>)
    ensures forall t :: t in Waiters(s, q) || t in FirstWaiter(s, q) ==> t in s.th
  {
    if q != [] {
      WaitersLive(s, q[1..]);
    }
  }

  lemma WakesLive(s: State, e: Event)
    requires Enabled(s, e)
    ensures forall t :: t in Wakes(s, e) ==> t in s.th
  {
    match e {
      case SignalCall(c, _) => WaitersLive(s, s.conds[User(c)]);
      case ExitCall =>
        if Term(s.cur.value) in s.conds {
          WaitersLive(s, s.conds[Term(s.cur.value)]);
        }
      case IdleTurn(ready, _, _) =>
        forall t | t in Notifies(s, s.ioQ, ready)
          ensures t in s.th
        {
          NotifiesAre(s, s.ioQ, ready, t);
        }
      case _ =>
    }
    hide Waiters, FirstWaiter, Notifies;
  }

  lemma ClockSleeps(s: State, now: nat, order: seq<Tid>)
    requires ExpiryOrder(s, now, order)
    ensures var s' := CheckClock(s, now, order);
      && s'.clock == now && s'.nextTid == s.nextTid && s'.th.Keys == s.th.Keys
      && (forall t :: t in s.th ==> s'.th[t].due == s.th[t].due)
      && forall t :: t in s'.sleepQ <==> t in s.sleepQ && !(t in s.th && s.th[t].due <= now)
  {
    ExpireSleeps(s.(clock := now), order);
  }
}
