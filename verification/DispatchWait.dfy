/**
 How long the idle thread lets the operating system wait, in microseconds for select and in
 milliseconds for epoll.  Both compute in 64 bits and hand on a C int.
 */
module DispatchWait {
  import opened Options
  import opened TimeoutHeap

  datatype Timeval = Timeval(sec: int, usec: int)

  /** How long until due, seen from the last clock. */
  function Remaining(due: nat, clock: nat): nat {
    if due <= clock then 0 else due - clock
  }

  /** `(int) x`: the low 32 bits as a signed number. */
  function Int32(x: nat): int {
    var m := x % 0x1_0000_0000;
    if m < 0x8000_0000 then m else m - 0x1_0000_0000
  }

  /** m is the least remaining time of all sleepers; there is none iff nobody sleeps. */
  ghost predicate LeastOf(q: SleepQ, m: Option<nat>)
    requires q.Valid()
    reads q, q.threads
  {
    match m
    case None => q.Members() == {}
    case Some(w) =>
      && (exists t :: t in q.Members() && Remaining(t.due, q.lastClock) == w)
      && (forall t :: t in q.Members() ==> w <= Remaining(t.due, q.lastClock))
  }

  /** The root of the heap decides. */
  method LeastWait(q: SleepQ) returns (m: Option<nat>)
    requires q.Valid()
    ensures LeastOf(q, m)
  {
    if q.root == null {
      m := None;
      forall t | t in q.Members()
        ensures false
      {
        q.RootDueFirst(t);
      }
    } else {
      m := Some(if q.root.due <= q.lastClock then 0 else q.root.due - q.lastClock);
      assert q.NodeOk(1);
      forall t | t in q.Members()
        ensures q.root in q.Members() && q.root.due <= t.due
      {
        q.RootDueFirst(t);
      }
      assert q.h[1] in q.h && q.root in q.Members();
    }
  }

  lemma LeastIsUnique(q: SleepQ, w: Option<nat>)
    requires q.Valid() && LeastOf(q, w)
    ensures forall m: Option<nat> :: LeastOf(q, m) ==> m == w
  {
    forall m: Option<nat> | LeastOf(q, m)
      ensures m == w
    {
      if m.Some? && w.Some? {
        var t :| t in q.Members() && Remaining(t.due, q.lastClock) == w.value;
        var u :| u in q.Members() && Remaining(u.due, q.lastClock) == m.value;
      }
    }
  }

  // ---------- select ----------

  function SelectTimeout(m: Option<nat>): Option<Timeval> {
    match m case None => None case Some(w) => Some(Timeval(Int32(w / 1000000), Int32(w % 1000000)))
  }

  /** The wait of `_st_select_dispatch`. */
  method SelectWait(q: SleepQ) returns (tv: Option<Timeval>)
    requires q.Valid()
    ensures tv == None <==> q.Members() == {}
    ensures forall m: Option<nat> :: LeastOf(q, m) ==> tv == SelectTimeout(m)
  {
    var w := LeastWait(q);
    LeastIsUnique(q, w);
    if w == None {
      tv := None;
    } else {
      tv := Some(Timeval(Int32(w.value / 1000000), Int32(w.value % 1000000)));
    }
  }

  /** select waits exactly the least remaining time iff its seconds fit an int. */
  lemma SelectWaitsExactly(w: nat)
    ensures var tv := SelectTimeout(Some(w)).value;
      (tv.sec * 1000000 + tv.usec == w && tv.sec >= 0 && 0 <= tv.usec < 1000000) <==> w < 0x8000_0000 * 1000000
  {
    var s := w / 1000000;
    assert w == s * 1000000 + w % 1000000;
    assert Int32(w % 1000000) == w % 1000000;
    Int32IsSame(s);
  }

  lemma Int32IsSame(x: nat)
    ensures Int32(x) == x <==> x < 0x8000_0000
    ensures Int32(x) >= 0 ==> Int32(x) <= x
  {
  }

  // ---------- epoll ----------

  function EpollTimeout(m: Option<nat>): int {
    match m
    case None => -1
    case Some(w) => if Int32(w / 1000) == 0 && w > 0 then 1 else Int32(w / 1000)
  }

  /** The wait of `_st_epoll_dispatch`, negative for no limit. */
  method EpollWait(q: SleepQ) returns (timeout: int)
    requires q.Valid()
    ensures q.Members() == {} ==> timeout == -1
    ensures forall m: Option<nat> :: LeastOf(q, m) ==> timeout == EpollTimeout(m)
  {
    var w := LeastWait(q);
    LeastIsUnique(q, w);
    if w == None {
      timeout := -1;
    } else {
      timeout := Int32(w.value / 1000);
      if timeout == 0 {
        if w.value > 0 {
          timeout := 1;
        }
      }
    }
  }

  /** epoll waits no longer than the least remaining time, or 1 ms, exactly when the number of
      milliseconds is not negative as an int. */
  lemma EpollWaitsNoLonger(w: nat)
    ensures var t := EpollTimeout(Some(w));
      (0 <= t && t * 1000 <= if w > 1000 then w else 1000) <==> (w / 1000) % 0x1_0000_0000 < 0x8000_0000
  {
    Int32IsSame(w / 1000);
    assert (w / 1000) * 1000 <= w;
  }

  /** Below 2^31 milliseconds the bound always holds, and the wait is never cut to zero. */
  lemma EpollWaitsWithinRange(w: nat)
    requires w / 1000 < 0x8000_0000
    ensures var t := EpollTimeout(Some(w));
      0 <= t && (t == 0 <==> w == 0) && t * 1000 <= (if w > 1000 then w else 1000) && w < (t + 1) * 1000
  {
    EpollWaitsNoLonger(w);
    Int32IsSame(w / 1000);
  }

  /** A thread that sleeps for 2^31 milliseconds makes epoll wait without a limit. */
  lemma EpollMayWaitForever()
    ensures EpollTimeout(Some(0x8000_0000 * 1000)) < 0
  {
    assert 0x8000_0000 * 1000 / 1000 == 0x8000_0000;
  }
}
