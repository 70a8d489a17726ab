/**
 The virtual processor together with its select back end: `st_poll` takes and counts real poll
 descriptors, the idle thread wakes whom select names, and a descriptor may be closed exactly when no
 thread inside `st_poll` still waits for it.
 */
module SchedRuntime {
  import opened Options
  import opened SchedState
  import opened SchedApi
  import opened SchedRuns
  import opened SchedInv
  import opened SchedSteps
  import opened SchedTheorems
  import opened SchedVp
  import opened SchedIo
  import opened PollWalk
  import P = PollTypes
  import S = Select

  type Pds = map<Tid, seq<P.PollFd>>

  // ---------- the queue of requests and the queue of threads ----------

  ghost function Threads(q: seq<P.PollQ>): (r: seq<Tid>)
    ensures |r| == |q| && forall i :: 0 <= i < |q| ==> r[i] == q[i].thread
  {
    if q == [] then [] else Threads(q[..|q| - 1]) + [q[|q| - 1].thread]
  }

  /** The requests of q are those of the io queue, and their descriptors are the ones in pds. */
  ghost predicate Queued(ioQ: seq<Tid>, q: seq<P.PollQ>, pds: Pds) {
    Threads(q) == ioQ && forall i :: 0 <= i < |q| ==> q[i].thread in pds && pds[q[i].thread] == q[i].pds
  }

  /** Whoever was notified has as many descriptors with events as dispatch said. */
  ghost predicate Counted(s: State, pds: Pds) {
    forall t: Tid :: View(s, t).Some? ==> t in pds && View(s, t) == Some(Ready(ReadyCount(pds[t])))
  }

  ghost predicate Linked(s: State, q: seq<P.PollQ>, pds: Pds) {
    Queued(s.ioQ, q, pds) && Counted(s, pds)
  }

  lemma LinkedByOthers(s: State, s': State, q: seq<P.PollQ>, pds: Pds)
    requires Linked(s, q, pds) && SameIo(s, s')
    ensures Linked(s', q, pds)
  {
    hide View, Queued;
  }

  lemma ThreadsOfMore(q: seq<P.PollQ>, p: P.PollQ)
    ensures Threads(q + [p]) == Threads(q) + [p.thread]
  {
    assert (q + [p])[..|q|] == q;
  }

  lemma QueuedMore(ioQ: seq<Tid>, q: seq<P.PollQ>, pds: Pds, p: P.PollQ)
    requires Queued(ioQ, q, pds) && p.thread !in ioQ
    ensures Queued(ioQ + [p.thread], q + [p], pds[p.thread := p.pds])
  {
    ThreadsOfMore(q, p);
    assert forall i :: 0 <= i < |q| ==> q[i].thread == ioQ[i];
    hide Threads;
  }

  lemma QueuedLess(ioQ: seq<Tid>, q: seq<P.PollQ>, pds: Pds, i: nat)
    requires Queued(ioQ, q, pds) && i < |ioQ|
    ensures |q| == |ioQ| && Queued(ioQ[..i] + ioQ[i + 1..], P.Without(q, i), pds)
  {
    hide Threads;
    assert forall k :: 0 <= k < |q| ==> q[k].thread == ioQ[k];
    var r := P.Without(q, i);
    assert forall k :: 0 <= k < |r| ==> r[k] == q[if k < i then k else k + 1];
    assert Threads(r) == ioQ[..i] + ioQ[i + 1..];
  }

  lemma CountedFrame(s: State, s': State, pds: Pds, pds': Pds)
    requires Counted(s, pds)
    requires forall t: Tid ::
      View(s', t) == None || (View(s', t) == View(s, t) && (t in pds ==> t in pds' && pds'[t] == pds[t]))
    ensures Counted(s', pds')
  {
    hide View;
  }

  lemma RunningIsNoPoller(s: State)
    requires Inv(s) && UserRuns(s)
    ensures View(s, s.cur.value) == None && s.cur.value !in s.ioQ
  {
    NotQueued(s, s.cur.value);
  }

  /** A call of `st_poll` that blocks puts its request at the end of both queues. */
  lemma LinkedByPoll(s: State, timeout: Option<nat>, added: bool, q: seq<P.PollQ>, p: seq<P.PollFd>, pds: Pds)
    requires Inv(s) && UserRuns(s) && Linked(s, q, pds)
    ensures var s' := PollStart(s, timeout, added).0; var me := s.cur.value;
      if added && !Me(s).intr then Linked(s', q + [P.PollQ(me, p)], pds[me := p]) else Linked(s', q, pds)
  {
    hide Inv, PollStart, View, Queued, Counted;
    var me := s.cur.value;
    PollStartIo(s, timeout, added);
    RunningIsNoPoller(s);
    if added && !Me(s).intr {
      QueuedMore(s.ioQ, q, pds, P.PollQ(me, p));
      CountedFrame(s, PollStart(s, timeout, added).0, pds, pds[me := p]);
    } else {
      CountedFrame(s, PollStart(s, timeout, added).0, pds, pds);
    }
  }

  /** A call that goes on takes its request from both queues. */
  lemma LinkedByResume(s: State, q: seq<P.PollQ>, pds: Pds, i: nat)
    requires Inv(s) && Enabled(s, Event.Resume) && Linked(s, q, pds)
    requires Me(s).call == Poll(true) ==> i < |s.ioQ| && s.ioQ[i] == s.cur.value
    ensures Me(s).call == Poll(true) ==> i < |q|
    ensures Linked(Resumed(s).0, if Me(s).call == Poll(true) then P.Without(q, i) else q, pds)
  {
    ResumedIo(s);
    InvQueues(s);
    hide Inv, Core, Side, Resumed, View, Queued, Counted;
    CountedFrame(s, Resumed(s).0, pds, pds);
    if Me(s).call == Poll(true) {
      QueuedLess(s.ioQ, q, pds, i);
      RemoveAt(s.ioQ, i);
    }
  }

  lemma InvQueues(s: State)
    requires Inv(s)
    ensures NoDup(s.ioQ) && (forall t :: t in s.th ==> (t in s.ioQ <==> s.th[t].call == Poll(true)))
    ensures forall t :: t in s.ioQ ==> t in s.th
  {
    forall t | t in s.th
      ensures t in s.ioQ <==> s.th[t].call == Poll(true)
    {
      assert ThreadOk(s, t);
    }
  }

  // ---------- dispatch ----------

  /** How many descriptors have events, for each request. */
  function Counts(q: seq<P.PollQ>): map<Tid, nat> {
    if q == [] then map[]
    else Counts(q[..|q| - 1])[q[|q| - 1].thread := ReadyCount(q[|q| - 1].pds)]
  }

  /** The answers of the requests are written into the descriptors of their callers. */
  function WriteAll(pds: Pds, q: seq<P.PollQ>): Pds {
    if q == [] then pds else WriteAll(pds, q[..|q| - 1])[q[|q| - 1].thread := q[|q| - 1].pds]
  }

  ghost predicate NoThreadTwice(q: seq<P.PollQ>) {
    forall i, j :: 0 <= i < j < |q| ==> q[i].thread != q[j].thread
  }

  lemma {:induction false} CountsAt(q: seq<P.PollQ>, t: Tid)
    ensures t in Counts(q) <==> exists i :: 0 <= i < |q| && q[i].thread == t
    ensures NoThreadTwice(q) ==> forall i :: 0 <= i < |q| && q[i].thread == t ==> Counts(q)[t] == ReadyCount(q[i].pds)
    decreases |q|
  {
    if q != [] {
      var n := |q| - 1;
      CountsAt(q[..n], t);
      assert forall i :: 0 <= i < n ==> q[..n][i] == q[i];
    }
  }

  lemma {:induction false} WriteAllAt(pds: Pds, q: seq<P.PollQ>, t: Tid)
    ensures t in WriteAll(pds, q) <==> t in pds || exists i :: 0 <= i < |q| && q[i].thread == t
    ensures NoThreadTwice(q) ==> forall i :: 0 <= i < |q| && q[i].thread == t ==> WriteAll(pds, q)[t] == q[i].pds
    ensures (forall i :: 0 <= i < |q| ==> q[i].thread != t) && t in pds ==> WriteAll(pds, q)[t] == pds[t]
    decreases |q|
  {
    if q != [] {
      var n := |q| - 1;
      WriteAllAt(pds, q[..n], t);
      assert forall i :: 0 <= i < n ==> q[..n][i] == q[i];
    }
  }

  lemma {:induction false} UnreadyOfConcat(a: seq<Tid>, b: seq<Tid>, ready: map<Tid, nat>)
    ensures Unready(a + b, ready) == Unready(a, ready) + Unready(b, ready)
  {
    if a == [] {
      assert a + b == b;
    } else {
      assert (a + b)[1..] == a[1..] + b;
      UnreadyOfConcat(a[1..], b, ready);
    }
  }

  /** Each request is answered, and goes to one of the two lists. */
  lemma {:induction false} WalkedAt(q: seq<P.PollQ>, how: How, i: nat)
    requires i < |q|
    ensures var p := Answered(q[i], how); p in (if Notified(p.pds) then Woken(q, how) else Stay(q, how))
    decreases |q|
  {
    hide Notified, Answered;
    var n := |q| - 1;
    if i < n {
      WalkedAt(q[..n], how, i);
    }
  }

  lemma {:induction false} WalkedFrom(q: seq<P.PollQ>, how: How, p: P.PollQ)
    requires p in Woken(q, how) || p in Stay(q, how)
    ensures exists i :: 0 <= i < |q| && p == Answered(q[i], how)
    ensures p in Woken(q, how) <==> Notified(p.pds)
    decreases |q|
  {
    hide Notified, Answered;
    WokenOrStay(q, how);
    var n := |q| - 1;
    if q != [] && p != Answered(q[n], how) {
      WalkedFrom(q[..n], how, p);
      var i :| 0 <= i < n && p == Answered(q[..n][i], how);
      assert q[..n][i] == q[i];
    }
  }

  lemma {:induction false} WalkedOnce(q: seq<P.PollQ>, how: How)
    requires NoThreadTwice(q)
    ensures NoThreadTwice(Woken(q, how)) && NoThreadTwice(Stay(q, how))
    decreases |q|
  {
    if q != [] {
      var n := |q| - 1;
      var p := Answered(q[n], how);
      assert forall i :: 0 <= i < n ==> q[..n][i] == q[i];
      WalkedOnce(q[..n], how);
      hide Notified, Answered;
      AnsweredThread(q[n], how);
      forall x | x in Woken(q[..n], how) || x in Stay(q[..n], how)
        ensures x.thread != p.thread
      {
        WalkedFrom(q[..n], how, x);
        var i :| 0 <= i < n && x == Answered(q[..n][i], how);
        AnsweredThread(q[i], how);
      }
      var woken, stay := Woken(q[..n], how), Stay(q[..n], how);
      assert Woken(q, how) == woken + (if Notified(p.pds) then [p] else []);
      assert Stay(q, how) == stay + (if Notified(p.pds) then [] else [p]);
      hide Woken, Stay;
      OnceMore(woken, p);
      OnceMore(stay, p);
      assert woken + [] == woken && stay + [] == stay;
    }
  }

  lemma OnceMore(q: seq<P.PollQ>, p: P.PollQ)
    requires NoThreadTwice(q) && forall x :: x in q ==> x.thread != p.thread
    ensures NoThreadTwice(q + [p])
  {
  }

  lemma AnsweredThread(p: P.PollQ, how: How)
    ensures Answered(p, how).thread == p.thread
  {
  }

  predicate Of(q: seq<P.PollQ>, t: Tid) {
    exists i :: 0 <= i < |q| && q[i].thread == t
  }

  /** What a dispatch does with the requests q: some stay and the others are woken, each with an event. */
  ghost predicate Splits(q: seq<P.PollQ>, stay: seq<P.PollQ>, woken: seq<P.PollQ>) {
    && NoThreadTwice(stay) && NoThreadTwice(woken)
    && (forall t: Tid :: Of(stay, t) || Of(woken, t) ==> Of(q, t)) && (forall t: Tid :: !(Of(stay, t) && Of(woken, t)))
    && (forall t: Tid :: t in Counts(woken) ==> Counts(woken)[t] >= 1)
    && Unready(Threads(q), Counts(woken)) == Threads(stay)
  }

  lemma {:induction false} NobodyReady(q: seq<Tid>)
    ensures Unready(q, map[]) == q
  {
    if q != [] {
      NobodyReady(q[1..]);
    }
  }

  lemma SplitsNone(q: seq<P.PollQ>)
    requires NoThreadTwice(q)
    ensures Splits(q, q, [])
  {
    NobodyReady(Threads(q));
  }

  /** The last request stays, or does not. */
  lemma StayThreads(q: seq<P.PollQ>, how: How)
    requires q != []
    ensures Threads(Stay(q, how)) == Threads(Stay(q[..|q| - 1], how)) +
      (if Notified(Answered(q[|q| - 1], how).pds) then [] else [q[|q| - 1].thread])
  {
    var n := |q| - 1;
    var p, stay := Answered(q[n], how), Stay(q[..n], how);
    hide Notified, Answered;
    assert Stay(q, how) == if Notified(p.pds) then stay + [] else stay + [p];
    hide Threads, Stay;
    AnsweredThread(q[n], how);
    ThreadsOfMore(stay, p);
    assert stay + [] == stay && Threads(stay) + [] == Threads(stay);
  }

  lemma UnreadyMore(q: seq<P.PollQ>, ready: map<Tid, nat>)
    requires q != []
    ensures Unready(Threads(q), ready) == Unready(Threads(q[..|q| - 1]), ready) +
      (if q[|q| - 1].thread in ready then [] else [q[|q| - 1].thread])
  {
    hide Unready;
    var n := |q| - 1;
    assert Threads(q) == Threads(q[..n]) + [q[n].thread];
    hide Threads;
    UnreadyOfConcat(Threads(q[..n]), [q[n].thread], ready);
    UnreadyOfOne(q[n].thread, ready);
  }

  lemma {:induction false} UnreadyStay(q: seq<P.PollQ>, how: How, ready: map<Tid, nat>)
    requires forall i :: 0 <= i < |q| ==> (q[i].thread in ready <==> Notified(Answered(q[i], how).pds))
    ensures Unready(Threads(q), ready) == Threads(Stay(q, how))
    decreases |q|
  {
    if q != [] {
      hide Notified, Answered, Unready, Threads, Stay;
      var n := |q| - 1;
      assert forall i :: 0 <= i < n ==> q[..n][i] == q[i];
      UnreadyStay(q[..n], how, ready);
      StayThreads(q, how);
      UnreadyMore(q, ready);
    }
  }

  lemma UnreadyOfOne(t: Tid, ready: map<Tid, nat>)
    ensures Unready([t], ready) == if t in ready then [] else [t]
  {
    assert [t][1..] == [];
  }

  /** The request at i is counted among the woken iff it has an event. */
  lemma CountedIff(q: seq<P.PollQ>, how: How, i: nat)
    requires NoThreadTwice(q) && i < |q|
    ensures q[i].thread in Counts(Woken(q, how)) <==> Notified(Answered(q[i], how).pds)
  {
    var woken, t := Woken(q, how), q[i].thread;
    CountsAt(woken, t);
    AnsweredThread(q[i], how);
    if Notified(Answered(q[i], how).pds) {
      WalkedAt(q, how, i);
    }
    if t in Counts(woken) {
      var j :| 0 <= j < |woken| && woken[j].thread == t;
      WalkedFrom(q, how, woken[j]);
      var k :| 0 <= k < |q| && woken[j] == Answered(q[k], how);
      AnsweredThread(q[k], how);
    }
    hide Notified, Answered, Woken, Counts;
  }

  lemma WalkedThreads(q: seq<P.PollQ>, how: How, t: Tid)
    requires NoThreadTwice(q)
    ensures Of(Stay(q, how), t) || Of(Woken(q, how), t) ==> Of(q, t)
    ensures !(Of(Stay(q, how), t) && Of(Woken(q, how), t))
  {
    var stay, woken := Stay(q, how), Woken(q, how);
    if Of(stay, t) {
      var j :| 0 <= j < |stay| && stay[j].thread == t;
      WalkedFrom(q, how, stay[j]);
      var k :| 0 <= k < |q| && stay[j] == Answered(q[k], how);
      AnsweredThread(q[k], how);
      CountedIff(q, how, k);
      WokenOrStay(q, how);
      CountsAt(woken, t);
    }
    if Of(woken, t) {
      var j :| 0 <= j < |woken| && woken[j].thread == t;
      WalkedFrom(q, how, woken[j]);
      var k :| 0 <= k < |q| && woken[j] == Answered(q[k], how);
      AnsweredThread(q[k], how);
    }
    hide Notified, Answered, Stay, Woken, Counts;
  }

  lemma SplitsWalk(q: seq<P.PollQ>, how: How)
    requires NoThreadTwice(q)
    ensures Splits(q, Stay(q, how), Woken(q, how))
  {
    var stay, woken := Stay(q, how), Woken(q, how);
    WalkedOnce(q, how);
    forall t: Tid
      ensures Of(stay, t) || Of(woken, t) ==> Of(q, t)
      ensures !(Of(stay, t) && Of(woken, t))
    {
      WalkedThreads(q, how, t);
    }
    forall t: Tid | t in Counts(woken)
      ensures Counts(woken)[t] >= 1
    {
      CountsAt(woken, t);
      var j :| 0 <= j < |woken| && woken[j].thread == t;
      WokenSeeEvents(q, how, woken[j]);
    }
    forall i | 0 <= i < |q|
      ensures q[i].thread in Counts(woken) <==> Notified(Answered(q[i], how).pds)
    {
      CountedIff(q, how, i);
    }
    UnreadyStay(q, how, Counts(woken));
    hide Notified, Answered, Stay, Woken, Counts, Of, NoThreadTwice;
  }

  lemma QueuedOnce(ioQ: seq<Tid>, q: seq<P.PollQ>, pds: Pds)
    requires Queued(ioQ, q, pds) && NoDup(ioQ)
    ensures NoThreadTwice(q) && forall t: Tid :: Of(q, t) <==> t in ioQ
  {
    assert |q| == |ioQ| && forall i :: 0 <= i < |q| ==> q[i].thread == ioQ[i];
    hide Threads;
    forall t: Tid
      ensures Of(q, t) <==> t in ioQ
    {
      if t in ioQ {
        var i :| 0 <= i < |ioQ| && ioQ[i] == t;
        assert q[i].thread == t;
      }
    }
  }

  /** What the callers find in their descriptors after a dispatch. */
  ghost function Answers(pds: Pds, stay: seq<P.PollQ>, woken: seq<P.PollQ>): Pds {
    WriteAll(WriteAll(pds, woken), stay)
  }

  lemma AnswersAt(pds: Pds, q: seq<P.PollQ>, stay: seq<P.PollQ>, woken: seq<P.PollQ>, t: Tid)
    requires Splits(q, stay, woken)
    ensures t in pds ==> t in Answers(pds, stay, woken)
    ensures t in Counts(woken) ==>
      t in Answers(pds, stay, woken) && Counts(woken)[t] == ReadyCount(Answers(pds, stay, woken)[t])
    ensures !Of(q, t) && t in pds ==> Answers(pds, stay, woken)[t] == pds[t]
  {
    assert !Of(q, t) ==> !Of(stay, t) && !Of(woken, t);
    CountsAt(woken, t);
    WriteAllAt(pds, woken, t);
    WriteAllAt(WriteAll(pds, woken), stay, t);
    assert t in Counts(woken) ==> Of(woken, t) && !Of(stay, t);
    hide Counts, WriteAll, Splits, NoThreadTwice;
  }

  lemma QueuedAnswers(pds: Pds, stay: seq<P.PollQ>, woken: seq<P.PollQ>)
    requires NoThreadTwice(stay)
    ensures Queued(Threads(stay), stay, Answers(pds, stay, woken))
  {
    forall i | 0 <= i < |stay|
      ensures stay[i].thread in Answers(pds, stay, woken) && Answers(pds, stay, woken)[stay[i].thread] == stay[i].pds
    {
      WriteAllAt(WriteAll(pds, woken), stay, stay[i].thread);
    }
  }

  /** A turn of the idle thread, with the requests that dispatch found. */
  lemma LinkedByIdle(s: State, now: nat, order: seq<Tid>, q: seq<P.PollQ>, pds: Pds, stay: seq<P.PollQ>,
                     woken: seq<P.PollQ>)
    requires Inv(s) && Linked(s, q, pds) && Splits(q, stay, woken)
    requires Enabled(s, Event.IdleTurn(Counts(woken), now, order))
    ensures Linked(Idle(s, Counts(woken), now, order), stay, Answers(pds, stay, woken))
  {
    hide Core, Side, Dispatch, Idle, Enabled, Counts, Answers, NoDup, ReadyCount;
    var ready, pds' := Counts(woken), Answers(pds, stay, woken);
    var d := Dispatch(s, s.ioQ, ready);
    IdleIo(s, ready, now, order);
    InvQueues(s);
    DispatchIo(s, ready);
    QueuedOnce(s.ioQ, q, pds);
    QueuedAnswers(pds, stay, woken);
    forall t: Tid | View(d, t).Some?
      ensures t in pds' && View(d, t) == Some(Ready(ReadyCount(pds'[t])))
    {
      AnswersAt(pds, q, stay, woken, t);
    }
    assert Linked(d, stay, pds');
    LinkedByOthers(d, Idle(s, ready, now, order), stay, pds');
  }

  // ---------- what both back ends share ----------

  lemma InterruptedFirst(s: State, timeout: Option<nat>, added: bool)
    requires UserRuns(s) && Me(s).intr
    ensures PollStart(s, timeout, added) == PollStart(s, timeout, false)
  {
  }

  /** What `st_poll` returns: with no interrupt the number of descriptors with events, when dispatch
      has notified the caller, and 0 when it is still on the io queue. */
  ghost predicate PollReturns(r: Thread, p: seq<P.PollFd>, out: Outcome) {
    && (r.intr ==> out == Returns(EINTR))
    && (!r.intr && r.call == Poll(true) ==> out == Returns(Ok(0)))
    && (!r.intr && r.call == Poll(false) ==> out == Returns(Ok(|EventsOf(p)|)) && |EventsOf(p)| >= 1)
  }

  lemma CanGoOn(s: State)
    requires CanReturn(s) && s.cur != Some(s.idle) && !Me(s).call.NoCall?
    ensures Enabled(s, Event.Resume) && s.cur.value in s.th
  {
  }

  lemma PollReturnsCount(s: State, q: seq<P.PollQ>, pds: Pds)
    requires Inv(s) && Enabled(s, Event.Resume) && Linked(s, q, pds) && Me(s).call.Poll?
    ensures Me(s).call == Poll(false) ==> s.cur.value in pds
    ensures PollReturns(Me(s), if s.cur.value in pds then pds[s.cur.value] else [], Resumed(s).1)
  {
    RunningMe(s);
    if s.cur.value in pds {
      ReadyCountIs(pds[s.cur.value]);
    }
    assert Me(s).call == Poll(false) ==> View(s, s.cur.value).Some?;
    hide Inv, Core, Side, Queued, Return, ReadyCount;
  }

  /** A walk reports how, or there was none: the requests that stay and those that are woken. */
  ghost predicate Dispatched(q: seq<P.PollQ>, how: Option<How>, stay: seq<P.PollQ>, woken: seq<P.PollQ>) {
    if how == None then stay == q && woken == [] else stay == Stay(q, how.value) && woken == Woken(q, how.value)
  }

  lemma DispatchedSplits(s: State, q: seq<P.PollQ>, pds: Pds, how: Option<How>, stay: seq<P.PollQ>, woken: seq<P.PollQ>)
    requires Inv(s) && Linked(s, q, pds) && Dispatched(q, how, stay, woken)
    ensures Splits(q, stay, woken) && forall t :: t in Counts(woken) ==> Counts(woken)[t] >= 1
  {
    InvQueues(s);
    QueuedOnce(s.ioQ, q, pds);
    if how == None {
      SplitsNone(q);
    } else {
      SplitsWalk(q, how.value);
    }
    hide Inv, Stay, Woken, NoThreadTwice, Of, Unready, Threads;
  }

  /** A caller of `st_poll` on the io queue finds what the report tells of each descriptor, and is notified iff
      there is an event. */
  ghost predicate Served(report: Report, p: seq<P.PollFd>, p': seq<P.PollFd>, notified: bool) {
    && |p'| == |p| && (forall j :: 0 <= j < |p| ==> Tells(report, p[j], p'[j]))
    && (notified <==> exists j :: 0 <= j < |p| && HasEvent(report, p[j]))
  }

  ghost predicate WasTold(s: State, t: Tid) {
    t in s.th && s.th[t].call == Poll(false)
  }

  /** Every caller that was on the io queue of s is served. */
  ghost predicate AllServed(report: Report, s: State, s': State, pds: Pds, pds': Pds) {
    forall t :: t in s.ioQ ==> t in pds && t in pds' && Served(report, pds[t], pds'[t], WasTold(s', t))
  }

  lemma AnsweredAt(pds: Pds, stay: seq<P.PollQ>, woken: seq<P.PollQ>, q: seq<P.PollQ>, k: nat)
    requires Splits(q, stay, woken)
    ensures k < |woken| ==> var t := woken[k].thread;
      t in Answers(pds, stay, woken) && Answers(pds, stay, woken)[t] == woken[k].pds && t in Counts(woken)
    ensures k < |stay| ==> var t := stay[k].thread;
      t in Answers(pds, stay, woken) && Answers(pds, stay, woken)[t] == stay[k].pds && t !in Counts(woken)
  {
    if k < |woken| {
      var t := woken[k].thread;
      assert Of(woken, t) && !Of(stay, t);
      WriteAllAt(pds, woken, t);
      WriteAllAt(WriteAll(pds, woken), stay, t);
      CountsAt(woken, t);
    }
    if k < |stay| {
      var t := stay[k].thread;
      assert Of(stay, t) && !Of(woken, t);
      WriteAllAt(WriteAll(pds, woken), stay, t);
      CountsAt(woken, t);
    }
    hide Counts, WriteAll;
  }

  lemma ServedFrom(report: Report, p: P.PollQ, r: P.PollQ)
    requires TellsAll(report, p, r)
    ensures Served(report, p.pds, r.pds, SomeEvent(report, p))
  {
    hide Tells, HasEvent;
  }

  lemma SameThread(report: Report, p: P.PollQ, r: P.PollQ)
    requires TellsAll(report, p, r)
    ensures r.thread == p.thread
  {
  }

  lemma ServedAt(report: Report, pds: Pds, q: seq<P.PollQ>, stay: seq<P.PollQ>, woken: seq<P.PollQ>, i: nat)
    requires Splits(q, stay, woken) && Parted(report, q, stay, woken) && i < |q|
    ensures var pds' := Answers(pds, stay, woken); var t := q[i].thread;
      t in pds' && Served(report, q[i].pds, pds'[t], t in Counts(woken))
  {
    hide Splits, Parted, TellsAll, SomeEvent, Served, Answers, Counts;
    var k := PartedGives(report, q, stay, woken, i);
    AnsweredAt(pds, stay, woken, q, k);
    ServedFrom(report, q[i], if SomeEvent(report, q[i]) then woken[k] else stay[k]);
    SameThread(report, q[i], if SomeEvent(report, q[i]) then woken[k] else stay[k]);
  }

  /** Whom a turn of the idle thread notifies. */
  lemma NotifiedByIdle(s: State, now: nat, order: seq<Tid>, ready: map<Tid, nat>, t: Tid)
    requires Inv(s) && Enabled(s, Event.IdleTurn(ready, now, order)) && t in s.ioQ
    ensures WasTold(Idle(s, ready, now, order), t) <==> t in ready
  {
    hide Core, Side, Dispatch, Idle, Enabled;
    IdleIo(s, ready, now, order);
    InvQueues(s);
    DispatchIo(s, ready);
  }

  lemma ServedByIdle(report: Report, s: State, now: nat, order: seq<Tid>, q: seq<P.PollQ>, pds: Pds, stay: seq<P.PollQ>,
                     woken: seq<P.PollQ>)
    requires Inv(s) && Linked(s, q, pds) && Splits(q, stay, woken) && Parted(report, q, stay, woken)
    requires Enabled(s, Event.IdleTurn(Counts(woken), now, order))
    ensures AllServed(report, s, Idle(s, Counts(woken), now, order), pds, Answers(pds, stay, woken))
  {
    hide Inv, Counted, Splits, Parted, Enabled, Idle, Answers, Counts, WasTold, Served, Threads;
    forall t | t in s.ioQ
      ensures t in pds && t in Answers(pds, stay, woken)
      ensures Served(report, pds[t], Answers(pds, stay, woken)[t], WasTold(Idle(s, Counts(woken), now, order), t))
    {
      var i: nat :| i < |s.ioQ| && s.ioQ[i] == t;
      QueuedAt(s.ioQ, q, pds, i);
      ServedAt(report, pds, q, stay, woken, i);
      NotifiedByIdle(s, now, order, Counts(woken), t);
    }
  }

  lemma QueuedAt(ioQ: seq<Tid>, q: seq<P.PollQ>, pds: Pds, i: nat)
    requires Queued(ioQ, q, pds) && i < |ioQ|
    ensures i < |q| && q[i].thread == ioQ[i] && ioQ[i] in pds && pds[ioQ[i]] == q[i].pds
  {
    assert Threads(q)[i] == ioQ[i];
  }

  /** Without a walk nobody is notified, and nothing is written. */
  lemma NobodyServed(s: State, now: nat, order: seq<Tid>, q: seq<P.PollQ>, pds: Pds, t: Tid)
    requires Inv(s) && Linked(s, q, pds) && Enabled(s, Event.IdleTurn(map[], now, order)) && t in s.ioQ
    ensures t in pds && t in Answers(pds, q, []) && Answers(pds, q, [])[t] == pds[t]
    ensures !WasTold(Idle(s, map[], now, order), t)
  {
    hide Idle, Enabled, Counted, WasTold;
    NotifiedByIdle(s, now, order, map[], t);
    InvQueues(s);
    QueuedOnce(s.ioQ, q, pds);
    var i: nat :| i < |s.ioQ| && s.ioQ[i] == t;
    QueuedAt(s.ioQ, q, pds, i);
    WriteAllAt(pds, q, t);
  }

  method WriteEach(pds: Pds, q: seq<P.PollQ>) returns (r: Pds)
    ensures r == WriteAll(pds, q)
  {
    r := pds;
    var i := 0;
    while i < |q|
      invariant i <= |q| && r == WriteAll(pds, q[..i])
    {
      assert q[..i + 1][..i] == q[..i];
      r := r[q[i].thread := q[i].pds];
      i := i + 1;
    }
    assert q[..i] == q;
  }

  /** The answers are written into the descriptors of the callers. */
  method WriteAnswers(pds: Pds, stay: seq<P.PollQ>, woken: seq<P.PollQ>) returns (r: Pds)
    ensures r == Answers(pds, stay, woken)
  {
    r := WriteEach(pds, woken);
    r := WriteEach(r, stay);
  }

  lemma OthersLinked(s: State, e: Event, cached: bool, q: seq<P.PollQ>, pds: Pds)
    requires Inv(s) && Enabled(s, e) && !Concerns(e) && Linked(s, q, pds)
    ensures Linked(Apply(s, e, cached).0, q, pds)
  {
    hide Inv, Linked, Apply, Enabled;
    OthersSameIo(s, e, cached);
    LinkedByOthers(s, Apply(s, e, cached).0, q, pds);
  }

  // ---------- the system ----------

  class Runtime {
    const vp: Vp
    const sel: S.Select
    /** The poll descriptors of the threads inside `st_poll`, where dispatch writes its answers. */
    var pds: Pds

    ghost predicate Valid()
      reads this, vp, sel, sel.cnt, sel.bits
    {
      vp.Valid() && sel.Valid() && Linked(vp.Abs(), sel.ioQ, pds)
    }

    constructor (now: nat, stack: nat, size: nat)
      ensures Valid() && fresh(vp) && fresh(sel) && fresh(sel.cnt) && fresh(sel.bits)
      ensures vp.Abs() == Initial(now, stack) && sel.ioQ == [] && sel.size == size
    {
      vp := new Vp(now, stack);
      sel := new S.Select(size);
      pds := map[];
    }

    /** `st_poll` up to its context switch: the request is counted and queued with the caller, unless an
        interrupt is pending or a descriptor is not valid. */
    method StPoll(p: seq<P.PollFd>, timeout: Option<nat>) returns (out: Outcome)
      requires Valid() && UserRuns(vp.Abs())
      modifies this, vp, sel, sel.cnt, sel.bits
      ensures Valid()
      ensures var s := old(vp.Abs()); var added := forall i :: 0 <= i < |p| ==> sel.Fits(p[i]);
        && (vp.Abs(), out) == PollStart(s, timeout, added)
        && sel.ioQ == old(sel.ioQ) + if added && !Me(s).intr then [P.PollQ(s.cur.value, p)] else []
    {
      hide Vp.Valid, S.Select.Valid, Inv, Linked, PollStart;
      ghost var s := vp.Abs();
      ghost var added := forall i :: 0 <= i < |p| ==> sel.Fits(p[i]);
      InvHere();
      LinkedByPoll(s, timeout, added, sel.ioQ, p, pds);
      var me := vp.cur.value;
      if vp.th[me].intr {
        out := vp.StPoll(timeout, false);
        InterruptedFirst(s, timeout, added);
      } else {
        var ok := sel.Enqueue(P.PollQ(me, p));
        out := vp.StPoll(timeout, ok);
        if ok {
          pds := pds[me := p];
        }
      }
    }

    lemma InvHere()
      requires vp.Valid()
      ensures Inv(vp.Abs())
    {
    }

    /** A call goes on after its context switch; the second half of `st_poll` leaves the queue and the
        counts, if dispatch has not done so. */
    method Resume() returns (out: Outcome)
      requires Valid() && CanReturn(vp.Abs()) && vp.cur != Some(vp.idle) && !Me(vp.Abs()).call.NoCall?
      modifies vp, sel, sel.cnt, sel.bits
      ensures Valid() && (vp.Abs(), out) == Resumed(old(vp.Abs()))
      ensures old(Me(vp.Abs()).call) != Poll(true) ==> sel.ioQ == old(sel.ioQ)
      ensures old(Me(vp.Abs()).call).Poll? ==>
        PollReturns(old(Me(vp.Abs())), old(if vp.cur.value in pds then pds[vp.cur.value] else []), out)
    {
      hide Vp.Valid, S.Select.Valid, Inv, Linked, Resumed, PollReturns, CanReturn;
      ghost var s := vp.Abs();
      InvHere();
      CanGoOn(s);
      var me := vp.cur.value;
      if vp.th[me].call.Poll? {
        PollReturnsCount(s, sel.ioQ, pds);
      }
      if vp.th[me].call == Poll(true) {
        InvQueues(s);
        var i := IndexOf(vp.ioQ, me);
        LinkedByResume(s, sel.ioQ, pds, i);
        sel.Leave(i);
      } else {
        LinkedByResume(s, sel.ioQ, pds, 0);
      }
      out := vp.Resume();
    }

    /** What the walk reports when select found nfd events in fired, timed out, or failed. */
    static function Found(nfd: int, fired: set<(int, int)>, badFd: bool, open: set<int>): Option<How> {
      if nfd > 0 then Some(Fired(fired)) else if nfd < 0 && badFd then Some(Open(open)) else None
    }

    /** One turn of the idle thread: exactly the callers with events are woken, each with the number of its
        descriptors that have one, and those whose time has come; the answers stand in the descriptors. */
    method IdleTurn(nfd: int, fired: set<(int, int)>, badFd: bool, open: set<int>, now: nat)
      returns (woken: seq<P.PollQ>, ghost order: seq<Tid>)
      requires Valid() && vp.cur == Some(vp.idle) && vp.active > 0
      modifies this, vp, sel, sel.cnt, sel.bits
      ensures Valid() && Dispatched(old(sel.ioQ), Found(nfd, fired, badFd, open), sel.ioQ, woken)
      ensures ExpiryOrder(Dispatch(old(vp.Abs()), old(vp.ioQ), Counts(woken)), now, order)
      ensures vp.Abs() == Idle(old(vp.Abs()), Counts(woken), now, order) && pds == Answers(old(pds), sel.ioQ, woken)
      ensures nfd > 0 ==> AllServed(BySelect(fired), old(vp.Abs()), vp.Abs(), old(pds), pds)
      ensures nfd < 0 && badFd ==> AllServed(ByCheck(open), old(vp.Abs()), vp.Abs(), old(pds), pds)
      ensures nfd == 0 || (nfd < 0 && !badFd) ==> forall t :: t in old(vp.ioQ) ==>
        t in old(pds) && t in pds && pds[t] == old(pds)[t] && !WasTold(vp.Abs(), t)
    {
      hide Vp.Valid, S.Select.Valid, Inv, Linked, Idle, Splits, Answers, Counts, ExpiryOrder, Dispatch, Parted, AllServed;
      hide WasTold;
      ghost var s := vp.Abs();
      ghost var q := sel.ioQ;
      InvHere();
      woken := sel.Dispatch(nfd, fired, badFd, open);
      DispatchedSplits(s, q, pds, Found(nfd, fired, badFd, open), sel.ioQ, woken);
      order := vp.IdleTurn(Counts(woken), now);
      LinkedByIdle(s, now, order, q, pds, sel.ioQ, woken);
      ServedHere(s, now, order, q, pds, sel.ioQ, woken, nfd, fired, badFd, open);
      pds := WriteAnswers(pds, sel.ioQ, woken);
    }

    static lemma ServedHere(s: State, now: nat, order: seq<Tid>, q: seq<P.PollQ>, pds: Pds, stay: seq<P.PollQ>,
                            woken: seq<P.PollQ>, nfd: int, fired: set<(int, int)>, badFd: bool, open: set<int>)
      requires Inv(s) && Linked(s, q, pds) && Splits(q, stay, woken)
      requires Enabled(s, Event.IdleTurn(Counts(woken), now, order))
      requires nfd > 0 ==> Parted(BySelect(fired), q, stay, woken)
      requires nfd < 0 && badFd ==> Parted(ByCheck(open), q, stay, woken)
      requires nfd == 0 || (nfd < 0 && !badFd) ==> stay == q && woken == []
      ensures var s' := Idle(s, Counts(woken), now, order); var pds' := Answers(pds, stay, woken);
        && (nfd > 0 ==> AllServed(BySelect(fired), s, s', pds, pds'))
        && (nfd < 0 && badFd ==> AllServed(ByCheck(open), s, s', pds, pds'))
        && (nfd == 0 || (nfd < 0 && !badFd) ==> forall t :: t in s.ioQ ==>
            t in pds && t in pds' && pds'[t] == pds[t] && !WasTold(s', t))
    {
      hide Inv, Linked, Splits, Parted, Enabled, Idle, Answers, AllServed, WasTold;
      if nfd > 0 {
        ServedByIdle(BySelect(fired), s, now, order, q, pds, stay, woken);
      } else if nfd < 0 && badFd {
        ServedByIdle(ByCheck(open), s, now, order, q, pds, stay, woken);
      } else {
        forall t | t in s.ioQ
          ensures t in pds && t in Answers(pds, q, []) && Answers(pds, q, [])[t] == pds[t]
          ensures !WasTold(Idle(s, map[], now, order), t)
        {
          NobodyServed(s, now, order, q, pds, t);
        }
      }
    }

    /** `_st_select_fd_close`: the descriptor may be closed iff no thread that is on the io queue inside
        `st_poll` names it. */
    method FdClose(fd: int) returns (ok: bool)
      requires Valid() && 0 <= fd < sel.size
      ensures forall t :: t in vp.th && vp.th[t].call == Poll(true) ==> t in pds
      ensures ok <==> forall t, j :: t in vp.th && vp.th[t].call == Poll(true) && 0 <= j < |pds[t]| ==> pds[t][j].fd != fd
    {
      hide Vp.Valid, Inv;
      ok := sel.FdClose(fd);
      ghost var q := sel.ioQ;
      InvHere();
      InvQueues(vp.Abs());
      QueuedOnce(vp.ioQ, q, pds);
    }

    // ---------- the calls that do not concern the event system ----------

    /** `st_usleep` */
    method StUsleep(timeout: Option<nat>) returns (out: Outcome)
      requires Valid() && UserRuns(vp.Abs())
      modifies vp
      ensures Valid() && (vp.Abs(), out) == UsleepStart(old(vp.Abs()), timeout)
    {
      hide Vp.Valid, S.Select.Valid, Inv, Linked, UsleepStart;
      ghost var s := vp.Abs();
      InvHere();
      out := vp.StUsleep(timeout);
      OthersLinked(s, UsleepCall(timeout), true, sel.ioQ, pds);
    }

    /** `st_cond_timedwait` */
    method StCondTimedwait(c: nat, timeout: Option<nat>) returns (out: Outcome)
      requires Valid() && UserRuns(vp.Abs()) && User(c) in vp.conds
      modifies vp
      ensures Valid() && (vp.Abs(), out) == SchedApi.CondWait(old(vp.Abs()), User(c), timeout)
    {
      hide Vp.Valid, S.Select.Valid, Inv, Linked, SchedApi.CondWait;
      ghost var s := vp.Abs();
      InvHere();
      out := vp.StCondTimedwait(c, timeout);
      OthersLinked(s, CondWaitCall(c, timeout), true, sel.ioQ, pds);
    }

    /** `st_cond_signal` and `st_cond_broadcast` */
    method StCondSignal(c: nat, broadcast: bool)
      requires Valid() && UserRuns(vp.Abs()) && User(c) in vp.conds
      modifies vp
      ensures Valid() && vp.Abs() == if broadcast then Broadcast(old(vp.Abs()), old(vp.conds[User(c)]))
          else Signal(old(vp.Abs()), old(vp.conds[User(c)]))
    {
      hide Vp.Valid, S.Select.Valid, Inv, Linked, Signal, Broadcast;
      ghost var s := vp.Abs();
      InvHere();
      vp.StCondSignal(c, broadcast);
      OthersLinked(s, SignalCall(c, broadcast), true, sel.ioQ, pds);
    }

    /** `st_mutex_lock` */
    method StMutexLock(m: MutexId) returns (out: Outcome)
      requires Valid() && UserRuns(vp.Abs()) && m in vp.locks
      modifies vp
      ensures Valid() && (vp.Abs(), out) == LockStart(old(vp.Abs()), m)
    {
      hide Vp.Valid, S.Select.Valid, Inv, Linked, LockStart;
      ghost var s := vp.Abs();
      InvHere();
      out := vp.StMutexLock(m);
      OthersLinked(s, LockCall(m), true, sel.ioQ, pds);
    }

    /** `st_mutex_unlock` */
    method StMutexUnlock(m: MutexId) returns (out: Outcome)
      requires Valid() && UserRuns(vp.Abs()) && m in vp.locks
      modifies vp
      ensures Valid() && (vp.Abs(), out) == UnlockBy(old(vp.Abs()), m)
    {
      hide Vp.Valid, S.Select.Valid, Inv, Linked, UnlockBy;
      ghost var s := vp.Abs();
      InvHere();
      out := vp.StMutexUnlock(m);
      OthersLinked(s, UnlockCall(m), true, sel.ioQ, pds);
    }

    /** `st_mutex_trylock` */
    method StMutexTrylock(m: MutexId) returns (out: Outcome)
      requires Valid() && UserRuns(vp.Abs()) && m in vp.locks
      modifies vp
      ensures Valid() && (vp.Abs(), out) == TryLock(old(vp.Abs()), m)
    {
      hide Vp.Valid, S.Select.Valid, Inv, Linked, TryLock;
      ghost var s := vp.Abs();
      InvHere();
      out := vp.StMutexTrylock(m);
      OthersLinked(s, TryLockCall(m), true, sel.ioQ, pds);
    }

    /** `st_thread_yield` */
    method StThreadYield(now: nat) returns (out: Outcome, ghost order: seq<Tid>)
      requires Valid() && UserRuns(vp.Abs())
      modifies vp
      ensures ExpiryOrder(old(vp.Abs()), now, order)
      ensures Valid() && (vp.Abs(), out) == YieldStart(old(vp.Abs()), now, order)
    {
      hide Vp.Valid, S.Select.Valid, Inv, Linked, YieldStart, ExpiryOrder;
      ghost var s := vp.Abs();
      InvHere();
      out, order := vp.StThreadYield(now);
      OthersLinked(s, YieldCall(now, order), true, sel.ioQ, pds);
    }

    /** `st_thread_interrupt` */
    method StThreadInterrupt(t: Tid)
      requires Valid() && UserRuns(vp.Abs()) && t in vp.th && t != vp.idle
      modifies vp
      ensures Valid() && vp.Abs() == Interrupt(old(vp.Abs()), t)
    {
      hide Vp.Valid, S.Select.Valid, Inv, Linked, Interrupt;
      ghost var s := vp.Abs();
      InvHere();
      vp.StThreadInterrupt(t);
      OthersLinked(s, InterruptCall(t), true, sel.ioQ, pds);
    }

    /** `st_thread_create` */
    method StThreadCreate(joinable: bool, size: nat, cached: bool) returns (t: Tid)
      requires Valid() && UserRuns(vp.Abs())
      modifies vp
      ensures Valid() && vp.Abs() == Create(old(vp.Abs()), joinable, size, cached) && t == old(vp.nextTid)
    {
      hide Vp.Valid, S.Select.Valid, Inv, Linked, Create;
      ghost var s := vp.Abs();
      InvHere();
      t := vp.StThreadCreate(joinable, size, cached);
      OthersLinked(s, CreateCall(joinable, size), cached, sel.ioQ, pds);
    }

    /** `st_thread_exit` */
    method StThreadExit()
      requires Valid() && UserRuns(vp.Abs())
      modifies vp
      ensures Valid() && vp.Abs() == ExitThread(old(vp.Abs()))
    {
      hide Vp.Valid, S.Select.Valid, Inv, Linked, ExitThread;
      ghost var s := vp.Abs();
      InvHere();
      vp.StThreadExit();
      OthersLinked(s, ExitCall, true, sel.ioQ, pds);
    }

    /** `st_thread_join` */
    method StThreadJoin(t: Tid) returns (out: Outcome)
      requires Valid() && UserRuns(vp.Abs()) && t in vp.th && t != vp.idle && (vp.th[t].joinable ==> Term(t) in vp.conds)
      modifies vp
      ensures Valid() && (vp.Abs(), out) == Join(old(vp.Abs()), t)
    {
      hide Vp.Valid, S.Select.Valid, Inv, Linked, Join;
      ghost var s := vp.Abs();
      InvHere();
      out := vp.StThreadJoin(t);
      OthersLinked(s, JoinCall(t), true, sel.ioQ, pds);
    }
  }
}
