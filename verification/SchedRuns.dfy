/** The invariant of whole runs: every event keeps it. */
module SchedRuns {
  import opened Options
  import opened SchedState
  import opened SchedApi
  import opened SchedInv

  ghost predicate IsZombie(s: State, x: Tid) {
    x in s.th && s.th[x].state.Zombie?
  }

  /** A thread signalled by the end of x finds x a zombie, and one that still waits
      for x has not missed its end. */
  ghost predicate JoinerOk(s: State, t: Tid)
    requires t in s.th
  {
    s.th[t].call.Cond? && s.th[t].call.c.Term? ==>
      && (s.th[t].wake.Signalled? ==> IsZombie(s, s.th[t].call.c.t))
      && (s.th[t].wake.Waiting? ==> !IsZombie(s, s.th[t].call.c.t))
  }

  ghost predicate TermsOk(s: State) {
    && (forall t: Tid :: t in s.th && s.th[t].joinable ==> Term(t) in s.conds)
    && (forall x: Tid :: Term(x) in s.conds ==> x < s.nextTid && |s.conds[Term(x)]| <= 1)
  }

  ghost predicate JoinOk(s: State) {
    TermsOk(s) && forall t :: t in s.th ==> JoinerOk(s, t)
  }

  ghost predicate StackId(s: State, t: Tid, id: nat) {
    t in s.th && s.th[t].stack.Some? && s.th[t].stack.value.id == id
  }

  /** No two threads share a stack, and no stack in use is on the free list. */
  ghost predicate StacksOk(s: State) {
    && (forall t: Tid, u: Tid, id: nat :: StackId(s, t, id) && StackId(s, u, id) ==> t == u)
    && (forall t: Tid, id: nat :: StackId(s, t, id) ==> id < s.nextStack)
    && (forall i, t: Tid :: 0 <= i < |s.freeStacks| ==> !StackId(s, t, s.freeStacks[i].id))
    && (forall i :: 0 <= i < |s.freeStacks| ==> s.freeStacks[i].id < s.nextStack)
    && (forall i, j :: 0 <= i < j < |s.freeStacks| ==> s.freeStacks[i].id != s.freeStacks[j].id)
  }

  /** The threads that have not begun to exit. */
  ghost function Active(s: State): set<Tid> {
    set t | t in s.th && t != s.idle && !s.th[t].call.Exit?
  }

  /** What does not concern the queues. */
  ghost predicate Side(s: State) {
    JoinOk(s) && StacksOk(s) && s.active == |Active(s)|
  }

  ghost predicate Inv(s: State) {
    && Core(s) && Side(s)
    && s.cur.Some? && (s.cur == Some(s.idle) ==> s.runQ == [])
  }

  /** A change that leaves stacks, exits and joins as they are. */
  ghost predicate SameSide(s: State, s': State) {
    && s'.th.Keys == s.th.Keys && s'.idle == s.idle && s'.nextTid == s.nextTid
    && s'.active == s.active && s'.freeStacks == s.freeStacks && s'.nextStack == s.nextStack
    && forall t :: t in s.th ==>
      && s'.th[t].stack == s.th[t].stack && s'.th[t].joinable == s.th[t].joinable
      && (s'.th[t].call.Exit? <==> s.th[t].call.Exit?)
  }

  lemma SameSideKeeps(s: State, s': State)
    requires SameSide(s, s') && StacksOk(s) && s.active == |Active(s)|
    ensures StacksOk(s') && s'.active == |Active(s')|
  {
    assert forall t: Tid, id: nat :: StackId(s', t, id) <==> StackId(s, t, id);
    assert Active(s') == Active(s);
  }

  /** Waking t keeps the joins in order, except that a joiner is signalled only for a
      zombie, and a zombie is let go only when no joiner has been signalled for it. */
  lemma WakeUpKeepsSide(s: State, t: Tid, why: Wake, front: bool)
    requires Side(s) && CanWake(s, t, why) && RecordOk(s.th[t])
    requires why.Signalled? && s.th[t].call.c.Term? ==> IsZombie(s, s.th[t].call.c.t)
    requires why.Joined? ==> forall u :: u in s.th && s.th[u].call == Cond(Term(t)) ==> !s.th[u].wake.Signalled?
    ensures Side(WakeUp(s, t, why, front))
  {
    var s' := WakeUp(s, t, why, front);
    SameSideKeeps(s, s');
    forall u | u in s'.th
      ensures JoinerOk(s', u)
    {
      assert JoinerOk(s, u);
    }
  }

  lemma ParkKeepsJoins(s: State, call: Call, state: Status, timeout: Option<nat>)
    requires JoinOk(s) && CanPark(s, call, state, timeout) && !call.Exit? && Me(s).state.Running?
    requires call.Cond? && call.c.Term? ==> s.conds[call.c] == [] && !IsZombie(s, call.c.t)
    ensures JoinOk(Park(s, call, state, timeout))
  {
    var s' := Park(s, call, state, timeout);
    forall u | u in s'.th
      ensures JoinerOk(s', u)
    {
      assert JoinerOk(s, u);
    }
  }

  lemma ParkKeepsSide(s: State, call: Call, state: Status, timeout: Option<nat>)
    requires Side(s) && CanPark(s, call, state, timeout) && !call.Exit? && Me(s).state.Running?
    requires call.Cond? && call.c.Term? ==> s.conds[call.c] == [] && !IsZombie(s, call.c.t)
    ensures Side(Park(s, call, state, timeout))
  {
    ParkKeepsJoins(s, call, state, timeout);
    SameSideKeeps(s, Park(s, call, state, timeout));
  }

  lemma ScheduleKeepsSide(s: State)
    requires Side(s) && Next(s) in s.th && s.th[Next(s)].state.Runnable?
    ensures Side(Schedule(s))
  {
    var s' := Schedule(s);
    SameSideKeeps(s, s');
    forall u | u in s'.th
      ensures JoinerOk(s', u)
    {
      assert JoinerOk(s, u);
    }
  }

  lemma ReturnKeepsTerms(s: State, intr: bool)
    requires TermsOk(s) && CanReturn(s)
    ensures TermsOk(Return(s, intr))
  {
  }

  lemma ReturnKeepsJoins(s: State, intr: bool)
    requires JoinOk(s) && CanReturn(s)
    ensures JoinOk(Return(s, intr))
  {
    var s' := Return(s, intr);
    ReturnKeepsTerms(s, intr);
    forall u | u in s'.th
      ensures JoinerOk(s', u)
    {
      assert JoinerOk(s, u);
    }
  }

  lemma ReturnKeepsSide(s: State, intr: bool)
    requires Side(s) && CanReturn(s) && !Me(s).call.Exit?
    ensures Side(Return(s, intr))
  {
    ReturnKeepsJoins(s, intr);
    SameSideKeeps(s, Return(s, intr));
  }
}
