# Verification of the State Threads runtime and of the configuration tree

This project models two components and proves properties of the models.

**The State Threads runtime** (`trunk/3rdparty/st-srs`) is a scheduler for threads that share one
processor and switch only at blocking calls.

- `TimeoutHeap.dfy` is the pointer heap of sleeping threads, addressed by the bits of an index.
- `DispatchWait.dfy` is how long the idle thread lets the operating system wait.
- `Clist.dfy` is the intrusive circular list, and `SchedLists.dfy` the queues made of it.
- `SchedState.dfy` and `SchedApi.dfy` are the virtual processor as a state machine, one event for
  each call, each resumed call and each turn of the idle thread. Every `_st_switch_context` splits
  a C function into two events. `SchedInv.dfy`, `SchedRuns.dfy`, `SchedSteps.dfy` and
  `SchedWhole.dfy` prove that each event keeps the invariant. `SchedTheorems.dfy` and
  `SchedHistory.dfy` say what this means for callers. `SchedFlags.dfy`, `SchedResults.dfy` and
  `SchedThreads.dfy` give the result of each call and the whole state after it, in terms of the
  threads, queues, flags and owners alone. `SchedVp.dfy` has the fields and loops of
  the program, and proves each of them to be its event. `SchedSleep.dfy` says what every event does
  to the sleeping threads, and `SchedHeap.dfy` keeps them in the pointer heap through every event.
- `PollTypes.dfy`, `PollWalk.dfy`, `Select.dfy` and `Epoll.dfy` are the event back ends. The
  kernel's answers are arbitrary. For epoll the kernel may refuse any change: `refuses` says which
  of the changes that fit what it holds it refuses, and `Glitches` counts them.
- `SchedIo.dfy`, `SchedRuntime.dfy` and `SchedEpoll.dfy` put the virtual processor together with
  select and with epoll: what `st_poll` returns, whom the idle thread wakes, and which descriptors
  may be closed.
- `Iovec.dfy` is vectored writing and `ReadvResid.dfy` vectored reading, over arbitrary answers of
  the operating system.

The field `wake` of a thread is a history variable: it records what ended the wait, and nothing
that the scheduler does depends on it, except the count that `st_poll` returns. Likewise
`tick` counts the waits so far and `since` records when a wait began; nothing depends on them.

**The configuration** (`trunk/src/app/srs_app_config.cpp`) is a tree of directives.

- `ConfigTree.dfy` is look-up, comparison and copies.
- `ConfigText.dfy` and `ConfigParser.dfy` are the tokenizer, parser and printer.
  `ConfigRoundTrip.dfy` says which trees come back, and `ConfigLayout.dfy` what a file means however
  it is laid out, with comments, blanks and quotes, and which files are refused; `ConfigReader.dfy` reads
  such a file. `ConfigLines.dfy` gives the printed text line by line.
- `ConfigLegacy.dfy`, `ConfigVhost.dfy`, `ConfigSettings.dfy`, `ConfigRoot.dfy`,
  `ConfigTransform.dfy` and `ConfigRewrite.dfy` are the rewriting of legacy directives, with
  `ConfigRefer.dfy` and `ConfigRtc.dfy` for the two blocks with rules of their own, and
  `ConfigFrames.dfy` for what stays. `ConfigNames.dfy` states the whole rewriting with every name
  written out.
- `Options.dfy` is the type of values that may be missing.

Methods follow the loops and updates of the source and are proved equal to specification
functions; the lemmas are about those functions. So that no specification function rests on itself,
what each one computes is also stated without naming it: over `Apply` for the scheduler, as `Parted`
and `AllServed` for the event back ends, over `Parse` and over `Transform` for the configuration. Each call of `SchedVp.Vp` that a program makes
equals an event of the state machine and, by `SchedWhole.StepInv`, keeps the invariant.

## Where the code differs from what one may expect

- `st_mutex_lock` does not return 0 for every owner: a caller that already owns the mutex gets an
  error (`LockTwice`). `LockResultIffOwner` gives the exact condition for a call that returns at
  once, and `BlockedLockResult` shows that a call that blocked is exact.
- `st_poll` and `st_cond_timedwait` report an interrupt that came after the notification, signal
  or time-out but before the thread ran again; `PollResult` and `CondWaitResult` say so.
- The epoll wait is cast to a C int. From 2^31 ms on it can be negative, which means no limit
  (`EpollMayWaitForever`); `EpollWaitsNoLonger` gives the exact condition.
- A refused `_st_epoll_pollset_add` leaves the kernel as it was only when the kernel refuses nothing
  but the change that made the call fail; the counts are restored in any case (`PollsetAdd`).
- The rewriting of legacy directives removes `hstrs`, `aac` and `bframe` one at a time, so it is
  idempotent only under the condition of `TransformIdempotentIff`. Only the first `sip` block of a
  stream caster is cleaned (`SipsCleanIff`).
- An old-style `refer` can be taken for the new block and lose its arguments: behind a `refer_play`
  or `refer_publish`, or as the `refer` behind an old-style one (`ReferIsHijacked`).
  `RefersMoveIff` gives the exact condition and says which one is lost.
- A configuration does not come back from its printed text unless all its words are plain
  (`RoundTripIff`).
- `st_writev_resid` and `st_readv_resid` may fail after all bytes have been moved, exactly when the
  last vector is empty (`FailsWhenDoneIff`, `FailsWhenFullIff`).
- A freed stack is put before the last one of the free list, not at its end.

## Model

| member | source | states |
|---|---|---|
| TimeoutHeap.SleepQ.HeapInsert | trunk/3rdparty/st-srs/sched.c:421-454 | following the bits of the index while swapping nodes down the path puts the thread on the path; the slot returned is that of the last node placed; links and order are as required |
| TimeoutHeap.SleepQ.WalkDown | trunk/3rdparty/st-srs/sched.c:421-450 | the loop over the index bits ends at the slot of the target position |
| TimeoutHeap.SleepQ.AddSleepQ | trunk/3rdparty/st-srs/sched.c:533-539 | the heap stays a complete min-heap by due with correct `heap_index` values, with exactly one more member |
| TimeoutHeap.SleepQ.UnlinkLast | trunk/3rdparty/st-srs/sched.c:465-480 | the last node is found by the bits of the size and unlinked |
| TimeoutHeap.SleepQ.SiftDown | trunk/3rdparty/st-srs/sched.c:490-528 | the loop ends, and restores the order below the given node |
| TimeoutHeap.SleepQ.HeapDelete | trunk/3rdparty/st-srs/sched.c:460-530 | any member leaves a heap of any size: the rest is again a complete min-heap with correct indices, of exactly the other threads |
| TimeoutHeap.SleepQ.DelSleepQ | trunk/3rdparty/st-srs/sched.c:542-546 | the thread leaves the heap and its flag is cleared; the others stay |
| TimeoutHeap.SleepQ.RootDueFirst | trunk/3rdparty/st-srs/sched.c:589-595 | the root is due no later than any sleeping thread |
| TimeoutHeap.SleepQ.CheckClock | trunk/3rdparty/st-srs/sched.c:549-607 | the heap keeps exactly the threads due later; the expired ones stand in front of the unchanged run queue in non-increasing due order |
| TimeoutHeap.ShrStep | trunk/3rdparty/st-srs/sched.c:429-448 | reading the index bits from the top doubles the position and adds the bit |
| SchedHeap.Sleepers.Sleep | trunk/3rdparty/st-srs/sched.c:533-539 | when a thread starts to wait with a timeout the heap again holds exactly the sleeping threads of the state, with their due times |
| SchedHeap.Sleepers.Wake | trunk/3rdparty/st-srs/sched.c:542-546 | the same when a thread is woken, which leaves the heap if it is there |
| SchedHeap.Sleepers.CheckClock | trunk/3rdparty/st-srs/sched.c:589-606 | the order in which the heap hands out the due threads is an expiry order of the state machine, and afterwards the heap holds the sleeping threads again |
| SchedHeap.Sleepers.Create | trunk/3rdparty/st-srs/sched.c:659-713 | a new thread is outside the heap |
| SchedHeap.Sleepers.Otherwise | trunk/3rdparty/st-srs/sched.c:92-656 | changes that put nobody to sleep and wake nobody leave the heap in agreement with the state |
| SchedSleep.EventSleeps | trunk/3rdparty/st-srs/sched.c:92-656 | what every event does to the sleeping threads: whom it wakes leave, a clock check takes those that are due, a caller that waits with a timeout joins with its due time, and nobody else is concerned |
| SchedHeap.Sleepers.Step | trunk/3rdparty/st-srs/sched.c:92-656 | after the heap operations of an event the heap holds exactly the sleeping threads of the next state |
| SchedHeap.Sleepers.SelectWait | trunk/3rdparty/st-srs/event.c:338-346 | while the heap holds the sleeping threads of the state, select is given the least time that any of them has left, or no limit when nobody sleeps |
| SchedHeap.Sleepers.EpollWait | trunk/3rdparty/st-srs/event.c:1087-1107 | the same for epoll, in milliseconds |
| DispatchWait.LeastWait | trunk/3rdparty/st-srs/event.c:338-342 | the root gives the least remaining time of all sleepers, none iff nobody sleeps |
| DispatchWait.SelectWait | trunk/3rdparty/st-srs/event.c:338-346 | the wait handed to select is that time, no limit iff nobody sleeps |
| DispatchWait.SelectWaitsExactly | trunk/3rdparty/st-srs/event.c:343-345 | select waits exactly the least remaining time iff its seconds fit a C int |
| DispatchWait.EpollWait | trunk/3rdparty/st-srs/event.c:1087-1107 | the wait handed to epoll is the least remaining time in whole milliseconds as a C int, at least 1 when it is positive |
| DispatchWait.EpollWaitsNoLonger | trunk/3rdparty/st-srs/event.c:1091-1105 | epoll waits no longer than max(least remaining time, 1 ms) iff the milliseconds are not negative as an int |
| DispatchWait.EpollWaitsWithinRange | trunk/3rdparty/st-srs/event.c:1091-1105 | below 2^31 ms the bound holds, the wait is zero only when a thread is due, and the cut is less than 1 ms |
| DispatchWait.EpollMayWaitForever | trunk/3rdparty/st-srs/event.c:1087-1107 | a sleep of 2^31 ms makes epoll wait without a limit |
| Clist.Remove | trunk/3rdparty/st-srs/common.h:138-142 | the ring closes behind the link, which keeps its own pointers |
| Clist.InsertBefore | trunk/3rdparty/st-srs/common.h:145-151 | the link stands before the given one, before the head at the end |
| Clist.InsertAfter | trunk/3rdparty/st-srs/common.h:154-160 | the link stands behind the given one |
| Clist.Sweep | trunk/3rdparty/st-srs/event.c:354-415 | a loop that removes links while stepping to `next` visits every link and keeps the others in order |
| SchedLists.Queue.InsertLast | trunk/3rdparty/st-srs/common.h:145-151 | inserting the link of a thread before the head of a queue puts the thread at the end |
| SchedLists.Queue.InsertFirst | trunk/3rdparty/st-srs/common.h:154-160 | inserting it after the head puts the thread in front |
| SchedLists.Queue.TakeOut | trunk/3rdparty/st-srs/common.h:138-142 | removing its link takes the thread from the queue, in the sense of the state machine |
| SchedLists.Queue.First | trunk/3rdparty/st-srs/sched.c:147-154 | the link behind the head is that of the first thread, or the head iff the queue is empty |
| SchedState.RemoveKeeps | trunk/3rdparty/st-srs/common.h:138-142 | taking a thread from a queue keeps the others as members, each once; their order is in RemoveClosesGap |
| SchedState.RemoveClosesGap | trunk/3rdparty/st-srs/common.h:138-142 | the first place of the thread closes and the others keep their order; without the thread the queue stays |
| SchedWhole.StepInv | trunk/3rdparty/st-srs/sched.c:92-656 | every event, from a call, a resumed call or the idle thread, keeps the invariant: placement, queues, mutexes, joins, stacks and the active count agree |
| SchedTheorems.InitialInv | trunk/3rdparty/st-srs/sched.c:174-252 | the state after initialisation satisfies the invariant |
| SchedTheorems.RunInv | trunk/3rdparty/st-srs/sched.c:92-656 | every state of every run satisfies the invariant |
| SchedTheorems.Placement | trunk/3rdparty/st-srs/sched.c:92-168 | each live thread that is neither running nor idle is on the run queue once iff RUNNABLE, on the zombie queue once iff ZOMBIE, in the heap iff ON_SLEEPQ; RUNNABLE threads never sleep |
| SchedTheorems.NotQueued | trunk/3rdparty/st-srs/sched.c:143-168 | a thread that is gone is in no queue, nor in a wait queue; nor is the running thread, but for the queue of the call that it has yet to leave |
| SchedInv.ScheduleKeepsCore | trunk/3rdparty/st-srs/sched.c:143-168 | the thread that is scheduled is RUNNABLE, so the assertion there holds; the idle thread is chosen only when the run queue is empty |
| SchedThreads.RunQueueIsFifo | trunk/3rdparty/st-srs/sched.c:143-168 | the run queue is first in, first out, in every event: those whose time has come go before all others, whoever an event makes ready goes behind them in order, and when the caller gives up the processor the first of the line runs, the idle thread iff there is none |
| SchedThreads.YieldResult | trunk/3rdparty/st-srs/sched.c:610-636 | a yield checks the clock, returns at once iff nobody is then ready, and else puts the caller last and runs the first thread |
| SchedThreads.YieldReturns | trunk/3rdparty/st-srs/sched.c:633-636 | after a yield the caller goes on as before, a pending interrupt still pending |
| SchedThreads.IdleTurnResult | trunk/3rdparty/st-srs/sched.c:286-299 | one turn of the idle thread with the whole state given: who has news is told and queued in the order of the io queue, then those who are due go to the front, then the next thread runs |
| SchedTheorems.ClockAssertions | trunk/3rdparty/st-srs/sched.c:589-606 | at every turn of the clock loop the thread is ON_SLEEPQ and is not the idle thread |
| SchedTheorems.ClockChecked | trunk/3rdparty/st-srs/sched.c:549-607 | exactly the due threads leave the heap, for the head of the run queue in reverse; TIMEDOUT is newly set exactly on those in COND_WAIT; all else is unchanged |
| SchedTheorems.ExpiredRunLatestFirst | trunk/3rdparty/st-srs/sched.c:604-606 | the expired threads stand on the run queue in non-increasing due order |
| SchedSteps.IdleSeesOnlyWaiters | trunk/3rdparty/st-srs/sched.c:286-296 | when the idle thread enters dispatch every request on the io queue belongs to a thread still in IO_WAIT |
| SchedHistory.DispatchNotifies | trunk/3rdparty/st-srs/event.c:352-415 | dispatch makes runnable exactly the IO_WAIT threads with ready descriptors, never one that timed out or was interrupted |
| SchedTheorems.PollResult | trunk/3rdparty/st-srs/sched.c:92-140 | after blocking, `st_poll` gives the count that dispatch recorded, at least 1, iff it notified the caller, 0 iff it timed out, -1 iff interrupted before it resumed, and has left the queues; what the count is says PollReturnsCount |
| SchedTheorems.UsleepResult | trunk/3rdparty/st-srs/sync.c:117-142 | `st_usleep` fails iff interrupted; otherwise the clock had reached its due time when it was woken |
| SchedFlags.InterruptDoes | trunk/3rdparty/st-srs/sched.c:639-656 | an interrupt sets the flag of every thread that has not ended; one that waits becomes RUNNABLE, last on the run queue, and leaves the heap; a zombie and all other threads stay as they are |
| SchedFlags.InterruptedCall | trunk/3rdparty/st-srs/sync.c:121-125 | a call of poll, sleep, condition wait or lock fails with EINTR iff the flag is set when it is made, and then only clears it |
| SchedFlags.FlagLasts | trunk/3rdparty/st-srs/sync.c:117-327 | in every event the flag of a thread is cleared only when the thread itself gets EINTR, and set only by an interrupt of it: a yield and a hand-over keep it |
| SchedResults.SleepResult | trunk/3rdparty/st-srs/sched.c:106-118 | a refused `st_poll` changes nothing; else the caller of poll or sleep waits in its state, until its due time, a poll last of all on the io queue, and the head of the run queue or the idle thread runs |
| SchedResults.CondWaitStarts | trunk/3rdparty/st-srs/sync.c:192-200 | the caller waits last of all in the queue of the condition, until its due time, and another thread runs |
| SchedResults.SignalResult | trunk/3rdparty/st-srs/sync.c:225-251 | a signal makes the longest waiter RUNNABLE, last of all, with all fields of the state given; without a waiter nothing changes |
| SchedResults.BroadcastResult | trunk/3rdparty/st-srs/sync.c:225-257 | a broadcast makes exactly the waiters RUNNABLE, the longest first behind all others, with all fields of the state given |
| SchedTheorems.CondWaitResult | trunk/3rdparty/st-srs/sync.c:181-216 | `st_cond_timedwait` gives 0 iff signalled, ETIME iff timed out, EINTR iff interrupted, whichever came before it resumed |
| SchedTheorems.SignalWakesLongest | trunk/3rdparty/st-srs/sync.c:225-245 | a signal wakes the thread that has waited longest and still waits, and changes nothing else |
| SchedTheorems.BroadcastWakesAll | trunk/3rdparty/st-srs/sync.c:225-245 | a broadcast wakes all threads that still wait, once each, in order of waiting, and no other |
| SchedHistory.WakeHasCause | trunk/3rdparty/st-srs/sync.c:117-369 | a waiting thread is woken only by what it waits for: a ready descriptor, its due time, an interrupt, a signal on its condition, a hand-off of its mutex, the end of the thread it joins |
| SchedTheorems.FreeMutexHasNoWaiters | trunk/3rdparty/st-srs/sync.c:291-355 | a mutex without an owner has no thread in LOCK_WAIT |
| SchedTheorems.UnlockHandsToEarliest | trunk/3rdparty/st-srs/sync.c:330-355 | unlock hands the mutex to the earliest waiter not yet interrupted, and frees it iff there is none |
| SchedTheorems.BlockedLockResult | trunk/3rdparty/st-srs/sync.c:313-327 | a lock call that blocked gives 0 iff the caller owns the mutex, in whatever order interrupt and hand-off came; a pending interrupt survives a hand-off |
| SchedTheorems.LockResultIffOwner | trunk/3rdparty/st-srs/sync.c:291-311 | a lock call that returns at once gives 0 iff the caller then owns the mutex, exactly when it did not own it before |
| SchedTheorems.LockTwice | trunk/3rdparty/st-srs/sync.c:308-311 | a second lock by the owner fails with EDEADLK although it owns the mutex |
| SchedResults.TryLockResult | trunk/3rdparty/st-srs/sync.c:358-369 | `st_mutex_trylock` gives 0 iff the mutex was free, and then the caller owns it; on any other it fails with EBUSY and changes nothing |
| SchedResults.UnlockResult | trunk/3rdparty/st-srs/sync.c:330-355 | `st_mutex_unlock` gives 0 iff the caller owned the mutex: then the longest waiter owns it and is RUNNABLE, last of all, or it is free iff nobody waits; else it fails with EPERM and changes nothing |
| SchedResults.LockResult | trunk/3rdparty/st-srs/sync.c:301-317 | without an interrupt `st_mutex_lock` takes a free mutex, fails with EDEADLK on one's own, and else waits last of all in the queue of the mutex, whose owner stays |
| SchedHistory.OwnerOnlyByLocking | trunk/3rdparty/st-srs/sync.c:291-369 | the owner changes only when the owner unlocks, or the running thread takes a free mutex; no interrupt loses it |
| SchedWhole.SignalledJoinerFindsZombie | trunk/3rdparty/st-srs/sched.c:374-378 | a joiner that was signalled finds a zombie, so the loop of `st_thread_join` runs once |
| SchedThreads.JoinRefused | trunk/3rdparty/st-srs/sched.c:356-372 | `st_thread_join` gives EINVAL iff the thread cannot be joined or somebody else waits for it, EDEADLK iff it is the caller; both change nothing |
| SchedThreads.JoinResult | trunk/3rdparty/st-srs/sched.c:374-389 | else a zombie is let go: 0 is returned, it leaves the zombie queue and is RUNNABLE, last of all; the end of a thread that lives is waited for, or EINTR if the flag is set |
| SchedThreads.JoinResumes | trunk/3rdparty/st-srs/sched.c:374-389 | a joiner that goes on gives EINTR iff its flag is set, and else, when it was told of the end, 0 with the zombie let go |
| SchedSteps.ExitKeepsSide | trunk/3rdparty/st-srs/sched.c:309-329 | the end of a joinable thread reaches its joiner: nobody is left waiting for a zombie |
| SchedThreads.ExitResult | trunk/3rdparty/st-srs/sched.c:303-347 | the end of a joinable thread: it is a zombie, last of all, its joiner is told, and it counts as active no longer; any other thread is gone, and its stack is the last but one of the free ones |
| SchedThreads.ExitEnds | trunk/3rdparty/st-srs/sched.c:323-347 | a zombie that was let go is gone when it runs again, with its stack and the condition for its end |
| SchedTheorems.CreateUsesFreeStack | trunk/3rdparty/st-srs/stk.c:66-136 | a new thread gets a stack that is big enough and in use by no live thread, and no stack in use is released |
| SchedThreads.CreateResult | trunk/3rdparty/st-srs/sched.c:659-713 | the new thread, RUNNABLE and last of all, with all fields given: its stack is the first free one that is big enough, or new; without a stack cache all free ones go; a joinable thread gets an empty condition |
| SchedSteps.FitIsBigEnough | trunk/3rdparty/st-srs/stk.c:74-85 | the first free stack that is big enough is found, none iff there is none |
| SchedVp.Vp.constructor | trunk/3rdparty/st-srs/sched.c:174-252 | initialisation builds the first state of a run |
| SchedVp.Vp.StPoll | trunk/3rdparty/st-srs/sched.c:92-118 | the first half of `st_poll` is its event, and keeps the invariant |
| SchedVp.Vp.StUsleep | trunk/3rdparty/st-srs/sync.c:117-133 | the first half of `st_usleep` is its event, and keeps the invariant |
| SchedVp.Vp.StCondTimedwait | trunk/3rdparty/st-srs/sync.c:181-200 | the first half of `st_cond_timedwait` is its event, and keeps the invariant |
| SchedVp.Vp.CondSignal | trunk/3rdparty/st-srs/sync.c:225-245 | the loop over the wait queue is the signal or broadcast step |
| SchedVp.Vp.StCondSignal | trunk/3rdparty/st-srs/sync.c:248-257 | signal and broadcast are their events, and keep the invariant |
| SchedVp.Vp.StMutexLock | trunk/3rdparty/st-srs/sync.c:291-317 | the first half of `st_mutex_lock` is its event, and keeps the invariant |
| SchedVp.Vp.StMutexUnlock | trunk/3rdparty/st-srs/sync.c:330-355 | the loop over the wait queue is the unlock step, and keeps the invariant |
| SchedVp.Vp.StMutexTrylock | trunk/3rdparty/st-srs/sync.c:358-369 | the call is its event, and keeps the invariant; 0 iff the mutex was free, and then the caller owns it; else EBUSY and nothing changes |
| SchedVp.Vp.CheckTheClock | trunk/3rdparty/st-srs/sched.c:549-607 | taking the earliest thread again and again is an expiry order, and the fields change as the clock step says |
| SchedVp.Vp.StThreadYield | trunk/3rdparty/st-srs/sched.c:610-636 | the call up to its switch is its event, and keeps the invariant |
| SchedVp.Vp.StThreadInterrupt | trunk/3rdparty/st-srs/sched.c:639-656 | the call is its event, and keeps the invariant; the flag of every thread that has not ended is set, and a thread that waited is RUNNABLE, last of all, and sleeps no longer |
| SchedVp.Vp.StackNew | trunk/3rdparty/st-srs/stk.c:66-136 | the loops over the free list find the first fit or release all, and the counter stays the length of the list |
| SchedVp.Vp.StackFree | trunk/3rdparty/st-srs/stk.c:143-151 | the stack goes before the last one of the list, and the counter goes up |
| SchedVp.Vp.StThreadCreate | trunk/3rdparty/st-srs/sched.c:659-726 | the call is its event, and keeps the invariant |
| SchedVp.Vp.StThreadExit | trunk/3rdparty/st-srs/sched.c:309-329 | the call up to its switch is its event, and keeps the invariant |
| SchedVp.Vp.Finish | trunk/3rdparty/st-srs/sched.c:327-347 | the end of a thread destroys its termination condition and frees its stack, as the finishing step says |
| SchedVp.Vp.StThreadJoin | trunk/3rdparty/st-srs/sched.c:352-389 | the call up to its switch is its event, and keeps the invariant |
| SchedVp.Vp.Resume | trunk/3rdparty/st-srs/sched.c:117-140 | the second halves of poll, sleep, condition wait, lock, yield and exit are the resume event, and keeps the invariant |
| SchedVp.Vp.ResumeCond | trunk/3rdparty/st-srs/sync.c:199-216 | the second half of a condition wait, and of the join loop around it, is the resume event |
| SchedVp.Vp.DispatchReady | trunk/3rdparty/st-srs/event.c:354-415 | the walk over the io queue is the dispatch step |
| SchedVp.Vp.IdleTurn | trunk/3rdparty/st-srs/sched.c:286-299 | one turn of the idle thread is its event, and keeps the invariant |
| SchedIo.OthersSameIo | trunk/3rdparty/st-srs/sched.c:92-656 | only `st_poll` and the idle thread concern the io queue and the threads that dispatch has notified |
| SchedIo.DispatchIo | trunk/3rdparty/st-srs/event.c:354-415 | dispatch takes exactly the ready threads from the io queue, and each is notified with its number |
| SchedRuntime.Runtime.StPoll | trunk/3rdparty/st-srs/sched.c:92-118 | the call with its descriptors: refused as a whole iff one is not valid, else the request joins the select queue as the caller joins the io queue, and the two agree |
| SchedRuntime.Runtime.Resume | trunk/3rdparty/st-srs/sched.c:118-140 | with no interrupt `st_poll` returns exactly the number of its descriptors with events, at least 1, iff dispatch notified it, and 0 when it is still queued; the request leaves both queues |
| SchedRuntime.PollReturnsCount | trunk/3rdparty/st-srs/sched.c:120-139 | in every state in which the two sides agree a resumed `st_poll` returns that count |
| SchedRuntime.Runtime.IdleTurn | trunk/3rdparty/st-srs/sched.c:286-299 | exactly the callers of `st_poll` are woken by dispatch of whose descriptors select found one ready for what was asked, or EBADF found one closed; each finds just those bits and is told their number; exactly the threads that are due expire; the two sides still agree |
| SchedRuntime.SplitsWalk | trunk/3rdparty/st-srs/event.c:352-415 | a walk leaves on the queue exactly the requests without an event; every other thread is woken with a count of at least 1 |
| SchedRuntime.AnswersAt | trunk/3rdparty/st-srs/event.c:356-381 | what dispatch writes: a woken caller finds as many events as it is told, and nobody else off the queue is written to |
| SchedRuntime.Runtime.FdClose | trunk/3rdparty/st-srs/event.c:437-446 | a descriptor may be closed iff no thread that is on the io queue inside `st_poll` names it |
| SchedEpoll.Runtime.StPoll | trunk/3rdparty/st-srs/sched.c:92-118 | with epoll: from a kernel that agrees with the counts, the request joins both queues iff no interrupt is pending, its descriptors are valid, the table can hold them and the kernel refuses nothing; a request that is refused leaves the kernel as it was when that was all it refused |
| SchedEpoll.Runtime.Resume | trunk/3rdparty/st-srs/sched.c:118-140 | with epoll: `st_poll` returns exactly the number of its descriptors with events iff dispatch notified it, whatever the kernel refuses; the request leaves queue, counts and kernel |
| SchedEpoll.Runtime.IdleTurn | trunk/3rdparty/st-srs/sched.c:286-299 | with epoll: exactly the callers are woken by dispatch of whose descriptors epoll reported what was asked for, an error or a hang-up; each finds just those bits and is told their number; exactly the threads that are due expire; the kernel again holds what the requests imply |
| SchedEpoll.Runtime.FdClose | trunk/3rdparty/st-srs/event.c:1196-1204 | with epoll: a descriptor may be closed iff no thread that is on the io queue inside `st_poll` names it |
| PollTypes.NobodyPollsIff | trunk/3rdparty/st-srs/event.c:437-446 | the three counts of a descriptor are zero iff no request names it |
| PollTypes.AcceptableMeans | trunk/3rdparty/st-srs/event.c:183-190 | an entry is refused iff its descriptor is negative, or it asks for nothing or for anything but reading, writing and exceptions |
| PollWalk.WokenOrStay | trunk/3rdparty/st-srs/event.c:354-415 | of the requests walked over as many stay or are woken as there were; those woken have an event, those that stay have none |
| PollWalk.WalkInOrder | trunk/3rdparty/st-srs/event.c:354-415 | the requests that stay, and those that are woken, stand in the order of the queue with their answers |
| PollWalk.WalkKeepsAll | trunk/3rdparty/st-srs/event.c:354-415 | each answered request is in one of the two as often as it was queued |
| PollWalk.WokenSeeEvents | trunk/3rdparty/st-srs/sched.c:125-131 | a woken thread finds at least one ready descriptor |
| PollWalk.WalkParts | trunk/3rdparty/st-srs/event.c:352-415 | in terms of what the operating system reported: exactly the requests are woken of which an entry asked for a kind of event that was found; each entry then has just the bits it asked for and that were found, POLLNVAL alone iff its descriptor is closed, or with epoll also error and hang-up as reported |
| PollWalk.ReadyCountIs | trunk/3rdparty/st-srs/sched.c:125-131 | what `st_poll` counts is the number of its descriptors with events |
| Select.Select.PollsetAdd | trunk/3rdparty/st-srs/event.c:178-210 | refused as a whole iff an entry is invalid, or counted as a whole; bits follow counts, maxfd grows to the largest |
| Select.Select.PollsetDel | trunk/3rdparty/st-srs/event.c:212-231 | the counts go down by the entries, and bits follow counts |
| Select.Select.Enqueue | trunk/3rdparty/st-srs/sched.c:106-113 | a request that is accepted is queued and counted: counts equal the matching entries on the queue, bits follow, maxfd bounds them |
| Select.Select.Leave | trunk/3rdparty/st-srs/sched.c:120-124 | a request that is still queued after its wait leaves queue and counts |
| Select.Select.SetsMean | trunk/3rdparty/st-srs/event.c:328-349 | select is asked to watch a descriptor for reading, writing or exceptions iff a request on the queue asks for that, and none lies above the highest |
| Select.Select.Walk | trunk/3rdparty/st-srs/event.c:352-415 | the requests with an answer leave queue and counts in order, and maxfd is found anew; who has an answer says WalkParts |
| Select.Select.Dispatch | trunk/3rdparty/st-srs/event.c:314-425 | each outcome of select keeps the invariant; exactly the requests with an entry that asked for what select found are woken, with just those bits; on EBADF those with a closed descriptor, with POLLNVAL; the others stay in order |
| Select.Select.FdClose | trunk/3rdparty/st-srs/event.c:437-446 | a descriptor may be closed iff no request on the queue names it |
| Epoll.Epoll.PollsetDel | trunk/3rdparty/st-srs/event.c:977-1014 | the counts always go down; the kernel follows for all descriptors that have not fired |
| Epoll.Epoll.AddAll | trunk/3rdparty/st-srs/event.c:1032-1067 | from a kernel that agrees with the counts, all entries are counted and the kernel follows exactly when it refuses nothing; otherwise the undo restores every count, and when nothing but that one change was refused the kernel and the number of registered descriptors too |
| Epoll.Epoll.PollsetAdd | trunk/3rdparty/st-srs/event.c:1016-1070 | as AddAll, with the checks up front; accepted iff all entries are valid, the table can hold them and the kernel refuses nothing |
| Epoll.Epoll.RaisedThenLowered | trunk/3rdparty/st-srs/event.c:1059-1063 | the undo restores the counts even when a descriptor is there more than once |
| Epoll.Epoll.Undone | trunk/3rdparty/st-srs/event.c:1059-1063 | after the undo the kernel holds again what it held before the call |
| Epoll.Epoll.SyncedDeterminesKernel | trunk/3rdparty/st-srs/event.c:977-1070 | what the kernel holds is determined by the counts |
| Epoll.Epoll.Expand | trunk/3rdparty/st-srs/event.c:942-960 | the table grows to hold the descriptor, with zero counts, or stays |
| Epoll.Epoll.Enqueue | trunk/3rdparty/st-srs/sched.c:106-113 | counts equal the matching entries on the queue; the kernel holds what they imply, also after a call that one refusal made fail, which changes neither the kernel nor the number of registered descriptors |
| Epoll.Epoll.Leave | trunk/3rdparty/st-srs/sched.c:120-124 | a request that is still queued after its wait leaves queue, counts and kernel, which is asked at most once for each descriptor and follows when it refuses none of these changes |
| Epoll.Epoll.Walk | trunk/3rdparty/st-srs/event.c:1128-1171 | the requests with an answer leave queue and counts in order; the kernel is untouched at descriptors that fired |
| Epoll.Epoll.SettleAll | trunk/3rdparty/st-srs/event.c:1173-1182 | each descriptor that fired is brought up to date, after which the kernel follows all counts |
| Epoll.Epoll.Dispatch | trunk/3rdparty/st-srs/event.c:1072-1184 | exactly the requests with an entry that asked for what epoll reported, or whose descriptor has an error or hang-up, are woken, with just those bits; when the kernel refuses none of the changes asked for, dispatch restores that it holds for each descriptor what its counts imply, and that `evtlist_cnt` descriptors are registered; without events nothing changes |
| Epoll.Epoll.MarkedIs | trunk/3rdparty/st-srs/event.c:1119-1126 | each reported descriptor gets its events, with all awaited ones on an error or hang-up |
| Epoll.Epoll.KernelMeans | trunk/3rdparty/st-srs/event.c:977-1070 | when the kernel follows the counts it watches exactly what the requests on the queue ask for |
| Epoll.Epoll.FdClose | trunk/3rdparty/st-srs/event.c:1196-1204 | a descriptor may be closed iff no request on the queue names it |
| Iovec.Consume | trunk/3rdparty/st-srs/io.c:697-711 | a partial write moves the cursor so that the vectors describe exactly the rest, with all indices in bounds |
| Iovec.StWritevResid | trunk/3rdparty/st-srs/io.c:676-723 | what was sent followed by what the vectors still describe is the original data; 0 iff all vectors were taken; the result and the vectors left are those that the answers decide |
| Iovec.FailsWhenDoneIff | trunk/3rdparty/st-srs/io.c:676-723 | some answers make the call fail although every byte was sent, exactly when the last vector is empty |
| Iovec.StWrite | trunk/3rdparty/st-srs/io.c:566-586 | the length iff every byte of a nonempty buffer was sent once and in order, and else -1 |
| Iovec.FindVector | trunk/3rdparty/st-srs/io.c:631-634 | the search for the next unwritten vector stays in bounds and finds the byte to send next |
| Iovec.Advance | trunk/3rdparty/st-srs/io.c:629-654 | `tmp_iov` describes exactly the bytes not yet sent, within its allocation |
| Iovec.StWritev | trunk/3rdparty/st-srs/io.c:589-673 | for any partial writes, interruptions and would-block answers: a prefix was sent; the total is returned iff everything was sent once and in order, and else -1 |
| ReadvResid.ScatterInTwo | trunk/3rdparty/st-srs/io.c:515-555 | a second read into the vectors that a first read left does what one read of both parts does, wherever the vectors lie in memory |
| ReadvResid.Consume | trunk/3rdparty/st-srs/io.c:533-546 | a partial read moves the cursor so that the vectors describe exactly the room that is left |
| ReadvResid.StReadvResid | trunk/3rdparty/st-srs/io.c:515-555 | for any partial reads, interruptions and would-block answers: memory is as one read of all that arrived would have left it, further reads go where that read would have gone on; 0 iff the vectors are used up or the input has ended |
| ReadvResid.FailsWhenFullIff | trunk/3rdparty/st-srs/io.c:515-555 | some answers make the call fail although no vector has room left, exactly when the last vector has none to begin with |
| ReadvResid.StReadResid | trunk/3rdparty/st-srs/io.c:471-483 | one vector: what arrived and what is left add up |
| ReadvResid.StReadFully | trunk/3rdparty/st-srs/io.c:558-563 | what arrived stands in order at the front of the buffer and the rest is untouched; the count is returned when it is complete or the input has ended |
| ConfigTree.EqualsIffSameTree | trunk/src/app/srs_app_config.cpp:241-262 | the comparison holds iff the trees are the same apart from line numbers |
| ConfigTree.EqualsIsEquivalence | trunk/src/app/srs_app_config.cpp:241-262 | the comparison, null pointers included, is an equivalence |
| ConfigTree.EqualsExceptIffSameMask | trunk/src/app/srs_app_config.cpp:264-290 | the comparison but for a name holds iff the trees are the same once the children of that name are blank |
| ConfigTree.CopyIsSame | trunk/src/app/srs_app_config.cpp:854-876 | a copy is the same tree, line numbers included |
| ConfigTree.CopyOfFree | trunk/src/app/srs_app_config.cpp:859-876 | a copy without a name that does not occur is the whole tree |
| ConfigTree.EqualsExceptGivesEqualCopies | trunk/src/app/srs_app_config.cpp:264-290 | trees equal but for a nonempty name have equal copies without it, free of that name |
| ConfigTree.Find | trunk/src/app/srs_app_config.cpp:920-931 | the first directive of the name, or none |
| ConfigText.ReadWords | trunk/src/app/srs_app_config.cpp:1225-1381 | the tokenizer reads plain words one by one up to the mark that ends the directive |
| ConfigText.ReadRest | trunk/src/app/srs_app_config.cpp:1330-1375 | a word is read up to the space or semicolon that ends it |
| ConfigText.RoundTrip | trunk/src/app/srs_app_config.cpp:1027-1222 | parsing what is printed for a tree of plain words gives the same tree apart from line numbers, and nothing is left over |
| ConfigRoundTrip.RoundTripIff | trunk/src/app/srs_app_config.cpp:1027-1381 | a tree comes back from its printed text, apart from line numbers, iff all its words are plain and no directive is called include |
| ConfigRoundTrip.ParseIsThrifty | trunk/src/app/srs_app_config.cpp:1150-1381 | what is parsed has at most as many characters other than spaces as the text that was read, and with just as many all its words are plain |
| ConfigRoundTrip.InkOfPrint | trunk/src/app/srs_app_config.cpp:1027-1115 | the printed text has just the characters other than spaces of the words, and one for each mark |
| ConfigLines.PrintedLines | trunk/src/app/srs_app_config.cpp:1027-1115 | the printed text line by line: a line for each directive, with four spaces for each level and one between two words, ended by a semicolon or by the brace that opens its block, and a line that closes the block |
| ConfigRoundTrip.SpacesSplitWords | trunk/src/app/srs_app_config.cpp:1056-1064 | a tree with an argument that holds a space, semicolon, opening brace or NUL never comes back |
| ConfigLayout.LayoutParses | trunk/src/app/srs_app_config.cpp:1150-1381 | a file of directives, blocks, comments and blanks in any layout, with bare and quoted words, is read as the directives it means, each with the line it starts on; a quoted word is one argument with its spaces, semicolons and braces; the file may end in a comment |
| ConfigLayout.ParseComment | trunk/src/app/srs_app_config.cpp:1254-1267 | a comment where a directive may start goes up to the line end, whatever it holds: parsing goes on one line further |
| ConfigLayout.ParseLastComment | trunk/src/app/srs_app_config.cpp:1241-1252 | a comment that the end of the file ends is the end of the file, which a block refuses |
| ConfigLayout.ReadQuoted | trunk/src/app/srs_app_config.cpp:1314-1350 | a quote, text without that quote, line ends and NUL, and the quote again are read as one argument, or as none when the text is empty |
| ConfigLayout.ParseBlockText | trunk/src/app/srs_app_config.cpp:1173-1188 | a directive with a block: the block is read up to its brace, its failure is that of the whole, and parsing goes on behind it |
| ConfigLayout.BrokenOff | trunk/src/app/srs_app_config.cpp:1241-1267 | a directive that the end of the file, a line end or a closing brace breaks off behind a blank is refused, each with its error |
| ConfigLayout.CommentWithin | trunk/src/app/srs_app_config.cpp:1254-1313 | a comment inside a directive is refused at the next line end or end of file |
| ConfigLayout.BrokenBehind | trunk/src/app/srs_app_config.cpp:1273-1375 | a directive that is broken off right behind a word is refused, and so is a quoted word that neither a space nor a mark follows |
| ConfigLayout.NoDirective | trunk/src/app/srs_app_config.cpp:1160-1199 | a mark without a word, a directive without a word, an include without a configuration object, and a quote that is never closed are refused, each with its error |
| ConfigParser.ReadOne | trunk/src/app/srs_app_config.cpp:1225-1381 | the loop over the buffer is the tokenizer function |
| ConfigParser.ParseConf | trunk/src/app/srs_app_config.cpp:1150-1222 | the parser ends on every input, and is the parser function |
| ConfigReader.ReadLayout | trunk/src/app/srs_app_config.cpp:1150-1381 | reading the text of any layout from a buffer succeeds with the directives it means, lines included |
| ConfigParser.PersistAll | trunk/src/app/srs_app_config.cpp:1027-1115 | the printer writes the text of the directives |
| ConfigParser.WriteThenRead | trunk/src/app/srs_app_config.cpp:1022-1222 | printing a tree and parsing the text succeeds with the same directives iff the tree is plain |
| ConfigLegacy.MoveLeavesLess | trunk/src/app/srs_app_config.cpp:531-698 | moving a legacy child leaves less to do although the list may grow: the scan ends |
| ConfigLegacy.MoveIs | trunk/src/app/srs_app_config.cpp:531-698 | a legacy child is erased and only its block changes, or is appended |
| ConfigVhost.VhostIsClean | trunk/src/app/srs_app_config.cpp:499-729 | no legacy directive is left at its place in a vhost |
| ConfigVhost.VhostIsNormalIff | trunk/src/app/srs_app_config.cpp:499-729 | a vhost is in current form afterwards iff each `http_remux` held at most one `hstrs` and each `rtc` at most one `aac` and one `bframe` |
| ConfigVhost.VhostFixesIff | trunk/src/app/srs_app_config.cpp:499-729 | exactly the vhosts in current form are left unchanged |
| ConfigVhost.VhostIdempotentIff | trunk/src/app/srs_app_config.cpp:499-729 | a second pass changes nothing iff the first had at most one of each to remove |
| ConfigSettings.SettingsArrive | trunk/src/app/srs_app_config.cpp:531-698 | each setting of a block that stays (play, cluster, publish, rtc but for what RtcSettingsArrive says, and a `refer` with children) is afterwards what the last legacy directive said, or what it was; a `refer` that takes over and says nothing of `enabled` gets it |
| ConfigSettings.LastLegacyWins | trunk/src/app/srs_app_config.cpp:620-671 | of several legacy play or cluster settings of one name the last wins |
| ConfigRefer.ReferSettings | trunk/src/app/srs_app_config.cpp:526-554 | on every vhost: each setting of the refer block is afterwards what the last directive that moves says of it, or what the directive that became the block held |
| ConfigRefer.RefersMoveIff | trunk/src/app/srs_app_config.cpp:526-554 | every old-style refer directive becomes a setting iff the first `refer` has children, or nothing stands before it and the next `refer` has children or is not there; otherwise exactly one is lost: the first `refer`, or the next one |
| ConfigRefer.LastReferWins | trunk/src/app/srs_app_config.cpp:526-554 | of the directives of one kind that move the last one gives `all`, `play` or `publish`; without one the block keeps what it held |
| ConfigRefer.ReferIsHijacked | trunk/src/app/srs_app_config.cpp:526-554 | two ways to lose an old-style `refer`: behind a `refer_play`, and behind another `refer` |
| ConfigRtc.RtcSettingsArrive | trunk/src/app/srs_app_config.cpp:700-726 | `rtmp_to_rtc` and `keep_bframe` of a vhost are what its first rtc block makes of its first `aac` and `bframe` |
| ConfigRtc.RtcMakes | trunk/src/app/srs_app_config.cpp:705-722 | on iff the first `aac` says transcode, or the first `bframe` keep; otherwise off; as it was when there is none |
| ConfigLegacy.FirstArgIsSet | trunk/src/app/srs_app_config.cpp:946-1002 | `set_arg0` on a found or created directive sets its first argument; its other arguments, its children and every other directive stay |
| ConfigSettings.UnknownsStay | trunk/src/app/srs_app_config.cpp:499-729 | children that the rewriting does not know stay as they are, in order |
| ConfigSettings.StayInPlace | trunk/src/app/srs_app_config.cpp:499-729 | all that a vhost holds beside legacy directives and the blocks that take them over stays in order, each child rewritten in place: `http`, `http_remux` and `forward` too |
| ConfigFrames.TransformKeeps | trunk/src/app/srs_app_config.cpp:371-733 | but for `listen` and `chunk_size` every directive of the root stays in order, rewritten on its own; the first `rtmp` keeps its arguments and its other children, and is made at the end when there is none |
| ConfigFrames.CasterIs | trunk/src/app/srs_app_config.cpp:440-492 | a caster ends as it was without what is unused and its hosts, with the first `sip` cleaned and the hosts behind what it holds; a `sip` is made at the end when there are hosts and none is there |
| ConfigRoot.RootSettings | trunk/src/app/srs_app_config.cpp:380-395 | of several root `listen` or `chunk_size` directives the first gives the setting of `rtmp` |
| ConfigRoot.CasterIsNormal | trunk/src/app/srs_app_config.cpp:440-492 | a stream caster keeps no unused setting, no host, and a clean first `sip` |
| ConfigRoot.CasterFixesIff | trunk/src/app/srs_app_config.cpp:440-492 | exactly the casters in current form are left unchanged |
| ConfigRoot.HostsBecomeCandidates | trunk/src/app/srs_app_config.cpp:475-492 | every host ends, in order, as a candidate behind what the first `sip` held |
| ConfigRoot.SipsCleanIff | trunk/src/app/srs_app_config.cpp:460-472 | all `sip` blocks are clean afterwards iff the later ones were before |
| ConfigTransform.NothingLegacyLeft | trunk/src/app/srs_app_config.cpp:371-733 | one pass on any configuration leaves no legacy directive at its place |
| ConfigTransform.TransformIsNormalIff | trunk/src/app/srs_app_config.cpp:371-733 | one pass reaches the current form iff of what is removed one at a time there was at most one |
| ConfigTransform.TransformFixesIff | trunk/src/app/srs_app_config.cpp:371-733 | a pass leaves exactly the configurations in current form unchanged |
| ConfigTransform.TransformIdempotentIff | trunk/src/app/srs_app_config.cpp:371-733 | the rewriting is idempotent exactly on configurations with at most one `hstrs` per `http_remux`, and one `aac` and one `bframe` per `rtc` |
| ConfigTransform.FirstRootSettingWins | trunk/src/app/srs_app_config.cpp:380-395 | the first root `listen` and `chunk_size` win over later ones and over `rtmp` |
| ConfigNames.TransformRewrites | trunk/src/app/srs_app_config.cpp:371-733 | the whole rewriting with every name written out: no `listen`, `chunk_size` or `http_stream` is left at the root; each other directive stays in order and is `http_server` for `http_stream`, rtc_server without `perf_stat` and `queue_length`, srt_server with `tlpktdrop`, a rewritten caster or vhost, or as it was; `rtmp` keeps all else and is made when there is none |
| ConfigNames.VhostIsRewritten | trunk/src/app/srs_app_config.cpp:499-729 | a vhost with every name written out: no child has one of the 22 old names, is `http`, or a `refer` or `forward` of the old form; each setting of play, cluster, publish and rtc is what the last of its old directives said, or what it was, and those of refer too unless one is lost, which holds an `enabled on` once an old-style one was there; every other child stays in order, rewritten as `http_static`, as `forward` with `enabled` and `destination`, or without `hstrs` |
| ConfigNames.CasterIsRewritten | trunk/src/app/srs_app_config.cpp:440-492 | a stream caster with every name written out: the seven unused settings and the hosts go, the first `sip` loses its seven unused settings and takes the hosts as candidates, in order, and is made when needed; all else stays in order |
| ConfigNames.RtmpSettings | trunk/src/app/srs_app_config.cpp:380-395 | `listen` and `chunk_size` of rtmp are those of the first root directive of that name, or what they were |
| ConfigRewrite.MoveRefer | trunk/src/app/srs_app_config.cpp:526-554 | the branch for refer directives is the move |
| ConfigRewrite.MoveMr | trunk/src/app/srs_app_config.cpp:556-582 | the branch for mr is the move |
| ConfigRewrite.MoveNackOrTwcc | trunk/src/app/srs_app_config.cpp:673-698 | the branch for nack and twcc is the move |
| ConfigRewrite.RewriteVhost | trunk/src/app/srs_app_config.cpp:499-729 | the loop over the children of a vhost ends and is the specified rewriting |
| ConfigRewrite.TransformVhost | trunk/src/app/srs_app_config.cpp:371-733 | the whole function is the specified rewriting |

## Left out

- Epoll.Epoll.AddAll: when the kernel refuses a second change, during the undo, nothing is promised of what it holds; the program ignores such a refusal, as its comment in event.c:983-987 says.
- SchedEpoll.Runtime.StPoll: the calls other than `st_poll` are not repeated for epoll; they do not touch the event system, and `SchedRuntime.OthersLinked` shows that they keep the two sides in agreement.
- The kqueue back end: it has the shape of epoll, with one-shot filters.
- Register save and restore, the assembly switch, switch call-backs, ASAN and Valgrind hooks, stack addresses and red zones: a context switch is a step boundary.
- Thread records are values in a map, not objects: aliasing of a thread pointer after the thread has ended, and reuse of its memory, are not modelled; thread numbers are never reused.
- `SchedVp.Vp` keeps the sleeping threads as a set and the queues as sequences; `SchedHeap` proves for each event, and `SchedLists` for each change of a queue, that the heap and the lists follow, but they are not fields of `Vp`. Among threads due at the same time any order is allowed.
- Overflow of `due`, of the counters and of `iov_len` sums: these are unbounded integers.
- Failing allocation of a thread, a stack, a condition variable or a mutex, and the rounding of stack sizes to pages.
- Destroying condition variables and mutexes, other than the termination condition of a thread.
- Fairness and liveness: expired threads go to the head of the run queue, so none is promised.
- A poll descriptor array that its owner changes while the thread is blocked.
- The size of the epoll event list, which is only the number of events taken at once.
- Sockets, `st_accept`, `st_connect`, UDP calls and the netfd free list.
- Configuration `include` files: an include is the error it is without a configuration object.
- Errors of the file writer, and the texts and line numbers of error messages.
- Directives are values: the rewriting edits copies of lists, and C++ iterator validity, such as appending before an erase at line 485, is not modelled.
- Environment overrides, the getters, the checks of a loaded configuration, reload and command line.
