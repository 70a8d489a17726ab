/**
 Vectored output over a socket that accepts part of the data, is interrupted, is not
 ready, or fails: no byte is lost, repeated or out of order.
 */
module Iovec {

  type Byte = x: int | 0 <= x < 256

  /** An `iovec`: the bytes from `iov_base` on, `iov_len` of them. */
  type Vec = seq<Byte>

  /** What a system call answers. */
  datatype Reply = Amount(n: nat) | Eintr | NotReady | Broken

  /** The result of a system call; Blocked when the call has not answered yet. */
  datatype Sys = Moved(n: nat) | Failed(why: Reply) | Blocked

  datatype Ready = Yes | No | NotYet

  /** A call returns a count or -1, or has not returned yet. */
  datatype Outcome = Returned(rv: int) | Pending

  const LOCAL_MAXIOV: nat := 16

  function Concat(vs: seq<Vec>): Vec {
    if vs == [] then [] else vs[0] + Concat(vs[1..])
  }

  lemma {:induction false} ConcatSplit(vs: seq<Vec>, i: nat)
    requires i <= |vs|
    ensures Concat(vs) == Concat(vs[..i]) + Concat(vs[i..])
  {
    if i == 0 {
      assert vs[i..] == vs;
    } else {
      ConcatSplit(vs[1..], i - 1);
      assert vs[..i][1..] == vs[1..][..i - 1] && vs[1..][i - 1..] == vs[i..];
    }
  }

  lemma ConcatAt(vs: seq<Vec>, i: nat)
    requires i < |vs|
    ensures Concat(vs[i..]) == vs[i] + Concat(vs[i + 1..])
    ensures Concat(vs[..i + 1]) == Concat(vs[..i]) + vs[i]
  {
    assert vs[i..][1..] == vs[i + 1..];
    ConcatSplit(vs[..i + 1], i);
    assert vs[..i + 1][..i] == vs[..i] && vs[..i + 1][i..] == [vs[i]];
    assert Concat([vs[i]]) == vs[i];
  }

  lemma OneVector(vs: seq<Vec>)
    requires |vs| == 1
    ensures Concat(vs) == vs[0]
  {
    assert vs[1..] == [];
  }

  lemma WhatIsLeft(vs: seq<Vec>, pos: nat)
    requires |vs| == 1 && pos <= 1 && (pos == 1 ==> vs[0] == [])
    ensures Concat(vs[pos..]) == vs[0]
  {
    if pos == 0 {
      assert vs[0..] == vs;
      OneVector(vs);
    }
  }

  /** The next answer of the other end, which can take room bytes. */
  function Answer(answers: seq<Reply>, room: nat): Sys {
    if answers == [] then Blocked
    else match answers[0] case Amount(n) => Moved(if n <= room then n else room) case why => Failed(why)
  }

  function PollAnswer(polls: seq<bool>): Ready {
    if polls == [] then NotYet else if polls[0] then Yes else No
  }

  /** The other end: what it will answer to writes and polls, and what has been sent. */
  class Socket {
    var writes: seq<Reply>
    var polls: seq<bool>
    var wire: seq<Byte>

    /** `write` and `writev` */
    method Write(vs: seq<Vec>) returns (r: Sys)
      modifies this
      ensures polls == old(polls) && (r == Blocked ==> old(writes) == []) && (r != Blocked ==> |writes| < old(|writes|))
      ensures r == Answer(old(writes), |Concat(vs)|) && (r != Blocked ==> writes == old(writes)[1..])
      ensures r.Moved? ==> r.n <= |Concat(vs)| && wire == old(wire) + Concat(vs)[..r.n]
      ensures !r.Moved? ==> wire == old(wire)
    {
      if writes == [] {
        return Blocked;
      }
      var w := writes[0];
      writes := writes[1..];
      if w.Amount? {
        var n := if w.n <= |Concat(vs)| then w.n else |Concat(vs)|;
        wire := wire + Concat(vs)[..n];
        r := Moved(n);
      } else {
        r := Failed(w);
      }
    }

    /** `st_netfd_poll` */
    method Poll() returns (r: Ready)
      modifies this`polls
      ensures r == PollAnswer(old(polls)) && (r != NotYet ==> polls == old(polls)[1..])
    {
      if polls == [] {
        return NotYet;
      }
      r := if polls[0] then Yes else No;
      polls := polls[1..];
    }
  }

  // ---------- the cursor that moves the caller's vectors ----------

  lemma TakeWhole(vs: seq<Vec>, pos: nat, n: nat)
    requires pos < |vs| && |vs[pos]| <= n <= |Concat(vs[pos..])|
    ensures n - |vs[pos]| <= |Concat(vs[pos + 1..])|
    ensures Concat(vs[pos..])[n..] == Concat(vs[pos + 1..])[n - |vs[pos]|..]
  {
    ConcatAt(vs, pos);
  }

  lemma TakePart(vs: seq<Vec>, pos: nat, n: nat)
    requires pos < |vs| && n <= |vs[pos]|
    ensures n <= |Concat(vs[pos..])|
    ensures Concat([vs[pos][n..]] + vs[pos + 1..]) == Concat(vs[pos..])[n..]
  {
    ConcatAt(vs, pos);
    var r := [vs[pos][n..]] + vs[pos + 1..];
    assert r[1..] == vs[pos + 1..];
  }

  lemma MoreMeansVector(vs: seq<Vec>, pos: nat)
    requires pos <= |vs|
    ensures |Concat(vs[pos..])| > 0 ==> pos < |vs|
  {
  }

  /** The vectors that are left when n bytes are taken: vectors taken whole go, but an empty one at
      which the count ends stays. */
  function After(vs: seq<Vec>, n: nat): seq<Vec>
    requires n <= |Concat(vs)|
  {
    if vs == [] then []
    else if n < |vs[0]| then [vs[0][n..]] + vs[1..]
    else if n == |vs[0]| then vs[1..]
    else After(vs[1..], n - |vs[0]|)
  }

  lemma {:induction false} ConcatOfAfter(vs: seq<Vec>, n: nat)
    requires n <= |Concat(vs)|
    ensures Concat(After(vs, n)) == Concat(vs)[n..]
  {
    if vs != [] {
      if n < |vs[0]| {
        assert ([vs[0][n..]] + vs[1..])[1..] == vs[1..];
      } else if n > |vs[0]| {
        ConcatOfAfter(vs[1..], n - |vs[0]|);
      }
    }
  }

  /** One vector is taken whole. */
  lemma AfterWhole(vs: seq<Vec>, pos: nat, n: nat)
    requires pos < |vs| && |vs[pos]| <= n <= |Concat(vs[pos..])|
    ensures n - |vs[pos]| <= |Concat(vs[pos + 1..])|
    ensures After(vs[pos..], n) == if n == |vs[pos]| then vs[pos + 1..] else After(vs[pos + 1..], n - |vs[pos]|)
  {
    ConcatAt(vs, pos);
    assert vs[pos..][1..] == vs[pos + 1..];
  }

  lemma AfterPart(vs: seq<Vec>, pos: nat, n: nat)
    requires pos < |vs| && n < |vs[pos]|
    ensures n <= |Concat(vs[pos..])| && After(vs[pos..], n) == [vs[pos][n..]] + vs[pos + 1..]
  {
    ConcatAt(vs, pos);
    assert vs[pos..][1..] == vs[pos + 1..];
  }

  /** The vector at which a write ends. */
  lemma AfterLast(vs: seq<Vec>, pos: nat, n: nat, r: seq<Vec>)
    requires pos < |vs| && n <= |Concat(vs[pos..])|
    requires (n < |vs[pos]| && r == After(vs[pos..], n)) || (n == 0 && r == vs[pos..])
    ensures n <= |vs[pos]| && r == [vs[pos][n..]] + vs[pos + 1..]
  {
    if n < |vs[pos]| {
      AfterPart(vs, pos, n);
    }
  }

  /** The cursor moved from start to pos: vectors before start are as they were, those passed are empty,
      and the last one, when it was not empty and has not been passed, still is not. */
  ghost predicate Advanced(was: seq<Vec>, start: nat, now: seq<Vec>, pos: nat) {
    && |now| == |was| && start <= pos <= |was|
    && (forall k :: 0 <= k < start ==> now[k] == was[k]) && (forall k :: start <= k < pos ==> now[k] == [])
    && (pos < |was| && |was[|was| - 1]| > 0 ==> |now[|was| - 1]| > 0)
  }

  /** The vectors before pos are used up, and the one at pos has lost n bytes. */
  lemma AdvancedBy(was: seq<Vec>, start: nat, now: seq<Vec>, pos: nat, n: nat)
    requires |now| == |was| && start <= pos <= |was|
    requires (forall k :: 0 <= k < start ==> now[k] == was[k]) && (forall k :: start <= k < pos ==> now[k] == [])
    requires forall k :: pos < k < |was| ==> now[k] == was[k]
    requires pos < |was| ==> n <= |was[pos]| && now[pos] == was[pos][n..] && (n == 0 || n < |was[pos]|)
    ensures Advanced(was, start, now, pos)
  {
  }

  /** Vectors that are the same behind pos. */
  lemma FromHere(was: seq<Vec>, now: seq<Vec>, pos: nat)
    requires pos < |now| == |was| && forall k :: pos < k < |now| ==> now[k] == was[k]
    ensures now[pos..] == [now[pos]] + was[pos + 1..]
  {
  }

  /** count bytes are taken from the vectors from start on; the vectors taken whole are empty. */
  method Consume(iov: array<Vec>, start: nat, count: nat) returns (pos: nat)
    requires start < iov.Length && count <= |Concat(iov[..][start..])|
    modifies iov
    ensures start <= pos <= iov.Length && iov[..][pos..] == After(old(iov[..][start..]), count)
    ensures Advanced(old(iov[..]), start, iov[..], pos)
  {
    hide Concat, After, Advanced;
    ghost var was := iov[..];
    var n := count;
    pos := start;
    while n >= |iov[pos]|
      invariant start <= pos < iov.Length && 0 <= n <= |Concat(was[pos..])|
      invariant After(was[pos..], n) == After(was[start..], count)
      invariant forall k :: pos <= k < iov.Length || 0 <= k < start ==> iov[k] == was[k]
      invariant forall k :: start <= k < pos ==> iov[k] == []
      invariant pos > start ==> n > 0
      decreases iov.Length - pos
    {
      AfterWhole(was, pos, n);
      n := n - |iov[pos]|;
      iov[pos] := [];
      pos := pos + 1;
      if n == 0 {
        assert After(was[start..], count) == was[pos..];
        break;
      }
      MoreMeansVector(was, pos);
    }
    if pos < iov.Length {
      AfterLast(was, pos, n, After(was[start..], count));
      iov[pos] := iov[pos][n..];
      FromHere(was, iov[..], pos);
    } else {
      assert was[pos..] == [] == iov[..][pos..];
    }
    AdvancedBy(was, start, iov[..], pos, n);
  }

  /** What a call of `st_writev_resid` returns, and the vectors it leaves. */
  datatype Run = Run(out: Outcome, left: seq<Vec>)

  /** `st_writev_resid` on the vectors vs, as the answers decide. */
  function WritevRun(writes: seq<Reply>, polls: seq<bool>, vs: seq<Vec>): Run
    decreases |writes|, 1
  {
    if vs == [] then Run(Returned(0), [])
    else match Answer(writes, |Concat(vs)|)
      case Blocked => Run(Pending, vs)
      case Moved(n) => if After(vs, n) == [] then Run(Returned(0), []) else AfterPoll(writes[1..], polls, After(vs, n))
      case Failed(why) =>
        if why == Eintr then WritevRun(writes[1..], polls, vs)
        else if why == NotReady then AfterPoll(writes[1..], polls, vs)
        else Run(Returned(-1), vs)
  }

  function AfterPoll(writes: seq<Reply>, polls: seq<bool>, vs: seq<Vec>): Run
    decreases |writes|, 2
  {
    match PollAnswer(polls)
    case NotYet => Run(Pending, vs)
    case No => Run(Returned(-1), vs)
    case Yes => WritevRun(writes, polls[1..], vs)
  }

  /** How a turn of a loop ends. */
  datatype Turn = Again | Wait | Stop(out: Outcome)

  /** The answers that are left decide as all answers did. */
  ghost predicate GoesOn(run: Run, turn: Turn, writes: seq<Reply>, polls: seq<bool>, vs: seq<Vec>) {
    match turn
    case Again => run == WritevRun(writes, polls, vs)
    case Wait => run == AfterPoll(writes, polls, vs)
    case Stop(out) => run == Run(out, vs)
  }

  lemma MovedOn(wire: Vec, rest: Vec, n: nat)
    requires n <= |rest|
    ensures wire + rest == wire + rest[..n] + rest[n..]
  {
  }

  /** One `writev` of what is left. */
  method WriteOnce(s: Socket, iov: array<Vec>, start: nat) returns (turn: Turn, pos: nat)
    requires start < iov.Length
    modifies s, iov
    ensures start <= pos <= iov.Length && s.wire + Concat(iov[..][pos..]) == old(s.wire + Concat(iov[..][start..]))
    ensures |s.wire| >= old(|s.wire|) && s.polls == old(s.polls)
    ensures GoesOn(old(WritevRun(s.writes, s.polls, iov[..][start..])), turn, s.writes, s.polls, iov[..][pos..])
    ensures forall k :: 0 <= k < start ==> iov[k] == old(iov[k])
    ensures forall k :: start <= k < pos ==> iov[k] == []
    ensures pos < iov.Length && |old(iov[iov.Length - 1])| > 0 ==> |iov[iov.Length - 1]| > 0
    ensures turn.Stop? && turn.out.Returned? ==> turn.out.rv == if pos == iov.Length then 0 else -1
    ensures !turn.Stop? ==> pos < iov.Length && |s.writes| < old(|s.writes|)
  {
    hide Concat, After;
    turn, pos := Wait, start;
    ghost var wire, rest := s.wire, Concat(iov[..][start..]);
    assert iov[..][start..] != [];
    var r := s.Write(iov[..][start..]);
    if r == Blocked {
      turn := Stop(Pending);
    } else if r.Failed? {
      turn := if r.why == Eintr then Again else if r.why != NotReady then Stop(Returned(-1)) else Wait;
    } else {
      MovedOn(wire, rest, r.n);
      ConcatOfAfter(iov[..][start..], r.n);
      pos := Consume(iov, start, r.n);
      if pos == iov.Length {
        turn := Stop(Returned(0));
      }
    }
  }

  /** `st_writev_resid`: iov and pos always describe what is still to be sent. */
  method StWritevResid(s: Socket, iov: array<Vec>, start: nat) returns (out: Outcome, pos: nat)
    requires start <= iov.Length
    modifies s, iov
    ensures start <= pos <= iov.Length && s.wire + Concat(iov[..][pos..]) == old(s.wire + Concat(iov[..][start..]))
    ensures |s.wire| >= old(|s.wire|) && forall k :: start <= k < pos ==> iov[k] == []
    ensures Run(out, iov[..][pos..]) == old(WritevRun(s.writes, s.polls, iov[..][start..]))
    ensures out.Returned? ==> (out.rv == 0 <==> pos == iov.Length) && (out.rv == 0 || out.rv == -1)
    ensures pos < iov.Length && iov.Length > 0 && |old(iov[iov.Length - 1])| > 0 ==> Concat(iov[..][pos..]) != []
  {
    hide Concat, After, WritevRun;
    pos := start;
    ghost var run := WritevRun(s.writes, s.polls, iov[..][start..]);
    while pos < iov.Length
      invariant start <= pos <= iov.Length && s.wire + Concat(iov[..][pos..]) == old(s.wire + Concat(iov[..][start..]))
      invariant pos < iov.Length && |old(iov[iov.Length - 1])| > 0 ==> |iov[iov.Length - 1]| > 0
      invariant |s.wire| >= old(|s.wire|) && forall k :: start <= k < pos ==> iov[k] == []
      invariant WritevRun(s.writes, s.polls, iov[..][pos..]) == run
      decreases |s.writes|
    {
      var turn;
      turn, pos := WriteOnce(s, iov, pos);
      LastCounts(iov[..], pos);
      if turn.Stop? {
        return turn.out, pos;
      }
      if turn == Wait {
        var ready := s.Poll();
        if ready != Yes {
          return if ready == No then Returned(-1) else Pending, pos;
        }
      }
    }
    NothingLeft(s.writes, s.polls, iov[..][pos..]);
    out := Returned(0);
  }

  lemma NothingLeft(writes: seq<Reply>, polls: seq<bool>, vs: seq<Vec>)
    requires vs == []
    ensures WritevRun(writes, polls, vs) == Run(Returned(0), vs)
  {
  }

  lemma LastCounts(vs: seq<Vec>, pos: nat)
    requires pos <= |vs|
    ensures pos < |vs| && |vs[|vs| - 1]| > 0 ==> Concat(vs[pos..]) != []
  {
    if pos < |vs| {
      ConcatSplit(vs[pos..], |vs| - 1 - pos);
      assert vs[pos..][|vs| - 1 - pos..] == [vs[|vs| - 1]];
      assert Concat([vs[|vs| - 1]]) == vs[|vs| - 1];
    }
  }

  // ---------- failure after everything was sent ----------

  /** The last vector stays, and stays nonempty, as long as anything is left. */
  lemma {:induction false} AfterKeepsLast(vs: seq<Vec>, n: nat)
    requires n <= |Concat(vs)| && vs != [] && vs[|vs| - 1] != []
    ensures var r := After(vs, n); r != [] ==> r[|r| - 1] != []
  {
    if n > |vs[0]| {
      AfterKeepsLast(vs[1..], n - |vs[0]|);
    }
  }

  lemma {:induction false} RunKeepsLast(writes: seq<Reply>, polls: seq<bool>, vs: seq<Vec>)
    requires vs != [] && vs[|vs| - 1] != []
    ensures var r := WritevRun(writes, polls, vs).left; r != [] ==> r[|r| - 1] != []
    decreases |writes|
  {
    hide Concat, After;
    match Answer(writes, |Concat(vs)|) {
      case Blocked =>
      case Moved(n) =>
        AfterKeepsLast(vs, n);
        if After(vs, n) != [] && PollAnswer(polls) == Yes {
          RunKeepsLast(writes[1..], polls[1..], After(vs, n));
        }
      case Failed(why) =>
        if why == Eintr {
          RunKeepsLast(writes[1..], polls, vs);
        } else if why == NotReady && PollAnswer(polls) == Yes {
          RunKeepsLast(writes[1..], polls[1..], vs);
        }
    }
  }

  lemma {:induction false} AfterAll(vs: seq<Vec>)
    requires vs != [] && vs[|vs| - 1] == [] && Concat(vs) != []
    ensures var r := After(vs, |Concat(vs)|); r != [] && Concat(r) == []
  {
    var n := |Concat(vs)|;
    assert Concat(vs) == vs[0] + Concat(vs[1..]);
    if n == |vs[0]| {
      assert Concat(vs[1..]) == [];
    } else {
      AfterAll(vs[1..]);
    }
  }

  lemma {:induction false} FailsOnlyWithVectors(writes: seq<Reply>, polls: seq<bool>, vs: seq<Vec>)
    requires WritevRun(writes, polls, vs).out == Returned(-1)
    ensures WritevRun(writes, polls, vs).left != []
    decreases |writes|
  {
    hide Concat, After;
    match Answer(writes, |Concat(vs)|) {
      case Blocked =>
      case Moved(n) =>
        if PollAnswer(polls) == Yes {
          FailsOnlyWithVectors(writes[1..], polls[1..], After(vs, n));
        }
      case Failed(why) =>
        if why == Eintr {
          FailsOnlyWithVectors(writes[1..], polls, vs);
        } else if why == NotReady && PollAnswer(polls) == Yes {
          FailsOnlyWithVectors(writes[1..], polls[1..], vs);
        }
    }
  }

  /** The call fails although nothing is left to be sent. */
  ghost predicate FailsWhenDone(writes: seq<Reply>, polls: seq<bool>, vs: seq<Vec>) {
    var run := WritevRun(writes, polls, vs);
    run.out == Returned(-1) && Concat(run.left) == []
  }

  /** `st_writev_resid` can fail after every byte was sent exactly when the last vector is empty:
      everything is accepted, and then the wait for room that nothing needs fails; or nothing was to
      be sent, and the first call fails. */
  lemma {:induction false} FailsWhenDoneIff(vs: seq<Vec>)
    ensures (exists writes, polls :: FailsWhenDone(writes, polls, vs)) <==> vs != [] && vs[|vs| - 1] == []
  {
    if writes, polls :| FailsWhenDone(writes, polls, vs) {
      FailsOnlyWithVectors(writes, polls, vs);
      var left := WritevRun(writes, polls, vs).left;
      LastCounts(left, 0);
      assert left[0..] == left;
      if vs != [] && vs[|vs| - 1] != [] {
        RunKeepsLast(writes, polls, vs);
      }
    }
    if vs != [] && vs[|vs| - 1] == [] {
      if Concat(vs) == [] {
        assert FailsWhenDone([Broken], [], vs);
      } else {
        AfterAll(vs);
        var writes := [Amount(|Concat(vs)|)];
        assert Answer(writes, |Concat(vs)|) == Moved(|Concat(vs)|);
        assert PollAnswer([false]) == No;
        assert FailsWhenDone(writes, [false], vs);
      }
    }
  }

  /** A prefix of all was sent; a call that returns gives the length of all when that was
      everything, sent once and in order, and else -1. */
  ghost predicate Written(was: Vec, all: Vec, wire: Vec, out: Outcome) {
    && (exists k :: 0 <= k <= |all| && wire == was + all[..k])
    && (out.Returned? ==> (out.rv == |all| <==> wire == was + all) && (out.rv == |all| || out.rv == -1))
  }

  /** The first sent bytes of all were sent. */
  ghost predicate SentSoFar(was: Vec, all: Vec, wire: Vec, sent: int) {
    0 <= sent <= |all| && wire == was + all[..sent]
  }

  lemma SentMore(was: Vec, all: Vec, before: Vec, sent: nat, wire: Vec, n: nat)
    requires SentSoFar(was, all, before, sent) && n <= |all[sent..]| && wire == before + all[sent..][..n]
    ensures SentSoFar(was, all, wire, sent + n)
  {
    assert all[..sent] + all[sent..][..n] == all[..sent + n];
  }

  lemma WrittenPart(was: Vec, all: Vec, wire: Vec, sent: nat)
    requires SentSoFar(was, all, wire, sent)
    ensures Written(was, all, wire, Pending)
    ensures sent < |all| ==> Written(was, all, wire, Returned(-1))
    ensures sent == |all| ==> Written(was, all, wire, Returned(|all|))
  {
    assert all[..|all|] == all;
    assert |wire| == |was| + sent;
  }

  /** What `st_write` returns for what is left of its buffer. */
  lemma WrittenWith(was: Vec, buf: Vec, wire: Vec, rest: Vec, rv: Outcome)
    requires wire + rest == was + buf && |was| <= |wire|
    requires rv.Returned? ==> if rv.rv == 0 then rest == [] else buf != [] ==> rest != []
    ensures buf != [] ==>
      Written(was, buf, wire, if rv == Pending then Pending else Returned(if rv.rv == 0 then |buf| - |rest| else -1))
    ensures buf == [] ==> wire == was && rest == []
  {
    SentPrefix(was, buf, wire, rest);
  }

  /** `st_write`: the number of bytes when all were sent, and else -1. */
  method StWrite(s: Socket, buf: Vec) returns (out: Outcome)
    modifies s
    ensures buf != [] ==> Written(old(s.wire), buf, s.wire, out)
    ensures buf == [] ==> s.wire == old(s.wire) && (out.Returned? ==> out.rv == 0 || out.rv == -1)
  {
    var iov := new Vec[1][buf];
    hide WritevRun, After, Concat, Written;
    assert iov[..] == [buf] && iov[..][0..] == [buf];
    OneVector([buf]);
    var rv, pos;
    rv, pos := StWritevResid(s, iov, 0);
    var resid := |iov[0]|;
    WhatIsLeft(iov[..], pos);
    WrittenWith(old(s.wire), buf, s.wire, iov[0], rv);
    out := if rv == Pending then Pending else Returned(if rv.rv == 0 then |buf| - resid else -1);
  }

  /** What was sent is a prefix of what was to be sent. */
  lemma SentPrefix(was: Vec, all: Vec, wire: Vec, rest: Vec)
    requires wire + rest == was + all && |was| <= |wire|
    ensures |rest| <= |all| && wire == was + all[..|all| - |rest|] && rest == all[|all| - |rest|..]
    ensures wire == was + all <==> rest == []
  {
    var k := |all| - |rest|;
    assert |wire| + |rest| == |was| + |all|;
    assert (wire + rest)[..|wire|] == wire && (was + all)[..|wire|] == was + all[..k];
    assert (wire + rest)[|wire|..] == rest && (was + all)[|wire|..] == all[k..];
  }

  // ---------- st_writev ----------

  method Total(iov: seq<Vec>) returns (nbyte: nat)
    ensures nbyte == |Concat(iov)|
  {
    nbyte := 0;
    var index := 0;
    while index < |iov|
      invariant index <= |iov| && nbyte == |Concat(iov[..index])|
    {
      ConcatAt(iov, index);
      nbyte := nbyte + |iov[index]|;
      index := index + 1;
    }
    assert iov[..|iov|] == iov;
  }

  /** The vector that holds the next byte to be sent, and how much of it has been sent. */
  method FindVector(iov: seq<Vec>, sent: nat) returns (index: nat, n: nat)
    requires sent < |Concat(iov)|
    ensures index < |iov| && n < |iov[index]| && |Concat(iov[..index])| + n == sent
    ensures Concat(iov)[sent..] == Concat([iov[index][n..]] + iov[index + 1..])
  {
    index, n := 0, sent;
    assert iov[0..] == iov;
    while n >= |iov[index]|
      invariant index < |iov| && n < |Concat(iov[index..])| && |Concat(iov[..index])| + n == sent
      invariant Concat(iov)[sent..] == Concat(iov[index..])[n..]
      decreases |iov| - index
    {
      ConcatAt(iov, index);
      TakeWhole(iov, index, n);
      n := n - |iov[index]|;
      index := index + 1;
      MoreMeansVector(iov, index);
    }
    TakePart(iov, index, n);
  }

  /** Room for the vectors still to be sent: a local array, or one from the heap. */
  method Allocate(count: nat, canAlloc: bool) returns (tmp: array?<Vec>)
    ensures tmp == null <==> count > LOCAL_MAXIOV && !canAlloc
    ensures tmp != null ==> fresh(tmp) && count <= tmp.Length
  {
    if count <= LOCAL_MAXIOV {
      tmp := new Vec[LOCAL_MAXIOV](i => []);
    } else if canAlloc {
      tmp := new Vec[count](i => []);
    } else {
      tmp := null;
    }
  }

  /** The rest of vector index and the vectors behind it are copied to tmp. */
  method CopyRest(tmp: array<Vec>, iov: seq<Vec>, from: nat, n: nat) returns (cnt: nat)
    requires from < |iov| && n <= |iov[from]| && |iov| - from <= tmp.Length
    modifies tmp
    ensures cnt == |iov| - from && tmp[..cnt] == [iov[from][n..]] + iov[from + 1..]
  {
    tmp[0] := iov[from][n..];
    var index := from + 1;
    cnt := 1;
    while index < |iov|
      invariant from < index <= |iov| && cnt == index - from
      invariant tmp[..cnt] == [iov[from][n..]] + iov[from + 1..index]
    {
      tmp[cnt] := iov[index];
      assert tmp[..cnt + 1] == tmp[..cnt] + [iov[index]];
      cnt, index := cnt + 1, index + 1;
    }
  }

  lemma PrefixesGrow(iov: seq<Vec>, i: nat, j: nat)
    requires i <= j <= |iov|
    ensures |Concat(iov[..i])| <= |Concat(iov[..j])|
  {
    ConcatSplit(iov[..j], i);
    assert iov[..j][..i] == iov[..i];
  }

  /** `tmp_iov`: the caller's vectors, or the first cnt of the copy. */
  function Current(tmp: array?<Vec>, cnt: nat, iov: seq<Vec>): seq<Vec>
    requires tmp != null ==> cnt <= tmp.Length
    reads tmp
  {
    if tmp == null then iov else tmp[..cnt]
  }

  /** The vectors that `tmp_iov` describes start with byte `sent` of all. */
  ghost predicate Describes(tmp: array?<Vec>, cnt: nat, iov: seq<Vec>, sent: nat, from: nat)
    reads tmp
  {
    && from <= |iov| && cnt == |iov| - from && sent <= |Concat(iov)| && |Concat(iov[..from])| <= sent
    && (if tmp == null then from == 0 else |iov| - from <= tmp.Length)
    && Concat(Current(tmp, cnt, iov)) == Concat(iov)[sent..]
  }

  lemma Described(tmp: array?<Vec>, cnt: nat, iov: seq<Vec>, sent: nat, from: nat)
    requires Describes(tmp, cnt, iov, sent, from)
    ensures sent <= |Concat(iov)| && (tmp != null ==> cnt <= tmp.Length)
    ensures |Current(tmp, cnt, iov)| == cnt && Concat(Current(tmp, cnt, iov)) == Concat(iov)[sent..]
  {
    hide Concat;
  }

  /** A part was accepted: `tmp_iov` is set to what is left. */
  method Advance(tmp: array?<Vec>, iov: seq<Vec>, sent: nat, canAlloc: bool, ghost cnt0: nat, ghost was: nat,
      ghost from: nat)
    returns (tmp': array?<Vec>, cnt: nat, ghost from': nat)
    requires was <= sent < |Concat(iov)| && Describes(tmp, cnt0, iov, was, from)
    modifies tmp
    ensures tmp' == null ==> !canAlloc && tmp == null
    ensures tmp' != null ==> (tmp' == tmp || fresh(tmp')) && Describes(tmp', cnt, iov, sent, from')
  {
    var index, n := FindVector(iov, sent);
    ConcatAt(iov, index);
    if index < from {
      PrefixesGrow(iov, index + 1, from);
    }
    tmp', cnt, from' := tmp, 0, index;
    if tmp' == null {
      tmp' := Allocate(|iov| - index, canAlloc);
      if tmp' == null {
        return;
      }
    }
    cnt := CopyRest(tmp', iov, index, n);
  }

  /** After the first sent bytes of all, part of the rest was sent. */
  lemma LastVector(was: Vec, all: Vec, before: Vec, sent: nat, wire: Vec, o: Outcome)
    requires sent < |all| && SentSoFar(was, all, before, sent) && Written(before, all[sent..], wire, o)
    ensures Written(was, all, wire, if o == Pending then Pending else Returned(if o.rv != |all| - sent then -1 else |all|))
  {
    var k :| 0 <= k <= |all| - sent && wire == was + all[..sent] + all[sent..][..k];
    assert wire == was + all[..sent + k];
    assert was + all[..sent] + all[sent..] == was + all;
  }

  /** One `writev` of what `tmp_iov` describes. */
  method SendOnce(s: Socket, iov: seq<Vec>, tmp: array?<Vec>, cnt: nat, nleft: nat, nbyte: nat, canAlloc: bool,
                  ghost was: Vec, ghost from: nat)
    returns (turn: Turn, tmp': array?<Vec>, cnt': nat, nleft': nat, ghost from': nat)
    requires 0 < nleft <= nbyte == |Concat(iov)|
    requires SentSoFar(was, Concat(iov), s.wire, nbyte - nleft) && Describes(tmp, cnt, iov, nbyte - nleft, from)
    modifies s, tmp
    ensures turn.Stop? ==> Written(was, Concat(iov), s.wire, turn.out)
    ensures !turn.Stop? ==> 0 < nleft' <= nleft && |s.writes| < old(|s.writes|)
    ensures !turn.Stop? ==> tmp' == tmp || (tmp' != null && fresh(tmp'))
    ensures !turn.Stop? ==> SentSoFar(was, Concat(iov), s.wire, nbyte - nleft')
    ensures !turn.Stop? ==> Describes(tmp', cnt', iov, nbyte - nleft', from')
  {
    hide Written, Concat, Describes, SentSoFar, Current;
    ghost var all := Concat(iov);
    ghost var wire, sent: nat := s.wire, |all| - nleft;
    turn, tmp', cnt', nleft', from' := Wait, tmp, cnt, nleft, from;
    Described(tmp, cnt, iov, sent, from);
    WrittenPart(was, all, s.wire, sent);
    var r := s.Write(Current(tmp, cnt, iov));
    if r == Blocked {
      turn := Stop(Pending);
    } else if r.Failed? {
      if r.why == Eintr {
        turn := Again;
      } else if r.why != NotReady {
        turn := Stop(Returned(-1));
      }
    } else {
      SentMore(was, all, wire, sent, s.wire, r.n);
      WrittenPart(was, all, s.wire, sent + r.n);
      if r.n == nleft {
        return Stop(Returned(nbyte)), tmp, cnt, nleft, from;
      }
      nleft' := nleft - r.n;
      tmp', cnt', from' := Advance(tmp, iov, nbyte - nleft', canAlloc, cnt, sent, from);
      if tmp' == null {
        turn := Stop(Returned(-1));
      }
    }
  }

  /** `st_writev`: the total when every byte was sent once and in order, and else -1. */
  method StWritev(s: Socket, iov: seq<Vec>, canAlloc: bool) returns (out: Outcome)
    modifies s
    ensures Written(old(s.wire), Concat(iov), s.wire, out)
  {
    ghost var all := Concat(iov);
    var nbyte := Total(iov);
    var nleft: nat := nbyte;
    var tmp: array?<Vec> := null;
    var cnt: nat := |iov|;
    ghost var from: nat := 0;
    assert iov[..0] == [] && all[0..] == all && SentSoFar(s.wire, all, s.wire, 0);
    assert Describes(tmp, cnt, iov, 0, from);
    hide Written, Concat, Describes, Current, SentSoFar;
    while nleft > 0
      invariant nleft <= nbyte && SentSoFar(old(s.wire), all, s.wire, nbyte - nleft)
      invariant Describes(tmp, cnt, iov, nbyte - nleft, from) && (tmp != null ==> fresh(tmp))
      decreases |s.writes|
    {
      if cnt == 1 {
        ghost var wire := s.wire;
        Described(tmp, cnt, iov, nbyte - nleft, from);
        var cur := Current(tmp, cnt, iov);
        OneVector(cur);
        assert cur[0][..nleft] == all[nbyte - nleft..];
        var o := StWrite(s, cur[0][..nleft]);
        LastVector(old(s.wire), all, wire, nbyte - nleft, s.wire, o);
        out := if o == Pending then Pending else Returned(if o.rv != nleft then -1 else nbyte);
        return;
      }
      var turn;
      turn, tmp, cnt, nleft, from := SendOnce(s, iov, tmp, cnt, nleft, nbyte, canAlloc, old(s.wire), from);
      if turn.Stop? {
        return turn.out;
      }
      if turn == Wait {
        var ready := s.Poll();
        if ready != Yes {
          WrittenPart(old(s.wire), all, s.wire, nbyte - nleft);
          out := if ready == No then Returned(-1) else Pending;
          return;
        }
      }
    }
    WrittenPart(old(s.wire), all, s.wire, nbyte);
    out := Returned(nbyte);
  }
}
