/**
 The walk of a dispatch over the io queue: requests with an answer leave the queue while it is
 walked over, the others stay in order.
 */
module PollWalk {
  import opened PollTypes

  /** What a walk over the io queue reports: what select found, by descriptor and kind; or, after
      select failed, which descriptors are open; or what epoll said of each descriptor. */
  datatype How = Fired(fired: set<(int, int)>) | Open(open: set<int>) | Reported(revents: map<int, Bits>)

  /** The answer to one poll descriptor. */
  function Answer(pd: PollFd, how: How): PollFd {
    match how
    case Fired(fired) =>
      pd.(revents := Bits(pd.events.rd && (pd.fd, 0) in fired, pd.events.wr && (pd.fd, 1) in fired,
                          pd.events.ex && (pd.fd, 2) in fired, false, false, false))
    case Open(open) =>
      pd.(revents := if pd.events != NONE && pd.fd !in open then Bits(false, false, false, false, false, true) else NONE)
    case Reported(revents) =>
      if pd.fd !in revents || revents[pd.fd] == NONE then pd.(revents := NONE)
      else var r := revents[pd.fd];
        pd.(revents := Bits(pd.events.rd && r.rd, pd.events.wr && r.wr, pd.events.ex && r.ex, r.err, r.hup, false))
  }

  function AnswerAll(pds: seq<PollFd>, how: How): (r: seq<PollFd>)
    ensures |r| == |pds| && forall i :: 0 <= i < |pds| ==> r[i] == Answer(pds[i], how)
  {
    if pds == [] then [] else [Answer(pds[0], how)] + AnswerAll(pds[1..], how)
  }

  /** The thread of the request has something to see. */
  predicate Notified(pds: seq<PollFd>) {
    exists i :: 0 <= i < |pds| && pds[i].revents != NONE
  }

  function Answered(pq: PollQ, how: How): PollQ {
    pq.(pds := AnswerAll(pq.pds, how))
  }

  /** The requests of q that stay on the io queue, with their answers. */
  function Stay(q: seq<PollQ>, how: How): seq<PollQ> {
    if q == [] then []
    else Stay(q[..|q| - 1], how) + (if Notified(Answered(q[|q| - 1], how).pds) then [] else [Answered(q[|q| - 1], how)])
  }

  /** The requests of q whose threads are woken, with their answers, in the order of the queue. */
  function Woken(q: seq<PollQ>, how: How): seq<PollQ> {
    if q == [] then []
    else Woken(q[..|q| - 1], how) + (if Notified(Answered(q[|q| - 1], how).pds) then [Answered(q[|q| - 1], how)] else [])
  }

  // ---------- the walk ----------

  /** The walk has come to place q: seen requests of all are dealt with. */
  ghost predicate Walking(now: seq<PollQ>, q: int, woken: seq<PollQ>, all: seq<PollQ>, seen: int, how: How) {
    && 0 <= q <= |now| && 0 <= seen <= |all|
    && now[..q] == Stay(all[..seen], how) && woken == Woken(all[..seen], how) && now[q..] == all[seen..]
  }

  lemma WalkStarts(all: seq<PollQ>, how: How)
    ensures Walking(all, 0, [], all, 0, how)
  {
    assert all[..0] == [];
  }

  lemma WalkPlace(now: seq<PollQ>, q: int, woken: seq<PollQ>, all: seq<PollQ>, seen: int, how: How)
    requires Walking(now, q, woken, all, seen, how)
    ensures 0 <= q <= |now| && |now| - q == |all| - seen && 0 <= seen <= |all|
  {
    assert |now[q..]| == |all[seen..]|;
  }

  /** One more request has been seen. */
  lemma SeenOneMore(now: seq<PollQ>, q: int, all: seq<PollQ>, seen: int, how: How)
    requires 0 <= q < |now| && 0 <= seen <= |all| && now[q..] == all[seen..]
    ensures seen < |all| && now[q] == all[seen] && now[q + 1..] == all[seen + 1..]
    ensures Stay(all[..seen + 1], how) ==
      Stay(all[..seen], how) + (if Notified(Answered(now[q], how).pds) then [] else [Answered(now[q], how)])
    ensures Woken(all[..seen + 1], how) ==
      Woken(all[..seen], how) + (if Notified(Answered(now[q], how).pds) then [Answered(now[q], how)] else [])
  {
    hide Notified, Answered;
    assert now[q..][0] == all[seen..][0];
    assert now[q..][1..] == now[q + 1..] && all[seen..][1..] == all[seen + 1..];
    assert all[..seen + 1][..seen] == all[..seen];
  }

  lemma WalkRemoves(now: seq<PollQ>, q: int, woken: seq<PollQ>, all: seq<PollQ>, seen: int, how: How)
    requires Walking(now, q, woken, all, seen, how) && q < |now|
    requires Notified(Answered(now[q], how).pds)
    ensures Walking(Without(now, q), q, woken + [Answered(now[q], how)], all, seen + 1, how)
  {
    SeenOneMore(now, q, all, seen, how);
    hide Notified, Answered, Stay, Woken;
    var r := Without(now, q);
    assert r[..q] == now[..q] && r[q..] == now[q + 1..];
  }

  lemma WalkKeeps(now: seq<PollQ>, q: int, woken: seq<PollQ>, all: seq<PollQ>, seen: int, how: How)
    requires Walking(now, q, woken, all, seen, how) && q < |now|
    requires !Notified(Answered(now[q], how).pds)
    ensures Walking(now[q := Answered(now[q], how)], q + 1, woken, all, seen + 1, how)
  {
    SeenOneMore(now, q, all, seen, how);
    hide Notified, Answered, Stay, Woken;
    var r := now[q := Answered(now[q], how)];
    assert r[..q + 1] == now[..q] + [r[q]] && r[q + 1..] == now[q + 1..];
  }

  /** One turn of the walk: the request at q is answered, and leaves the queue when its thread is notified. */
  lemma WalkTurn(was: seq<PollQ>, q: int, woken: seq<PollQ>, all: seq<PollQ>, seen: int, how: How, now: seq<PollQ>)
    requires Walking(was, q, woken, all, seen, how) && q < |was|
    requires now == if Notified(Answered(was[q], how).pds) then Without(was, q) else was[q := Answered(was[q], how)]
    ensures var pq := Answered(was[q], how);
      if Notified(pq.pds) then Walking(now, q, woken + [pq], all, seen + 1, how) && q <= |now| == |was| - 1
      else Walking(now, q + 1, woken, all, seen + 1, how) && q + 1 <= |now| == |was|
  {
    WalkPlace(was, q, woken, all, seen, how);
    hide Stay, Woken, Walking, Answered, Notified;
    if Notified(Answered(was[q], how).pds) {
      WalkRemoves(was, q, woken, all, seen, how);
    } else {
      WalkKeeps(was, q, woken, all, seen, how);
    }
  }

  lemma WalkEnds(now: seq<PollQ>, q: int, woken: seq<PollQ>, all: seq<PollQ>, seen: int, how: How)
    requires Walking(now, q, woken, all, seen, how) && q >= |now|
    ensures now == Stay(all, how) && woken == Woken(all, how)
  {
    assert |now[q..]| == |all[seen..]|;
    assert now[..q] == now && all[..seen] == all;
  }

  // ---------- what dispatch does ----------

  /** All requests with their answers. */
  function AllAnswered(q: seq<PollQ>, how: How): (r: seq<PollQ>)
    ensures |r| == |q| && forall i :: 0 <= i < |q| ==> r[i] == Answered(q[i], how)
  {
    if q == [] then [] else AllAnswered(q[..|q| - 1], how) + [Answered(q[|q| - 1], how)]
  }

  /** a is b with some elements left out. */
  predicate Within(a: seq<PollQ>, b: seq<PollQ>)
    decreases |b|
  {
    || a == []
    || (b != [] && a[|a| - 1] == b[|b| - 1] && Within(a[..|a| - 1], b[..|b| - 1]))
    || (b != [] && a[|a| - 1] != b[|b| - 1] && Within(a, b[..|b| - 1]))
  }

  lemma WithinSkips(a: seq<PollQ>, b: seq<PollQ>, p: PollQ)
    requires Within(a, b) && forall x :: x in a ==> x != p
    ensures Within(a, b + [p])
  {
    assert (b + [p])[..|b|] == b;
    assert a != [] ==> a[|a| - 1] in a;
  }

  lemma WithinTakes(a: seq<PollQ>, b: seq<PollQ>, p: PollQ)
    requires Within(a, b)
    ensures Within(a + [p], b + [p])
  {
    assert (a + [p])[..|a|] == a && (b + [p])[..|b|] == b;
  }

  /** Every request either stays or is woken, none twice. */
  lemma {:induction false} WokenOrStay(q: seq<PollQ>, how: How)
    ensures |Stay(q, how)| + |Woken(q, how)| == |q|
    ensures forall p :: p in Stay(q, how) ==> !Notified(p.pds)
    ensures forall p :: p in Woken(q, how) ==> Notified(p.pds)
    decreases |q|
  {
    if q != [] {
      WokenOrStay(q[..|q| - 1], how);
    }
  }

  /** The requests that stay, and those that are woken, stand in the order of the queue, with their
      answers. */
  lemma {:induction false} WalkInOrder(q: seq<PollQ>, how: How)
    ensures Within(Stay(q, how), AllAnswered(q, how)) && Within(Woken(q, how), AllAnswered(q, how))
    decreases |q|
  {
    if q != [] {
      var p, r := Answered(q[|q| - 1], how), q[..|q| - 1];
      var stay, woken, all := Stay(r, how), Woken(r, how), AllAnswered(r, how);
      WalkInOrder(r, how);
      WokenOrStay(r, how);
      assert Stay(q, how) == stay + (if Notified(p.pds) then [] else [p]);
      assert Woken(q, how) == woken + (if Notified(p.pds) then [p] else []);
      assert stay + [] == stay && woken + [] == woken;
      hide Answered, Notified, Within, Stay, Woken;
      WithinTakes(if Notified(p.pds) then woken else stay, all, p);
      WithinSkips(if Notified(p.pds) then stay else woken, all, p);
    }
  }

  /** Each answered request is in one of the two lists as often as it is on the queue. */
  lemma {:induction false} WalkKeepsAll(q: seq<PollQ>, how: How, x: PollQ)
    ensures multiset(Stay(q, how))[x] + multiset(Woken(q, how))[x] == multiset(AllAnswered(q, how))[x]
    decreases |q|
  {
    if q != [] {
      WalkKeepsAll(q[..|q| - 1], how, x);
      hide Answered, Notified;
    }
  }

  /** What `st_poll` counts after it was notified. */
  function ReadyCount(pds: seq<PollFd>): nat {
    if pds == [] then 0 else ReadyCount(pds[1..]) + if pds[0].revents != NONE then 1 else 0
  }

  lemma {:induction false} NotifiedIffCounted(pds: seq<PollFd>)
    ensures Notified(pds) <==> ReadyCount(pds) >= 1
  {
    if pds != [] {
      NotifiedIffCounted(pds[1..]);
      if i :| 0 <= i < |pds| && pds[i].revents != NONE {
        assert i > 0 ==> pds[1..][i - 1] == pds[i];
      }
      if i :| 0 <= i < |pds| - 1 && pds[1..][i].revents != NONE {
        assert pds[i + 1] == pds[1..][i];
      }
    }
  }

  /** A thread that select wakes finds at least one ready descriptor. */
  lemma WokenSeeEvents(q: seq<PollQ>, how: How, p: PollQ)
    requires p in Woken(q, how)
    ensures ReadyCount(p.pds) >= 1
  {
    WokenOrStay(q, how);
    NotifiedIffCounted(p.pds);
  }

  // ---------- what the answers mean ----------

  /** What the operating system said: select, by descriptor and kind, 0 to read, 1 to write, 2 exceptional;
      after select failed, which descriptors are open; or epoll, by descriptor. */
  datatype Report = BySelect(fired: set<(int, int)>) | ByCheck(open: set<int>) | ByEpoll(events: seq<(int, Bits)>)

  /** epoll reported b of the descriptor of p. */
  ghost predicate Reports(events: seq<(int, Bits)>, fd: int, b: Bits) {
    exists i :: 0 <= i < |events| && events[i] == (fd, b)
  }

  /** r is p with the answer that the report calls for: what was asked for and has happened; with epoll errors
      and hang-ups too, which bring all that was asked for. */
  ghost predicate Tells(report: Report, p: PollFd, r: PollFd) {
    && r.fd == p.fd && r.events == p.events
    && match report
       case BySelect(fired) =>
         && (r.revents.rd <==> p.events.rd && (p.fd, 0) in fired)
         && (r.revents.wr <==> p.events.wr && (p.fd, 1) in fired)
         && (r.revents.ex <==> p.events.ex && (p.fd, 2) in fired)
         && !r.revents.err && !r.revents.hup && !r.revents.nval
       case ByCheck(open) =>
         && !r.revents.rd && !r.revents.wr && !r.revents.ex && !r.revents.err && !r.revents.hup
         && (r.revents.nval <==> p.fd !in open)
       case ByEpoll(events) =>
         && (r.revents.rd <==> p.events.rd && exists b: Bits :: Reports(events, p.fd, b) && (b.rd || b.err || b.hup))
         && (r.revents.wr <==> p.events.wr && exists b: Bits :: Reports(events, p.fd, b) && (b.wr || b.err || b.hup))
         && (r.revents.ex <==> p.events.ex && exists b: Bits :: Reports(events, p.fd, b) && (b.ex || b.err || b.hup))
         && (r.revents.err <==> exists b: Bits :: Reports(events, p.fd, b) && b.err)
         && (r.revents.hup <==> exists b: Bits :: Reports(events, p.fd, b) && b.hup)
         && !r.revents.nval
  }

  /** There is something to tell about p. */
  ghost predicate HasEvent(report: Report, p: PollFd) {
    match report
    case BySelect(fired) =>
      (p.events.rd && (p.fd, 0) in fired) || (p.events.wr && (p.fd, 1) in fired) || (p.events.ex && (p.fd, 2) in fired)
    case ByCheck(open) => p.fd !in open
    case ByEpoll(events) =>
      exists b: Bits :: Reports(events, p.fd, b)
        && (b.err || b.hup || (p.events.rd && b.rd) || (p.events.wr && b.wr) || (p.events.ex && b.ex))
  }

  lemma ToldIff(report: Report, p: PollFd, r: PollFd)
    requires Tells(report, p, r)
    ensures r.revents != NONE <==> HasEvent(report, p)
  {
    if report.ByEpoll? && HasEvent(report, p) {
      var b: Bits :| Reports(report.events, p.fd, b)
        && (b.err || b.hup || (p.events.rd && b.rd) || (p.events.wr && b.wr) || (p.events.ex && b.ex));
    }
  }

  /** r is the request p with its answers. */
  ghost predicate TellsAll(report: Report, p: PollQ, r: PollQ) {
    r.thread == p.thread && |r.pds| == |p.pds| && forall j :: 0 <= j < |p.pds| ==> Tells(report, p.pds[j], r.pds[j])
  }

  ghost predicate SomeEvent(report: Report, p: PollQ) {
    exists j :: 0 <= j < |p.pds| && HasEvent(report, p.pds[j])
  }

  /** r lists the requests of q at the places at, in order and with their answers. */
  ghost predicate Picks(report: Report, q: seq<PollQ>, r: seq<PollQ>, at: seq<nat>) {
    && |at| == |r| && (forall i, j :: 0 <= i < j < |at| ==> at[i] < at[j])
    && (forall i :: 0 <= i < |at| ==> at[i] < |q|)
    && forall i :: 0 <= i < |at| ==> TellsAll(report, q[at[i]], r[i])
  }

  /** Of the requests q exactly those with an event are woken and the others stay, each in order and with its
      answers. */
  ghost predicate Parted(report: Report, q: seq<PollQ>, stay: seq<PollQ>, woken: seq<PollQ>) {
    exists a: seq<nat>, b: seq<nat> :: PartedAt(report, q, stay, woken, a, b)
  }

  ghost predicate PartedAt(report: Report, q: seq<PollQ>, stay: seq<PollQ>, woken: seq<PollQ>, a: seq<nat>, b: seq<nat>) {
    && Picks(report, q, stay, a) && Picks(report, q, woken, b)
    && forall i: nat :: i < |q| ==> (i in b <==> SomeEvent(report, q[i])) && (i in a <==> !SomeEvent(report, q[i]))
  }

  /** Where the request at i goes. */
  lemma PartedGives(report: Report, q: seq<PollQ>, stay: seq<PollQ>, woken: seq<PollQ>, i: nat) returns (k: nat)
    requires Parted(report, q, stay, woken) && i < |q|
    ensures if SomeEvent(report, q[i]) then k < |woken| && TellsAll(report, q[i], woken[k])
            else k < |stay| && TellsAll(report, q[i], stay[k])
  {
    hide TellsAll, SomeEvent;
    var a: seq<nat>, b: seq<nat> :| PartedAt(report, q, stay, woken, a, b);
    if SomeEvent(report, q[i]) {
      k :| k < |b| && b[k] == i;
    } else {
      k :| k < |a| && a[k] == i;
    }
  }

  /** The answers of a walk that reports how are those that the report calls for. */
  ghost predicate Faithful(report: Report, how: How, p: PollFd) {
    Tells(report, p, Answer(p, how))
  }

  lemma AnsweredTells(report: Report, how: How, p: PollQ)
    requires forall j :: 0 <= j < |p.pds| ==> Faithful(report, how, p.pds[j])
    ensures TellsAll(report, p, Answered(p, how)) && (Notified(Answered(p, how).pds) <==> SomeEvent(report, p))
  {
    hide Tells, HasEvent, Answer;
    var r := Answered(p, how);
    forall j | 0 <= j < |p.pds|
      ensures Tells(report, p.pds[j], r.pds[j]) && (r.pds[j].revents != NONE <==> HasEvent(report, p.pds[j]))
    {
      assert Faithful(report, how, p.pds[j]);
      ToldIff(report, p.pds[j], r.pds[j]);
    }
  }

  lemma PicksMore(report: Report, q: seq<PollQ>, r: seq<PollQ>, at: seq<nat>, p: PollQ, pr: PollQ)
    requires Picks(report, q, r, at)
    ensures Picks(report, q + [p], r, at)
    ensures TellsAll(report, p, pr) ==> Picks(report, q + [p], r + [pr], at + [|q|])
  {
    hide TellsAll;
  }

  /** What a walk does, in terms of the report. */
  lemma {:induction false} WalkParts(report: Report, q: seq<PollQ>, how: How)
    requires forall i, j :: 0 <= i < |q| && 0 <= j < |q[i].pds| ==> Faithful(report, how, q[i].pds[j])
    ensures Parted(report, q, Stay(q, how), Woken(q, how))
    decreases |q|
  {
    hide Faithful, TellsAll, SomeEvent, Answered, Notified, Picks;
    if q == [] {
      NothingParted(report);
    } else {
      var n := |q| - 1;
      var rest, p, pr := q[..n], q[n], Answered(q[n], how);
      assert forall i :: 0 <= i < n ==> rest[i] == q[i];
      WalkParts(report, rest, how);
      AnsweredTells(report, how, p);
      var stay, woken := Stay(rest, how), Woken(rest, how);
      assert Stay(q, how) == stay + (if Notified(pr.pds) then [] else [pr]);
      assert Woken(q, how) == woken + (if Notified(pr.pds) then [pr] else []);
      assert q == rest + [p] && stay + [] == stay && woken + [] == woken;
      hide Stay, Woken;
      PartedMore(report, rest, stay, woken, p, pr);
    }
  }

  lemma NothingParted(report: Report)
    ensures Parted(report, [], [], [])
  {
    assert PartedAt(report, [], [], [], [], []);
  }

  lemma PartedMore(report: Report, q: seq<PollQ>, stay: seq<PollQ>, woken: seq<PollQ>, p: PollQ, pr: PollQ)
    requires Parted(report, q, stay, woken) && TellsAll(report, p, pr)
    ensures if SomeEvent(report, p) then Parted(report, q + [p], stay, woken + [pr])
            else Parted(report, q + [p], stay + [pr], woken)
  {
    hide TellsAll, SomeEvent, Picks;
    var a: seq<nat>, b: seq<nat> :| PartedAt(report, q, stay, woken, a, b);
    PicksMore(report, q, stay, a, p, pr);
    PicksMore(report, q, woken, b, p, pr);
    var n: nat := |q|;
    PicksBelow(report, q, stay, a);
    PicksBelow(report, q, woken, b);
    if SomeEvent(report, p) {
      assert PartedAt(report, q + [p], stay, woken + [pr], a, b + [n]);
    } else {
      assert PartedAt(report, q + [p], stay + [pr], woken, a + [n], b);
    }
  }

  lemma PicksBelow(report: Report, q: seq<PollQ>, r: seq<PollQ>, at: seq<nat>)
    requires Picks(report, q, r, at)
    ensures forall i :: i in at ==> i < |q|
  {
  }

  lemma FiredIsFaithful(fired: set<(int, int)>, p: PollFd)
    ensures Faithful(BySelect(fired), Fired(fired), p)
  {
  }

  lemma OpenIsFaithful(open: set<int>, p: PollFd)
    requires Acceptable(p)
    ensures Faithful(ByCheck(open), Open(open), p)
  {
  }

  /** The places of the descriptors with events. */
  function EventsOf(pds: seq<PollFd>): set<nat> {
    set j: nat | j < |pds| && pds[j].revents != NONE
  }

  /** What `st_poll` counts is the number of descriptors with events. */
  lemma ReadyCountIs(pds: seq<PollFd>)
    ensures ReadyCount(pds) == |EventsOf(pds)|
  {
    ReadyCountFrom(pds, 0);
    assert pds[0..] == pds;
    assert EventsOf(pds) == set j: nat | 0 <= j < |pds| && pds[j].revents != NONE;
  }

  lemma {:induction false} ReadyCountFrom(pds: seq<PollFd>, i: nat)
    requires i <= |pds|
    ensures ReadyCount(pds[i..]) == |set j: nat | i <= j < |pds| && pds[j].revents != NONE|
    decreases |pds| - i
  {
    if i < |pds| {
      ReadyCountFrom(pds, i + 1);
      assert pds[i..][1..] == pds[i + 1..];
      var later := set j: nat | i + 1 <= j < |pds| && pds[j].revents != NONE;
      assert (set j: nat | i <= j < |pds| && pds[j].revents != NONE) == later + (if pds[i].revents != NONE then {i} else {});
    }
  }
}
