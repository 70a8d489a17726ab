/**
 Vectored input that survives partial reads: whatever amounts arrive, memory is as if everything
 had arrived at once.
 */
module ReadvResid {
  import opened Iovec

  /** An `iovec` to be filled: where in memory it begins and how much room is left. */
  datatype Span = Span(base: nat, len: nat)

  ghost predicate Fits(vs: seq<Span>, size: nat) {
    forall i :: 0 <= i < |vs| ==> vs[i].base + vs[i].len <= size
  }

  function Room(vs: seq<Span>): nat {
    if vs == [] then 0 else vs[0].len + Room(vs[1..])
  }

  function Store(mem: Vec, base: nat, data: Vec): (r: Vec)
    requires base + |data| <= |mem|
    ensures |r| == |mem|
  {
    mem[..base] + data + mem[base + |data|..]
  }

  /** One complete read: the data fill the vectors one after the other. */
  function Scatter(mem: Vec, vs: seq<Span>, data: Vec): (r: Vec)
    requires Fits(vs, |mem|) && |data| <= Room(vs)
    ensures |r| == |mem|
    decreases |vs|
  {
    if vs == [] then mem
    else
      var k := Min(|data|, vs[0].len);
      Scatter(Store(mem, vs[0].base, data[..k]), vs[1..], data[k..])
  }

  lemma {:induction false} ScatterNothing(mem: Vec, vs: seq<Span>)
    requires Fits(vs, |mem|)
    ensures Scatter(mem, vs, []) == mem
  {
    if vs != [] {
      assert Store(mem, vs[0].base, []) == mem;
      ScatterNothing(mem, vs[1..]);
    }
  }

  lemma {:induction false} RoomSplit(vs: seq<Span>, i: nat)
    requires i <= |vs|
    ensures Room(vs) == Room(vs[..i]) + Room(vs[i..])
  {
    if i > 0 {
      RoomSplit(vs[1..], i - 1);
      assert vs[..i][1..] == vs[1..][..i - 1] && vs[1..][i - 1..] == vs[i..];
    } else {
      assert vs[0..] == vs;
    }
  }

  /** What is left of vs after n bytes of vector pos, all before it being full. */
  function Left(vs: seq<Span>, pos: nat, n: nat): seq<Span>
    requires pos < |vs| && n <= vs[pos].len
  {
    [Span(vs[pos].base + n, vs[pos].len - n)] + vs[pos + 1..]
  }

  lemma LeftRoom(vs: seq<Span>, pos: nat, n: nat)
    requires pos < |vs| && n <= vs[pos].len
    ensures Room(vs[..pos]) + n + Room(Left(vs, pos, n)) == Room(vs)
  {
    RoomSplit(vs, pos);
    assert vs[pos..][1..] == vs[pos + 1..] == Left(vs, pos, n)[1..];
  }

  lemma StoreTwice(mem: Vec, base: nat, a: Vec, b: Vec)
    requires base + |a| + |b| <= |mem|
    ensures Store(Store(mem, base, a), base + |a|, b) == Store(mem, base, a + b)
  {
    var m := Store(mem, base, a);
    assert m[..base + |a|] == mem[..base] + a;
    assert m[base + |a| + |b|..] == mem[base + |a| + |b|..];
  }

  function Min(a: nat, b: nat): nat {
    if a <= b then a else b
  }

  lemma ScatterStep(mem: Vec, vs: seq<Span>, data: Vec, head: Vec, tail: Vec)
    requires Fits(vs, |mem|) && vs != [] && data == head + tail && |head| == Min(|data|, vs[0].len)
    requires |data| <= Room(vs)
    ensures |tail| <= Room(vs[1..])
    ensures Scatter(mem, vs, data) == Scatter(Store(mem, vs[0].base, head), vs[1..], tail)
  {
    assert data[..|head|] == head && data[|head|..] == tail;
  }

  lemma ScatterWithin(mem: Vec, vs: seq<Span>, first: Vec)
    requires Fits(vs, |mem|) && vs != [] && |first| <= vs[0].len && |first| <= Room(vs)
    ensures Scatter(mem, vs, first) == Store(mem, vs[0].base, first)
  {
    ScatterStep(mem, vs, first, first, []);
    ScatterNothing(Store(mem, vs[0].base, first), vs[1..]);
  }

  lemma LeftFirst(mem: Vec, vs: seq<Span>, n: nat)
    requires Fits(vs, |mem|) && vs != [] && n <= vs[0].len
    ensures var l := Left(vs, 0, n);
      l != [] && Fits(l, |mem|) && l[0].base == vs[0].base + n && l[0].len == vs[0].len - n && l[1..] == vs[1..]
  {
  }

  /** The case that the first read ends within the first vector, which head then goes on to fill. */
  lemma ScatterInFirst(mem: Vec, vs: seq<Span>, first: Vec, head: Vec, tail: Vec)
    requires Fits(vs, |mem|) && vs != [] && |first| <= vs[0].len && |head + tail| <= Room(Left(vs, 0, |first|))
    requires |head| == Min(|head + tail|, vs[0].len - |first|) && |first| + |head + tail| <= Room(vs)
    ensures Scatter(Scatter(mem, vs, first), Left(vs, 0, |first|), head + tail) ==
            Scatter(mem, vs, first + (head + tail))
  {
    hide Store, Room, Scatter, Left;
    var one, l := Store(mem, vs[0].base, first), Left(vs, 0, |first|);
    LeftFirst(mem, vs, |first|);
    assert first + (head + tail) == first + head + tail;
    ScatterStep(mem, vs, first + (head + tail), first + head, tail);
    StoreTwice(mem, vs[0].base, first, head);
    ScatterStep(one, l, head + tail, head, tail);
    ScatterWithin(mem, vs, first);
  }

  /** A second read into what is left does what one read of everything does. */
  lemma {:induction false} ScatterInTwo(mem: Vec, vs: seq<Span>, pos: nat, n: nat, first: Vec, second: Vec)
    requires Fits(vs, |mem|) && pos < |vs| && n <= vs[pos].len && |first| == Room(vs[..pos]) + n
    requires |second| <= Room(Left(vs, pos, n))
    ensures |first| + |second| <= Room(vs)
    ensures Scatter(Scatter(mem, vs, first), Left(vs, pos, n), second) == Scatter(mem, vs, first + second)
    decreases pos
  {
    LeftRoom(vs, pos, n);
    if pos == 0 {
      var k := Min(|second|, vs[0].len - n);
      SplitAt(second, k);
      ScatterInFirst(mem, vs, first, second[..k], second[k..]);
    } else {
      var k, m, l := vs[0].len, Store(mem, vs[0].base, first[..vs[0].len]), Left(vs, pos, n);
      assert vs[..pos][1..] == vs[1..][..pos - 1] && Left(vs[1..], pos - 1, n) == l;
      assert Room(vs[..pos]) == vs[0].len + Room(vs[1..][..pos - 1]);
      SplitAt(first, k);
      assert first + second == first[..k] + (first[k..] + second);
      hide Store, Room, Scatter, Left;
      ScatterInTwo(m, vs[1..], pos - 1, n, first[k..], second);
      ScatterStep(mem, vs, first, first[..k], first[k..]);
      ScatterStep(mem, vs, first + second, first[..k], first[k..] + second);
    }
  }

  lemma SplitAt(data: Vec, k: nat)
    requires k <= |data|
    ensures data == data[..k] + data[k..] && |data[..k]| == k && |data[k..]| == |data| - k
  {
  }

  /** The other end: what it will answer to reads and polls, and what is still to arrive. */
  class Input {
    var answers: seq<Reply>
    var polls: seq<bool>
    var incoming: Vec
    /** The last read that was answered moved nothing. */
    var ended: bool

    method StoreAll(mem: array<Byte>, base: nat, data: Vec)
      requires base + |data| <= mem.Length
      modifies mem
      ensures mem[..] == Store(old(mem[..]), base, data)
    {
      var i := 0;
      while i < |data|
        invariant i <= |data| && mem[..] == Store(old(mem[..]), base, data[..i])
      {
        mem[base + i] := data[i];
        i := i + 1;
      }
      assert data[..i] == data;
    }

    method Fill(mem: array<Byte>, vs: seq<Span>, data: Vec)
      requires Fits(vs, mem.Length) && |data| <= Room(vs)
      modifies mem
      ensures mem[..] == Scatter(old(mem[..]), vs, data)
      decreases |vs|
    {
      if vs != [] {
        var k := Min(|data|, vs[0].len);
        StoreAll(mem, vs[0].base, data[..k]);
        Fill(mem, vs[1..], data[k..]);
      }
    }

    /** `read` and `readv` */
    method Read(mem: array<Byte>, vs: seq<Span>) returns (r: Sys)
      requires Fits(vs, mem.Length)
      modifies this, mem
      ensures r == Blocked ==> answers == old(answers)
      ensures polls == old(polls)
      ensures (r == Blocked ==> old(answers) == []) && (r != Blocked ==> |answers| < old(|answers|))
      ensures r == Iovec.Answer(old(answers), Min(Room(vs), |old(incoming)|))
      ensures r != Blocked ==> answers == old(answers)[1..]
      ensures r.Moved? ==> r.n <= |old(incoming)| && r.n <= Room(vs) && incoming == old(incoming)[r.n..]
      ensures r.Moved? ==> mem[..] == Scatter(old(mem[..]), vs, old(incoming)[..r.n])
      ensures !r.Moved? ==> incoming == old(incoming) && mem[..] == old(mem[..])
      ensures ended <==> r == Moved(0) || (r == Blocked && old(ended))
    {
      if answers == [] {
        return Blocked;
      }
      var a := answers[0];
      answers := answers[1..];
      ended := false;
      if !a.Amount? {
        return Failed(a);
      }
      var m := Min(Room(vs), |incoming|);
      var n: nat := if a.n <= m then a.n else m;
      Fill(mem, vs, incoming[..n]);
      incoming, ended := incoming[n..], n == 0;
      r := Moved(n);
    }

    /** `st_netfd_poll` */
    method Poll() returns (r: Ready)
      modifies this`polls
      ensures r == PollAnswer(old(polls)) && polls == if r == NotYet then old(polls) else old(polls)[1..]
    {
      if polls == [] {
        return NotYet;
      }
      r := if polls[0] then Yes else No;
      polls := polls[1..];
    }
  }

  lemma RoomStep(vs: seq<Span>, start: nat, pos: nat)
    requires start <= pos < |vs|
    ensures Room(vs[pos..]) == vs[pos].len + Room(vs[pos + 1..])
    ensures Room(vs[start..pos + 1]) == Room(vs[start..pos]) + vs[pos].len
  {
    assert vs[pos..][1..] == vs[pos + 1..];
    var part := vs[start..pos + 1];
    RoomSplit(part, pos - start);
    assert part[..pos - start] == vs[start..pos] && part[pos - start..] == [vs[pos]];
    assert Room([vs[pos]]) == vs[pos].len;
  }

  lemma RoomMeansVector(vs: seq<Span>, pos: nat)
    requires pos <= |vs| && Room(vs[pos..]) > 0
    ensures pos < |vs|
  {
  }

  /** The vectors that are left when n bytes have arrived: full ones go, but one without room at which
      the count ends stays. */
  function RestOf(vs: seq<Span>, n: nat): seq<Span> {
    if vs == [] then []
    else if n < vs[0].len then Left(vs, 0, n)
    else if n == vs[0].len then vs[1..]
    else RestOf(vs[1..], n - vs[0].len)
  }

  lemma RestOfWhole(vs: seq<Span>, pos: nat, n: nat)
    requires pos < |vs| && vs[pos].len <= n
    ensures RestOf(vs[pos..], n) == if n == vs[pos].len then vs[pos + 1..] else RestOf(vs[pos + 1..], n - vs[pos].len)
  {
    assert vs[pos..][1..] == vs[pos + 1..];
  }

  lemma RestOfPart(vs: seq<Span>, pos: nat, n: nat)
    requires pos < |vs| && n < vs[pos].len
    ensures RestOf(vs[pos..], n) == Left(vs, pos, n)
  {
    assert vs[pos..][1..] == vs[pos + 1..];
  }

  /** The vector at which a read ends. */
  lemma RestOfLast(vs: seq<Span>, pos: nat, n: nat, r: seq<Span>)
    requires pos < |vs| && ((n < vs[pos].len && r == RestOf(vs[pos..], n)) || (n == 0 && r == vs[pos..]))
    ensures r == Left(vs, pos, n)
  {
    if n < vs[pos].len {
      RestOfPart(vs, pos, n);
    }
  }

  /** The cursor moved from start to pos: vectors before start are as they were, those passed are full,
      and the last one, when it had room and has not been passed, still has some. */
  ghost predicate Advanced(was: seq<Span>, start: nat, now: seq<Span>, pos: nat) {
    && |now| == |was| && start <= pos <= |was|
    && (forall k :: 0 <= k < start ==> now[k] == was[k]) && (forall k :: start <= k < pos ==> now[k].len == 0)
    && (pos < |was| && was[|was| - 1].len > 0 ==> now[|was| - 1].len > 0)
  }

  lemma NotAdvanced(was: seq<Span>, start: nat)
    requires start <= |was|
    ensures Advanced(was, start, was, start)
  {
  }

  lemma AdvancedFurther(was: seq<Span>, start: nat, mid: seq<Span>, at: nat, now: seq<Span>, pos: nat)
    requires Advanced(was, start, mid, at) && Advanced(mid, at, now, pos)
    ensures Advanced(was, start, now, pos)
  {
  }

  lemma AdvancedBounds(was: seq<Span>, start: nat, now: seq<Span>, pos: nat)
    requires Advanced(was, start, now, pos)
    ensures |now| == |was| && start <= pos <= |was|
  {
  }

  /** The vector at pos has lost n bytes of room, and those behind it none. */
  lemma LeftFrom(was: seq<Span>, now: seq<Span>, pos: nat, n: nat)
    requires pos < |now| == |was| && n <= was[pos].len && forall k :: pos < k < |now| ==> now[k] == was[k]
    requires now[pos] == Span(was[pos].base + n, was[pos].len - n)
    ensures now[pos..] == Left(was, pos, n)
  {
  }

  /** The vectors before pos are used up, and the one at pos has lost n bytes of room. */
  lemma AdvancedBy(was: seq<Span>, start: nat, now: seq<Span>, pos: nat, n: nat)
    requires |now| == |was| && start <= pos <= |was|
    requires (forall k :: 0 <= k < start ==> now[k] == was[k]) && (forall k :: start <= k < pos ==> now[k].len == 0)
    requires forall k :: pos < k < |was| ==> now[k] == was[k]
    requires pos < |was| ==> now[pos].len == was[pos].len - n && (n == 0 || n < was[pos].len)
    ensures Advanced(was, start, now, pos)
  {
  }

  /** count bytes have arrived in the vectors from start on: pos and iov describe what is left. */
  method Consume(iov: array<Span>, start: nat, count: nat) returns (pos: nat, ghost at: nat, ghost n: nat)
    requires start < iov.Length && 0 < count <= Room(iov[..][start..])
    modifies iov
    ensures start <= at < iov.Length && n <= old(iov[at].len)
    ensures pos <= iov.Length && iov[..][pos..] == RestOf(old(iov[..][start..]), count)
    ensures count == Room(old(iov[..][start..at])) + n
    ensures if pos == at then iov[..][pos..] == Left(old(iov[..]), at, n)
            else pos == at + 1 == iov.Length && n == old(iov[at].len)
    ensures Advanced(old(iov[..]), start, iov[..], pos)
  {
    hide Room, RestOf, Advanced, Left;
    ghost var was := iov[..];
    var rest := count;
    pos := start;
    NoRoom(was, start);
    while rest >= iov[pos].len
      invariant start <= pos < iov.Length && 0 < rest <= Room(was[pos..])
      invariant count == Room(was[start..pos]) + rest
      invariant RestOf(was[pos..], rest) == RestOf(was[start..], count)
      invariant forall k :: pos <= k < iov.Length || 0 <= k < start ==> iov[k] == was[k]
      invariant forall k :: start <= k < pos ==> iov[k].len == 0
      decreases iov.Length - pos
    {
      RoomStep(was, start, pos);
      RestOfWhole(was, pos, rest);
      rest := rest - iov[pos].len;
      iov[pos] := Span(iov[pos].base + iov[pos].len, 0);
      pos := pos + 1;
      if rest == 0 {
        assert RestOf(was[start..], count) == was[pos..];
        break;
      }
      RoomMeansVector(was, pos);
    }
    if pos < iov.Length {
      at, n := pos, rest;
      RestOfLast(was, pos, rest, RestOf(was[start..], count));
      iov[pos] := Span(iov[pos].base + rest, iov[pos].len - rest);
      LeftFrom(was, iov[..], pos, rest);
    } else {
      at, n := pos - 1, was[pos - 1].len;
      RoomStep(was, start, at);
    }
    AdvancedBy(was, start, iov[..], pos, rest);
  }

  lemma NoRoom(vs: seq<Span>, i: nat)
    requires i <= |vs|
    ensures Room(vs[i..i]) == 0
  {
  }

  // ---------- st_readv_resid ----------

  /** After done has arrived in vs0, filling vs with more is filling vs0 with everything. */
  ghost predicate Continues(mem0: Vec, vs0: seq<Span>, done: Vec, mem: Vec, vs: seq<Span>) {
    && Fits(vs0, |mem0|) && Fits(vs, |mem|) && |done| + Room(vs) == Room(vs0)
    && forall more: Vec :: |more| <= Room(vs) ==> Scatter(mem, vs, more) == Scatter(mem0, vs0, done + more)
  }

  lemma ContinuesAtFirst(mem: Vec, vs: seq<Span>)
    requires Fits(vs, |mem|)
    ensures Continues(mem, vs, [], mem, vs)
  {
    forall more: Vec | |more| <= Room(vs)
      ensures Scatter(mem, vs, more) == Scatter(mem, vs, [] + more)
    {
      assert [] + more == more;
    }
  }

  /** Memory holds what one read of everything that has arrived would have put there. */
  lemma HoldsAll(mem0: Vec, vs0: seq<Span>, done: Vec, mem: Vec, vs: seq<Span>)
    requires Continues(mem0, vs0, done, mem, vs)
    ensures mem == Scatter(mem0, vs0, done)
  {
    ScatterNothing(mem, vs);
    assert done + [] == done;
  }

  lemma ContinuesAt(mem0: Vec, vs0: seq<Span>, done: Vec, mem: Vec, vs: seq<Span>, more: Vec)
    requires Continues(mem0, vs0, done, mem, vs) && |more| <= Room(vs)
    ensures Fits(vs0, |mem0|) && Fits(vs, |mem|) && |done + more| <= Room(vs0)
    ensures Scatter(mem, vs, more) == Scatter(mem0, vs0, done + more)
  {
  }

  lemma ContinuesFits(mem0: Vec, vs0: seq<Span>, done: Vec, mem: Vec, vs: seq<Span>)
    requires Continues(mem0, vs0, done, mem, vs)
    ensures Fits(vs, |mem|) && Fits(vs0, |mem0|) && |done| + Room(vs) == Room(vs0)
  {
  }

  lemma ContinuesOnAt(mem0: Vec, vs0: seq<Span>, done: Vec, mem: Vec, vs: seq<Span>, data: Vec, mem': Vec,
                      vs': seq<Span>, more: Vec)
    requires Continues(mem0, vs0, done, mem, vs) && Continues(mem, vs, data, mem', vs') && |more| <= Room(vs')
    ensures Fits(vs', |mem'|) && Fits(vs0, |mem0|) && |done + data + more| <= Room(vs0)
    ensures Scatter(mem', vs', more) == Scatter(mem0, vs0, done + data + more)
  {
    hide Continues, Scatter, Room, Fits;
    ContinuesAt(mem, vs, data, mem', vs', more);
    ContinuesFits(mem, vs, data, mem', vs');
    assert |data + more| <= Room(vs);
    ContinuesAt(mem0, vs0, done, mem, vs, data + more);
    assert done + (data + more) == done + data + more;
  }

  /** Reads follow one another. */
  lemma ContinuesOn(mem0: Vec, vs0: seq<Span>, done: Vec, mem: Vec, vs: seq<Span>, data: Vec, mem': Vec, vs': seq<Span>)
    requires Continues(mem0, vs0, done, mem, vs) && Continues(mem, vs, data, mem', vs')
    ensures Continues(mem0, vs0, done + data, mem', vs')
  {
    hide Scatter, Room, Fits;
    forall more: Vec | |more| <= Room(vs')
      ensures |done + data + more| <= Room(vs0) && Fits(vs', |mem'|) && Fits(vs0, |mem0|)
      ensures Scatter(mem', vs', more) == Scatter(mem0, vs0, done + data + more)
    {
      ContinuesOnAt(mem0, vs0, done, mem, vs, data, mem', vs', more);
    }
    ContinuesFits(mem0, vs0, done, mem, vs);
    ContinuesFits(mem, vs, data, mem', vs');
  }

  /** What `Consume` leaves, seen from the vectors that were there before. */
  lemma ConsumedContinues(mem: Vec, vs: seq<Span>, data: Vec, at: nat, n: nat, left: seq<Span>)
    requires Fits(vs, |mem|) && at < |vs| && n <= vs[at].len && |data| == Room(vs[..at]) + n
    requires left == Left(vs, at, n) || (left == [] && at + 1 == |vs| && n == vs[at].len)
    ensures |data| <= Room(vs) && Continues(mem, vs, data, Scatter(mem, vs, data), left)
  {
    LeftRoom(vs, at, n);
    RoomOfNone(left);
    LeftFits(vs, at, n, |mem|);
    var mem' := Scatter(mem, vs, data);
    hide Scatter, Room, Left;
    forall more: Vec | |more| <= Room(left)
      ensures Scatter(mem', left, more) == Scatter(mem, vs, data + more)
    {
      if left == [] {
        assert more == [] && data + more == data;
        ScatterNothing(mem', left);
      } else {
        ScatterInTwo(mem, vs, at, n, data, more);
      }
    }
  }

  lemma RoomOfNone(vs: seq<Span>)
    ensures vs == [] ==> Room(vs) == 0
  {
  }

  lemma LeftFits(vs: seq<Span>, at: nat, n: nat, size: nat)
    requires Fits(vs, size) && at < |vs| && n <= vs[at].len
    ensures Fits(Left(vs, at, n), size)
    ensures at + 1 == |vs| && n == vs[at].len ==> Room(Left(vs, at, n)) == 0
  {
  }

  /** Part of the input has gone where one read into the vectors vs0 would have put it. */
  ghost predicate Arrived(input0: Vec, input: Vec, mem0: Vec, vs0: seq<Span>, mem: Vec, vs: seq<Span>) {
    && |input| <= |input0| && input == input0[|input0| - |input|..]
    && Continues(mem0, vs0, input0[..|input0| - |input|], mem, vs)
  }

  lemma MoreArrived(input0: Vec, mid: Vec, mem0: Vec, vs0: seq<Span>, mem: Vec, vs: seq<Span>,
                    data: Vec, rest: Vec, at: nat, n: nat, left: seq<Span>)
    requires Arrived(input0, mid, mem0, vs0, mem, vs) && mid == data + rest && |data| <= Room(vs)
    requires at < |vs| && n <= vs[at].len && |data| == Room(vs[..at]) + n
    requires left == Left(vs, at, n) || (left == [] && at + 1 == |vs| && n == vs[at].len)
    ensures Fits(vs, |mem|) && Arrived(input0, rest, mem0, vs0, Scatter(mem, vs, data), left)
  {
    var done := input0[..|input0| - |mid|];
    hide Scatter, Room, Left, Continues, Fits;
    ContinuesFits(mem0, vs0, done, mem, vs);
    TakenMore(input0, mid, data, rest);
    hide Arrived;
    ConsumedContinues(mem, vs, data, at, n, left);
    ContinuesOn(mem0, vs0, done, mem, vs, data, Scatter(mem, vs, data), left);
    ArrivedIf(input0, rest, mem0, vs0, Scatter(mem, vs, data), left);
  }

  lemma ArrivedIf(input0: Vec, input: Vec, mem0: Vec, vs0: seq<Span>, mem: Vec, vs: seq<Span>)
    requires |input| <= |input0| && input == input0[|input0| - |input|..]
    requires Continues(mem0, vs0, input0[..|input0| - |input|], mem, vs)
    ensures Arrived(input0, input, mem0, vs0, mem, vs)
  {
  }

  lemma LeftOfRest(was: seq<Span>, start: nat, at: nat, n: nat)
    requires start <= at < |was| && n <= was[at].len
    ensures was[start..][..at - start] == was[start..at] && Left(was[start..], at - start, n) == Left(was, at, n)
  {
  }

  lemma TakenMore(input0: Vec, mid: Vec, data: Vec, rest: Vec)
    requires |mid| <= |input0| && mid == input0[|input0| - |mid|..] && mid == data + rest
    ensures input0[..|input0| - |mid|] + data == input0[..|input0| - |rest|]
    ensures rest == input0[|input0| - |rest|..]
  {
    var i := |input0| - |mid|;
    assert input0[i..][..|data|] == data && input0[i..][|data|..] == rest;
  }

  lemma ArrivedFits(input0: Vec, input: Vec, mem0: Vec, vs0: seq<Span>, mem: Vec, vs: seq<Span>)
    requires Arrived(input0, input, mem0, vs0, mem, vs)
    ensures Fits(vs, |mem|)
  {
    hide Scatter, Room;
  }

  lemma LastHasRoom(was: seq<Span>, start: nat, vs: seq<Span>, pos: nat)
    requires Advanced(was, start, vs, pos)
    ensures pos < |vs| && was[|was| - 1].len > 0 ==> Room(vs[pos..]) > 0
  {
    if pos < |vs| {
      RoomSplit(vs[pos..], |vs| - 1 - pos);
      assert vs[pos..][|vs| - 1 - pos..] == [vs[|vs| - 1]];
    }
  }

  /** How a call that returns 0 or -1 ends. */
  ghost predicate Ends(out: Outcome, complete: bool) {
    out.Returned? ==> (out.rv == 0 <==> complete) && (out.rv == 0 || out.rv == -1)
  }

  /** What a call of `st_readv_resid` returns, and the vectors it leaves. */
  datatype ReadRun = ReadRun(out: Outcome, left: seq<Span>)

  /** `st_readv_resid` on the vectors vs while avail bytes are still to arrive, as the answers decide. */
  function ReadvRun(answers: seq<Reply>, polls: seq<bool>, avail: nat, vs: seq<Span>): ReadRun
    decreases |answers|, 1
  {
    if vs == [] then ReadRun(Returned(0), [])
    else match Iovec.Answer(answers, Min(Room(vs), avail))
      case Blocked => ReadRun(Pending, vs)
      case Moved(n) =>
        if n == 0 || RestOf(vs, n) == [] then ReadRun(Returned(0), if n == 0 then vs else [])
        else AfterPoll(answers[1..], polls, if n <= avail then avail - n else 0, RestOf(vs, n))
      case Failed(why) =>
        if why == Eintr then ReadvRun(answers[1..], polls, avail, vs)
        else if why == NotReady then AfterPoll(answers[1..], polls, avail, vs)
        else ReadRun(Returned(-1), vs)
  }

  function AfterPoll(answers: seq<Reply>, polls: seq<bool>, avail: nat, vs: seq<Span>): ReadRun
    decreases |answers|, 2
  {
    match PollAnswer(polls)
    case NotYet => ReadRun(Pending, vs)
    case No => ReadRun(Returned(-1), vs)
    case Yes => ReadvRun(answers, polls[1..], avail, vs)
  }

  /** The answers that are left decide as all answers did. */
  ghost predicate GoesOn(run: ReadRun, turn: Turn, answers: seq<Reply>, polls: seq<bool>, avail: nat, vs: seq<Span>) {
    match turn
    case Again => run == ReadvRun(answers, polls, avail, vs)
    case Wait => run == AfterPoll(answers, polls, avail, vs)
    case Stop(out) => run == ReadRun(out, vs)
  }

  /** Where a call began, and how the answers decide it. */
  datatype Start = Start(input: Vec, mem: Vec, vs: seq<Span>, pos: nat, run: ReadRun)

  /** The call that began at st has come to the cursor pos: what has arrived is where it belongs, and the
      answers that are left decide as all did. */
  ghost predicate Reading(st: Start, turn: Turn, answers: seq<Reply>, polls: seq<bool>, input: Vec, mem: Vec,
                          vs: seq<Span>, pos: nat)
  {
    && Advanced(st.vs, st.pos, vs, pos)
    && Arrived(st.input, input, st.mem, st.vs[st.pos..], mem, vs[pos..])
    && GoesOn(st.run, turn, answers, polls, |input|, vs[pos..])
  }

  lemma ReadingFits(st: Start, turn: Turn, answers: seq<Reply>, polls: seq<bool>, input: Vec, mem: Vec,
                    vs: seq<Span>, pos: nat)
    requires Reading(st, turn, answers, polls, input, mem, vs, pos)
    ensures |vs| == |st.vs| && st.pos <= pos <= |vs| && Fits(vs[pos..], |mem|)
  {
    ArrivedFits(st.input, input, st.mem, st.vs[st.pos..], mem, vs[pos..]);
  }

  lemma ReadingStarts(answers: seq<Reply>, polls: seq<bool>, input: Vec, mem: Vec, vs: seq<Span>, pos: nat)
    requires pos <= |vs| && Fits(vs[pos..], |mem|)
    ensures Reading(StartOf(answers, polls, input, mem, vs, pos), Again, answers, polls, input, mem, vs, pos)
  {
    NothingYet(input, mem, vs[pos..]);
    NotAdvanced(vs, pos);
    hide ReadvRun, Arrived, Advanced;
  }

  /** Nothing has moved. */
  lemma ReadingStays(st: Start, answers: seq<Reply>, polls: seq<bool>, input: Vec, mem: Vec, vs: seq<Span>, pos: nat,
                     turn: Turn, answers': seq<Reply>)
    requires Reading(st, Again, answers, polls, input, mem, vs, pos) && pos < |vs|
    requires var r := Iovec.Answer(answers, Min(Room(vs[pos..]), |input|));
      && !(r.Moved? && r.n > 0) && (r != Blocked ==> answers' == answers[1..])
      && turn == match r
                 case Blocked => Stop(Pending)
                 case Moved(_) => Stop(Returned(0))
                 case Failed(why) => if why == Eintr then Again else if why != NotReady then Stop(Returned(-1)) else Wait
    ensures Reading(st, turn, answers', polls, input, mem, vs, pos)
  {
    assert vs[pos..] != [];
    hide Arrived, Advanced, Room, RestOf;
  }

  /** Some bytes have moved, and the cursor with them. */
  lemma ReadingMoves(st: Start, answers: seq<Reply>, polls: seq<bool>, input: Vec, mem: Vec, vs: seq<Span>, pos: nat,
                     data: Vec, rest: Vec, at: nat, n: nat, vs': seq<Span>, pos': nat)
    requires Reading(st, Again, answers, polls, input, mem, vs, pos) && pos <= at < |vs| && n <= vs[at].len
    requires Iovec.Answer(answers, Min(Room(vs[pos..]), |input|)) == Moved(|data|) && input == data + rest && |data| > 0
    requires Advanced(vs, pos, vs', pos') && vs'[pos'..] == RestOf(vs[pos..], |data|)
    requires |data| <= Room(vs[pos..]) && |data| == Room(vs[pos..at]) + n
    requires vs'[pos'..] == Left(vs, at, n) || (vs'[pos'..] == [] && at + 1 == |vs| && n == vs[at].len)
    ensures Fits(vs[pos..], |mem|)
    ensures Reading(st, if pos' == |vs'| then Stop(Returned(0)) else Wait, answers[1..], polls, rest,
                    Scatter(mem, vs[pos..], data), vs', pos')
  {
    hide Arrived, Advanced, Room, RestOf, Scatter, Left, Fits, GoesOn;
    LeftOfRest(vs, pos, at, n);
    AdvancedFurther(st.vs, st.pos, vs, pos, vs', pos');
    AdvancedBounds(vs, pos, vs', pos');
    var was, left := vs[pos..], vs'[pos'..];
    MoveDecides(st.run, answers, polls, |input|, was, |data|, left);
    MoreArrived(st.input, input, st.mem, st.vs[st.pos..], mem, was, data, rest, at - pos, n, left);
  }

  lemma MoveDecides(run: ReadRun, answers: seq<Reply>, polls: seq<bool>, avail: nat, vs: seq<Span>, n: nat,
                    left: seq<Span>)
    requires GoesOn(run, Again, answers, polls, avail, vs) && vs != [] && left == RestOf(vs, n) && 0 < n <= avail
    requires Iovec.Answer(answers, Min(Room(vs), avail)) == Moved(n)
    ensures answers != []
    ensures GoesOn(run, if left == [] then Stop(Returned(0)) else Wait, answers[1..], polls, avail - n, left)
  {
    hide Room, RestOf;
  }

  lemma ReadingPolled(st: Start, answers: seq<Reply>, polls: seq<bool>, input: Vec, mem: Vec, vs: seq<Span>, pos: nat)
    requires Reading(st, Wait, answers, polls, input, mem, vs, pos)
    ensures match PollAnswer(polls)
            case NotYet => Reading(st, Stop(Pending), answers, polls, input, mem, vs, pos)
            case No => Reading(st, Stop(Returned(-1)), answers, polls[1..], input, mem, vs, pos)
            case Yes => Reading(st, Again, answers, polls[1..], input, mem, vs, pos)
  {
    hide Arrived, Advanced, ReadvRun;
  }

  lemma ReadingFull(st: Start, answers: seq<Reply>, polls: seq<bool>, input: Vec, mem: Vec, vs: seq<Span>, pos: nat)
    requires Reading(st, Again, answers, polls, input, mem, vs, pos) && pos == |vs|
    ensures Reading(st, Stop(Returned(0)), answers, polls, input, mem, vs, pos)
  {
    hide Arrived, Advanced;
  }

  /** One `readv` into what is left. */
  method ReadOnce(s: Input, mem: array<Byte>, iov: array<Span>, start: nat, ghost st: Start)
    returns (turn: Turn, pos: nat)
    requires start < iov.Length && Reading(st, Again, s.answers, s.polls, s.incoming, mem[..], iov[..], start)
    modifies s, mem, iov
    ensures start <= pos <= iov.Length && s.polls == old(s.polls)
    ensures Reading(st, turn, s.answers, s.polls, s.incoming, mem[..], iov[..], pos)
    ensures turn.Stop? ==> Ends(turn.out, pos == iov.Length || s.ended)
    ensures !turn.Stop? ==> pos < iov.Length && |s.answers| < old(|s.answers|)
    ensures turn == Wait ==> !s.ended
  {
    hide Reading, Left, Room, Scatter, Fits, RestOf, Advanced;
    ghost var answers, mid, before, was := s.answers, s.incoming, mem[..], iov[..];
    ReadingFits(st, Again, answers, s.polls, mid, before, was, start);
    turn, pos := Wait, start;
    var r := s.Read(mem, iov[..][start..]);
    if r.Moved? && r.n > 0 {
      ghost var at, n;
      pos, at, n := Consume(iov, start, r.n);
      SplitAt(mid, r.n);
      AdvancedBounds(was, start, iov[..], pos);
      ReadingMoves(st, answers, s.polls, mid, before, was, start, mid[..r.n], mid[r.n..], at, n, iov[..], pos);
      if pos == iov.Length {
        turn := Stop(Returned(0));
      }
    } else {
      if r == Blocked {
        turn := Stop(Pending);
      } else if r.Moved? {
        turn := Stop(Returned(0));
        NothingArrived(mid, before, was[start..]);
      } else {
        turn := if r.why == Eintr then Again else if r.why != NotReady then Stop(Returned(-1)) else Wait;
      }
      ReadingStays(st, answers, s.polls, mid, before, was, start, turn, s.answers);
    }
  }

  lemma NothingArrived(mid: Vec, mem: Vec, vs: seq<Span>)
    requires Fits(vs, |mem|)
    ensures mid[0..] == mid && mid[..0] == [] && Scatter(mem, vs, []) == mem
  {
    ScatterNothing(mem, vs);
  }

  lemma NothingYet(input0: Vec, mem0: Vec, vs0: seq<Span>)
    requires Fits(vs0, |mem0|)
    ensures Arrived(input0, input0, mem0, vs0, mem0, vs0)
  {
    assert input0[..0] == [] && input0[0..] == input0;
    ContinuesAtFirst(mem0, vs0);
  }

  /** `st_readv_resid`: returns 0 when the vectors are full or the input has ended. */
  method StReadvResid(s: Input, mem: array<Byte>, iov: array<Span>, start: nat) returns (out: Outcome, pos: nat)
    requires start <= iov.Length && Fits(iov[..][start..], mem.Length)
    modifies s, mem, iov
    ensures start <= pos <= iov.Length && Ends(out, pos == iov.Length || s.ended)
    ensures Finished(old(StartOf(s.answers, s.polls, s.incoming, mem[..], iov[..], start)), out,
                     s.incoming, mem[..], iov[..], pos)
  {
    ghost var st := StartOf(s.answers, s.polls, s.incoming, mem[..], iov[..], start);
    ReadingStarts(s.answers, s.polls, s.incoming, mem[..], iov[..], start);
    hide StartOf, Reading, Fits, Finished;
    out, pos := ReadLoop(s, mem, iov, start, st);
    ReadingEnds(st, out, s.answers, s.polls, s.incoming, mem[..], iov[..], pos);
  }

  ghost function StartOf(answers: seq<Reply>, polls: seq<bool>, input: Vec, mem: Vec, vs: seq<Span>, pos: nat): Start
    requires pos <= |vs|
  {
    Start(input, mem, vs, pos, ReadvRun(answers, polls, |input|, vs[pos..]))
  }

  /** What a call that began at st has done: it returns what the answers decide, the cursor describes the
      room that is left, and memory is as one read of all that has arrived would have left it.  When the
      last vector had room, the vectors that are left have some. */
  ghost predicate Finished(st: Start, out: Outcome, input: Vec, mem: Vec, vs: seq<Span>, pos: nat) {
    && st.pos <= |st.vs| && Advanced(st.vs, st.pos, vs, pos) && st.run == ReadRun(out, vs[pos..])
    && Arrived(st.input, input, st.mem, st.vs[st.pos..], mem, vs[pos..])
    && (pos < |vs| && st.vs[|vs| - 1].len > 0 ==> Room(vs[pos..]) > 0)
  }

  lemma ReadingEnds(st: Start, out: Outcome, answers: seq<Reply>, polls: seq<bool>, input: Vec, mem: Vec,
                    vs: seq<Span>, pos: nat)
    requires Reading(st, Stop(out), answers, polls, input, mem, vs, pos)
    ensures Finished(st, out, input, mem, vs, pos)
  {
    LastHasRoom(st.vs, st.pos, vs, pos);
    hide Arrived, Room;
  }

  method ReadLoop(s: Input, mem: array<Byte>, iov: array<Span>, start: nat, ghost st: Start)
    returns (out: Outcome, pos: nat)
    requires start <= iov.Length && Reading(st, Again, s.answers, s.polls, s.incoming, mem[..], iov[..], start)
    modifies s, mem, iov
    ensures start <= pos <= iov.Length && Reading(st, Stop(out), s.answers, s.polls, s.incoming, mem[..], iov[..], pos)
    ensures Ends(out, pos == iov.Length || s.ended)
  {
    hide Reading;
    pos := start;
    while pos < iov.Length
      invariant start <= pos <= iov.Length
      invariant Reading(st, Again, s.answers, s.polls, s.incoming, mem[..], iov[..], pos)
      decreases |s.answers|
    {
      var turn;
      turn, pos := ReadOnce(s, mem, iov, pos, st);
      if turn.Stop? {
        return turn.out, pos;
      }
      if turn == Wait {
        ReadingPolled(st, s.answers, s.polls, s.incoming, mem[..], iov[..], pos);
        var ready := s.Poll();
        if ready != Yes {
          return if ready == No then Returned(-1) else Pending, pos;
        }
      }
    }
    ReadingFull(st, s.answers, s.polls, s.incoming, mem[..], iov[..], pos);
    out := Returned(0);
  }

  // ---------- failure after everything has arrived ----------

  lemma {:induction false} RestKeepsLast(vs: seq<Span>, n: nat)
    requires vs != [] && vs[|vs| - 1].len > 0
    ensures var r := RestOf(vs, n); r != [] ==> r[|r| - 1].len > 0
  {
    if n > vs[0].len && |vs| > 1 {
      RestKeepsLast(vs[1..], n - vs[0].len);
    }
  }

  lemma {:induction false} RunKeepsLast(answers: seq<Reply>, polls: seq<bool>, avail: nat, vs: seq<Span>)
    requires vs != [] && vs[|vs| - 1].len > 0
    ensures var r := ReadvRun(answers, polls, avail, vs).left; r != [] ==> r[|r| - 1].len > 0
    decreases |answers|
  {
    hide Room, RestOf;
    match Iovec.Answer(answers, Min(Room(vs), avail)) {
      case Blocked =>
      case Moved(n) =>
        RestKeepsLast(vs, n);
        if n > 0 && RestOf(vs, n) != [] && PollAnswer(polls) == Yes {
          RunKeepsLast(answers[1..], polls[1..], if n <= avail then avail - n else 0, RestOf(vs, n));
        }
      case Failed(why) =>
        if why == Eintr {
          RunKeepsLast(answers[1..], polls, avail, vs);
        } else if why == NotReady && PollAnswer(polls) == Yes {
          RunKeepsLast(answers[1..], polls[1..], avail, vs);
        }
    }
  }

  lemma {:induction false} FailsOnlyWithVectors(answers: seq<Reply>, polls: seq<bool>, avail: nat, vs: seq<Span>)
    requires ReadvRun(answers, polls, avail, vs).out == Returned(-1)
    ensures ReadvRun(answers, polls, avail, vs).left != []
    decreases |answers|
  {
    hide Room, RestOf;
    match Iovec.Answer(answers, Min(Room(vs), avail)) {
      case Blocked =>
      case Moved(n) =>
        if PollAnswer(polls) == Yes {
          FailsOnlyWithVectors(answers[1..], polls[1..], if n <= avail then avail - n else 0, RestOf(vs, n));
        }
      case Failed(why) =>
        if why == Eintr {
          FailsOnlyWithVectors(answers[1..], polls, avail, vs);
        } else if why == NotReady && PollAnswer(polls) == Yes {
          FailsOnlyWithVectors(answers[1..], polls[1..], avail, vs);
        }
    }
  }

  lemma {:induction false} RestOfAll(vs: seq<Span>)
    requires vs != [] && vs[|vs| - 1].len == 0 && Room(vs) > 0
    ensures var r := RestOf(vs, Room(vs)); r != [] && Room(r) == 0
  {
    assert Room(vs) == vs[0].len + Room(vs[1..]);
    if Room(vs[1..]) > 0 {
      RestOfAll(vs[1..]);
    }
  }

  /** The call fails although no vector has room. */
  ghost predicate FailsWhenFull(answers: seq<Reply>, polls: seq<bool>, avail: nat, vs: seq<Span>) {
    var run := ReadvRun(answers, polls, avail, vs);
    run.out == Returned(-1) && Room(run.left) == 0
  }

  /** `st_readv_resid` can fail after everything has arrived exactly when the last vector has no room:
      the others are filled at once, and then the wait for more fails; or none has room, and the first
      call fails. */
  lemma {:induction false} FailsWhenFullIff(vs: seq<Span>)
    ensures (exists answers, polls, avail :: FailsWhenFull(answers, polls, avail, vs))
      <==> vs != [] && vs[|vs| - 1].len == 0
  {
    if answers, polls, avail :| FailsWhenFull(answers, polls, avail, vs) {
      FailsOnlyWithVectors(answers, polls, avail, vs);
      var left := ReadvRun(answers, polls, avail, vs).left;
      NotAdvanced(left, 0);
      LastHasRoom(left, 0, left, 0);
      assert left[0..] == left;
      if vs != [] && vs[|vs| - 1].len > 0 {
        RunKeepsLast(answers, polls, avail, vs);
      }
    }
    if vs != [] && vs[|vs| - 1].len == 0 {
      if Room(vs) == 0 {
        assert Iovec.Answer([Broken], 0) == Failed(Broken);
        assert FailsWhenFull([Broken], [], 0, vs);
      } else {
        FillsAtOnce(vs);
      }
    }
  }

  lemma {:induction false} FillsAtOnce(vs: seq<Span>)
    requires vs != [] && vs[|vs| - 1].len == 0 && Room(vs) > 0
    ensures FailsWhenFull([Amount(Room(vs))], [false], Room(vs), vs)
  {
    RestOfAll(vs);
    assert Iovec.Answer([Amount(Room(vs))], Room(vs)) == Moved(Room(vs));
    assert PollAnswer([false]) == No;
  }

  /** `st_read_resid`: one vector. */
  method StReadResid(s: Input, buf: array<Byte>, resid: nat) returns (rv: Outcome, resid': nat)
    requires resid <= buf.Length
    modifies s, buf
    ensures ReadInOrder(old(s.incoming), s.incoming, old(buf[..]), resid, buf[..])
    ensures old(|s.incoming|) - |s.incoming| + resid' == resid
    ensures Ends(rv, resid' == 0 || s.ended) || (resid == 0 && rv == Returned(-1) && !s.ended)
  {
    var iov := new Span[1][Span(0, resid)];
    ghost var input0, buf0 := s.incoming, buf[..];
    OneSpan(iov[..], resid, buf.Length);
    hide Arrived, ReadInOrder, Room, Scatter, Continues, Fits;
    var pos;
    rv, pos := StReadvResid(s, buf, iov, 0);
    resid' := iov[0].len;
    FullyArrived(input0, s.incoming, buf0, resid, buf[..], iov[..], pos);
    RoomOfOne(iov[..], pos);
  }

  /** `st_read_fully`: all that has arrived stands in order at the front of the buffer, and the rest
      of the buffer is as it was; the call returns how much that is, all that was asked for or up
      to the end of the input, or -1. */
  method StReadFully(s: Input, buf: array<Byte>, nbyte: nat) returns (out: Outcome)
    requires nbyte <= buf.Length
    modifies s, buf
    ensures ReadInOrder(old(s.incoming), s.incoming, old(buf[..]), nbyte, buf[..])
    ensures CountIs(out, old(|s.incoming|) - |s.incoming|, nbyte, s.ended)
  {
    hide ReadInOrder;
    var rv, resid := StReadResid(s, buf, nbyte);
    out := if rv == Pending then Pending else Returned(if rv.rv == 0 then nbyte - resid else -1);
  }

  /** At most nbyte bytes were taken from the input and stand at the front of the buffer. */
  ghost predicate ReadInOrder(input0: Vec, input: Vec, buf0: Vec, nbyte: nat, buf: Vec) {
    var k := |input0| - |input|;
    0 <= k <= nbyte <= |buf0| && input == input0[k..] && buf == input0[..k] + buf0[k..]
  }

  /** The call returns the number of bytes that arrived when that is all, or the input has ended;
      a call that fails has not got all that it asked for. */
  ghost predicate CountIs(out: Outcome, k: int, nbyte: nat, ended: bool) {
    out.Returned? ==>
      && (out.rv == k || out.rv == -1)
      && (k == nbyte > 0 || ended ==> out.rv == k)
      && (k < nbyte && !ended ==> out.rv == -1)
  }

  lemma RoomOfOne(vs: seq<Span>, pos: nat)
    requires |vs| == 1 && pos <= 1
    ensures pos == 0 ==> Room(vs[pos..]) == vs[0].len
  {
    assert vs[0..] == vs;
  }

  lemma OneSpan(vs: seq<Span>, nbyte: nat, size: nat)
    requires |vs| == 1 && vs[0] == Span(0, nbyte) && nbyte <= size
    ensures vs == [Span(0, nbyte)] == vs[0..] && Fits(vs[0..], size)
  {
  }

  lemma FullyArrived(input0: Vec, input: Vec, buf0: Vec, nbyte: nat, buf: Vec, iov: seq<Span>, pos: nat)
    requires |iov| == 1 && pos <= 1 && nbyte <= |buf0| && (pos == 1 ==> iov[0].len == 0)
    requires Arrived(input0, input, buf0, [Span(0, nbyte)], buf, iov[pos..])
    ensures ReadInOrder(input0, input, buf0, nbyte, buf) && |input0| - |input| + iov[0].len == nbyte
  {
    var k, vs := |input0| - |input|, [Span(0, nbyte)];
    RoomOfOne(vs, 0);
    RoomOfOne(iov, pos);
    assert vs[0..] == vs && (pos == 1 ==> iov[pos..] == []);
    ArrivedAs(input0, input, buf0, vs, buf, iov[pos..]);
    hide Arrived, Scatter, Store;
    ScatterWithin(buf0, vs, input0[..k]);
    StoreInFront(buf0, input0[..k]);
  }

  lemma StoreInFront(mem: Vec, data: Vec)
    requires |data| <= |mem|
    ensures Store(mem, 0, data) == data + mem[|data|..]
  {
  }

  lemma ArrivedAs(input0: Vec, input: Vec, mem0: Vec, vs0: seq<Span>, mem: Vec, vs: seq<Span>)
    requires Arrived(input0, input, mem0, vs0, mem, vs)
    ensures |input| <= |input0| && input == input0[|input0| - |input|..]
    ensures Fits(vs0, |mem0|) && |input0| - |input| + Room(vs) == Room(vs0)
    ensures mem == Scatter(mem0, vs0, input0[..|input0| - |input|])
  {
    var done := input0[..|input0| - |input|];
    hide Scatter, Room;
    ContinuesFits(mem0, vs0, done, mem, vs);
    hide Continues;
    HoldsAll(mem0, vs0, done, mem, vs);
  }
}
