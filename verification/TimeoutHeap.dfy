/**
 The timeout heap of the State Threads scheduler: a binary min-heap of threads
 ordered by `due`, built from `left`/`right` pointers.  A position is addressed
 by the bits of its index: below the leading one, a 0 bit goes left and a 1 bit
 goes right.  The pointer algorithms are proved against two ghost sequences:
 h[i] is the thread at position i (counting from 1) and key[i] is its due time.
 */
module TimeoutHeap {

  /** The part of a thread record that the heap uses. */
  class Thread {
    var due: nat
    var left: Thread?
    var right: Thread?
    var heapIndex: nat
    var onSleepQ: bool

    constructor ()
      ensures !onSleepQ && left == null && right == null
    {
      due, heapIndex, onSleepQ := 0, 0, false;
      left, right := null, null;
    }
  }

  /** The C type `_st_thread_t **`: the address of a variable that points to a thread. */
  datatype Slot = Root | LeftOf(node: Thread) | RightOf(node: Thread)

  /** `s >> k` */
  function Shr(s: nat, k: nat): nat {
    if k == 0 then s else Shr(s, k - 1) / 2
  }

  /** Following bit k of s leads from the position above to one that is still not below s. */
  lemma {:induction false} ShrStep(s: nat, k: nat)
    ensures Shr(s, k) == 2 * Shr(s, k + 1) + Shr(s, k) % 2 <= s
    ensures Shr(s, k + 1) <= s / 2
  {
    if k > 0 {
      ShrStep(s, k - 1);
    }
  }

  ghost function Get(h: seq<Thread?>, i: nat): Thread? {
    if i < |h| then h[i] else null
  }

  /** Position i is not due before its parent. */
  ghost predicate EdgeOk(key: seq<nat>, i: nat)
    requires i < |key|
  {
    key[i / 2] <= key[i]
  }

  /** Min-heap order, except perhaps around position hole. */
  ghost predicate Ordered(key: seq<nat>, hole: nat) {
    forall i :: 2 <= i < |key| && i != hole && i / 2 != hole ==> EdgeOk(key, i)
  }

  /** The thread above position index is due by then. */
  ghost predicate ParentDueBy(key: seq<nat>, index: nat, due: nat) {
    2 <= index < |key| ==> key[index / 2] <= due
  }

  /** No child of hole is due before the parent of hole. */
  ghost predicate GrandOk(key: seq<nat>, hole: nat) {
    && (hole >= 2 && 2 * hole < |key| ==> key[hole / 2] <= key[2 * hole])
    && (hole >= 2 && 2 * hole + 1 < |key| ==> key[hole / 2] <= key[2 * hole + 1])
  }

  /** An earlier due time may replace the one at index, above hole. */
  lemma OrderedAfterDisplacing(key: seq<nat>, index: nat, due: nat, hole: nat)
    requires 1 <= index < hole < |key| && due <= key[index]
    requires Ordered(key, hole) && GrandOk(key, hole) && ParentDueBy(key, index, due)
    ensures Ordered(key[index := due], hole) && GrandOk(key[index := due], hole)
  {
    var k := key[index := due];
    forall i | 2 <= i < |k| && i != hole && i / 2 != hole
      ensures EdgeOk(k, i)
    {
      assert EdgeOk(key, i);
    }
  }

  /** Min-heap order, except perhaps between position pos and its children. */
  ghost predicate OrderedAbove(key: seq<nat>, pos: nat) {
    && (forall i :: 2 <= i < |key| && i / 2 != pos ==> EdgeOk(key, i))
    && GrandOk(key, pos)
  }

  lemma OrderedAfterPlacing(key: seq<nat>, due: nat, hole: nat)
    requires 1 <= hole < |key| && Ordered(key, hole) && GrandOk(key, hole) && ParentDueBy(key, hole, due)
    ensures OrderedAbove(key[hole := due], hole)
  {
    var k := key[hole := due];
    forall i | 2 <= i < |k| && i / 2 != hole
      ensures EdgeOk(k, i)
    {
      assert i != hole ==> EdgeOk(key, i);
    }
  }

  /** The child c of pos, due before pos and not after its sibling, moves up; pos moves down. */
  lemma OrderedAfterSifting(key: seq<nat>, pos: nat, c: nat)
    requires OrderedAbove(key, pos) && 1 <= pos < c < |key| && c / 2 == pos && key[c] < key[pos]
    requires forall b :: 1 <= b < |key| && b / 2 == pos ==> key[c] <= key[b]
    ensures OrderedAbove(key[pos := key[c]][c := key[pos]], c)
  {
    var k := key[pos := key[c]][c := key[pos]];
    forall i | 2 <= i < |k| && i / 2 != c
      ensures EdgeOk(k, i)
    {
      assert i / 2 != pos ==> EdgeOk(key, i);
    }
    assert 2 * c < |key| ==> EdgeOk(key, 2 * c);
    assert 2 * c + 1 < |key| ==> EdgeOk(key, 2 * c + 1);
  }

  lemma OrderedOnceSifted(key: seq<nat>, pos: nat)
    requires OrderedAbove(key, pos) && 1 <= pos < |key|
    requires forall b :: 2 <= b < |key| && b / 2 == pos ==> key[pos] <= key[b]
    ensures Ordered(key, 0)
  {
    forall i | 2 <= i < |key|
      ensures EdgeOk(key, i)
    {
      assert i / 2 != pos ==> EdgeOk(key, i);
    }
  }

  lemma OrderedWithout(key: seq<nat>, n: nat, hole: nat)
    requires Ordered(key, 0) && 1 <= hole && n <= |key|
    ensures Ordered(key[..n], 0)
    ensures hole < n ==> Ordered(key[..n], hole) && GrandOk(key[..n], hole)
  {
    var k := key[..n];
    forall i | 2 <= i < n
      ensures EdgeOk(k, i)
    {
      assert EdgeOk(key, i);
    }
    assert 2 <= hole < n ==> EdgeOk(k, hole);
    assert 2 * hole < n ==> EdgeOk(k, 2 * hole);
    assert 2 * hole + 1 < n ==> EdgeOk(k, 2 * hole + 1);
  }

  lemma OrderedAfterAppending(key: seq<nat>, due: nat)
    requires |key| >= 1 && Ordered(key, 0)
    ensures Ordered(key + [due], |key|) && GrandOk(key + [due], |key|)
  {
    var k := key + [due];
    forall i | 2 <= i < |k| && i != |key| && i / 2 != |key|
      ensures EdgeOk(k, i)
    {
      assert EdgeOk(key, i);
    }
  }

  /** Which threads are listed when x left and y came. */
  lemma MembersAfterExchange(before: seq<Thread?>, after: seq<Thread?>, x: Thread?, y: Thread?, t: Thread?)
    requires multiset(after) + multiset{x} == multiset(before) + multiset{y} && x != y
    ensures y in after
    ensures t != x && t != y ==> (t in after <==> t in before)
  {
    assert (multiset(after) + multiset{x})[t] == (multiset(before) + multiset{y})[t];
    assert (multiset(after) + multiset{x})[y] == (multiset(before) + multiset{y})[y];
    assert t in after <==> t in multiset(after);
    assert t in before <==> t in multiset(before);
    assert y in after <==> y in multiset(after);
  }

  lemma ListedOnce(h: seq<Thread?>, v: nat)
    requires v < |h| && forall i :: 0 <= i < |h| && i != v ==> h[i] != h[v]
    ensures multiset(h)[h[v]] == 1
  {
    assert h == h[..v] + [h[v]] + h[v + 1..];
    assert h[v] !in multiset(h[..v]) && h[v] !in multiset(h[v + 1..]);
  }

  lemma ExchangeKeepsMembers(h: seq<Thread?>, index: nat, x: Thread?)
    requires index < |h|
    ensures multiset(h[index := x]) + multiset{h[index]} == multiset(h) + multiset{x}
  {
  }

  /** The root of an ordered heap is due no later than any other position. */
  lemma {:induction false} RootIsLeast(key: seq<nat>, i: nat)
    requires Ordered(key, 0) && 1 <= i < |key|
    ensures key[1] <= key[i]
  {
    if i > 1 {
      assert EdgeOk(key, i);
      RootIsLeast(key, i / 2);
    }
  }

  lemma PushAppended(t: Thread, front: seq<Thread>, back: seq<Thread>)
    ensures [t] + (front + back) == ([t] + front) + back
  {
  }

  ghost predicate SlotAt(p: Slot, h: seq<Thread?>, i: nat) {
    && 1 <= i
    && (i == 1 ==> p == Root)
    && (i > 1 ==> Get(h, i / 2) != null && p == if i % 2 == 1 then RightOf(h[i / 2]) else LeftOf(h[i / 2]))
  }

  class SleepQ {
    var root: Thread?
    var size: nat
    var lastClock: nat
    ghost var threads: set<Thread>
    ghost var h: seq<Thread?>
    ghost var key: seq<nat>

    /** The thread at position i is due at key[i] and linked as position i requires. */
    ghost predicate NodeOk(i: nat)
      reads `h, `threads, threads`left, threads`right, threads`heapIndex
    {
      i < |h| && h[i] != null && h[i] in threads && h[i].heapIndex == i && h[i].left == Get(h, 2 * i)
          && h[i].right == Get(h, 2 * i + 1)
    }

    /** Every position is linked correctly, except perhaps position hole. */
    ghost predicate Linked(hole: nat)
      reads `root, `h, `threads, threads`left, threads`right, threads`heapIndex
    {
      && |h| >= 1 && h[0] == null && root == Get(h, 1)
      && forall i :: 1 <= i < |h| && i != hole ==> NodeOk(i)
    }

    /** h and key list threads of this scheduler and their due times. */
    ghost predicate Listed(hole: nat)
      reads `h, `key, `threads, threads`due
    {
      && |key| == |h|
      && forall i :: 1 <= i < |h| && i != hole ==> h[i] != null && h[i] in threads && h[i].due == key[i]
    }

    function Load(p: Slot): Thread?
      reads *
    {
      match p
      case Root => root
      case LeftOf(n) => n.left
      case RightOf(n) => n.right
    }

    /** Position hole is the only one that may be wrongly linked, and x is outside the heap. */
    ghost predicate Carrying(x: Thread, hole: nat)
      reads `root, `h, `threads, threads`left, threads`right, threads`heapIndex
    {
      && x in threads && x !in h
      && Linked(hole) && (Get(h, hole) != null ==> NodeOk(hole))
    }

    /** x takes the place of the thread at p and hands that thread on. */
    method Displace(p: Slot, x: Thread, index: nat, ghost hole: nat) returns (t: Thread)
      requires Carrying(x, hole)
      requires 1 <= index < hole < |h| && SlotAt(p, h, index)
      modifies `root, `h, threads`left, threads`right, threads`heapIndex
      ensures t == old(h[index]) && h == old(h)[index := x] && Load(p) == x
      ensures Carrying(t, hole)
    {
      assert NodeOk(index);
      assert index > 1 ==> NodeOk(index / 2);
      t := Load(p);
      x.left := t.left;
      x.right := t.right;
      match p {
        case Root => root := x;
        case LeftOf(n) => n.left := x;
        case RightOf(n) => n.right := x;
      }
      x.heapIndex := index;
      h := h[index := x];
      forall j | 0 <= j < |h|
        ensures h[j] != t
      {
        assert j != 0 && (j == hole ==> h[j] != null) ==> old(NodeOk(j));
      }
      forall i | 1 <= i < |h| && (i == hole ==> h[i] != null)
        ensures NodeOk(i)
      {
        assert old(NodeOk(i));
        if index > 1 && i == index / 2 {
          assert 2 * i == index || 2 * i + 1 == index;
        } else if i != index {
          assert 2 * i != index && 2 * i + 1 != index;
          assert h[i] != x && (index > 1 ==> h[i] != h[index / 2]);
        }
      }
    }

    /** What the way down to hole keeps, while x is still to be placed. */
    ghost predicate OnTheWay(x: Thread, hole: nat)
      reads this, threads
    {
      1 <= hole < |h| && Carrying(x, hole) && Listed(hole) && Ordered(key, hole) && GrandOk(key, hole)
    }

    /** One level of the way down: the earlier of thread and the one at p stays at p. */
    method Descend(p: Slot, thread: Thread, index: nat, ghost hole: nat) returns (x: Thread)
      requires OnTheWay(thread, hole) && 1 <= index < hole && SlotAt(p, h, index) && ParentDueBy(key, index, thread.due)
      modifies `root, `h, `key, threads`left, threads`right, threads`heapIndex
      ensures OnTheWay(x, hole) && |h| == |old(h)| && key[index] <= x.due
      ensures Load(p) != null && h == old(h)[index := Load(p)]
      ensures multiset(h) + multiset{x} == old(multiset(h)) + multiset{thread}
    {
      assert NodeOk(index);
      assert index > 1 ==> NodeOk(index / 2);
      x := thread;
      var t := Load(p);
      if thread.due < t.due {
        OrderedAfterDisplacing(key, index, thread.due, hole);
        ExchangeKeepsMembers(h, index, thread);
        x := Displace(p, thread, index, hole);
        key := key[index := thread.due];
      }
    }

    /** The end of the way: x is placed at hole, without children. */
    method Settle(p: Slot, x: Thread, hole: nat)
      requires OnTheWay(x, hole) && SlotAt(p, h, hole)
      modifies `root, `h, threads`left, threads`right, threads`heapIndex
      ensures h == old(h)[hole := x] && Load(p) == x && Linked(hole) && x in threads
      ensures x.heapIndex == hole && x.left == null && x.right == null
      ensures var victim := old(h[hole]); victim != null ==>
        victim.left == Get(h, 2 * hole) && victim.right == Get(h, 2 * hole + 1)
    {
      assert hole > 1 ==> NodeOk(hole / 2);
      x.heapIndex := hole;
      match p {
        case Root => root := x;
        case LeftOf(n) => n.left := x;
        case RightOf(n) => n.right := x;
      }
      x.left, x.right := null, null;
      h := h[hole := x];
      forall i | 1 <= i < |h| && i != hole
        ensures NodeOk(i)
      {
        assert old(NodeOk(i));
        if hole > 1 && i == hole / 2 {
          assert 2 * i == hole || 2 * i + 1 == hole;
        } else {
          assert 2 * i != hole && 2 * i + 1 != hole;
          assert h[i] != x && (hole > 1 ==> h[i] != h[hole / 2]);
        }
      }
    }

    /** The number of significant bits of s. */
    method Bits(s: nat) returns (bits: int)
      requires s > 0
      ensures bits >= 1 && Shr(s, bits - 1) == 1
    {
      var r := s;
      bits := 0;
      while r != 0
        invariant bits >= 0 && r == Shr(s, bits) && (bits > 0 ==> Shr(s, bits - 1) >= 1) && (bits == 0 ==> r == s)
      {
        r := r / 2;
        bits := bits + 1;
      }
    }

    /** Follows the bits of target from the root, exchanging threads on the way. */
    method WalkDown(thread: Thread, target: nat) returns (p: Slot, x: Thread)
      requires OnTheWay(thread, target)
      modifies `root, `h, `key, threads`left, threads`right, threads`heapIndex
      ensures OnTheWay(x, target) && SlotAt(p, h, target) && ParentDueBy(key, target, x.due)
      ensures |h| == old(|h|) && forall i :: target <= i < |h| ==> h[i] == old(h)[i]
      ensures multiset(h) + multiset{x} == old(multiset(h)) + multiset{thread}
    {
      x, p := thread, Root;
      var bits := Bits(target);
      var index := 1;
      var bit: int := bits - 2;
      while bit >= 0
        invariant -1 <= bit && 1 <= index == Shr(target, bit + 1) <= target
        invariant OnTheWay(x, target) && SlotAt(p, h, index) && ParentDueBy(key, index, x.due)
        invariant |h| == old(|h|) && forall i :: target <= i < |h| ==> h[i] == old(h)[i]
        invariant multiset(h) + multiset{x} == old(multiset(h)) + multiset{thread}
      {
        ShrStep(target, bit);
        x := Descend(p, x, index, target);
        index := 2 * index;
        if Shr(target, bit) % 2 == 1 {
          p := RightOf(Load(p));
          index := index + 1;
        } else {
          p := LeftOf(Load(p));
        }
        bit := bit - 1;
      }
    }

    /** Places thread where its heapIndex says.  That position is empty or holds a
        thread that is being deleted; `victim` below stands for either. */
    method HeapInsert(thread: Thread) returns (p: Slot)
      requires OnTheWay(thread, thread.heapIndex)
      modifies `root, `h, `key, threads`left, threads`right, threads`heapIndex
      ensures |h| == |old(h)| && forall i :: old(thread.heapIndex) < i < |h| ==> h[i] == old(h)[i]
      ensures var hole := old(thread.heapIndex); var victim := old(h[thread.heapIndex]);
        && SlotAt(p, h, hole) && Load(p) == h[hole] && h[hole] != null && h[hole] != victim
        && Linked(hole) && Listed(0) && OrderedAbove(key, hole)
        && h[hole].heapIndex == hole && h[hole].left == null && h[hole].right == null
        && multiset(h) + multiset{victim} == old(multiset(h)) + multiset{thread}
        && (victim != null ==> victim.left == Get(h, 2 * hole) && victim.right == Get(h, 2 * hole + 1))
    {
      var x;
      var target := thread.heapIndex;
      p, x := WalkDown(thread, target);
      OrderedAfterPlacing(key, x.due, target);
      Settle(p, x, target);
      key := key[target := x.due];
    }

    ghost predicate Valid()
      reads this, threads
    {
      && |h| == size + 1
      && Linked(0) && Listed(0) && Ordered(key, 0)
      && forall t :: t in threads ==> (t.onSleepQ <==> t in h)
    }

    ghost function Members(): set<Thread>
      reads this, threads
    {
      set t | t in threads && t in h
    }

    constructor (now: nat, ghost ts: set<Thread>)
      requires forall t :: t in ts ==> !t.onSleepQ
      ensures Valid() && threads == ts && Members() == {} && lastClock == now
    {
      root, size, lastClock, threads, h, key := null, 0, now, ts, [null], [0];
    }

    /** A new thread, which does not sleep. */
    method Admit(thread: Thread)
      requires Valid() && thread !in threads && !thread.onSleepQ
      modifies `threads
      ensures Valid() && threads == old(threads) + {thread} && Members() == old(Members())
      ensures lastClock == old(lastClock)
    {
      assert forall i :: 0 <= i < |h| ==> h[i] != thread;
      threads := threads + {thread};
      forall i | 1 <= i < |h|
        ensures NodeOk(i)
      {
        assert old(NodeOk(i));
      }
    }

    /** Makes room for thread after the last position. */
    method Reserve(thread: Thread)
      requires Linked(0) && Listed(0) && Ordered(key, 0) && |h| == size + 1 && thread in threads && thread !in h
      modifies `size, `h, `key, thread`heapIndex
      ensures size == old(size) + 1 && thread.heapIndex == size
      ensures OnTheWay(thread, size) && h == old(h) + [null]
    {
      OrderedAfterAppending(key, 0);
      size := size + 1;
      thread.heapIndex := size;
      h, key := h + [null], key + [0];
      forall i | 1 <= i < size
        ensures NodeOk(i)
      {
        assert old(NodeOk(i));
      }
    }

    /** Wakes thread up after timeout: the C function `_st_add_sleep_q`. */
    method AddSleepQ(thread: Thread, timeout: nat)
      requires Valid() && thread in threads && !thread.onSleepQ
      modifies `root, `size, `h, `key, threads`left, threads`right, threads`heapIndex, thread`due, thread`onSleepQ
      ensures Valid() && Members() == old(Members()) + {thread} && size == old(size) + 1
      ensures thread.due == lastClock + timeout && thread.onSleepQ
    {
      thread.due := lastClock + timeout;
      thread.onSleepQ := true;
      Reserve(thread);
      ghost var before := h;
      var p := HeapInsert(thread);
      forall t | t in threads
        ensures t in h <==> t == thread || t in old(h)
      {
        MembersAfterExchange(before, h, null, thread, t);
      }
    }

    /** Finds the last position by the bits of the size. */
    method FindLast() returns (p: Slot)
      requires Linked(0) && |h| == size + 1 >= 2
      ensures SlotAt(p, h, size) && Load(p) == h[size]
    {
      p := Root;
      var bits := Bits(size);
      ghost var index := 1;
      var bit: int := bits - 2;
      while bit >= 0
        invariant -1 <= bit && 1 <= index == Shr(size, bit + 1) <= size
        invariant SlotAt(p, h, index) && Load(p) == h[index]
      {
        ShrStep(size, bit);
        assert NodeOk(index);
        if Shr(size, bit) % 2 == 1 {
          p := RightOf(Load(p));
          index := 2 * index + 1;
        } else {
          p := LeftOf(Load(p));
          index := 2 * index;
        }
        bit := bit - 1;
      }
    }

    /** A thread that carries the index of no position is not in the heap. */
    lemma NotAmong(t: Thread)
      requires Linked(0) && t.heapIndex >= |h|
      ensures t !in h
    {
      forall i | 0 <= i < |h|
        ensures h[i] != t
      {
        assert i > 0 ==> NodeOk(i);
      }
    }

    /** `*p = NULL` */
    method Clear(p: Slot)
      requires !p.Root? ==> p.node in threads
      modifies `root, threads`left, threads`right
      ensures Load(p) == null && (p.Root? || root == old(root))
      ensures forall n :: n in threads ==>
        (p != LeftOf(n) ==> n.left == old(n.left)) && (p != RightOf(n) ==> n.right == old(n.right))
    {
      match p {
        case Root => root := null;
        case LeftOf(n) => n.left := null;
        case RightOf(n) => n.right := null;
      }
    }

    /** Takes the thread at the last position out. */
    method UnlinkLast() returns (t: Thread)
      requires Linked(0) && |h| == |key| == size + 1 >= 2
      modifies `root, `size, `h, `key, threads`left, threads`right
      ensures t == old(h[size]) && size == old(size) - 1 && h == old(h[..size]) && key == old(key[..size])
      ensures Linked(0) && |h| == size + 1 && t !in h
    {
      ghost var last := size;
      assert NodeOk(last);
      assert last > 1 ==> NodeOk(last / 2);
      var p := FindLast();
      t := Load(p);
      Clear(p);
      size := size - 1;
      h, key := h[..last], key[..last];
      forall i | 1 <= i < last
        ensures NodeOk(i)
      {
        assert old(NodeOk(i));
        if last > 1 && i == last / 2 {
          assert 2 * i == last || 2 * i + 1 == last;
        } else {
          assert 2 * i != last && 2 * i + 1 != last;
          assert last > 1 ==> h[i] != old(h)[last / 2];
        }
      }
      NotAmong(t);
    }

    /** The pointer writes by which y, a child of the thread t at p, changes places with t. */
    method Rotate(p: Slot, t: Thread, y: Thread) returns (p': Slot)
      requires {t, y} <= threads && t != y && (y == t.left <==> y != t.right)
      requires !p.Root? ==> p.node in threads && p.node != t && p.node != y
      modifies `root, threads`left, threads`right, threads`heapIndex
      ensures p' == if y == old(t.left) then LeftOf(y) else RightOf(y)
      ensures Load(p) == y && (p.Root? || root == old(root))
      ensures t.left == old(y.left) && t.right == old(y.right) && t.heapIndex == old(y.heapIndex)
      ensures y.left == (if y == old(t.left) then t else old(t.left)) && y.heapIndex == old(t.heapIndex)
      ensures y.right == if y == old(t.left) then old(t.right) else t
      ensures forall n :: n in threads && n != t && n != y ==>
        && n.heapIndex == old(n.heapIndex)
        && (p != LeftOf(n) ==> n.left == old(n.left)) && (p != RightOf(n) ==> n.right == old(n.right))
    {
      var tl, tr := y.left, y.right;
      match p {
        case Root => root := y;
        case LeftOf(n) => n.left := y;
        case RightOf(n) => n.right := y;
      }
      if y == t.left {
        y.left := t;
        y.right := t.right;
        p' := LeftOf(y);
      } else {
        y.left := t.left;
        y.right := t;
        p' := RightOf(y);
      }
      t.left := tl;
      t.right := tr;
      var index := t.heapIndex;
      t.heapIndex := y.heapIndex;
      y.heapIndex := index;
    }

    /** y, at position c, changes places with its parent t, at position pos. */
    method SwapWithChild(p: Slot, t: Thread, y: Thread, ghost pos: nat, ghost c: nat) returns (p': Slot)
      requires Linked(0) && 1 <= pos < c < |h| && c / 2 == pos && SlotAt(p, h, pos) && h[pos] == t && h[c] == y
      modifies `root, `h, threads`left, threads`right, threads`heapIndex
      ensures h == old(h)[pos := y][c := t] && Linked(0) && SlotAt(p', h, c)
    {
      assert NodeOk(pos) && NodeOk(2 * pos) && NodeOk(c);
      assert pos > 1 ==> NodeOk(pos / 2);
      assert 2 * pos + 1 < |h| ==> NodeOk(2 * pos + 1);
      p' := Rotate(p, t, y);
      h := h[pos := y][c := t];
      forall i | 1 <= i < |h|
        ensures NodeOk(i)
      {
        assert old(NodeOk(i));
        if i == pos {
        } else if i == c {
        } else if pos > 1 && i == pos / 2 {
          assert 2 * i == pos || 2 * i + 1 == pos;
        } else {
          assert 2 * i != pos && 2 * i + 1 != pos && 2 * i != c && 2 * i + 1 != c;
          assert h[i] != t && h[i] != y && (pos > 1 ==> h[i] != h[pos / 2]);
        }
      }
    }

    /** The child of position pos that is due first, if there is a child. */
    method YoungerChild(t: Thread, ghost pos: nat) returns (y: Thread?, ghost c: nat)
      requires Linked(0) && Listed(0) && 1 <= pos < |h| && h[pos] == t
      ensures y == null ==> 2 * pos >= |h|
      ensures y != null ==> pos < c < |h| && c / 2 == pos && h[c] == y && y.due == key[c]
      ensures y != null ==> forall b :: 1 <= b < |h| && b / 2 == pos ==> key[c] <= key[b]
    {
      assert NodeOk(pos);
      c := 2 * pos;
      if t.left == null {
        y := null;
      } else if t.right == null {
        y := t.left;
      } else if t.left.due < t.right.due {
        y := t.left;
      } else {
        y, c := t.right, 2 * pos + 1;
      }
    }

    /** One level of sifting down: t is due after its child y. */
    method StepDown(p: Slot, t: Thread, y: Thread, ghost pos: nat, ghost c: nat) returns (p': Slot)
      requires Linked(0) && Listed(0) && 1 <= pos < c < |h| && c / 2 == pos && SlotAt(p, h, pos) && h[pos] == t && h[c] == y
      modifies `root, `h, `key, threads`left, threads`right, threads`heapIndex
      ensures Linked(0) && Listed(0) && SlotAt(p', h, c) && |h| == |old(h)| && h[c] == t
      ensures key == old(key)[pos := old(key)[c]][c := old(key)[pos]]
      ensures multiset(h) == old(multiset(h))
    {
      p' := SwapWithChild(p, t, y, pos, c);
      key := key[pos := key[c]][c := key[pos]];
    }

    /** The thread at position pos moves down until neither child is due before it. */
    method SiftDown(slot: Slot, ghost at: nat)
      requires Linked(0) && Listed(0) && 1 <= at < |h| && SlotAt(slot, h, at) && OrderedAbove(key, at)
      modifies `root, `h, `key, threads`left, threads`right, threads`heapIndex
      ensures Linked(0) && Listed(0) && Ordered(key, 0) && |h| == |old(h)| && multiset(h) == old(multiset(h))
    {
      var p := slot;
      ghost var pos := at;
      assert NodeOk(pos);
      assert pos > 1 ==> NodeOk(pos / 2);
      var t := Load(p);
      while true
        invariant Linked(0) && Listed(0) && 1 <= pos < |h| && SlotAt(p, h, pos) && h[pos] == t
        invariant OrderedAbove(key, pos) && |h| == |old(h)| && multiset(h) == old(multiset(h))
        decreases |h| - pos
      {
        ghost var c;
        var y;
        y, c := YoungerChild(t, pos);
        if y == null || t.due <= y.due {
          OrderedOnceSifted(key, pos);
          break;
        }
        OrderedAfterSifting(key, pos, c);
        p := StepDown(p, t, y, pos, c);
        pos := c;
      }
    }

    /** The last thread t, just unlinked, takes the place of thread, at position v. */
    method Replace(thread: Thread, t: Thread, ghost v: nat) returns (p: Slot)
      requires OnTheWay(t, v) && h[v] == thread && t.heapIndex == v
      modifies `root, `h, `key, threads`left, threads`right, threads`heapIndex
      ensures Linked(0) && Listed(0) && OrderedAbove(key, v) && SlotAt(p, h, v) && |h| == |old(h)|
      ensures multiset(h) + multiset{thread} == old(multiset(h)) + multiset{t} && h[v] != thread
    {
      p := HeapInsert(t);
      var u := Load(p);
      label placed:
      u.left := thread.left;
      u.right := thread.right;
      assert NodeOk(v);
      forall i | 1 <= i < |h| && i != v
        ensures NodeOk(i)
      {
        assert old@placed(NodeOk(i));
      }
    }

    /** The last thread t, just unlinked, fills the place of thread, at position v. */
    method FillPlace(thread: Thread, t: Thread, ghost v: nat)
      requires Linked(0) && Listed(0) && Ordered(key, v) && GrandOk(key, v)
      requires 1 <= v < |h| && h[v] == thread && t in threads && t !in h
      modifies `root, `h, `key, threads`left, threads`right, threads`heapIndex
      ensures Linked(0) && Listed(0) && Ordered(key, 0) && |h| == |old(h)|
      ensures multiset(h) + multiset{thread} == old(multiset(h)) + multiset{t}
    {
      assert NodeOk(v);
      t.heapIndex := thread.heapIndex;
      forall i | 1 <= i < |h|
        ensures NodeOk(i)
      {
        assert old(NodeOk(i));
      }
      var p := Replace(thread, t, v);
      SiftDown(p, v);
    }

    /** The position of a thread of the heap. */
    ghost method Position(thread: Thread) returns (v: nat)
      requires Linked(0) && thread in threads && thread in h
      ensures 1 <= v < |h| && h[v] == thread && NodeOk(v) && multiset(h)[thread] == 1
    {
      v :| v < |h| && h[v] == thread;
      assert NodeOk(v);
      forall i | 0 <= i < |h| && i != v
        ensures h[i] != h[v]
      {
        assert i > 0 ==> NodeOk(i);
      }
      ListedOnce(h, v);
    }

    /** Takes thread out of the heap, wherever it is. */
    method HeapDelete(thread: Thread)
      requires Linked(0) && Listed(0) && Ordered(key, 0) && |h| == size + 1
      requires thread in threads && thread in h
      modifies `root, `size, `h, `key, threads`left, threads`right, threads`heapIndex
      ensures Linked(0) && Listed(0) && Ordered(key, 0) && |h| == size + 1
      ensures size == old(size) - 1 && thread !in h && thread.left == null && thread.right == null
      ensures multiset(h) + multiset{thread} == old(multiset(h))
    {
      ghost var v := Position(thread);
      assert h == h[..size] + [h[size]];
      OrderedWithout(key, size, v);
      var t := UnlinkLast();
      if t != thread {
        FillPlace(thread, t, v);
      }
      label out:
      thread.left, thread.right := null, null;
      forall i | 1 <= i < |h|
        ensures NodeOk(i)
      {
        assert old@out(NodeOk(i));
      }
    }

    /** Cancels the timeout of thread: the C function `_st_del_sleep_q`. */
    method DelSleepQ(thread: Thread)
      requires Valid() && thread in threads && thread.onSleepQ
      modifies `root, `size, `h, `key, threads`left, threads`right, threads`heapIndex, thread`onSleepQ
      ensures Valid() && Members() == old(Members()) - {thread} && size == old(size) - 1
      ensures !thread.onSleepQ
    {
      HeapDelete(thread);
      thread.onSleepQ := false;
      forall t | t in threads && t != thread
        ensures t in h <==> t in old(h)
      {
        assert (multiset(h) + multiset{thread})[t] == multiset(old(h))[t];
        assert t in h <==> t in multiset(h);
      }
    }

    lemma RootDueFirst(t: Thread)
      requires Valid() && t in Members()
      ensures root != null && root in Members() && root.due <= t.due
    {
      var i :| 0 <= i < |h| && h[i] == t;
      assert NodeOk(1) && NodeOk(i);
      RootIsLeast(key, i);
    }

    /** Takes out the thread due first, if it is due by now. */
    method PopDue(now: nat) returns (thread: Thread?)
      requires Valid()
      modifies `root, `size, `h, `key, threads`left, threads`right, threads`heapIndex, threads`onSleepQ
      ensures Valid()
      ensures thread == null ==> Members() == old(Members()) && size == old(size) && forall t :: t in Members() ==>
          t.due > now
      ensures thread != null ==>
        && thread in old(Members()) && Members() == old(Members()) - {thread} && size == old(size) - 1
        && thread.due <= now && !thread.onSleepQ && forall t :: t in old(Members()) ==> thread.due <= t.due
    {
      thread := root;
      if thread == null {
        assert |h| == 1;
        return;
      }
      assert NodeOk(1);
      forall t | t in Members()
        ensures thread.due <= t.due
      {
        RootDueFirst(t);
      }
      if thread.due > now {
        return null;
      }
      DelSleepQ(thread);
    }

    ghost predicate LatestFirst(ts: seq<Thread>)
      reads ts`due
    {
      forall i, j :: 0 <= i < j < |ts| ==> ts[i] != ts[j] && ts[i].due >= ts[j].due
    }

    lemma LatestFirstCons(thread: Thread, ts: seq<Thread>)
      requires LatestFirst(ts) && forall t :: t in ts ==> t != thread && thread.due >= t.due
      ensures LatestFirst([thread] + ts)
    {
      forall j | 0 < j < |ts| + 1
        ensures ([thread] + ts)[j] != thread && thread.due >= ([thread] + ts)[j].due
      {
        assert ([thread] + ts)[j] in ts;
      }
    }

    /** The heap part of the C function `_st_vp_check_clock`: every thread that is due
        leaves the heap and goes to the head of the run queue. */
    method CheckClock(now: nat, runQ: seq<Thread>) returns (runQ': seq<Thread>, ghost expired: seq<Thread>)
      requires Valid()
      modifies `root, `size, `h, `key, `lastClock, threads`left, threads`right, threads`heapIndex, threads`onSleepQ
      ensures Valid() && lastClock == now && runQ' == expired + runQ && LatestFirst(expired)
      ensures forall t :: t in expired <==> t in old(Members()) && t.due <= now
      ensures forall t :: t in Members() <==> t in old(Members()) && t.due > now
    {
      lastClock := now;
      runQ', expired := runQ, [];
      ghost var latest := 0;
      while true
        invariant Valid() && lastClock == now && runQ' == expired + runQ && LatestFirst(expired)
        invariant forall t :: t in expired ==> t in threads && t.due <= latest && t !in Members()
        invariant forall t :: t in old(Members()) <==> t in expired || t in Members()
        invariant forall t :: t in Members() ==> latest <= t.due
        invariant latest <= now || expired == []
        decreases size
      {
        var thread := PopDue(now);
        if thread == null {
          break;
        }
        LatestFirstCons(thread, expired);
        PushAppended(thread, expired, runQ);
        latest := thread.due;
        expired := [thread] + expired;
        runQ' := [thread] + runQ';
      }
    }
  }
}
