/**
 The tree of configuration directives: look-up, comparison and copies.
 */
module ConfigTree {
  import opened Options

  /** A directive: its name, its arguments, the directives of its block, and its source line. */
  datatype Dir = Dir(name: string, args: seq<string>, subs: seq<Dir>, line: nat)

  /** A directive made by the program and not read from a file. */
  function NewDir(name: string): Dir {
    Dir(name, [], [], 0)
  }

  // ---------- look-up ----------

  /** The position of the first directive called n, or |ds|. */
  function Find(ds: seq<Dir>, n: string): (i: nat)
    ensures i <= |ds| && (i < |ds| ==> ds[i].name == n)
    ensures forall j :: 0 <= j < i ==> ds[j].name != n
  {
    if ds == [] || ds[0].name == n then 0
    else
      assert forall j :: 0 < j < |ds| ==> ds[j] == ds[1..][j - 1];
      1 + Find(ds[1..], n)
  }

  /** `get` */
  function Get(ds: seq<Dir>, n: string): Option<Dir> {
    if Find(ds, n) < |ds| then Some(ds[Find(ds, n)]) else None
  }

  lemma FindIs(ds: seq<Dir>, n: string, i: nat)
    requires i < |ds| && ds[i].name == n && forall j :: 0 <= j < i ==> ds[j].name != n
    ensures Find(ds, n) == i
  {
  }

  /** The tree without line numbers. */
  function Strip(t: Dir): Dir {
    Dir(t.name, t.args, StripAll(t.subs), 0)
  }

  function StripAll(ds: seq<Dir>): (r: seq<Dir>)
    ensures |r| == |ds| && forall i :: 0 <= i < |ds| ==> r[i] == Strip(ds[i])
  {
    if ds == [] then [] else [Strip(ds[0])] + StripAll(ds[1..])
  }

  // ---------- comparison ----------

  /** `srs_directive_equals_self` */
  predicate EqualsSelf(a: Dir, b: Dir) {
    && a.name == b.name
    && |a.args| == |b.args| && (forall i :: 0 <= i < |a.args| ==> a.args[i] == b.args[i])
    && |a.subs| == |b.subs|
  }

  /** `srs_directive_equals` */
  predicate Equals(a: Dir, b: Dir)
    decreases a
  {
    EqualsSelf(a, b) && forall i :: 0 <= i < |a.subs| ==> Equals(a.subs[i], b.subs[i])
  }

  /** `srs_directive_equals`, not comparing children called except. */
  predicate EqualsExcept(a: Dir, b: Dir, except: string)
    decreases a
  {
    EqualsSelf(a, b) && forall i :: 0 <= i < |a.subs| ==>
      (a.subs[i].name == except && b.subs[i].name == except) || EqualsExcept(a.subs[i], b.subs[i], except)
  }

  /** Both comparisons take null pointers: two are equal, one equals nothing else. */
  predicate EqualsNullable(a: Option<Dir>, b: Option<Dir>) {
    (a.None? && b.None?) || (a.Some? && b.Some? && Equals(a.value, b.value))
  }

  /** Comparison is equality of the trees but for line numbers. */
  lemma {:induction false} EqualsIffSameTree(a: Dir, b: Dir)
    ensures Equals(a, b) <==> Strip(a) == Strip(b)
    decreases a
  {
    assert Strip(a) == Strip(b) ==> |StripAll(a.subs)| == |StripAll(b.subs)|;
    if EqualsSelf(a, b) {
      forall i | 0 <= i < |a.subs|
        ensures Equals(a.subs[i], b.subs[i]) <==> StripAll(a.subs)[i] == StripAll(b.subs)[i]
      {
        EqualsIffSameTree(a.subs[i], b.subs[i]);
      }
      if Equals(a, b) {
        assert StripAll(a.subs) == StripAll(b.subs);
        assert a.args == b.args;
      }
    }
  }

  /** Comparison is an equivalence, null pointers included. */
  lemma EqualsIsEquivalence(a: Option<Dir>, b: Option<Dir>, c: Option<Dir>)
    ensures EqualsNullable(a, a)
    ensures EqualsNullable(a, b) ==> EqualsNullable(b, a)
    ensures EqualsNullable(a, b) && EqualsNullable(b, c) ==> EqualsNullable(a, c)
  {
    if a.Some? {
      EqualsIffSameTree(a.value, a.value);
      if b.Some? {
        EqualsIffSameTree(a.value, b.value);
        EqualsIffSameTree(b.value, a.value);
        if c.Some? {
          EqualsIffSameTree(b.value, c.value);
          EqualsIffSameTree(a.value, c.value);
        }
      }
    }
  }

  /** The tree without line numbers, in which every descendant called except is blank. */
  function Mask(t: Dir, except: string): Dir {
    Dir(t.name, t.args, MaskAll(t.subs, except), 0)
  }

  function MaskAll(ds: seq<Dir>, except: string): (r: seq<Dir>)
    ensures |r| == |ds|
    ensures forall i :: 0 <= i < |ds| ==> r[i] == if ds[i].name == except then NewDir(except) else Mask(ds[i], except)
  {
    if ds == [] then []
    else [if ds[0].name == except then NewDir(except) else Mask(ds[0], except)] + MaskAll(ds[1..], except)
  }

  /** Comparison but for `except` is equality once the descendants of that name are blank. */
  lemma {:induction false} EqualsExceptIffSameMask(a: Dir, b: Dir, except: string)
    ensures EqualsExcept(a, b, except) <==> Mask(a, except) == Mask(b, except)
    decreases a
  {
    assert Mask(a, except) == Mask(b, except) ==> |MaskAll(a.subs, except)| == |MaskAll(b.subs, except)|;
    if EqualsSelf(a, b) {
      forall i | 0 <= i < |a.subs|
        ensures (a.subs[i].name == except && b.subs[i].name == except) || EqualsExcept(a.subs[i], b.subs[i], except)
          <==> MaskAll(a.subs, except)[i] == MaskAll(b.subs, except)[i]
      {
        EqualsExceptIffSameMask(a.subs[i], b.subs[i], except);
      }
      if EqualsExcept(a, b, except) {
        assert MaskAll(a.subs, except) == MaskAll(b.subs, except);
        assert a.args == b.args;
      }
    }
  }

  // ---------- copies ----------

  /** `copy(except)`: a copy without the descendants called except, when a name is given. */
  function Copy(t: Dir, except: string): Dir {
    Dir(t.name, t.args, CopyAll(t.subs, except), t.line)
  }

  function CopyAll(ds: seq<Dir>, except: string): seq<Dir> {
    if ds == [] then []
    else if except != "" && ds[0].name == except then CopyAll(ds[1..], except)
    else [Copy(ds[0], except)] + CopyAll(ds[1..], except)
  }

  /** `copy()` makes the same tree, line numbers and all. */
  lemma {:induction false} CopyIsSame(t: Dir)
    ensures Copy(t, "") == t && Equals(t, Copy(t, ""))
    decreases t, 1
  {
    CopyAllIsSame(t.subs);
    EqualsIffSameTree(t, t);
  }

  lemma {:induction false} CopyAllIsSame(ds: seq<Dir>)
    ensures CopyAll(ds, "") == ds
    decreases ds, 0
  {
    if ds != [] {
      CopyIsSame(ds[0]);
      CopyAllIsSame(ds[1..]);
    }
  }

  /** No descendant of t has this name. */
  predicate Free(t: Dir, name: string) {
    FreeAll(t.subs, name)
  }

  predicate FreeAll(ds: seq<Dir>, name: string) {
    forall d :: d in ds ==> d.name != name && Free(d, name)
  }

  lemma {:induction false} CopyIsFree(t: Dir, except: string)
    requires except != ""
    ensures Free(Copy(t, except), except)
    decreases t, 1
  {
    CopyAllIsFree(t.subs, except);
  }

  lemma {:induction false} CopyAllIsFree(ds: seq<Dir>, except: string)
    requires except != ""
    ensures FreeAll(CopyAll(ds, except), except)
    decreases ds, 0
  {
    if ds != [] {
      CopyIsFree(ds[0], except);
      CopyAllIsFree(ds[1..], except);
    }
  }

  /** A tree that is free of the name is copied whole. */
  lemma {:induction false} CopyOfFree(t: Dir, except: string)
    requires Free(t, except)
    ensures Copy(t, except) == t
    decreases t, 1
  {
    CopyAllOfFree(t.subs, except);
  }

  lemma {:induction false} CopyAllOfFree(ds: seq<Dir>, except: string)
    requires FreeAll(ds, except)
    ensures CopyAll(ds, except) == ds
    decreases ds, 0
  {
    if ds != [] {
      CopyOfFree(ds[0], except);
      CopyAllOfFree(ds[1..], except);
    }
  }

  /** What a copy without `except` looks like depends only on the masked tree. */
  lemma {:induction false} SameMaskSameCopy(a: Dir, b: Dir, except: string)
    requires except != "" && Mask(a, except) == Mask(b, except)
    ensures Strip(Copy(a, except)) == Strip(Copy(b, except))
    decreases a, 1
  {
    SameMaskSameCopies(a.subs, b.subs, except);
  }

  lemma {:induction false} SameMaskSameCopies(a: seq<Dir>, b: seq<Dir>, except: string)
    requires except != "" && MaskAll(a, except) == MaskAll(b, except)
    ensures StripAll(CopyAll(a, except)) == StripAll(CopyAll(b, except))
    decreases a, 0
  {
    assert |MaskAll(a, except)| == |a| && |MaskAll(b, except)| == |b|;
    if a != [] {
      assert MaskAll(a, except)[0] == MaskAll(b, except)[0];
      assert MaskAll(a, except)[1..] == MaskAll(b, except)[1..];
      SameMaskSameCopies(a[1..], b[1..], except);
      if a[0].name != except {
        SameMaskSameCopy(a[0], b[0], except);
      }
    }
  }

  /** Trees that are equal but for `except` have equal copies without it, free of that name. */
  lemma EqualsExceptGivesEqualCopies(a: Dir, b: Dir, except: string)
    requires except != "" && EqualsExcept(a, b, except)
    ensures Equals(Copy(a, except), Copy(b, except)) && Free(Copy(a, except), except) && Free(Copy(b, except), except)
  {
    EqualsExceptIffSameMask(a, b, except);
    SameMaskSameCopy(a, b, except);
    EqualsIffSameTree(Copy(a, except), Copy(b, except));
    CopyIsFree(a, except);
    CopyIsFree(b, except);
  }
}
