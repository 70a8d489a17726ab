/**
 What the rewriting leaves alone: the root but for listen, chunk_size and the first rtmp, and a stream
 caster but for what is unused, its hosts and its first sip.
 */
module ConfigFrames {
  import opened ConfigTree
  import opened ConfigLegacy
  import opened ConfigVhost
  import opened ConfigRoot
  import opened ConfigTransform

  const ROOT_MOVED: set<string> := {"listen", "chunk_size"}

  lemma MovedIs(n: string)
    ensures RootMoved(n) <==> n in ROOT_MOVED
    ensures !RootMoved("rtmp")
  {
  }

  // ---------- the root ----------

  /** Two rtmp blocks with the same arguments, and the same children but for listen and chunk_size. */
  predicate SameRtmp(a: Dir, b: Dir) {
    a.name == b.name && a.args == b.args && a.line == b.line && DropAll(a.subs, ROOT_MOVED) == DropAll(b.subs, ROOT_MOVED)
  }

  /** The same directives in the same order, but for what SameRtmp allows of the first rtmp. */
  predicate SameButRtmp(a: seq<Dir>, b: seq<Dir>) {
    if a == [] || b == [] then a == b
    else if a[0].name == "rtmp" then SameRtmp(a[0], b[0]) && a[1..] == b[1..]
    else a[0] == b[0] && SameButRtmp(a[1..], b[1..])
  }

  lemma {:induction false} SameAsItself(a: seq<Dir>)
    ensures SameButRtmp(a, a)
  {
    if a != [] {
      SameAsItself(a[1..]);
    }
  }

  lemma {:induction false} SameThen(a: seq<Dir>, b: seq<Dir>, c: seq<Dir>)
    requires SameButRtmp(a, b) && SameButRtmp(b, c)
    ensures SameButRtmp(a, c)
  {
    if a != [] && b != [] && c != [] && a[0].name != "rtmp" {
      SameThen(a[1..], b[1..], c[1..]);
    }
  }

  /** An rtmp with a setting put into it. */
  lemma {:induction false} PutIsMoved(subs: seq<Dir>, k: string, args: seq<string>)
    requires k in ROOT_MOVED
    ensures DropAll(Put(subs, k, args), ROOT_MOVED) == DropAll(subs, ROOT_MOVED)
  {
    var s := Ensure(subs, k);
    var j := Find(s, k);
    if Find(subs, k) == |subs| {
      DropAllOfConcat(subs, [NewDir(k)], ROOT_MOVED);
      DropNamed([NewDir(k)], ROOT_MOVED);
      assert DropAll(subs, ROOT_MOVED) + [] == DropAll(subs, ROOT_MOVED);
    }
    DropAllAround(s, j, s[j].(args := args), ROOT_MOVED);
  }

  lemma {:induction false} DropAllOfConcat(a: seq<Dir>, b: seq<Dir>, names: set<string>)
    ensures DropAll(a + b, names) == DropAll(a, names) + DropAll(b, names)
  {
    if a == [] {
      assert a + b == b && [] + DropAll(b, names) == DropAll(b, names);
    } else {
      var x, y := DropAll(a[1..], names), DropAll(b, names);
      DropAllOfConcat(a[1..], b, names);
      assert (a + b)[1..] == a[1..] + b && (a + b)[0] == a[0];
      assert DropAll(a + b, names) == if a[0].name in names then x + y else [a[0]] + (x + y);
      hide DropAll;
      assert ([a[0]] + x) + y == [a[0]] + (x + y);
    }
  }

  lemma DropNamed(ds: seq<Dir>, names: set<string>)
    requires |ds| == 1 && ds[0].name in names
    ensures DropAll(ds, names) == []
  {
    assert ds[1..] == [];
  }

  /** A directive that is dropped may be any other that is. */
  lemma DropAllAround(ds: seq<Dir>, j: nat, d: Dir, names: set<string>)
    requires j < |ds| && ds[j].name in names && d.name in names
    ensures DropAll(ds[j := d], names) == DropAll(ds, names)
  {
    hide DropAll;
    var r := ds[j := d];
    assert ds == ds[..j] + ([ds[j]] + ds[j + 1..]) && r == ds[..j] + ([d] + ds[j + 1..]);
    DropAllOfConcat(ds[..j], [ds[j]] + ds[j + 1..], names);
    DropAllOfConcat(ds[..j], [d] + ds[j + 1..], names);
    DropAllOfConcat([ds[j]], ds[j + 1..], names);
    DropAllOfConcat([d], ds[j + 1..], names);
    DropNamed([ds[j]], names);
    DropNamed([d], names);
  }

  /** The lists are the same up to an rtmp at j. */
  lemma {:induction false} SameAt(a: seq<Dir>, b: seq<Dir>, j: nat)
    requires j < |a| == |b| && Find(a, "rtmp") == j && SameRtmp(a[j], b[j])
    requires forall k :: 0 <= k < |a| && k != j ==> a[k] == b[k]
    ensures SameButRtmp(a, b)
    decreases j
  {
    hide SameRtmp;
    if a[0].name == "rtmp" {
      assert j == 0 && a[1..] == b[1..];
    } else {
      SameAt(a[1..], b[1..], j - 1);
    }
  }

  /** A setting goes into the first rtmp, or into a new one at the end. */
  lemma PutInSame(ds: seq<Dir>, k: string, args: seq<string>)
    requires k in ROOT_MOVED
    ensures var p := PutIn(ds, "rtmp", k, args); |p| == |Ensure(ds, "rtmp")| && SameButRtmp(p, Ensure(ds, "rtmp"))
  {
    var s := Ensure(ds, "rtmp");
    var p := PutIn(ds, "rtmp", k, args);
    var j := Find(s, "rtmp");
    PutIsMoved(s[j].subs, k, args);
    FindIs(p, "rtmp", j);
    hide Put, DropAll, Ensure;
    SameAt(p, s, j);
  }

  /** ds without listen and chunk_size among the first i. */
  function Without(ds: seq<Dir>, i: nat): seq<Dir>
    requires i <= |ds|
  {
    if i == 0 then ds
    else if RootMoved(ds[0].name) then Without(ds[1..], i - 1)
    else [ds[0]] + Without(ds[1..], i - 1)
  }

  lemma {:induction false} WithoutAll(ds: seq<Dir>)
    ensures Without(ds, |ds|) == DropAll(ds, ROOT_MOVED)
  {
    if ds != [] {
      MovedIs(ds[0].name);
      WithoutAll(ds[1..]);
      hide RootMoved;
    }
  }

  lemma {:induction false} WithoutSame(a: seq<Dir>, b: seq<Dir>, i: nat)
    requires SameButRtmp(a, b) && i <= |a| && i <= |b|
    ensures SameButRtmp(Without(a, i), Without(b, i))
    decreases i
  {
    if i > 0 {
      MovedIs(a[0].name);
      if a[0].name == "rtmp" {
        assert ([a[0]] + Without(a[1..], i - 1))[1..] == ([b[0]] + Without(b[1..], i - 1))[1..];
      } else {
        WithoutSame(a[1..], b[1..], i - 1);
        SameWithHead(a[0], Without(a[1..], i - 1), Without(b[1..], i - 1));
      }
    }
  }

  lemma SameWithHead(d: Dir, a: seq<Dir>, b: seq<Dir>)
    requires SameButRtmp(a, b) && d.name != "rtmp"
    ensures SameButRtmp([d] + a, [d] + b)
  {
    assert ([d] + a)[1..] == a && ([d] + b)[1..] == b;
  }

  /** Erasing at i - 1 what is moved, or going past what is not. */
  lemma {:induction false} WithoutStep(ds: seq<Dir>, i: nat)
    requires 0 < i <= |ds|
    ensures Without(ds, i) == if RootMoved(ds[i - 1].name) then Without(Erase(ds, i - 1), i - 1) else Without(ds, i - 1)
    decreases i
  {
    hide RootMoved;
    if i > 1 {
      WithoutStep(ds[1..], i - 1);
      assert Erase(ds, i - 1)[1..] == Erase(ds[1..], i - 2);
    } else {
      assert Without(ds[1..], 0) == ds[1..] && Erase(ds, 0) == ds[1..] && [ds[0]] + ds[1..] == ds;
    }
  }

  lemma {:induction false} FindInWithout(ds: seq<Dir>, i: nat)
    requires i <= |ds|
    ensures Find(Without(ds, i), "rtmp") < |Without(ds, i)| <==> Find(ds, "rtmp") < |ds|
    decreases i
  {
    if i > 0 {
      var rest := Without(ds[1..], i - 1);
      MovedIs(ds[0].name);
      assert Without(ds, i) == if RootMoved(ds[0].name) then rest else [ds[0]] + rest;
      FindInWithout(ds[1..], i - 1);
      hide RootMoved, Without;
      assert ([ds[0]] + rest)[1..] == rest;
    }
  }

  lemma {:induction false} WithoutMore(ds: seq<Dir>, i: nat, d: Dir)
    requires i <= |ds|
    ensures Without(ds + [d], i) == Without(ds, i) + [d]
    decreases i
  {
    hide RootMoved;
    if i > 0 {
      var rest := Without(ds[1..], i - 1);
      WithoutMore(ds[1..], i - 1, d);
      assert (ds + [d])[1..] == ds[1..] + [d] && (ds + [d])[0] == ds[0];
      assert Without(ds + [d], i) == if RootMoved(ds[0].name) then rest + [d] else [ds[0]] + (rest + [d]);
      assert Without(ds, i) == if RootMoved(ds[0].name) then rest else [ds[0]] + rest;
      hide Without;
      assert ([ds[0]] + rest) + [d] == [ds[0]] + (rest + [d]);
    }
  }

  lemma EnsureWithout(ds: seq<Dir>, i: nat)
    requires i <= |ds|
    ensures i <= |Ensure(ds, "rtmp")| && Without(Ensure(ds, "rtmp"), i) == Ensure(Without(ds, i), "rtmp")
  {
    FindInWithout(ds, i);
    WithoutMore(ds, i, NewDir("rtmp"));
    hide Without, Find;
  }

  /** One turn of the loop, up to what it puts into rtmp. */
  lemma StepSame(ds: seq<Dir>, i: nat)
    requires 0 < i <= |ds|
    ensures var r := RootStep(ds, i - 1);
      i - 1 <= |r| && SameButRtmp(Without(r, i - 1), Ensure(Without(ds, i), "rtmp")) && Find(r, "rtmp") < |r|
  {
    hide Without, SameButRtmp, Find;
    var e := Ensure(ds, "rtmp");
    var d := ds[i - 1];
    EnsureWithout(ds, i);
    MovedIs(d.name);
    RootStepIs(ds, i - 1);
    hide RootMoved;
    if RootMoved(d.name) {
      var p := PutIn(ds, "rtmp", d.name, d.args);
      PutInSame(ds, d.name, d.args);
      WithoutSame(p, e, i);
      PutInElsewhere(ds, d.name, d.args, i - 1);
      WithoutStep(p, i);
    } else {
      WithoutStep(e, i);
      SameAsItself(Without(e, i));
    }
  }

  lemma PutInElsewhere(ds: seq<Dir>, k: string, args: seq<string>, i: nat)
    requires i < |ds| && ds[i].name != "rtmp"
    ensures PutIn(ds, "rtmp", k, args)[i] == ds[i]
  {
  }

  /** The root without listen and chunk_size is as it was, in order, but for what else rtmp holds; an
      rtmp is made at the end when there is none. */
  lemma {:induction false} RootKeeps(ds: seq<Dir>, i: nat)
    requires i <= |ds| && (i == 0 ==> Find(ds, "rtmp") < |ds|)
    ensures SameButRtmp(Root(ds, i), Ensure(Without(ds, i), "rtmp"))
    decreases i
  {
    hide SameButRtmp, Without, RootStep;
    if i == 0 {
      assert Without(ds, 0) == ds by {
        WithoutNone(ds);
      }
      SameAsItself(ds);
    } else {
      var r := RootStep(ds, i - 1);
      StepSame(ds, i);
      FindInWithout(r, i - 1);
      RootKeeps(r, i - 1);
      SameThen(Root(ds, i), Without(r, i - 1), Ensure(Without(ds, i), "rtmp"));
    }
  }

  lemma WithoutNone(ds: seq<Dir>)
    ensures Without(ds, 0) == ds
  {
  }

  lemma RtmpIsRtmp(d: Dir)
    ensures RootDir(d).name == "rtmp" <==> d.name == "rtmp"
    ensures d.name == "rtmp" ==> RootDir(d) == d
  {
    hide Vhost, Caster, DropAll, RenameAll;
  }

  lemma {:induction false} SameDirs(a: seq<Dir>, b: seq<Dir>)
    requires SameButRtmp(a, b)
    ensures SameButRtmp(RootDirs(a), RootDirs(b))
    decreases a
  {
    if a != [] && b != [] {
      RtmpIsRtmp(a[0]);
      RtmpIsRtmp(b[0]);
      assert RootDirs(a)[1..] == RootDirs(a[1..]) && RootDirs(b)[1..] == RootDirs(b[1..]);
      hide RootDir, SameRtmp;
      if a[0].name != "rtmp" {
        SameDirs(a[1..], b[1..]);
      }
    }
  }

  /** A pass over a configuration removes listen and chunk_size from the root, makes an rtmp at the end when
      there is none, and rewrites each other directive on its own; all keep their order.  Only the settings
      listen and chunk_size of the first rtmp change. */
  lemma TransformKeeps(ds: seq<Dir>)
    ensures Transform([]) == []
    ensures ds != [] ==> SameButRtmp(Transform(ds), RootDirs(Ensure(DropAll(ds, ROOT_MOVED), "rtmp")))
  {
    if ds != [] {
      RootKeeps(ds, |ds|);
      WithoutAll(ds);
      hide Root, Without, DropAll, SameButRtmp, RootDirs;
      SameDirs(Root(ds, |ds|), Ensure(DropAll(ds, ROOT_MOVED), "rtmp"));
    }
  }

  // ---------- a stream caster ----------

  /** ds without the hosts from place i on. */
  function NoHosts(ds: seq<Dir>, i: nat): seq<Dir>
    requires i <= |ds|
  {
    if i == 0 then DropAll(ds, {"host"}) else [ds[0]] + NoHosts(ds[1..], i - 1)
  }

  /** The first sip takes hs, or a new one at the end does. */
  function PushAll(ds: seq<Dir>, hs: seq<Dir>): seq<Dir>
    decreases hs
  {
    if hs == [] then ds else PushAll(PushSip(ds, hs[0]), hs[1..])
  }

  /** PushSip from the front. */
  lemma PushSipFront(ds: seq<Dir>, h: Dir)
    ensures ds != [] && ds[0].name != "sip" ==> PushSip(ds, h) == [ds[0]] + PushSip(ds[1..], h)
    ensures ds != [] && ds[0].name == "sip" ==> PushSip(ds, h) == [ds[0].(subs := ds[0].subs + [h])] + ds[1..]
  {
    if ds != [] && ds[0].name != "sip" {
      var t := Ensure(ds[1..], "sip");
      assert ([ds[0]] + t)[1..] == t && Ensure(ds, "sip") == [ds[0]] + t;
      hide Ensure;
    }
  }

  lemma {:induction false} PushThenDrop(ds: seq<Dir>, h: Dir)
    ensures DropAll(PushSip(ds, h), {"host"}) == PushSip(DropAll(ds, {"host"}), h)
  {
    if ds == [] {
      assert PushSip(ds, h)[1..] == [];
    } else {
      var d, rest := ds[0], DropAll(ds[1..], {"host"});
      hide PushSip;
      PushSipFront(ds, h);
      PushThenDrop(ds[1..], h);
      PushSipFront([d] + rest, h);
      assert ([d] + rest)[1..] == rest && PushSip(ds, h)[1..] == if d.name == "sip" then ds[1..] else PushSip(ds[1..], h);
    }
  }

  lemma NoHostsOfCons(d: Dir, ds: seq<Dir>, i: nat)
    requires 0 < i <= |ds| + 1
    ensures NoHosts([d] + ds, i) == [d] + NoHosts(ds, i - 1)
  {
    assert ([d] + ds)[1..] == ds;
  }

  lemma {:induction false} PushAndNoHosts(ds: seq<Dir>, i: nat, h: Dir)
    requires i <= |ds|
    ensures i <= |PushSip(ds, h)| && NoHosts(PushSip(ds, h), i) == PushSip(NoHosts(ds, i), h)
    decreases i
  {
    hide PushSip, DropAll;
    if i == 0 {
      PushThenDrop(ds, h);
    } else {
      var d, rest := ds[0], NoHosts(ds[1..], i - 1);
      PushSipFront(ds, h);
      PushSipFront([d] + rest, h);
      assert NoHosts(ds, i) == [d] + rest && ([d] + rest)[1..] == rest;
      hide NoHosts;
      if d.name == "sip" {
        NoHostsOfCons(d.(subs := d.subs + [h]), ds[1..], i);
      } else {
        var p := PushSip(ds[1..], h);
        PushAndNoHosts(ds[1..], i - 1, h);
        calc {
          NoHosts(PushSip(ds, h), i);
          NoHosts([d] + p, i);
          { NoHostsOfCons(d, p, i); }
          [d] + NoHosts(p, i - 1);
          [d] + PushSip(rest, h);
          PushSip(NoHosts(ds, i), h);
        }
      }
    }
  }

  lemma {:induction false} NoHostsAt(ds: seq<Dir>, i: nat)
    requires i < |ds|
    ensures NoHosts(ds, i) == if ds[i].name == "host" then NoHosts(Erase(ds, i), i) else NoHosts(ds, i + 1)
    decreases i
  {
    if i == 0 {
      assert Erase(ds, 0) == ds[1..];
    } else {
      NoHostsAt(ds[1..], i - 1);
      assert Erase(ds, i)[1..] == Erase(ds[1..], i - 1);
    }
  }

  lemma {:induction false} NoHostsAtEnd(ds: seq<Dir>)
    ensures NoHosts(ds, |ds|) == ds
  {
    if ds != [] {
      NoHostsAtEnd(ds[1..]);
    }
  }

  /** The loop over the hosts takes them out, and gives them to the first sip in order. */
  lemma {:induction false} MoveHostsIs(ds: seq<Dir>, i: nat)
    requires i <= |ds|
    ensures MoveHosts(ds, i) == PushAll(NoHosts(ds, i), Hosts(ds[i..]))
    decreases Count(ds[i..], "host"), |ds| - i
  {
    if i == |ds| {
      NoHostsAtEnd(ds);
    } else {
      HostsOfRest(ds, i);
      NoHostsAt(ds, i);
      assert ds[i..][1..] == ds[i + 1..];
      if ds[i].name == "host" {
        var h := Host(ds[i]);
        var p := PushSip(ds, h);
        var r := Erase(p, i);
        HostMoved(ds, i);
        SipAfterHost(ds, i);
        PushAndNoHosts(ds, i, h);
        NoHostsAt(p, i);
        assert ([h] + Hosts(ds[i + 1..]))[1..] == Hosts(ds[i + 1..]);
        hide NoHosts, PushSip, Erase, Hosts;
        MoveHostsIs(r, i);
      } else {
        hide NoHosts, PushAll, Hosts;
        MoveHostsIs(ds, i + 1);
        assert [] + Hosts(ds[i + 1..]) == Hosts(ds[i + 1..]);
      }
    }
  }

  /** Pushing one after the other puts all behind what the first sip held. */
  lemma {:induction false} PushAllIs(ds: seq<Dir>, hs: seq<Dir>)
    requires hs != []
    ensures var s := Ensure(ds, "sip"); var j := Find(s, "sip");
      PushAll(ds, hs) == s[j := s[j].(subs := s[j].subs + hs)]
    decreases hs
  {
    var s := Ensure(ds, "sip");
    var j := Find(s, "sip");
    var p := PushSip(ds, hs[0]);
    FindIs(p, "sip", j);
    assert hs == [hs[0]] + hs[1..];
    hide Find;
    if |hs| > 1 {
      PushAllIs(p, hs[1..]);
      assert (s[j].subs + [hs[0]]) + hs[1..] == s[j].subs + hs;
    } else {
      assert PushAll(p, hs[1..]) == p && hs == [hs[0]];
    }
  }

  lemma {:induction false} DropTwice(ds: seq<Dir>, a: set<string>, b: set<string>)
    ensures DropAll(DropAll(ds, a), b) == DropAll(ds, a + b)
  {
    if ds != [] {
      DropTwice(ds[1..], a, b);
      assert ([ds[0]] + DropAll(ds[1..], a))[1..] == DropAll(ds[1..], a);
    }
  }

  lemma {:induction false} HostsAfterDrop(ds: seq<Dir>, names: set<string>)
    requires "host" !in names
    ensures Hosts(DropAll(ds, names)) == Hosts(ds)
  {
    if ds != [] {
      HostsAfterDrop(ds[1..], names);
      assert ([ds[0]] + DropAll(ds[1..], names))[1..] == DropAll(ds[1..], names);
      assert [] + Hosts(ds[1..]) == Hosts(ds[1..]);
    }
  }

  /** Cleaning the first sip and taking out the hosts do not concern each other. */
  lemma {:induction false} CleanThenDrop(ds: seq<Dir>)
    ensures DropAll(CleanSip(ds), {"host"}) == CleanSip(DropAll(ds, {"host"}))
    ensures Hosts(CleanSip(ds)) == Hosts(ds)
  {
    if ds != [] {
      var d, rest := ds[0], DropAll(ds[1..], {"host"});
      CleanSipFront(ds);
      CleanThenDrop(ds[1..]);
      CleanSipFront([d] + rest);
      assert ([d] + rest)[1..] == rest && CleanSip(ds)[1..] == if d.name == "sip" then ds[1..] else CleanSip(ds[1..]);
      hide CleanSip;
    }
  }

  /** A caster ends as it was without what is unused and its hosts, the first sip cleaned and the hosts
      behind what it holds as candidates; a sip is made at the end when there are hosts and none is there. */
  lemma CasterIs(ds: seq<Dir>)
    ensures var e := CleanSip(DropAll(ds, UNUSED_GB + {"host"})); var hs := Hosts(ds);
      var s := Ensure(e, "sip"); var j := Find(s, "sip");
      Caster(ds) == if hs == [] then e else s[j := s[j].(subs := s[j].subs + hs)]
  {
    hide CleanSip, DropAll, Hosts, Find, Ensure, NoHosts;
    var u := DropAll(ds, UNUSED_GB);
    var c := CleanSip(u);
    MoveHostsIs(c, 0);
    NoHostsAtStart(c);
    CleanThenDrop(u);
    DropTwice(ds, UNUSED_GB, {"host"});
    HostsAfterDrop(ds, UNUSED_GB);
    assert c[0..] == c;
    var e, hs := CleanSip(DropAll(ds, UNUSED_GB + {"host"})), Hosts(ds);
    if hs != [] {
      PushAllIs(e, hs);
    }
  }

  lemma NoHostsAtStart(ds: seq<Dir>)
    ensures NoHosts(ds, 0) == DropAll(ds, {"host"})
  {
  }
}
