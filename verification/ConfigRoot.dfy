/**
 The rewriting of the root of a configuration, where listen and chunk_size move into rtmp, and
 of the GB28181 stream casters.
 */
module ConfigRoot {
  import opened Options
  import opened ConfigTree
  import opened ConfigLegacy
  import opened ConfigVhost
  import opened ConfigSettings

  // ---------- the root ----------

  predicate RootMoved(n: string) {
    n == "listen" || n == "chunk_size"
  }

  /** `get_or_create(c)->get_or_create(k)->args_ = args` */
  function PutIn(ds: seq<Dir>, c: string, k: string, args: seq<string>): (r: seq<Dir>)
    ensures |r| >= |ds|
  {
    var s := Ensure(ds, c);
    var j := Find(s, c);
    s[j := s[j].(subs := Put(s[j].subs, k, args))]
  }

  /** One turn of the loop over the root: child i may move into rtmp. */
  function RootStep(ds: seq<Dir>, i: nat): (r: seq<Dir>)
    requires i < |ds|
    ensures |r| >= i
  {
    if RootMoved(ds[i].name) then Erase(PutIn(ds, "rtmp", ds[i].name, ds[i].args), i) else Ensure(ds, "rtmp")
  }

  /** The loop over the root, from child i - 1 down. */
  function Root(ds: seq<Dir>, i: nat): seq<Dir>
    requires i <= |ds|
    decreases i
  {
    if i == 0 then ds else Root(RootStep(ds, i - 1), i - 1)
  }

  /** s is ds with something done to its rtmp block, which is made when there is none. */
  predicate Touched(ds: seq<Dir>, s: seq<Dir>) {
    var j := Find(ds, "rtmp");
    && |s| == (if j < |ds| then |ds| else |ds| + 1) && s[j].name == "rtmp"
    && (forall k :: 0 <= k < |ds| && k != j ==> s[k] == ds[k])
    && (j < |ds| ==> s[j].args == ds[j].args)
  }

  lemma TouchedBy(ds: seq<Dir>, k: string, args: seq<string>)
    ensures Touched(ds, PutIn(ds, "rtmp", k, args)) && Touched(ds, Ensure(ds, "rtmp"))
  {
  }

  predicate NoneMoved(ds: seq<Dir>, i: nat) {
    forall k :: i <= k < |ds| ==> !RootMoved(ds[k].name)
  }

  /** What one turn does, element by element: children before i keep name and arguments. */
  predicate TurnDone(ds: seq<Dir>, i: nat, r: seq<Dir>) {
    && i <= |ds| && i <= |r| && Find(r, "rtmp") < |r|
    && (forall k :: 0 <= k < i ==> r[k].name == ds[k].name && r[k].args == ds[k].args)
    && (forall k :: 0 <= k < i && ds[k].name != "rtmp" ==> r[k] == ds[k])
    && (NoneMoved(ds, i + 1) ==> NoneMoved(r, i))
  }

  lemma ErasedAt(s: seq<Dir>, i: nat, k: nat)
    requires i < |s| && k < |s| - 1
    ensures Erase(s, i)[k] == if k < i then s[k] else s[k + 1]
  {
  }

  lemma NoneMovedAfterErase(ds: seq<Dir>, s: seq<Dir>, i: nat)
    requires Touched(ds, s) && i < |ds| && !RootMoved("rtmp") && NoneMoved(ds, i + 1)
    ensures NoneMoved(Erase(s, i), i)
  {
    var r := Erase(s, i);
    hide RootMoved, Erase;
    forall k: nat | i <= k < |r|
      ensures !RootMoved(r[k].name)
    {
      ErasedAt(s, i, k);
    }
  }

  lemma FindAfterErase(ds: seq<Dir>, i: nat, n: string)
    requires i < |ds| && ds[i].name != n && Find(ds, n) < |ds|
    ensures Find(Erase(ds, i), n) < |Erase(ds, i)|
  {
    var f := Find(ds, n);
    ErasedAt(ds, i, if f < i then f else f - 1);
  }

  lemma TouchedThenErased(ds: seq<Dir>, s: seq<Dir>, i: nat)
    requires Touched(ds, s) && i < |ds| && ds[i].name != "rtmp" && !RootMoved("rtmp")
    ensures TurnDone(ds, i, Erase(s, i))
  {
    if NoneMoved(ds, i + 1) {
      NoneMovedAfterErase(ds, s, i);
    }
    FindIs(s, "rtmp", Find(ds, "rtmp"));
    FindAfterErase(s, i, "rtmp");
    assert forall k :: 0 <= k < i ==> Erase(s, i)[k] == s[k];
    hide RootMoved, Erase, NoneMoved;
  }

  lemma TouchedOnly(ds: seq<Dir>, s: seq<Dir>, i: nat)
    requires Touched(ds, s) && i < |ds| && !RootMoved(ds[i].name) && !RootMoved("rtmp")
    ensures TurnDone(ds, i, s)
  {
    hide RootMoved;
    FindIs(s, "rtmp", Find(ds, "rtmp"));
  }

  lemma RootStepIs(ds: seq<Dir>, i: nat)
    requires i < |ds|
    ensures TurnDone(ds, i, RootStep(ds, i))
  {
    hide PutIn, Erase, Touched, TurnDone;
    TouchedBy(ds, ds[i].name, ds[i].args);
    if RootMoved(ds[i].name) {
      TouchedThenErased(ds, PutIn(ds, "rtmp", ds[i].name, ds[i].args), i);
    } else {
      TouchedOnly(ds, Ensure(ds, "rtmp"), i);
    }
  }

  /** One turn makes its setting in rtmp, and no other. */
  lemma LookupAfterRootStep(ds: seq<Dir>, i: nat, k: string)
    requires i < |ds|
    ensures Lookup(RootStep(ds, i), "rtmp", k) ==
      if RootMoved(ds[i].name) && ds[i].name == k then Some(ds[i].args) else Lookup(ds, "rtmp", k)
  {
    var s := Ensure(ds, "rtmp");
    var j := Find(s, "rtmp");
    if RootMoved(ds[i].name) {
      var p := PutIn(ds, "rtmp", ds[i].name, ds[i].args);
      FindIs(p, "rtmp", j);
      assert p[i].name != "rtmp";
      GetAfterErase(p, i, "rtmp");
      ValueOfPut(s[j].subs, ds[i].name, ds[i].args, k);
      hide Put, Value;
    } else {
      assert Find(ds, "rtmp") == |ds| ==> s[j] == NewDir("rtmp");
    }
  }

  /** The first root directive wins: it is the last one that the backward loop sees. */
  lemma {:induction false} RootSettings(ds: seq<Dir>, i: nat, k: string)
    requires i <= |ds| && RootMoved(k)
    ensures Lookup(Root(ds, i), "rtmp", k) == if Value(ds[..i], k).Some? then Value(ds[..i], k) else Lookup(ds, "rtmp", k)
    decreases i
  {
    if i > 0 {
      hide RootStep, Lookup, Value, Find, RootMoved;
      var r := RootStep(ds, i - 1);
      RootStepIs(ds, i - 1);
      LookupAfterRootStep(ds, i - 1, k);
      ValueInPrefixes(ds, r, i, k);
      assert Root(ds, i) == Root(r, i - 1);
      hide TurnDone, Root;
      RootSettings(r, i - 1, k);
    } else {
      assert ds[..0] == [] && Value([], k) == None;
    }
  }

  lemma ValueInPrefixes(ds: seq<Dir>, r: seq<Dir>, i: nat, k: string)
    requires 0 < i <= |ds| && i - 1 <= |r|
    requires forall n :: 0 <= n < i - 1 ==> r[n].name == ds[n].name && r[n].args == ds[n].args
    ensures Value(r[..i - 1], k) == Value(ds[..i - 1], k)
    ensures Value(ds[..i], k) == if Value(ds[..i - 1], k).Some? then Value(ds[..i - 1], k)
                                 else if ds[i - 1].name == k then Some(ds[i - 1].args) else None
  {
    var f := Find(ds[..i - 1], k);
    if f < i - 1 {
      FindIs(r[..i - 1], k, f);
      FindIs(ds[..i], k, f);
    } else if ds[i - 1].name == k {
      FindIs(ds[..i], k, i - 1);
    }
  }

  lemma {:induction false} RootIsClean(ds: seq<Dir>, i: nat)
    requires i <= |ds| && NoneMoved(ds, i)
    requires i == 0 ==> ds == [] || Find(ds, "rtmp") < |ds|
    ensures forall d :: d in Root(ds, i) ==> !RootMoved(d.name)
    ensures Root(ds, i) == [] || Find(Root(ds, i), "rtmp") < |Root(ds, i)|
    decreases i
  {
    if i == 0 {
      assert forall d :: d in ds ==> exists k :: 0 <= k < |ds| && ds[k] == d;
    } else {
      RootStepIs(ds, i - 1);
      hide RootStep, NoneMoved;
      RootIsClean(RootStep(ds, i - 1), i - 1);
    }
  }

  // ---------- gb28181 ----------

  function Host(d: Dir): Dir {
    d.(name := "candidate")
  }

  /** `get_or_create("sip")->directives_.push_back(d)` */
  function PushSip(ds: seq<Dir>, d: Dir): seq<Dir> {
    var s := Ensure(ds, "sip");
    var j := Find(s, "sip");
    s[j := s[j].(subs := s[j].subs + [d])]
  }

  /** The loop that moves each host to sip.candidate, from child i on. */
  function MoveHosts(ds: seq<Dir>, i: nat): seq<Dir>
    requires i <= |ds|
    decreases Count(ds[i..], "host"), |ds| - i
  {
    if i == |ds| then ds
    else if ds[i].name == "host" then
      HostMoved(ds, i);
      MoveHosts(Erase(PushSip(ds, Host(ds[i])), i), i)
    else
      assert ds[i..][1..] == ds[i + 1..];
      MoveHosts(ds, i + 1)
  }

  lemma HostMoved(ds: seq<Dir>, i: nat)
    requires i < |ds| && ds[i].name == "host"
    ensures var p := PushSip(ds, Host(ds[i]));
      && |ds| <= |p| && Count(Erase(p, i)[i..], "host") < Count(ds[i..], "host")
      && (forall k :: 0 <= k < |p| ==> if k < |ds| then p[k].name == ds[k].name else p[k].name == "sip")
      && (forall k :: 0 <= k < |ds| && ds[k].name != "sip" ==> p[k] == ds[k])
  {
    var p := PushSip(ds, Host(ds[i]));
    assert Erase(p, i)[i..] == p[i + 1..];
    assert ds[i..][1..] == ds[i + 1..];
    SameCount(ds[i + 1..], p[i + 1..], "host");
  }

  lemma {:induction false} SameCount(a: seq<Dir>, b: seq<Dir>, n: string)
    requires |a| <= |b| && forall k :: 0 <= k < |b| ==> if k < |a| then b[k].name == a[k].name else b[k].name != n
    ensures Count(a, n) == Count(b, n)
    decreases b
  {
    if b != [] {
      SameCount(if a == [] then [] else a[1..], b[1..], n);
    }
  }

  function CleanSip(ds: seq<Dir>): seq<Dir> {
    var j := Find(ds, "sip");
    if j < |ds| then ds[j := ds[j].(subs := DropAll(ds[j].subs, UNUSED_SIP))] else ds
  }

  function Caster(ds: seq<Dir>): seq<Dir> {
    MoveHosts(CleanSip(DropAll(ds, UNUSED_GB)), 0)
  }

  predicate Unnamed(ds: seq<Dir>, names: set<string>) {
    forall d :: d in ds ==> d.name !in names
  }

  /** A caster in current form: nothing unused, no host, and the block `sip` clean. */
  predicate NormalCaster(ds: seq<Dir>) {
    && Unnamed(ds, UNUSED_GB) && Unnamed(ds, {"host"})
    && (Find(ds, "sip") < |ds| ==> Unnamed(ds[Find(ds, "sip")].subs, UNUSED_SIP))
  }

  lemma {:induction false} DropAllIs(ds: seq<Dir>, names: set<string>)
    ensures Unnamed(DropAll(ds, names), names)
    ensures DropAll(ds, names) == ds <==> Unnamed(ds, names)
    ensures |DropAll(ds, names)| <= |ds|
    ensures forall d :: d in DropAll(ds, names) <==> d in ds && d.name !in names
  {
    if ds != [] {
      DropAllIs(ds[1..], names);
      assert ds == [ds[0]] + ds[1..];
      if ds[0].name in names {
        assert ds[0] in ds && DropAll(ds, names) != ds;
      } else {
        assert DropAll(ds, names)[1..] == DropAll(ds[1..], names);
        assert forall d :: d in ds <==> d == ds[0] || d in ds[1..];
      }
    }
  }

  /** The children of the first sip, none when there is no sip. */
  function SipOf(ds: seq<Dir>): seq<Dir> {
    if Find(ds, "sip") < |ds| then ds[Find(ds, "sip")].subs else []
  }

  function Hosts(ds: seq<Dir>): seq<Dir> {
    if ds == [] then [] else (if ds[0].name == "host" then [Host(ds[0])] else []) + Hosts(ds[1..])
  }

  lemma SipAfterHost(ds: seq<Dir>, i: nat)
    requires i < |ds| && ds[i].name == "host"
    ensures var r := Erase(PushSip(ds, Host(ds[i])), i);
      SipOf(r) == SipOf(ds) + [Host(ds[i])] && Hosts(r[i..]) == Hosts(ds[i + 1..])
  {
    var p := PushSip(ds, Host(ds[i]));
    var j := Find(ds, "sip");
    HostMoved(ds, i);
    FindIs(p, "sip", j);
    GetAfterErase(p, i, "sip");
    var r := Erase(p, i);
    assert Get(r, "sip") == Get(p, "sip");
    assert r[i..] == p[i + 1..];
    SameHosts(ds[i + 1..], p[i + 1..]);
  }

  lemma {:induction false} SameHosts(a: seq<Dir>, b: seq<Dir>)
    requires |a| <= |b| && forall k :: 0 <= k < |b| ==>
      (k < |a| && b[k] == a[k]) || (b[k].name != "host" && (k < |a| ==> a[k].name != "host"))
    ensures Hosts(a) == Hosts(b)
    decreases b
  {
    if b != [] {
      SameHosts(if a == [] then [] else a[1..], b[1..]);
    }
  }

  lemma HostsOfRest(ds: seq<Dir>, i: nat)
    requires i < |ds|
    ensures Hosts(ds[i..]) == (if ds[i].name == "host" then [Host(ds[i])] else []) + Hosts(ds[i + 1..])
  {
    assert ds[i..][1..] == ds[i + 1..];
  }

  lemma Regrouped(a: seq<Dir>, b: seq<Dir>, c: seq<Dir>)
    ensures (a + b) + c == a + (b + c) && [] + c == c
  {
  }

  /** Every host ends, in order, as a candidate behind what the first sip held. */
  lemma {:induction false} HostsBecomeCandidates(ds: seq<Dir>, i: nat)
    requires i <= |ds|
    ensures SipOf(MoveHosts(ds, i)) == SipOf(ds) + Hosts(ds[i..])
    decreases Count(ds[i..], "host"), |ds| - i
  {
    if i < |ds| {
      hide PushSip, Erase, SipOf, Hosts;
      assert ds[i..][1..] == ds[i + 1..];
      HostsOfRest(ds, i);
      if ds[i].name == "host" {
        var r := Erase(PushSip(ds, Host(ds[i])), i);
        HostMoved(ds, i);
        SipAfterHost(ds, i);
        HostsBecomeCandidates(r, i);
        Regrouped(SipOf(ds), [Host(ds[i])], Hosts(ds[i + 1..]));
      } else {
        HostsBecomeCandidates(ds, i + 1);
        Regrouped([], [], Hosts(ds[i + 1..]));
      }
    }
  }

  /** Hosts go, and nothing unused comes. */
  lemma {:induction false} NoHostsLeft(ds: seq<Dir>, i: nat)
    requires i <= |ds| && forall k :: 0 <= k < i ==> ds[k].name != "host"
    ensures Unnamed(MoveHosts(ds, i), {"host"})
    ensures Unnamed(ds, UNUSED_GB) ==> Unnamed(MoveHosts(ds, i), UNUSED_GB)
    ensures Unnamed(ds, {"host"}) ==> MoveHosts(ds, i) == ds
    decreases Count(ds[i..], "host"), |ds| - i
  {
    if i < |ds| {
      if ds[i].name == "host" {
        var p := PushSip(ds, Host(ds[i]));
        HostMoved(ds, i);
        NamesAfterHost(ds, p, i);
        assert ds[i] in ds;
        hide PushSip, Erase, Unnamed;
        NoHostsLeft(Erase(p, i), i);
      } else {
        assert ds[i..][1..] == ds[i + 1..];
        hide Unnamed;
        NoHostsLeft(ds, i + 1);
      }
    }
  }

  lemma NamesAfterHost(ds: seq<Dir>, p: seq<Dir>, i: nat)
    requires i < |ds| <= |p| && forall k :: 0 <= k < |p| ==>
        if k < |ds| then p[k].name == ds[k].name else p[k].name == "sip"
    ensures forall k :: 0 <= k < i ==> Erase(p, i)[k].name == ds[k].name
    ensures Unnamed(ds, UNUSED_GB) ==> Unnamed(Erase(p, i), UNUSED_GB)
  {
    if Unnamed(ds, UNUSED_GB) {
      assert "sip" !in UNUSED_GB;
      forall d | d in Erase(p, i)
        ensures d.name !in UNUSED_GB
      {
        var k :| 0 <= k < |p| && p[k] == d;
        assert k < |ds| ==> ds[k] in ds;
      }
    }
  }

  lemma {:induction false} HostsAreCandidates(ds: seq<Dir>)
    ensures forall d :: d in Hosts(ds) ==> d.name == "candidate"
  {
    if ds != [] {
      HostsAreCandidates(ds[1..]);
    }
  }

  lemma CleanSipIs(ds: seq<Dir>)
    ensures |CleanSip(ds)| == |ds| && Find(CleanSip(ds), "sip") == Find(ds, "sip")
    ensures forall k :: 0 <= k < |ds| ==> CleanSip(ds)[k].name == ds[k].name
    ensures Unnamed(SipOf(CleanSip(ds)), UNUSED_SIP)
    ensures CleanSip(ds) == ds <==> Unnamed(SipOf(ds), UNUSED_SIP)
  {
    var j := Find(ds, "sip");
    if j < |ds| {
      DropAllIs(ds[j].subs, UNUSED_SIP);
      FindIs(CleanSip(ds), "sip", j);
      assert CleanSip(ds)[j].subs == DropAll(ds[j].subs, UNUSED_SIP);
    }
  }

  lemma UnnamedByPlace(a: seq<Dir>, b: seq<Dir>, names: set<string>)
    requires |a| == |b| && (forall k :: 0 <= k < |a| ==> b[k].name == a[k].name) && Unnamed(a, names)
    ensures Unnamed(b, names)
  {
    forall d | d in b
      ensures d.name !in names
    {
      var k :| 0 <= k < |b| && b[k] == d;
      assert a[k] in a;
    }
  }

  /** One pass brings a caster into current form. */
  lemma CasterIsNormal(ds: seq<Dir>)
    ensures NormalCaster(Caster(ds))
  {
    var a := DropAll(ds, UNUSED_GB);
    var b := CleanSip(a);
    DropAllIs(ds, UNUSED_GB);
    CleanSipIs(a);
    UnnamedByPlace(a, b, UNUSED_GB);
    NoHostsLeft(b, 0);
    SipStaysClean(b);
    hide MoveHosts, CleanSip, DropAll, Unnamed;
  }

  lemma SipStaysClean(ds: seq<Dir>)
    requires Unnamed(SipOf(ds), UNUSED_SIP)
    ensures Unnamed(SipOf(MoveHosts(ds, 0)), UNUSED_SIP)
  {
    HostsBecomeCandidates(ds, 0);
    HostsAreCandidates(ds);
    assert ds[0..] == ds && "candidate" !in UNUSED_SIP;
    hide MoveHosts, SipOf, Hosts;
  }

  /** The casters that a pass leaves alone are those in current form. */
  lemma CasterFixesIff(ds: seq<Dir>)
    ensures Caster(ds) == ds <==> NormalCaster(ds)
  {
    CasterIsNormal(ds);
    if NormalCaster(ds) {
      DropAllIs(ds, UNUSED_GB);
      CleanSipIs(ds);
      NoHostsLeft(ds, 0);
      hide MoveHosts, CleanSip, DropAll;
    }
  }

  // ---------- later sips ----------

  predicate SipsClean(ds: seq<Dir>) {
    forall d :: d in ds && d.name == "sip" ==> Unnamed(d.subs, UNUSED_SIP)
  }

  /** All blocks called sip but the first are clean. */
  predicate LaterSipsClean(ds: seq<Dir>) {
    if ds == [] then true
    else if ds[0].name == "sip" then SipsClean(ds[1..])
    else LaterSipsClean(ds[1..])
  }

  lemma {:induction false} LaterSipsAfterDrop(ds: seq<Dir>)
    ensures LaterSipsClean(DropAll(ds, UNUSED_GB)) <==> LaterSipsClean(ds)
  {
    if ds != [] {
      assert "sip" !in UNUSED_GB;
      DropAllIs(ds[1..], UNUSED_GB);
      LaterSipsAfterDrop(ds[1..]);
      hide Unnamed;
    }
  }

  lemma SipsOfCons(d: Dir, ds: seq<Dir>)
    ensures SipsClean([d] + ds) <==> (d.name == "sip" ==> Unnamed(d.subs, UNUSED_SIP)) && SipsClean(ds)
  {
    hide Unnamed;
    assert forall x :: x in [d] + ds <==> x == d || x in ds;
  }

  lemma CleanSipFront(ds: seq<Dir>)
    ensures ds != [] && ds[0].name != "sip" ==> CleanSip(ds) == [ds[0]] + CleanSip(ds[1..])
    ensures ds != [] && ds[0].name == "sip" ==> CleanSip(ds) == [ds[0].(subs := DropAll(ds[0].subs, UNUSED_SIP))] + ds[1..]
  {
  }

  lemma {:induction false} CleaningTheFirst(ds: seq<Dir>)
    ensures SipsClean(CleanSip(ds)) <==> LaterSipsClean(ds)
  {
    if ds != [] {
      hide Unnamed, DropAll, CleanSip, SipsClean;
      CleanSipFront(ds);
      if ds[0].name == "sip" {
        DropAllIs(ds[0].subs, UNUSED_SIP);
        SipsOfCons(ds[0].(subs := DropAll(ds[0].subs, UNUSED_SIP)), ds[1..]);
      } else {
        CleaningTheFirst(ds[1..]);
        SipsOfCons(ds[0], CleanSip(ds[1..]));
      }
    } else {
      assert CleanSip([]) == [];
    }
  }

  lemma SipsAfterHost(ds: seq<Dir>, i: nat)
    requires i < |ds| && ds[i].name == "host"
    ensures SipsClean(Erase(PushSip(ds, Host(ds[i])), i)) <==> SipsClean(ds)
  {
    var c := Host(ds[i]);
    var s := Ensure(ds, "sip");
    var j := Find(s, "sip");
    var p := PushSip(ds, c);
    assert c.name !in UNUSED_SIP;
    assert forall d :: d in s[j].subs + [c] <==> d in s[j].subs || d == c;
    assert Unnamed(p[j].subs, UNUSED_SIP) <==> Unnamed(s[j].subs, UNUSED_SIP);
    SipsByPlace(ds, s);
    hide Unnamed;
    SipsUpdated(s, j, p[j]);
    SipsErased(p, i);
  }

  lemma SipsByPlace(ds: seq<Dir>, s: seq<Dir>)
    requires s == ds || s == ds + [NewDir("sip")]
    ensures SipsClean(s) <==> SipsClean(ds)
  {
    assert forall d :: d in ds ==> d in s;
  }

  lemma SipsUpdated(s: seq<Dir>, j: nat, d: Dir)
    requires j < |s| && d.name == s[j].name && (Unnamed(d.subs, UNUSED_SIP) <==> Unnamed(s[j].subs, UNUSED_SIP))
    ensures SipsClean(s[j := d]) <==> SipsClean(s)
  {
    hide Unnamed;
    var r := s[j := d];
    assert forall k :: 0 <= k < |s| ==> s[k] in s && r[k] in r;
    assert forall k :: 0 <= k < |s| && k != j ==> r[k] == s[k];
  }

  lemma SipsErased(s: seq<Dir>, i: nat)
    requires i < |s| && s[i].name == "host"
    ensures SipsClean(Erase(s, i)) <==> SipsClean(s)
  {
    hide Unnamed;
    assert s == s[..i] + ([s[i]] + s[i + 1..]);
  }

  lemma {:induction false} SipsAfterHosts(ds: seq<Dir>, i: nat)
    requires i <= |ds|
    ensures SipsClean(MoveHosts(ds, i)) <==> SipsClean(ds)
    decreases Count(ds[i..], "host"), |ds| - i
  {
    if i < |ds| {
      if ds[i].name == "host" {
        HostMoved(ds, i);
        SipsAfterHost(ds, i);
        hide SipsClean, PushSip, Erase;
        SipsAfterHosts(Erase(PushSip(ds, Host(ds[i])), i), i);
      } else {
        assert ds[i..][1..] == ds[i + 1..];
        hide SipsClean;
        SipsAfterHosts(ds, i + 1);
      }
    }
  }

  /** Only the first sip is looked at: all are clean afterwards iff the later ones were before. */
  lemma SipsCleanIff(ds: seq<Dir>)
    ensures SipsClean(Caster(ds)) <==> LaterSipsClean(ds)
  {
    hide SipsClean, LaterSipsClean, MoveHosts, CleanSip, DropAll;
    SipsAfterHosts(CleanSip(DropAll(ds, UNUSED_GB)), 0);
    CleaningTheFirst(DropAll(ds, UNUSED_GB));
    LaterSipsAfterDrop(ds);
  }
}
