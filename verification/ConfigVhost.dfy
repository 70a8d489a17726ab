/**
 The rewriting of the children of a vhost: the list grows while it is scanned, and no legacy
 directive is left behind.
 */
module ConfigVhost {
  import opened ConfigTree
  import opened ConfigLegacy

  /** The loop over the children of a vhost, from child i on. */
  function Vhost(ds: seq<Dir>, i: nat): seq<Dir>
    requires i <= |ds|
    decreases Weight(ds[i..])
  {
    if i == |ds| then ds
    else if Legacy(ds[i]) then
      MoveLeavesLess(ds, i);
      Vhost(Move(ds, i), i)
    else
      assert ds[i := InPlace(ds[i])][i + 1..] == ds[i..][1..];
      Vhost(ds[i := InPlace(ds[i])], i + 1)
  }

  // ---------- what is legacy ----------

  /** Not a legacy directive of a vhost. */
  predicate Clean(d: Dir) {
    !Legacy(d) && d.name != "http" && !OldForward(d)
  }

  /** How many of ds are called n. */
  function Count(ds: seq<Dir>, n: string): nat {
    if ds == [] then 0 else (if ds[0].name == n then 1 else 0) + Count(ds[1..], n)
  }

  /** In its current form: clean, and without the settings that went out of use. */
  predicate Normal(d: Dir) {
    && Clean(d)
    && (d.name == "http_remux" ==> Count(d.subs, "hstrs") == 0)
    && (d.name == "rtc" ==> Count(d.subs, "aac") == 0 && Count(d.subs, "bframe") == 0)
  }

  /** The settings that are removed one at a time are there at most once. */
  predicate AtMostOne(d: Dir) {
    && (d.name == "http_remux" ==> Count(d.subs, "hstrs") <= 1)
    && (d.name == "rtc" ==> Count(d.subs, "aac") <= 1 && Count(d.subs, "bframe") <= 1)
  }

  // ---------- counting ----------

  lemma {:induction false} CountOfConcat(a: seq<Dir>, b: seq<Dir>, n: string)
    ensures Count(a + b, n) == Count(a, n) + Count(b, n)
  {
    if a == [] {
      assert a + b == b;
    } else {
      assert (a + b)[1..] == a[1..] + b;
      CountOfConcat(a[1..], b, n);
    }
  }

  lemma CountSplit(ds: seq<Dir>, i: nat, n: string)
    requires i < |ds|
    ensures Count(ds, n) == Count(ds[..i], n) + (if ds[i].name == n then 1 else 0) + Count(ds[i + 1..], n)
  {
    assert ds == ds[..i] + ([ds[i]] + ds[i + 1..]);
    CountOfConcat(ds[..i], [ds[i]] + ds[i + 1..], n);
    assert ([ds[i]] + ds[i + 1..])[1..] == ds[i + 1..];
  }

  lemma {:induction false} NoneFound(ds: seq<Dir>, n: string)
    ensures Count(ds, n) == 0 <==> Find(ds, n) == |ds|
  {
    if ds != [] {
      NoneFound(ds[1..], n);
    }
  }

  lemma CountOfDrop(ds: seq<Dir>, n: string, m: string)
    ensures Count(Drop(ds, n), m) == if m == n && Count(ds, n) > 0 then Count(ds, n) - 1 else Count(ds, m)
  {
    NoneFound(ds, n);
    var i := Find(ds, n);
    if i < |ds| {
      CountSplit(ds, i, m);
      CountSplit(ds, i, n);
      CountOfConcat(ds[..i], ds[i + 1..], m);
    }
  }

  lemma CountOfPut(ds: seq<Dir>, k: string, args: seq<string>, n: string)
    requires k != n
    ensures Count(Put(ds, k, args), n) == Count(ds, n) && Count(Ensure(ds, k), n) == Count(ds, n)
  {
    var s := Ensure(ds, k);
    var i := Find(s, k);
    CountOfConcat(ds, [NewDir(k)], n);
    var r := Put(ds, k, args);
    CountSplit(s, i, n);
    CountSplit(r, i, n);
    assert r[..i] == s[..i] && r[i + 1..] == s[i + 1..];
  }

  lemma CountOfPutArg0(ds: seq<Dir>, k: string, a: string, n: string)
    requires k != n
    ensures Count(PutArg0(ds, k, a), n) == Count(ds, n)
  {
    var s := Ensure(ds, k);
    CountOfPut(ds, k, [], n);
    CountOfPut(s, k, SetArg0(s[Find(s, k)].args, a), n);
  }

  lemma {:induction false} CountOfPutSettings(ds: seq<Dir>, settings: seq<Setting>, n: string)
    requires forall s :: s in settings ==> s.key != n
    ensures Count(PutSettings(ds, settings), n) == Count(ds, n)
    decreases settings
  {
    if settings != [] {
      CountOfPut(ds, settings[0].key, settings[0].args, n);
      CountOfPutSettings(Put(ds, settings[0].key, settings[0].args), settings[1..], n);
    }
  }

  const RTC_KEYS: set<string> := {"aac", "bframe", "rtmp_to_rtc", "keep_bframe"}

  lemma SubKeys(d: Dir, sub: string, key: string)
    ensures forall s :: s in FromSub(d, sub, key) ==> s.key == key
  {
  }

  /** No legacy directive sets one of the keys that `rtc` itself rewrites. */
  lemma PlainKeys(d: Dir)
    ensures forall s :: s in Settings(d) ==> s.key !in RTC_KEYS
  {
    if d.name in PLAY || d.name in CLUSTER {
      NotRtcKey(d.name);
    } else {
      hide Settings, PLAY, CLUSTER;
      forall s | s in Settings(d)
        ensures s.key !in RTC_KEYS
      {
        OtherKeys(d, s);
      }
    }
  }

  lemma OtherKeys(d: Dir, s: Setting)
    requires d.name !in PLAY && d.name !in CLUSTER && s in Settings(d)
    ensures s.key in {"mr", "mr_latency", "firstpkt_timeout", "normal_timeout", "nack", "nack_no_copy", "twcc",
      "play", "publish", "all"}
  {
    hide PLAY, CLUSTER, FromSub;
    SubKeys(d, "enabled", "mr");
    SubKeys(d, "latency", "mr_latency");
    SubKeys(d, "enabled", "nack");
    SubKeys(d, "no_copy", "nack_no_copy");
    SubKeys(d, "enabled", "twcc");
  }

  lemma NotRtcKey(n: string)
    requires n in PLAY || n in CLUSTER
    ensures n !in RTC_KEYS
  {
  }

  /** Taking over a directive changes nothing about being normal. */
  lemma TakeOverCounts(subs: seq<Dir>, d: Dir, n: string)
    requires Legacy(d) && Block(d) == "rtc" && (n == "aac" || n == "bframe")
    ensures Count(TakeOver(subs, d), n) == Count(subs, n)
  {
    PlainKeys(d);
    CountOfPutSettings(subs, Settings(d), n);
  }

  // ---------- in place ----------

  lemma CountOfReplace(ds: seq<Dir>, was: string, yes: string, n: string, m: string)
    requires n != was && n != m
    ensures Count(Replace(ds, was, yes, n), m) ==
        if m == was && Count(ds, was) > 0 then Count(ds, was) - 1 else Count(ds, m)
    ensures Count(ds, was) == 0 ==> Replace(ds, was, yes, n) == ds
  {
    NoneFound(ds, was);
    if Get(ds, was).Some? {
      var a := if Arg0(Get(ds, was).value.args) == yes then "on" else "off";
      CountOfPutArg0(ds, n, a, was);
      CountOfPutArg0(ds, n, a, m);
      CountOfDrop(PutArg0(ds, n, a), was, m);
    }
  }

  lemma CountsInRtc(subs: seq<Dir>)
    ensures Count(Rtc(subs), "aac") == if Count(subs, "aac") == 0 then 0 else Count(subs, "aac") - 1
    ensures Count(Rtc(subs), "bframe") == if Count(subs, "bframe") == 0 then 0 else Count(subs, "bframe") - 1
    ensures Count(subs, "aac") == 0 && Count(subs, "bframe") == 0 ==> Rtc(subs) == subs
  {
    hide Count, Replace;
    var s := Replace(subs, "aac", "transcode", "rtmp_to_rtc");
    CountOfReplace(subs, "aac", "transcode", "rtmp_to_rtc", "aac");
    CountOfReplace(subs, "aac", "transcode", "rtmp_to_rtc", "bframe");
    CountOfReplace(s, "bframe", "keep", "keep_bframe", "aac");
    CountOfReplace(s, "bframe", "keep", "keep_bframe", "bframe");
  }

  lemma InPlaceIsClean(d: Dir)
    requires !Legacy(d)
    ensures Clean(InPlace(d))
  {
  }

  /** One pass normalises a child exactly when nothing is there twice. */
  lemma InPlaceNormalIff(d: Dir)
    requires !Legacy(d)
    ensures Normal(InPlace(d)) <==> AtMostOne(d)
  {
    InPlaceIsClean(d);
    CountsInRtc(d.subs);
    CountOfDrop(d.subs, "hstrs", "hstrs");
    hide Clean, Legacy, Rtc, Drop;
  }

  /** The clean children that a pass leaves alone are the normal ones. */
  lemma InPlaceFixes(d: Dir)
    requires Clean(d)
    ensures InPlace(d) == d <==> Normal(d)
  {
    CountsInRtc(d.subs);
    CountOfDrop(d.subs, "hstrs", "hstrs");
    NoneFound(d.subs, "hstrs");
    hide Legacy, Rtc;
  }

  // ---------- one move ----------

  lemma MoveKeepsClean(ds: seq<Dir>, i: nat)
    requires i < |ds| && Legacy(ds[i]) && forall k :: 0 <= k < i ==> Clean(ds[k])
    ensures |Move(ds, i)| >= i && forall k :: 0 <= k < i ==> Clean(Move(ds, i)[k])
  {
    MoveIs(ds, i);
    BlockIsNotMoved(ds[i]);
    hide Legacy, Move, Block, TakeOver, MovedName;
  }

  lemma LegacyIsPlain(d: Dir)
    requires Legacy(d)
    ensures AtMostOne(d) && d.name !in {"rtc", "http_remux", "play", "cluster", "publish"}
  {
  }

  /** Taking over the settings of a legacy directive keeps a child normal, and no more than once. */
  lemma TakingOverKeeps(b: Dir, d: Dir)
    requires Legacy(d) && b.name == Block(d)
    ensures var b' := b.(subs := TakeOver(b.subs, d));
      && (AtMostOne(b') <==> AtMostOne(b))
      && (Clean(b) ==> (Normal(b') <==> Normal(b)))
  {
    BlockIsNotMoved(d);
    BlockStays(b.subs, d);
    if b.name == "rtc" {
      TakeOverCounts(b.subs, d, "aac");
      TakeOverCounts(b.subs, d, "bframe");
    }
    hide Block, TakeOver, MovedName;
  }

  /** What is done up to i is normal, and nothing is twice in the rest. */
  predicate Fine(ds: seq<Dir>, i: nat) {
    forall k :: 0 <= k < |ds| ==> if k < i then Normal(ds[k]) else AtMostOne(ds[k])
  }

  lemma MoveKeepsFine(ds: seq<Dir>, i: nat)
    requires i < |ds| && Legacy(ds[i]) && forall k :: 0 <= k < i ==> Clean(ds[k])
    ensures Fine(Move(ds, i), i) <==> Fine(ds, i)
  {
    var e := Erase(ds, i);
    var r := Move(ds, i);
    var j := Find(e, Block(ds[i]));
    MoveIs(ds, i);
    LegacyIsPlain(ds[i]);
    BlockIsNotMoved(ds[i]);
    TakingOverKeeps(if j < |e| then e[j] else NewDir(Block(ds[i])), ds[i]);
    FineEdit(ds, e, r, i, j);
  }

  lemma FineEdit(ds: seq<Dir>, e: seq<Dir>, r: seq<Dir>, i: nat, j: nat)
    requires i < |ds| && e == Erase(ds, i) && AtMostOne(ds[i])
    requires |r| == (if j < |e| then |e| else |e| + 1) && j <= |e| && forall k :: 0 <= k < |e| && k != j ==> r[k] == e[k]
    requires forall k :: 0 <= k < i ==> Clean(ds[k])
    requires j < |e| ==> (AtMostOne(r[j]) <==> AtMostOne(e[j])) && (Clean(e[j]) ==> (Normal(r[j]) <==> Normal(e[j])))
    requires j == |e| ==> AtMostOne(r[j])
    ensures Fine(r, i) <==> Fine(ds, i)
  {
    hide Clean, AtMostOne, Normal;
    if Fine(ds, i) {
      forall k | 0 <= k < |r|
        ensures if k < i then Normal(r[k]) else AtMostOne(r[k])
      {
        assert k < |e| ==> e[k] == if k < i then ds[k] else ds[k + 1];
      }
    }
    if Fine(r, i) {
      forall k | 0 <= k < |ds|
        ensures if k < i then Normal(ds[k]) else AtMostOne(ds[k])
      {
        assert k != i ==> ds[k] == if k < i then e[k] else e[k - 1];
      }
    }
  }

  lemma FineInPlace(ds: seq<Dir>, i: nat, d: Dir)
    requires i < |ds| && (Normal(d) <==> AtMostOne(ds[i]))
    ensures Fine(ds[i := d], i + 1) <==> Fine(ds, i)
  {
    hide Normal, AtMostOne;
    var r := ds[i := d];
    if Fine(r, i + 1) {
      forall k | 0 <= k < |ds|
        ensures if k < i then Normal(ds[k]) else AtMostOne(ds[k])
      {
        assert r[k] == if k == i then d else ds[k];
      }
    }
  }

  // ---------- the whole loop ----------

  /** No legacy directive is left at its legacy place. */
  lemma {:induction false} VhostIsClean(ds: seq<Dir>, i: nat)
    requires i <= |ds| && forall k :: 0 <= k < i ==> Clean(ds[k])
    ensures forall d :: d in Vhost(ds, i) ==> Clean(d)
    decreases Weight(ds[i..])
  {
    hide Clean, InPlace, Move;
    if i < |ds| {
      if Legacy(ds[i]) {
        MoveLeavesLess(ds, i);
        MoveKeepsClean(ds, i);
        VhostIsClean(Move(ds, i), i);
      } else {
        InPlaceIsClean(ds[i]);
        assert ds[i := InPlace(ds[i])][i + 1..] == ds[i..][1..];
        VhostIsClean(ds[i := InPlace(ds[i])], i + 1);
      }
    }
  }

  /** The result is in current form exactly when nothing that is removed was there twice. */
  lemma {:induction false} VhostIsNormalIff(ds: seq<Dir>, i: nat)
    requires i <= |ds| && forall k :: 0 <= k < i ==> Clean(ds[k])
    ensures (forall d :: d in Vhost(ds, i) ==> Normal(d)) <==> Fine(ds, i)
    decreases Weight(ds[i..])
  {
    hide Clean, InPlace, Move, Normal, AtMostOne;
    if i == |ds| {
      assert forall k :: 0 <= k < |ds| ==> ds[k] in ds;
    } else if Legacy(ds[i]) {
      MoveLeavesLess(ds, i);
      MoveKeepsClean(ds, i);
      MoveKeepsFine(ds, i);
      hide Fine;
      VhostIsNormalIff(Move(ds, i), i);
    } else {
      var r := ds[i := InPlace(ds[i])];
      InPlaceIsClean(ds[i]);
      InPlaceNormalIff(ds[i]);
      assert r[i + 1..] == ds[i..][1..];
      FineInPlace(ds, i, InPlace(ds[i]));
      hide Fine;
      VhostIsNormalIff(r, i + 1);
    }
  }

  /** On a clean list the loop only rewrites children in place. */
  lemma {:induction false} VhostOfClean(ds: seq<Dir>, i: nat)
    requires i <= |ds| && forall k :: i <= k < |ds| ==> Clean(ds[k])
    ensures |Vhost(ds, i)| == |ds|
    ensures forall k :: 0 <= k < |ds| ==> Vhost(ds, i)[k] == if k < i then ds[k] else InPlace(ds[k])
    decreases |ds| - i
  {
    hide InPlace, Move, Legacy;
    if i < |ds| {
      VhostOfClean(ds[i := InPlace(ds[i])], i + 1);
    }
  }

  /** The loop leaves exactly the lists in current form unchanged. */
  lemma VhostFixesIff(ds: seq<Dir>)
    ensures Vhost(ds, 0) == ds <==> forall d :: d in ds ==> Normal(d)
  {
    VhostIsClean(ds, 0);
    hide Vhost, Clean, InPlace;
    var n := |ds|;
    if forall k :: 0 <= k < n ==> Clean(ds[k]) {
      VhostOfClean(ds, 0);
      forall k | 0 <= k < n
        ensures InPlace(ds[k]) == ds[k] <==> Normal(ds[k])
      {
        InPlaceFixes(ds[k]);
      }
      FixIff(ds, Vhost(ds, 0));
    } else {
      var k :| 0 <= k < n && !Clean(ds[k]);
      assert ds[k] in ds;
    }
  }

  lemma FixIff(ds: seq<Dir>, r: seq<Dir>)
    requires |r| == |ds| && forall k :: 0 <= k < |ds| ==> (r[k] == ds[k] <==> Normal(ds[k]))
    ensures r == ds <==> forall d :: d in ds ==> Normal(d)
  {
    hide Normal;
    assert r == ds <==> forall k :: 0 <= k < |ds| ==> r[k] == ds[k];
    assert forall k :: 0 <= k < |ds| ==> ds[k] in ds;
  }

  /** A second pass changes nothing iff the first one had at most one of each to remove. */
  lemma VhostIdempotentIff(ds: seq<Dir>)
    ensures Vhost(Vhost(ds, 0), 0) == Vhost(ds, 0) <==> forall d :: d in ds ==> AtMostOne(d)
  {
    VhostFixesIff(Vhost(ds, 0));
    VhostIsNormalIff(ds, 0);
    hide Vhost, Normal, AtMostOne;
    assert forall k :: 0 <= k < |ds| ==> ds[k] in ds;
  }
}
