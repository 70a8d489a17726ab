/**
 `srs_config_transform_vhost`: the whole rewriting of a configuration, what it reaches, and when
 a second one changes nothing.
 */
module ConfigTransform {
  import opened ConfigTree
  import opened ConfigLegacy
  import opened ConfigVhost
  import opened ConfigSettings
  import opened ConfigRoot

  // ---------- the specification ----------

  function RenameAll(ds: seq<Dir>, was: string, now: string): (r: seq<Dir>)
    ensures |r| == |ds| && forall i :: 0 <= i < |ds| ==> r[i] == if ds[i].name == was then ds[i].(name := now) else ds[i]
  {
    if ds == [] then [] else [if ds[0].name == was then ds[0].(name := now) else ds[0]] + RenameAll(ds[1..], was, now)
  }

  /** What happens to one child of the root. */
  function RootDir(d: Dir): Dir {
    if d.name == "http_stream" then d.(name := "http_server")
    else if d.name == "rtc_server" then d.(subs := DropAll(d.subs, UNUSED_RTC))
    else if d.name == "srt_server" then d.(subs := RenameAll(d.subs, "tlpkdrop", "tlpktdrop"))
    else if d.name == "stream_caster" then d.(subs := Caster(d.subs))
    else if d.name == "vhost" then d.(subs := Vhost(d.subs, 0))
    else d
  }

  function RootDirs(ds: seq<Dir>): (r: seq<Dir>)
    ensures |r| == |ds| && forall i :: 0 <= i < |ds| ==> r[i] == RootDir(ds[i])
  {
    if ds == [] then [] else [RootDir(ds[0])] + RootDirs(ds[1..])
  }

  /** The children of the root after the rewriting. */
  function Transform(ds: seq<Dir>): seq<Dir> {
    RootDirs(Root(ds, |ds|))
  }

  // ---------- current form ----------

  predicate NormalDir(d: Dir) {
    && d.name != "http_stream"
    && (d.name == "rtc_server" ==> Unnamed(d.subs, UNUSED_RTC))
    && (d.name == "srt_server" ==> Unnamed(d.subs, {"tlpkdrop"}))
    && (d.name == "stream_caster" ==> NormalCaster(d.subs))
    && (d.name == "vhost" ==> forall c :: c in d.subs ==> Normal(c))
  }

  predicate AtMostOneDir(d: Dir) {
    d.name == "vhost" ==> forall c :: c in d.subs ==> AtMostOne(c)
  }

  lemma RenamedAll(ds: seq<Dir>)
    ensures Unnamed(RenameAll(ds, "tlpkdrop", "tlpktdrop"), {"tlpkdrop"})
    ensures RenameAll(ds, "tlpkdrop", "tlpktdrop") == ds <==> Unnamed(ds, {"tlpkdrop"})
  {
    var r := RenameAll(ds, "tlpkdrop", "tlpktdrop");
    forall d | d in r
      ensures d.name != "tlpkdrop"
    {
      var k :| 0 <= k < |r| && r[k] == d;
    }
    if Unnamed(ds, {"tlpkdrop"}) {
      assert forall k :: 0 <= k < |ds| ==> ds[k] in ds && r[k] == ds[k];
    }
  }

  lemma VhostNormalIff(ds: seq<Dir>)
    ensures (forall c :: c in Vhost(ds, 0) ==> Normal(c)) <==> forall c :: c in ds ==> AtMostOne(c)
  {
    VhostIsNormalIff(ds, 0);
    hide Vhost, Normal, AtMostOne;
    assert forall k :: 0 <= k < |ds| ==> ds[k] in ds;
  }

  lemma DirNormalIff(d: Dir)
    ensures NormalDir(RootDir(d)) <==> AtMostOneDir(d)
    ensures RootDir(d).name == "vhost" <==> d.name == "vhost"
    ensures RootMoved(RootDir(d).name) <==> RootMoved(d.name)
    ensures RootDir(d).name == "rtmp" <==> d.name == "rtmp"
  {
    RenamedAll(d.subs);
    DropAllIs(d.subs, UNUSED_RTC);
    CasterIsNormal(d.subs);
    VhostNormalIff(d.subs);
    hide Vhost, Caster, DropAll, RenameAll, Unnamed, NormalCaster, Normal, AtMostOne;
  }

  lemma DirFixesIff(d: Dir)
    ensures RootDir(d) == d <==> NormalDir(d)
  {
    RenamedAll(d.subs);
    DropAllIs(d.subs, UNUSED_RTC);
    CasterFixesIff(d.subs);
    VhostFixesIff(d.subs);
    hide Vhost, Caster, DropAll, RenameAll, Unnamed, NormalCaster, Normal;
  }

  /** A configuration in current form. */
  predicate NormalRoot(ds: seq<Dir>) {
    && NoneMoved(ds, 0) && (ds == [] || Find(ds, "rtmp") < |ds|)
    && forall k :: 0 <= k < |ds| ==> NormalDir(ds[k])
  }

  /** Of each setting that is removed one at a time there is at most one. */
  predicate AtMostOneRoot(ds: seq<Dir>) {
    forall k :: 0 <= k < |ds| ==> AtMostOneDir(ds[k])
  }

  // ---------- the root keeps the vhosts ----------

  lemma TouchedKeepsVhosts(ds: seq<Dir>, s: seq<Dir>)
    requires Touched(ds, s)
    ensures AtMostOneRoot(s) <==> AtMostOneRoot(ds)
  {
    var j := Find(ds, "rtmp");
    assert AtMostOneDir(s[j]) && (j < |ds| ==> AtMostOneDir(ds[j]));
    hide AtMostOneDir, Find;
    if AtMostOneRoot(s) {
      forall k | 0 <= k < |ds|
        ensures AtMostOneDir(ds[k])
      {
        assert k != j ==> s[k] == ds[k];
      }
    }
  }

  lemma EraseKeepsVhosts(s: seq<Dir>, i: nat)
    requires i < |s| && AtMostOneDir(s[i])
    ensures AtMostOneRoot(Erase(s, i)) <==> AtMostOneRoot(s)
  {
    hide AtMostOneDir;
    var r := Erase(s, i);
    if AtMostOneRoot(s) {
      forall k: nat | k < |r|
        ensures AtMostOneDir(r[k])
      {
        ErasedAt(s, i, k);
      }
    }
    if AtMostOneRoot(r) {
      forall k: nat | k < |s|
        ensures AtMostOneDir(s[k])
      {
        if k != i {
          ErasedAt(s, i, if k < i then k else k - 1);
        }
      }
    }
  }

  lemma StepKeepsVhosts(ds: seq<Dir>, i: nat)
    requires i < |ds|
    ensures AtMostOneRoot(RootStep(ds, i)) <==> AtMostOneRoot(ds)
  {
    TouchedBy(ds, ds[i].name, ds[i].args);
    var p := PutIn(ds, "rtmp", ds[i].name, ds[i].args);
    TouchedKeepsVhosts(ds, p);
    TouchedKeepsVhosts(ds, Ensure(ds, "rtmp"));
    if RootMoved(ds[i].name) {
      assert p[i] == ds[i];
      hide AtMostOneRoot, PutIn, Ensure;
      EraseKeepsVhosts(p, i);
    }
  }

  lemma {:induction false} RootKeepsVhosts(ds: seq<Dir>, i: nat)
    requires i <= |ds|
    ensures AtMostOneRoot(Root(ds, i)) <==> AtMostOneRoot(ds)
    decreases i
  {
    hide AtMostOneRoot, RootStep;
    if i > 0 {
      StepKeepsVhosts(ds, i - 1);
      RootKeepsVhosts(RootStep(ds, i - 1), i - 1);
    }
  }

  lemma {:induction false} RootFixes(ds: seq<Dir>, i: nat)
    requires i <= |ds| && NoneMoved(ds, 0) && (i == 0 || Find(ds, "rtmp") < |ds|)
    ensures Root(ds, i) == ds
    decreases i
  {
    if i > 0 {
      RootFixes(ds, i - 1);
    }
  }

  // ---------- the whole ----------

  /** The shape of the root after one pass. */
  lemma TransformedRoot(ds: seq<Dir>)
    ensures NoneMoved(Transform(ds), 0)
    ensures Transform(ds) == [] || Find(Transform(ds), "rtmp") < |Transform(ds)|
  {
    RootIsClean(ds, |ds|);
    var s := Root(ds, |ds|);
    var r := RootDirs(s);
    hide Root, RootDir;
    forall k | 0 <= k < |r|
      ensures !RootMoved(r[k].name)
    {
      DirNormalIff(s[k]);
      assert s[k] in s;
    }
    if s != [] {
      DirNormalIff(s[Find(s, "rtmp")]);
      assert r[Find(s, "rtmp")].name == "rtmp";
    }
  }

  /** One pass reaches the current form exactly when no vhost holds two of what is removed one at a time. */
  lemma TransformIsNormalIff(ds: seq<Dir>)
    ensures NormalRoot(Transform(ds)) <==> AtMostOneRoot(ds)
  {
    TransformedRoot(ds);
    RootKeepsVhosts(ds, |ds|);
    var s := Root(ds, |ds|);
    var r := RootDirs(s);
    hide Root, RootDir, NormalDir, AtMostOneDir, NoneMoved;
    forall k | 0 <= k < |s|
      ensures NormalDir(r[k]) <==> AtMostOneDir(s[k])
    {
      DirNormalIff(s[k]);
    }
    if NormalRoot(r) {
      assert forall k :: 0 <= k < |s| ==> NormalDir(r[k]);
    }
  }

  /** A pass leaves exactly the configurations in current form unchanged. */
  lemma TransformFixesIff(ds: seq<Dir>)
    ensures Transform(ds) == ds <==> NormalRoot(ds)
  {
    TransformedRoot(ds);
    hide RootDir, NormalDir, Root;
    if NoneMoved(ds, 0) && (ds == [] || Find(ds, "rtmp") < |ds|) {
      RootFixes(ds, |ds|);
      forall k | 0 <= k < |ds|
        ensures RootDir(ds[k]) == ds[k] <==> NormalDir(ds[k])
      {
        DirFixesIff(ds[k]);
      }
      assert RootDirs(ds) == ds <==> forall k :: 0 <= k < |ds| ==> RootDirs(ds)[k] == ds[k];
    }
  }

  /** The rewriting is idempotent exactly on the configurations whose vhosts hold at most one
      `hstrs` in each `http_remux`, and one `aac` and one `bframe` in each `rtc`. */
  lemma TransformIdempotentIff(ds: seq<Dir>)
    ensures Transform(Transform(ds)) == Transform(ds) <==> AtMostOneRoot(ds)
  {
    TransformFixesIff(Transform(ds));
    TransformIsNormalIff(ds);
  }

  /** The settings listen and chunk_size of rtmp: the first root directive of that name wins. */
  lemma FirstRootSettingWins(ds: seq<Dir>, k: string)
    requires RootMoved(k)
    ensures Lookup(Transform(ds), "rtmp", k) == if Value(ds, k).Some? then Value(ds, k) else Lookup(ds, "rtmp", k)
  {
    RootSettings(ds, |ds|, k);
    assert ds[..|ds|] == ds;
    var s := Root(ds, |ds|);
    var r := RootDirs(s);
    var j := Find(s, "rtmp");
    hide Root, RootDir, Value;
    forall n | 0 <= n < |s|
      ensures r[n].name == "rtmp" <==> s[n].name == "rtmp"
    {
      DirNormalIff(s[n]);
    }
    if j < |s| {
      FindIs(r, "rtmp", j);
      RtmpStays(s[j]);
    }
  }

  lemma RtmpStays(d: Dir)
    requires d.name == "rtmp"
    ensures RootDir(d) == d
  {
  }

  // ---------- nothing legacy is left ----------

  /** No legacy directive at its legacy place; of several sip blocks only the first is looked at. */
  predicate CleanDir(d: Dir) {
    && !RootMoved(d.name) && d.name != "http_stream"
    && (d.name == "rtc_server" ==> Unnamed(d.subs, UNUSED_RTC))
    && (d.name == "srt_server" ==> Unnamed(d.subs, {"tlpkdrop"}))
    && (d.name == "stream_caster" ==> NormalCaster(d.subs))
    && (d.name == "vhost" ==> forall c :: c in d.subs ==> Clean(c))
  }

  lemma RootDirIsClean(d: Dir)
    requires !RootMoved(d.name)
    ensures CleanDir(RootDir(d))
  {
    RenamedAll(d.subs);
    DropAllIs(d.subs, UNUSED_RTC);
    CasterIsNormal(d.subs);
    VhostIsClean(d.subs, 0);
    DirNormalIff(d);
    hide Vhost, Caster, DropAll, RenameAll, Unnamed, NormalCaster, Clean, RootMoved, NormalDir, AtMostOneDir;
  }

  /** One pass, on any configuration, leaves no legacy directive at its legacy place. */
  lemma NothingLegacyLeft(ds: seq<Dir>)
    ensures forall d :: d in Transform(ds) ==> CleanDir(d)
  {
    RootIsClean(ds, |ds|);
    var s := Root(ds, |ds|);
    var r := RootDirs(s);
    hide Root, RootDir, CleanDir, RootMoved;
    forall d | d in r
      ensures CleanDir(d)
    {
      var k :| 0 <= k < |r| && r[k] == d;
      assert s[k] in s;
      RootDirIsClean(s[k]);
    }
  }
}
