/**
 The loops of `srs_config_transform_vhost`, step by step, against the specification.
 */
module ConfigRewrite {
  import opened ConfigTree
  import opened ConfigLegacy
  import opened ConfigVhost
  import opened ConfigSettings
  import opened ConfigRoot
  import opened ConfigTransform

  // ---------- look-up and edits ----------

  /** `get`: the place of the first directive called n, or |ds|. */
  method Search(ds: seq<Dir>, n: string) returns (i: nat)
    ensures i == Find(ds, n)
  {
    i := 0;
    while i < |ds| && ds[i].name != n
      invariant i <= |ds| && forall j :: 0 <= j < i ==> ds[j].name != n
    {
      i := i + 1;
    }
    if i < |ds| {
      FindIs(ds, n, i);
    }
  }

  method GetOrCreate(ds: seq<Dir>, n: string) returns (r: seq<Dir>, i: nat)
    ensures r == Ensure(ds, n) && i == Find(r, n)
  {
    r := ds;
    i := Search(ds, n);
    if i == |ds| {
      r := r + [NewDir(n)];
    }
  }

  /** `get_or_create(n)->args_ = args` */
  method SetArgs(ds: seq<Dir>, n: string, args: seq<string>) returns (r: seq<Dir>)
    ensures r == Put(ds, n, args)
  {
    var i: nat;
    r, i := GetOrCreate(ds, n);
    r := r[i := r[i].(args := args)];
  }

  /** `get_or_create(n)->set_arg0(a)` */
  method SetFirstArg(ds: seq<Dir>, n: string, a: string) returns (r: seq<Dir>)
    ensures r == PutArg0(ds, n, a)
  {
    var i: nat;
    r, i := GetOrCreate(ds, n);
    var args := r[i].args;
    if Arg0(args) != a {
      if args != [] {
        args := args[1..];
      }
      args := [a] + args;
    }
    r := SetArgs(r, n, args);
  }

  method RemoveFirst(ds: seq<Dir>, n: string) returns (r: seq<Dir>)
    ensures r == Drop(ds, n)
  {
    r := ds;
    var i := Search(ds, n);
    if i < |ds| {
      r := r[..i] + r[i + 1..];
    }
  }

  /** The loops that erase what is out of use. */
  method EraseNamed(ds: seq<Dir>, names: set<string>) returns (r: seq<Dir>)
    ensures r == DropAll(ds, names)
  {
    r := ds;
    var it := 0;
    ghost var seen := 0;
    while it < |r|
      invariant it <= |r| && seen <= |ds| && r[it..] == ds[seen..]
          && r[..it] + DropAll(ds[seen..], names) == DropAll(ds, names)
      decreases |r| - it
    {
      assert ds[seen..][1..] == ds[seen + 1..];
      ghost var was := r;
      if r[it].name in names {
        r := r[..it] + r[it + 1..];
        assert r[it..] == was[it..][1..] && r[..it] == was[..it];
      } else {
        it := it + 1;
        assert r[..it] == was[..it - 1] + [was[it - 1]] && r[it..] == was[it - 1..][1..];
      }
      seen := seen + 1;
    }
    assert r[..it] == r;
  }

  method RenameNamed(ds: seq<Dir>, was: string, now: string) returns (r: seq<Dir>)
    ensures r == RenameAll(ds, was, now)
  {
    r := ds;
    var it := 0;
    while it < |r|
      invariant it <= |r| == |ds|
      invariant forall k :: 0 <= k < |ds| ==> r[k] == if k < it then RenameAll(ds, was, now)[k] else ds[k]
    {
      if r[it].name == was {
        r := r[it := r[it].(name := now)];
      }
      it := it + 1;
    }
  }

  // ---------- the root ----------

  /** One turn of the loop over the root. */
  method RootTurn(root: seq<Dir>, i: nat) returns (ds: seq<Dir>)
    requires i < |root|
    ensures ds == RootStep(root, i)
  {
    var dir := root[i];
    var rtmp: nat;
    ds, rtmp := GetOrCreate(root, "rtmp");
    if dir.name == "listen" || dir.name == "chunk_size" {
      var subs := SetArgs(ds[rtmp].subs, dir.name, dir.args);
      ds := ds[rtmp := ds[rtmp].(subs := subs)];
      ds := ds[..i] + ds[i + 1..];
    }
  }

  method MoveRootSettings(root: seq<Dir>) returns (ds: seq<Dir>)
    ensures ds == Root(root, |root|)
  {
    hide RootStep;
    ds := root;
    var i := |ds| - 1;
    while i >= 0
      invariant -1 <= i < |ds| && Root(ds, i + 1) == Root(root, |root|)
    {
      ds := RootTurn(ds, i);
      i := i - 1;
    }
  }

  // ---------- gb28181 ----------

  method MoveHostsToSip(children: seq<Dir>) returns (ds: seq<Dir>)
    ensures ds == MoveHosts(children, 0)
  {
    ds := children;
    var it := 0;
    while it < |ds|
      invariant it <= |ds| && MoveHosts(ds, it) == MoveHosts(children, 0)
      decreases Count(ds[it..], "host"), |ds| - it
    {
      if ds[it].name == "host" {
        HostMoved(ds, it);
        ghost var was := ds;
        var conf := ds[it].(name := "candidate");
        CopyIsSame(conf);
        var sip: nat;
        ds, sip := GetOrCreate(ds, "sip");
        ds := ds[sip := ds[sip].(subs := ds[sip].subs + [Copy(conf, "")])];
        assert ds == PushSip(was, conf);
        ds := ds[..it] + ds[it + 1..];
      } else {
        assert ds[it..][1..] == ds[it + 1..];
        it := it + 1;
      }
    }
  }

  method RewriteCaster(children: seq<Dir>) returns (ds: seq<Dir>)
    ensures ds == Caster(children)
  {
    ds := EraseNamed(children, UNUSED_GB);
    var sip := Search(ds, "sip");
    if sip < |ds| {
      var subs := EraseNamed(ds[sip].subs, UNUSED_SIP);
      ds := ds[sip := ds[sip].(subs := subs)];
    }
    ds := MoveHostsToSip(ds);
  }

  // ---------- the children of a vhost ----------

  lemma OneSetting(ds: seq<Dir>, key: string, args: seq<string>)
    ensures PutSettings(ds, [Setting(key, args)]) == Put(ds, key, args)
  {
    hide Put;
  }

  lemma {:induction false} SettingsInTurn(ds: seq<Dir>, a: seq<Setting>, b: seq<Setting>)
    ensures PutSettings(ds, a + b) == PutSettings(PutSettings(ds, a), b)
    decreases a
  {
    hide Put;
    if a == [] {
      assert a + b == b;
    } else {
      assert (a + b)[1..] == a[1..] + b;
      SettingsInTurn(Put(ds, a[0].key, a[0].args), a[1..], b);
    }
  }

  /** When conf has a child called sub, its arguments become the setting key. */
  method PutFromSub(ds: seq<Dir>, conf: Dir, sub: string, key: string) returns (r: seq<Dir>)
    ensures r == PutSettings(ds, FromSub(conf, sub, key))
  {
    r := ds;
    var i := Search(conf.subs, sub);
    if i < |conf.subs| {
      r := SetArgs(r, key, conf.subs[i].args);
      OneSetting(ds, key, conf.subs[i].args);
    }
  }

  lemma SettingOfRefer(d: Dir)
    requires d.name == "refer" || d.name == "refer_play" || d.name == "refer_publish"
    ensures Block(d) == "refer"
    ensures Settings(d) ==
        [Setting(if d.name == "refer" then "all" else if d.name == "refer_play" then "play" else "publish", d.args)]
  {
  }

  /** `refer`, `refer_play` and `refer_publish` become settings of the block refer. */
  method MoveRefer(children: seq<Dir>, it: nat) returns (ds: seq<Dir>)
    requires it < |children|
    requires children[it].name == "refer" || children[it].name == "refer_play" || children[it].name == "refer_publish"
    ensures ds == Move(children, it)
  {
    var conf := children[it];
    SettingOfRefer(conf);
    hide Block, Settings, PutSettings, Enable, Ensure, Put;
    ds := children[..it] + children[it + 1..];
    var refer: nat;
    ds, refer := GetOrCreate(ds, "refer");
    var subs := Enable(ds[refer].subs);
    var key := if conf.name == "refer" then "all" else if conf.name == "refer_play" then "play" else "publish";
    OneSetting(subs, key, conf.args);
    subs := SetArgs(subs, key, conf.args);
    ds := ds[refer := ds[refer].(subs := subs)];
  }

  lemma MrSettings(d: Dir)
    requires d.name == "mr"
    ensures Block(d) == "publish" && Settings(d) == FromSub(d, "enabled", "mr") + FromSub(d, "latency", "mr_latency")
  {
  }

  /** `mr { enabled; latency; }` becomes the settings mr and mr_latency of the block publish. */
  method MoveMr(children: seq<Dir>, it: nat) returns (ds: seq<Dir>)
    requires it < |children| && children[it].name == "mr"
    ensures ds == Move(children, it)
  {
    var conf := children[it];
    MrSettings(conf);
    hide Block, Settings, PutSettings, FromSub, Ensure;
    ds := children[..it] + children[it + 1..];
    var publish: nat;
    ds, publish := GetOrCreate(ds, "publish");
    var subs := ds[publish].subs;
    SettingsInTurn(subs, FromSub(conf, "enabled", "mr"), FromSub(conf, "latency", "mr_latency"));
    subs := PutFromSub(subs, conf, "enabled", "mr");
    subs := PutFromSub(subs, conf, "latency", "mr_latency");
    ds := ds[publish := ds[publish].(subs := subs)];
  }

  lemma NackSettings(d: Dir)
    requires d.name == "nack" || d.name == "twcc"
    ensures Block(d) == "rtc"
    ensures Settings(d) == if d.name == "nack" then FromSub(d, "enabled", "nack") + FromSub(d, "no_copy", "nack_no_copy")
                           else FromSub(d, "enabled", "twcc")
  {
  }

  /** `nack` and `twcc` become settings of the block rtc. */
  method MoveNackOrTwcc(children: seq<Dir>, it: nat) returns (ds: seq<Dir>)
    requires it < |children| && (children[it].name == "nack" || children[it].name == "twcc")
    ensures ds == Move(children, it)
  {
    var conf := children[it];
    NackSettings(conf);
    hide Block, Settings, PutSettings, FromSub, Ensure;
    ds := children[..it] + children[it + 1..];
    var rtc: nat;
    ds, rtc := GetOrCreate(ds, "rtc");
    var subs := ds[rtc].subs;
    if conf.name == "nack" {
      SettingsInTurn(subs, FromSub(conf, "enabled", "nack"), FromSub(conf, "no_copy", "nack_no_copy"));
      subs := PutFromSub(subs, conf, "enabled", "nack");
      subs := PutFromSub(subs, conf, "no_copy", "nack_no_copy");
    } else {
      subs := PutFromSub(subs, conf, "enabled", "twcc");
    }
    ds := ds[rtc := ds[rtc].(subs := subs)];
  }

  /** The other legacy children become one setting, key, of a block. */
  method MoveTo(children: seq<Dir>, it: nat, block: string, key: string) returns (ds: seq<Dir>)
    requires it < |children|
    requires block == Block(children[it]) != "refer" && Settings(children[it]) == [Setting(key, children[it].args)]
    ensures ds == Move(children, it)
  {
    hide Block, Settings, PutSettings, Ensure, Put;
    var conf := children[it];
    ds := children[..it] + children[it + 1..];
    var b: nat;
    ds, b := GetOrCreate(ds, block);
    OneSetting(ds[b].subs, key, conf.args);
    var subs := SetArgs(ds[b].subs, key, conf.args);
    ds := ds[b := ds[b].(subs := subs)];
  }

  lemma PlainSettings(d: Dir)
    requires d.name in PLAY || d.name in CLUSTER || d.name == "publish_1stpkt_timeout" || d.name == "publish_normal_timeout"
    ensures Block(d) == if d.name in PLAY then "play" else if d.name in CLUSTER then "cluster" else "publish"
    ensures Block(d) != "refer"
    ensures Settings(d) == [Setting(if d.name == "publish_1stpkt_timeout" then "firstpkt_timeout"
                                    else if d.name == "publish_normal_timeout" then "normal_timeout" else d.name, d.args)]
  {
  }

  /** The branches for the children that move, in the order of the source. */
  method MoveLegacy(children: seq<Dir>, it: nat) returns (ds: seq<Dir>, moved: bool)
    requires it < |children|
    ensures moved == Legacy(children[it]) && ds == if moved then Move(children, it) else children
  {
    hide Move, Block, Settings;
    var n := children[it].name;
    moved := true;
    if (n == "refer" && children[it].subs == []) || n == "refer_play" || n == "refer_publish" {
      ds := MoveRefer(children, it);
    } else if n == "mr" {
      ds := MoveMr(children, it);
    } else if n == "publish_1stpkt_timeout" {
      PlainSettings(children[it]);
      ds := MoveTo(children, it, "publish", "firstpkt_timeout");
    } else if n == "publish_normal_timeout" {
      PlainSettings(children[it]);
      ds := MoveTo(children, it, "publish", "normal_timeout");
    } else if n in PLAY {
      PlainSettings(children[it]);
      ds := MoveTo(children, it, "play", n);
    } else if n in CLUSTER {
      PlainSettings(children[it]);
      ds := MoveTo(children, it, "cluster", n);
    } else if n == "nack" || n == "twcc" {
      ds := MoveNackOrTwcc(children, it);
    } else {
      ds, moved := children, false;
    }
  }

  method RewriteRtc(children: seq<Dir>) returns (subs: seq<Dir>)
    ensures subs == Rtc(children)
  {
    hide Find, PutArg0, Drop;
    subs := children;
    var aac := Search(subs, "aac");
    if aac < |subs| {
      var v := if Arg0(subs[aac].args) == "transcode" then "on" else "off";
      subs := SetFirstArg(subs, "rtmp_to_rtc", v);
      subs := RemoveFirst(subs, "aac");
    }
    assert subs == Replace(children, "aac", "transcode", "rtmp_to_rtc");
    ghost var once := subs;
    var bframe := Search(subs, "bframe");
    if bframe < |subs| {
      var v := if Arg0(subs[bframe].args) == "keep" then "on" else "off";
      subs := SetFirstArg(subs, "keep_bframe", v);
      subs := RemoveFirst(subs, "bframe");
    }
    assert subs == Replace(once, "bframe", "keep", "keep_bframe");
  }

  /** A child that stays, rewritten in place. */
  method RewriteInPlace(child: Dir) returns (conf: Dir)
    requires !Legacy(child)
    ensures conf == InPlace(child)
  {
    conf := child;
    if conf.name == "http" {
      conf := conf.(name := "http_static");
    } else if conf.name == "http_remux" {
      var subs := RemoveFirst(conf.subs, "hstrs");
      conf := conf.(subs := subs);
    } else if conf.name == "forward" && conf.subs == [] && conf.args != [] {
      var subs := SetFirstArg(conf.subs, "enabled", "on");
      subs := SetArgs(subs, "destination", conf.args);
      conf := conf.(args := [], subs := subs);
    } else if conf.name == "rtc" {
      var subs := RewriteRtc(conf.subs);
      conf := conf.(subs := subs);
    }
  }

  method RewriteVhost(children: seq<Dir>) returns (ds: seq<Dir>)
    ensures ds == Vhost(children, 0)
  {
    ds := children;
    var it := 0;
    while it < |ds|
      invariant it <= |ds| && Vhost(ds, it) == Vhost(children, 0)
      decreases Weight(ds[it..])
    {
      hide Move, Legacy, InPlace;
      ghost var was := ds;
      var moved: bool;
      ds, moved := MoveLegacy(ds, it);
      if moved {
        MoveLeavesLess(was, it);
      } else {
        var conf := RewriteInPlace(ds[it]);
        ds := ds[it := conf];
        assert ds[it + 1..] == was[it..][1..];
        it := it + 1;
      }
    }
  }

  // ---------- the whole ----------

  /** `srs_config_transform_vhost` */
  method TransformVhost(root: seq<Dir>) returns (ds: seq<Dir>)
    ensures ds == Transform(root)
  {
    ds := MoveRootSettings(root);
    ghost var moved := ds;
    var i := 0;
    while i < |ds|
      invariant i <= |ds| == |moved|
      invariant forall k :: 0 <= k < |ds| ==> ds[k] == if k < i then RootDir(moved[k]) else moved[k]
    {
      var dir := ds[i];
      if dir.name == "http_stream" {
        dir := dir.(name := "http_server");
      } else if dir.name == "rtc_server" {
        var subs := EraseNamed(dir.subs, UNUSED_RTC);
        dir := dir.(subs := subs);
      } else if dir.name == "srt_server" {
        var subs := RenameNamed(dir.subs, "tlpkdrop", "tlpktdrop");
        dir := dir.(subs := subs);
      } else if dir.name == "stream_caster" {
        var subs := RewriteCaster(dir.subs);
        dir := dir.(subs := subs);
      } else if dir.name == "vhost" {
        var subs := RewriteVhost(dir.subs);
        dir := dir.(subs := subs);
      }
      ds := ds[i := dir];
      i := i + 1;
    }
  }
}
