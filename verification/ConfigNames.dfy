/**
 The rewriting of a configuration with every name written out: which directives go, where each legacy setting
 arrives, and what stays.
 */
module ConfigNames {
  import opened Options
  import opened ConfigTree
  import opened ConfigLegacy
  import opened ConfigVhost
  import opened ConfigSettings
  import opened ConfigRefer
  import opened ConfigRoot
  import opened ConfigTransform
  import opened ConfigFrames

  // ---------- lists ----------

  /** The directives with one of these names, in order. */
  function Called(ds: seq<Dir>, names: set<string>): seq<Dir> {
    if ds == [] then [] else (if ds[0].name in names then [ds[0]] else []) + Called(ds[1..], names)
  }

  /** The other directives, in order. */
  function Others(ds: seq<Dir>, names: set<string>): seq<Dir> {
    if ds == [] then [] else (if ds[0].name in names then [] else [ds[0]]) + Others(ds[1..], names)
  }

  // ---------- a vhost ----------

  /** The names that no child of a vhost has any more. */
  const OLD_NAMES: set<string> := {
    "time_jitter", "mix_correct", "atc", "atc_auto", "mw_latency", "gop_cache", "gop_cache_max_frames", "queue_length",
    "send_min_interval", "reduce_sequence_header",
    "mode", "origin", "token_traverse", "vhost", "debug_srs_upnode",
    "mr", "publish_1stpkt_timeout", "publish_normal_timeout", "nack", "twcc", "refer_play", "refer_publish"}

  /** The blocks that take over settings. */
  const NEW_BLOCKS: set<string> := {"play", "cluster", "publish", "rtc", "refer"}

  /** The arguments of the child sub of d, when d is called n. */
  function SubOf(d: Dir, n: string, sub: string): Option<seq<string>> {
    if d.name == n then Value(d.subs, sub) else None
  }

  /** The arguments of d, when it is called n. */
  function Own(d: Dir, n: string): Option<seq<string>> {
    if d.name == n then Some(d.args) else None
  }

  /** What the legacy directive d says about the setting k of the block c. */
  function Says(d: Dir, c: string, k: string): Option<seq<string>> {
    if c == "play" && k in {"time_jitter", "mix_correct", "atc", "atc_auto", "mw_latency", "gop_cache",
                            "gop_cache_max_frames", "queue_length", "send_min_interval", "reduce_sequence_header"}
    then Own(d, k)
    else if c == "cluster" && k in {"mode", "origin", "token_traverse", "vhost", "debug_srs_upnode"} then Own(d, k)
    else if c == "publish" && k == "firstpkt_timeout" then Own(d, "publish_1stpkt_timeout")
    else if c == "publish" && k == "normal_timeout" then Own(d, "publish_normal_timeout")
    else if c == "publish" && k == "mr" then SubOf(d, "mr", "enabled")
    else if c == "publish" && k == "mr_latency" then SubOf(d, "mr", "latency")
    else if c == "rtc" && k == "nack" then SubOf(d, "nack", "enabled")
    else if c == "rtc" && k == "nack_no_copy" then SubOf(d, "nack", "no_copy")
    else if c == "rtc" && k == "twcc" then SubOf(d, "twcc", "enabled")
    else if c == "refer" && k == "all" then (if d.subs == [] then Own(d, "refer") else None)
    else if c == "refer" && k == "play" then Own(d, "refer_play")
    else if c == "refer" && k == "publish" then Own(d, "refer_publish")
    else None
  }

  /** What the last of ds that says something about it says. */
  function LastSaid(ds: seq<Dir>, c: string, k: string): Option<seq<string>> {
    if ds == [] then None else if LastSaid(ds[1..], c, k).Some? then LastSaid(ds[1..], c, k) else Says(ds[0], c, k)
  }

  /** The first directive called n is not there. */
  function WithoutFirst(ds: seq<Dir>, n: string): seq<Dir> {
    if ds == [] then [] else if ds[0].name == n then ds[1..] else [ds[0]] + WithoutFirst(ds[1..], n)
  }

  /** A child that stays, as it is written now. */
  function Modern(d: Dir): Dir {
    if d.name == "http" then Dir("http_static", d.args, d.subs, d.line)
    else if d.name == "http_remux" then d.(subs := WithoutFirst(d.subs, "hstrs"))
    else if d.name == "forward" && d.subs == [] && d.args != []
    then Dir("forward", [], [Dir("enabled", ["on"], [], 0), Dir("destination", d.args, [], 0)], d.line)
    else d
  }

  function AllModern(ds: seq<Dir>): (r: seq<Dir>)
    ensures |r| == |ds| && forall i :: 0 <= i < |ds| ==> r[i] == Modern(ds[i])
  {
    if ds == [] then [] else [Modern(ds[0])] + AllModern(ds[1..])
  }

  /** Nothing is left at its legacy place. */
  predicate NothingOld(ds: seq<Dir>) {
    forall d :: d in ds ==>
      && d.name !in OLD_NAMES && d.name != "http" && (d.name == "refer" ==> d.subs != [])
      && (d.name == "forward" ==> d.subs != [] || d.args == [])
  }

  /** A setting of a block but for the four that rtc rewrites itself. */
  predicate IsSetting(c: string, k: string) {
    c in {"play", "cluster", "publish"} || (c == "rtc" && k !in {"aac", "bframe", "rtmp_to_rtc", "keep_bframe"})
  }

  /** b has every legacy setting of a in its new block, the last of each, and the other settings as they were. */
  ghost predicate SettingsMoved(a: seq<Dir>, b: seq<Dir>) {
    forall c, k :: IsSetting(c, k) ==>
      Lookup(b, c, k) == if LastSaid(a, c, k).Some? then LastSaid(a, c, k) else Lookup(a, c, k)
  }

  /** The same for the block refer, unless one of the old-style directives is lost; what else the block says is
      what it held, and it is enabled when something moved into it. */
  ghost predicate RefersMoved(a: seq<Dir>, b: seq<Dir>) {
    var q := Refers(a);
    && ((exists d :: d in a && IsOldRefer(d)) ==> ReferIsOn(b))
    && (AllRefersMove(q) ==>
      && (forall k :: k != "enabled" ==>
            Lookup(b, "refer", k) == if LastSaid(a, "refer", k).Some? then LastSaid(a, "refer", k) else Held(q, k))
      && Lookup(b, "refer", "enabled") ==
           if (exists d :: d in a && IsOldRefer(d)) && Held(q, "enabled") == None then Some(["on"]) else Held(q, "enabled"))
  }

  /** The first block refer holds an `enabled on`. */
  predicate ReferIsOn(ds: seq<Dir>) {
    Find(ds, "refer") < |ds| && SaysOn(ds[Find(ds, "refer")].subs)
  }

  predicate SaysOn(ds: seq<Dir>) {
    exists i :: 0 <= i < |ds| && ds[i].name == "enabled" && ds[i].args != [] && ds[i].args[0] == "on"
  }

  predicate IsOldRefer(d: Dir) {
    d.name == "refer_play" || d.name == "refer_publish" || (d.name == "refer" && d.subs == [])
  }

  /** The children of a vhost before and after the rewriting. */
  ghost predicate VhostRewritten(a: seq<Dir>, b: seq<Dir>) {
    && NothingOld(b) && SettingsMoved(a, b) && RefersMoved(a, b)
    && Others(b, NEW_BLOCKS) == AllModern(Others(a, NEW_BLOCKS + OLD_NAMES))
  }

  // ---------- its proof ----------

  lemma CleanIsModern(d: Dir)
    requires Clean(d)
    ensures d.name !in OLD_NAMES && d.name != "http" && (d.name == "refer" ==> d.subs != [])
    ensures d.name == "forward" ==> d.subs != [] || d.args == []
  {
  }

  lemma VhostHasNothingOld(ds: seq<Dir>)
    ensures NothingOld(Vhost(ds, 0))
  {
    hide Vhost, Clean, OLD_NAMES;
    VhostIsClean(ds, 0);
    forall d | d in Vhost(ds, 0)
      ensures d.name !in OLD_NAMES && d.name != "http" && (d.name == "refer" ==> d.subs != [])
      ensures d.name == "forward" ==> d.subs != [] || d.args == []
    {
      CleanIsModern(d);
    }
  }

  /** The value that d leaves for setting k of block c. */
  function After(d: Dir, c: string, k: string, v: Option<seq<string>>): Option<seq<string>> {
    if Speaks(d, c) then Override(Settings(d), k, Opened(c, k, v)) else v
  }

  lemma OverrideSub(d: Dir, sub: string, key: string, k: string, v: Option<seq<string>>)
    ensures Override(FromSub(d, sub, key), k, v) == if key == k && Value(d.subs, sub).Some? then Value(d.subs, sub) else v
  {
    match Get(d.subs, sub) {
      case None =>
      case Some(s) => OverrideOne(Setting(key, s.args), k, v);
    }
  }

  lemma {:induction false} OverrideConcat(a: seq<Setting>, b: seq<Setting>, k: string, v: Option<seq<string>>)
    ensures Override(a + b, k, v) == Override(b, k, Override(a, k, v))
  {
    if a == [] {
      assert a + b == b;
    } else {
      assert (a + b)[1..] == a[1..] + b;
      OverrideConcat(a[1..], b, k, if a[0].key == k then Some(a[0].args) else v);
    }
  }

  /** A setting of its own name. */
  lemma SaysOwn(d: Dir, c: string, k: string, v: Option<seq<string>>)
    requires IsSetting(c, k) && (d.name in PLAY || d.name in CLUSTER)
    ensures After(d, c, k, v) == if Says(d, c, k).Some? then Says(d, c, k) else v
  {
    assert Settings(d) == [Setting(d.name, d.args)];
    OverrideOne(Setting(d.name, d.args), k, v);
    hide Override;
  }

  /** A setting under another name. */
  lemma SaysRenamed(d: Dir, c: string, k: string, v: Option<seq<string>>)
    requires IsSetting(c, k) && d.name in {"publish_1stpkt_timeout", "publish_normal_timeout"}
    ensures After(d, c, k, v) == if Says(d, c, k).Some? then Says(d, c, k) else v
  {
    OverrideOne(Setting("firstpkt_timeout", d.args), k, v);
    OverrideOne(Setting("normal_timeout", d.args), k, v);
    hide Override;
  }

  /** Settings that were children. */
  lemma SaysSubs(d: Dir, c: string, k: string, v: Option<seq<string>>)
    requires IsSetting(c, k) && d.name in {"mr", "nack", "twcc"}
    ensures After(d, c, k, v) == if Says(d, c, k).Some? then Says(d, c, k) else v
  {
    hide Override, FromSub, Value;
    if d.name == "mr" {
      SaysTwo(d, "mr", "latency", "mr_latency", k, v);
    } else if d.name == "nack" {
      SaysTwo(d, "nack", "no_copy", "nack_no_copy", k, v);
    } else {
      OverrideSub(d, "enabled", "twcc", k, v);
    }
  }

  lemma SaysTwo(d: Dir, key: string, sub: string, key': string, k: string, v: Option<seq<string>>)
    requires key != key'
    ensures Override(FromSub(d, "enabled", key) + FromSub(d, sub, key'), k, v) ==
      if key == k && Value(d.subs, "enabled").Some? then Value(d.subs, "enabled")
      else if key' == k && Value(d.subs, sub).Some? then Value(d.subs, sub) else v
  {
    hide Override, FromSub, Value;
    OverrideConcat(FromSub(d, "enabled", key), FromSub(d, sub, key'), k, v);
    OverrideSub(d, "enabled", key, k, v);
    OverrideSub(d, sub, key', k, Override(FromSub(d, "enabled", key), k, v));
  }

  lemma SaysNothing(d: Dir, c: string, k: string, v: Option<seq<string>>)
    requires IsSetting(c, k) && d.name !in PLAY && d.name !in CLUSTER
    requires d.name !in {"publish_1stpkt_timeout", "publish_normal_timeout", "mr", "nack", "twcc"}
    ensures After(d, c, k, v) == if Says(d, c, k).Some? then Says(d, c, k) else v
  {
  }

  lemma SaysWhatItSets(d: Dir, c: string, k: string, v: Option<seq<string>>)
    requires IsSetting(c, k)
    ensures After(d, c, k, v) == if Says(d, c, k).Some? then Says(d, c, k) else v
  {
    hide After, Says, PLAY, CLUSTER, IsSetting;
    if d.name in PLAY || d.name in CLUSTER {
      SaysOwn(d, c, k, v);
    } else if d.name in {"publish_1stpkt_timeout", "publish_normal_timeout"} {
      SaysRenamed(d, c, k, v);
    } else if d.name in {"mr", "nack", "twcc"} {
      SaysSubs(d, c, k, v);
    } else {
      SaysNothing(d, c, k, v);
    }
  }

  lemma {:induction false} FinalIsLastSaid(ds: seq<Dir>, c: string, k: string, v: Option<seq<string>>)
    requires IsSetting(c, k)
    ensures Final(ds, c, k, v) == if LastSaid(ds, c, k).Some? then LastSaid(ds, c, k) else v
    decreases ds
  {
    if ds != [] {
      assert Final(ds, c, k, v) == Final(ds[1..], c, k, After(ds[0], c, k, v));
      hide Says, After, IsSetting, Final;
      SaysWhatItSets(ds[0], c, k, v);
      FinalIsLastSaid(ds[1..], c, k, After(ds[0], c, k, v));
    }
  }

  lemma VhostMovesSettings(ds: seq<Dir>)
    ensures SettingsMoved(ds, Vhost(ds, 0))
  {
    hide Vhost, Lookup, Final, LastSaid;
    forall c, k | IsSetting(c, k)
      ensures Lookup(Vhost(ds, 0), c, k) == if LastSaid(ds, c, k).Some? then LastSaid(ds, c, k) else Lookup(ds, c, k)
    {
      assert ds[0..] == ds;
      SettingsArrive(ds, 0, c, k);
      FinalIsLastSaid(ds, c, k, Lookup(ds, c, k));
    }
  }

  lemma ReferSays(d: Dir, k: string, v: Option<seq<string>>)
    requires k != "enabled"
    ensures After(d, "refer", k, v) == if Says(d, "refer", k).Some? then Says(d, "refer", k) else v
  {
    SpeaksIffOld(d);
    if Speaks(d, "refer") {
      KeyIsOwn(d, d.name);
      OverrideOne(Setting(KeyOf(d.name), d.args), k, v);
    }
    hide Speaks, Settings, Override;
  }

  lemma ReferEnables(d: Dir, v: Option<seq<string>>)
    ensures After(d, "refer", "enabled", v) == if IsOldRefer(d) && v == None then Some(["on"]) else v
  {
    SpeaksIffOld(d);
    if Speaks(d, "refer") {
      KeyIsOwn(d, d.name);
      OverrideOne(Setting(KeyOf(d.name), d.args), "enabled", Opened("refer", "enabled", v));
    }
    hide Speaks, Settings, Override;
  }

  lemma {:induction false} ReferFinal(ds: seq<Dir>, k: string, v: Option<seq<string>>)
    requires k != "enabled"
    ensures Final(ds, "refer", k, v) == if LastSaid(ds, "refer", k).Some? then LastSaid(ds, "refer", k) else v
    decreases ds
  {
    if ds != [] {
      assert Final(ds, "refer", k, v) == Final(ds[1..], "refer", k, After(ds[0], "refer", k, v));
      hide Says, After, Final;
      ReferSays(ds[0], k, v);
      ReferFinal(ds[1..], k, After(ds[0], "refer", k, v));
    }
  }

  lemma {:induction false} ReferEnabled(ds: seq<Dir>, v: Option<seq<string>>)
    ensures Final(ds, "refer", "enabled", v) ==
      if (exists d :: d in ds && IsOldRefer(d)) && v == None then Some(["on"]) else v
    decreases ds
  {
    if ds != [] {
      var w := After(ds[0], "refer", "enabled", v);
      assert Final(ds, "refer", "enabled", v) == Final(ds[1..], "refer", "enabled", w);
      hide IsOldRefer, After, Final;
      ReferEnables(ds[0], v);
      ReferEnabled(ds[1..], w);
      assert forall d :: d in ds <==> d == ds[0] || d in ds[1..];
    }
  }

  /** When none is lost, the old-style refers speak in the order of the vhost. */
  lemma ReferIsFinal(ds: seq<Dir>, k: string)
    requires AllRefersMove(Refers(ds))
    ensures Lookup(Vhost(ds, 0), "refer", k) == Final(ds, "refer", k, Held(Refers(ds), k))
  {
    hide Vhost, Lookup, Final, Speakers, ReferMoves, AllRefersMove, Refers, Held, Arriving;
    assert ds[0..] == ds && ds[..0] == [];
    NoRefersInNone();
    RefersArrive(ds, 0, k);
    RefersMoveIff(ds);
    FinalOfSpeakers(ds, k, Held(Refers(ds), k));
  }

  lemma NoRefersInNone()
    ensures NoRefers([])
  {
  }

  // ---------- the block refer is on ----------

  lemma EnableSaysOn(subs: seq<Dir>)
    ensures SaysOn(Enable(subs))
  {
    if exists i :: 0 <= i < |subs| && subs[i].name == "enabled" && Arg0(subs[i].args) == "on" {
      var i :| 0 <= i < |subs| && subs[i].name == "enabled" && Arg0(subs[i].args) == "on";
      assert Enable(subs)[i] == subs[i];
    } else {
      assert Enable(subs)[|subs|] == Dir("enabled", ["on"], [], 0);
    }
  }

  lemma PutSaysOn(subs: seq<Dir>, k: string, args: seq<string>)
    requires SaysOn(subs) && k != "enabled"
    ensures SaysOn(Put(subs, k, args))
  {
    var i :| 0 <= i < |subs| && subs[i].name == "enabled" && subs[i].args != [] && subs[i].args[0] == "on";
    assert Put(subs, k, args)[i] == subs[i];
  }

  lemma TakeOverSaysOn(subs: seq<Dir>, d: Dir)
    requires Speaks(d, "refer")
    ensures SaysOn(TakeOver(subs, d))
  {
    SpeaksIffOld(d);
    KeyIsOwn(d, d.name);
    SpeaksIff(d, "refer");
    hide Settings, Block, Speaks, Enable, Put, SaysOn, KeyOf;
    OnePut(Enable(subs), Setting(KeyOf(d.name), d.args));
    EnableSaysOn(subs);
    PutSaysOn(Enable(subs), KeyOf(d.name), d.args);
  }

  lemma OnePut(ds: seq<Dir>, s: Setting)
    ensures PutSettings(ds, [s]) == Put(ds, s.key, s.args)
  {
    assert [s][1..] == [];
    assert PutSettings(Put(ds, s.key, s.args), []) == Put(ds, s.key, s.args);
  }

  lemma MovedIsOn(ds: seq<Dir>, i: nat)
    requires i < |ds| && Legacy(ds[i]) && (ReferIsOn(ds) || Block(ds[i]) == "refer")
    ensures ReferIsOn(Move(ds, i))
  {
    var r := Move(ds, i);
    MoveIs(ds, i);
    if Block(ds[i]) == "refer" {
      SpeaksIff(ds[i], "refer");
      var e, j := Erase(ds, i), Find(Erase(ds, i), "refer");
      TakeOverSaysOn(if j < |e| then e[j].subs else [], ds[i]);
      hide Move, Erase, TakeOver, SaysOn, Legacy, Block;
    } else {
      var e, j := Erase(ds, i), Find(Erase(ds, i), Block(ds[i]));
      assert Settled(ds, "refer") by {
        SomethingIsOn(ds[Find(ds, "refer")].subs);
      }
      LegacyIsNoBlock(ds, i, "refer");
      GetAfterErase(ds, i, "refer");
      hide Move, Erase, TakeOver, SaysOn, Legacy, Block, Settled;
      SameNames(e, r, "refer");
    }
  }

  lemma SomethingIsOn(ds: seq<Dir>)
    requires SaysOn(ds)
    ensures ds != []
  {
  }

  lemma InPlaceIsOn(ds: seq<Dir>, i: nat)
    requires i < |ds| && !Legacy(ds[i]) && ReferIsOn(ds)
    ensures ReferIsOn(ds[i := InPlace(ds[i])])
  {
    var r := ds[i := InPlace(ds[i])];
    NameInPlace(ds[i], "refer");
    hide InPlace, SaysOn, Legacy;
    FindIs(r, "refer", Find(ds, "refer"));
  }

  /** An old-style refer is still to come. */
  predicate OldReferAhead(ds: seq<Dir>, i: nat) {
    exists k :: i <= k < |ds| && IsOldRefer(ds[k])
  }

  lemma StillAhead(ds: seq<Dir>, i: nat)
    requires i < |ds| && Legacy(ds[i]) && Block(ds[i]) != "refer" && OldReferAhead(ds, i)
    ensures OldReferAhead(Move(ds, i), i)
  {
    hide Legacy, Block, TakeOver, Speaks, IsOldRefer, Find, Move, Erase;
    var k :| i <= k < |ds| && IsOldRefer(ds[k]);
    OldGoesToRefer(ds[k], ds[i]);
    MoveIs(ds, i);
    ErasedAt(ds, i, k - 1);
    assert Move(ds, i)[k - 1] == ds[k];
  }

  lemma OldGoesToRefer(d: Dir, b: Dir)
    requires IsOldRefer(d) && Legacy(b) && Block(b) != "refer"
    ensures d != b && d.name != Block(b)
  {
    SpeaksIffOld(d);
    OldIsNoBlock(d, b);
    hide Block, Legacy;
  }

  lemma OldIsNoBlock(d: Dir, b: Dir)
    requires IsOldRefer(d) && Legacy(b) && Block(b) != "refer"
    ensures d.name != Block(b)
  {
    BlockIsNotMoved(b);
  }

  lemma {:induction false} VhostTurnsOn(ds: seq<Dir>, i: nat)
    requires i <= |ds| && (ReferIsOn(ds) || OldReferAhead(ds, i))
    ensures ReferIsOn(Vhost(ds, i))
    decreases Weight(ds[i..])
  {
    hide InPlace, Move, ReferIsOn, Legacy, Block, IsOldRefer;
    if i < |ds| {
      if Legacy(ds[i]) {
        MoveLeavesLess(ds, i);
        if ReferIsOn(ds) || Block(ds[i]) == "refer" {
          MovedIsOn(ds, i);
        } else {
          StillAhead(ds, i);
        }
        VhostTurnsOn(Move(ds, i), i);
      } else {
        var r := ds[i := InPlace(ds[i])];
        assert r[i + 1..] == ds[i..][1..];
        if ReferIsOn(ds) {
          InPlaceIsOn(ds, i);
        } else {
          var k :| i <= k < |ds| && IsOldRefer(ds[k]);
          OldIsLegacy(ds[k]);
          assert r[k] == ds[k];
        }
        VhostTurnsOn(r, i + 1);
      }
    }
  }

  lemma OldIsLegacy(d: Dir)
    requires IsOldRefer(d)
    ensures Legacy(d)
  {
  }

  lemma VhostMovesRefers(ds: seq<Dir>)
    ensures RefersMoved(ds, Vhost(ds, 0))
  {
    hide Vhost, Lookup, Final, LastSaid, Held, Refers, AllRefersMove, IsOldRefer, ReferIsOn;
    if d :| d in ds && IsOldRefer(d) {
      var k :| 0 <= k < |ds| && ds[k] == d;
      VhostTurnsOn(ds, 0);
    }
    var q := Refers(ds);
    if AllRefersMove(q) {
      ReferIsFinal(ds, "enabled");
      ReferEnabled(ds, Held(q, "enabled"));
      forall k | k != "enabled"
        ensures Lookup(Vhost(ds, 0), "refer", k) ==
          if LastSaid(ds, "refer", k).Some? then LastSaid(ds, "refer", k) else Held(q, k)
      {
        ReferIsFinal(ds, k);
        ReferFinal(ds, k, Held(q, k));
      }
    }
  }

  // ---------- children that stay ----------

  lemma FindInRest(ds: seq<Dir>, n: string)
    requires ds != [] && ds[0].name != n
    ensures Find(ds, n) == 1 + Find(ds[1..], n)
  {
  }

  lemma EraseInRest(ds: seq<Dir>, f: nat)
    requires 0 < f < |ds|
    ensures Erase(ds, f) == [ds[0]] + Erase(ds[1..], f - 1)
  {
    assert ds[..f] == [ds[0]] + ds[1..][..f - 1] && ds[f + 1..] == ds[1..][f..];
  }

  lemma DropInRest(ds: seq<Dir>, n: string)
    requires ds != [] && ds[0].name != n
    ensures Drop(ds, n) == [ds[0]] + Drop(ds[1..], n)
  {
    FindInRest(ds, n);
    hide Find;
    if Find(ds, n) < |ds| {
      EraseInRest(ds, Find(ds, n));
    } else {
      assert ds == [ds[0]] + ds[1..];
    }
    hide Erase;
  }

  lemma DropAtFront(ds: seq<Dir>, n: string)
    requires ds != [] && ds[0].name == n
    ensures Drop(ds, n) == ds[1..]
  {
    FindIs(ds, n, 0);
    hide Find;
    assert ds[..0] + ds[1..] == ds[1..];
  }

  lemma {:induction false} DropIsWithoutFirst(ds: seq<Dir>, n: string)
    ensures Drop(ds, n) == WithoutFirst(ds, n)
  {
    if ds != [] {
      hide Drop;
      if ds[0].name == n {
        DropAtFront(ds, n);
      } else {
        DropInRest(ds, n);
        DropIsWithoutFirst(ds[1..], n);
      }
    }
  }

  lemma StaysIff(d: Dir)
    ensures Stays(d) <==> d.name !in NEW_BLOCKS + OLD_NAMES
  {
  }

  lemma OldForwardIs(d: Dir)
    requires OldForward(d)
    ensures InPlace(d) == Dir("forward", [], [Dir("enabled", ["on"], [], 0), Dir("destination", d.args, [], 0)], d.line)
  {
    var s, e := [NewDir("enabled")], [Dir("enabled", ["on"], [], 0)];
    FindIs(s, "enabled", 0);
    assert Ensure([], "enabled") == s;
    assert Ensure(s, "enabled") == s;
    assert SetArg0([], "on") == ["on"];
    assert PutArg0([], "enabled", "on") == e;
    var r := e + [NewDir("destination")];
    assert Find(e, "destination") == |e|;
    FindIs(r, "destination", 1);
    assert Ensure(e, "destination") == r;
  }

  lemma InPlaceIsModern(d: Dir)
    requires Stays(d)
    ensures InPlace(d) == Modern(d)
  {
    DropIsWithoutFirst(d.subs, "hstrs");
    if OldForward(d) {
      OldForwardIs(d);
    }
    hide Drop, WithoutFirst, Put, PutArg0;
  }

  lemma {:induction false} StayersAre(ds: seq<Dir>)
    ensures Stayers(ds) == Others(ds, NEW_BLOCKS + OLD_NAMES)
  {
    if ds != [] {
      StaysIff(ds[0]);
      hide Stays, OLD_NAMES, NEW_BLOCKS;
      StayersAre(ds[1..]);
    }
  }

  lemma {:induction false} AllInPlaceIsModern(ds: seq<Dir>)
    requires forall d :: d in ds ==> Stays(d)
    ensures AllInPlace(ds) == AllModern(ds)
  {
    hide Stays, InPlace, Modern;
    if ds != [] {
      assert ds[0] in ds;
      InPlaceIsModern(ds[0]);
      AllInPlaceIsModern(ds[1..]);
    }
  }

  /** Where nothing is old, the names of old directives make no difference. */
  lemma {:induction false} OthersNotOld(ds: seq<Dir>)
    requires forall d :: d in ds ==> d.name !in OLD_NAMES
    ensures Others(ds, NEW_BLOCKS + OLD_NAMES) == Others(ds, NEW_BLOCKS)
  {
    hide OLD_NAMES, NEW_BLOCKS;
    if ds != [] {
      assert ds[0] in ds;
      OthersNotOld(ds[1..]);
    }
  }

  lemma VhostIsRewritten(ds: seq<Dir>)
    ensures VhostRewritten(ds, Vhost(ds, 0))
  {
    hide Vhost, SettingsMoved, RefersMoved, AllModern, AllInPlace, Stayers, Others, OLD_NAMES, NEW_BLOCKS, Stays;
    VhostMovesRefers(ds);
    VhostHasNothingOld(ds);
    VhostMovesSettings(ds);
    StayInPlace(ds, 0);
    assert ds[..0] == [] && ds[0..] == ds;
    StayersAre(ds);
    StayersAre(Vhost(ds, 0));
    OthersNotOld(Vhost(ds, 0));
    StayersStay(ds);
    AllInPlaceIsModern(Stayers(ds));
    NoStayersOfNone();
    assert [] + AllModern(Stayers(ds)) == AllModern(Stayers(ds));
  }

  lemma NoStayersOfNone()
    ensures Stayers([]) == []
  {
  }

  // ---------- a stream caster ----------

  const OLD_CASTER: set<string> := {"tcp_enable", "rtp_port_min", "rtp_port_max", "wait_keyframe", "rtp_idle_timeout",
    "audio_enable", "auto_create_channel", "host"}
  const OLD_SIP: set<string> := {"serial", "realm", "ack_timeout", "keepalive_timeout", "invite_port_fixed",
    "query_catalog_interval", "auto_play"}

  /** The hosts of a caster, as candidates. */
  function Candidates(ds: seq<Dir>): seq<Dir> {
    if ds == [] then []
    else (if ds[0].name == "host" then [Dir("candidate", ds[0].args, ds[0].subs, ds[0].line)] else []) + Candidates(ds[1..])
  }

  /** The sip blocks of a caster: the first one has lost what is unused and takes the candidates. */
  function Sips(ds: seq<Dir>): seq<Dir> {
    var sips, cs := Called(ds, {"sip"}), Candidates(ds);
    if sips == [] then if cs == [] then [] else [Dir("sip", [], cs, 0)]
    else [sips[0].(subs := Others(sips[0].subs, OLD_SIP) + cs)] + sips[1..]
  }

  /** The children of a stream caster before and after the rewriting. */
  predicate CasterRewritten(a: seq<Dir>, b: seq<Dir>) {
    Others(b, {"sip"}) == Others(a, OLD_CASTER + {"sip"}) && Called(b, {"sip"}) == Sips(a)
  }

  lemma {:induction false} DropIsOthers(ds: seq<Dir>, names: set<string>)
    ensures DropAll(ds, names) == Others(ds, names)
  {
    if ds != [] {
      DropIsOthers(ds[1..], names);
    }
  }

  lemma {:induction false} HostsAreCandidates(ds: seq<Dir>)
    ensures Hosts(ds) == Candidates(ds)
  {
    if ds != [] {
      HostsAreCandidates(ds[1..]);
    }
  }

  lemma {:induction false} OthersTwice(ds: seq<Dir>, a: set<string>, b: set<string>)
    ensures Others(Others(ds, a), b) == Others(ds, a + b)
  {
    if ds != [] {
      OthersTwice(ds[1..], a, b);
      assert [] + Others(ds[1..], a) == Others(ds[1..], a);
      assert [] + Others(Others(ds[1..], a), b) == Others(Others(ds[1..], a), b);
      assert ([ds[0]] + Others(ds[1..], a))[1..] == Others(ds[1..], a);
    }
  }

  lemma {:induction false} CalledAmongOthers(ds: seq<Dir>, a: set<string>, b: set<string>)
    requires a !! b
    ensures Called(Others(ds, a), b) == Called(ds, b)
  {
    if ds != [] {
      CalledAmongOthers(ds[1..], a, b);
      assert [] + Others(ds[1..], a) == Others(ds[1..], a);
      assert ([ds[0]] + Others(ds[1..], a))[1..] == Others(ds[1..], a);
      assert [] + Called(ds[1..], b) == Called(ds[1..], b);
    }
  }

  /** The first directive called n changes, and keeps its name. */
  lemma {:induction false} FirstChanged(ds: seq<Dir>, n: string, d: Dir)
    requires Find(ds, n) < |ds| && d.name == n
    ensures var r := ds[Find(ds, n) := d]; var q := Called(ds, {n});
      Others(r, {n}) == Others(ds, {n}) && q != [] && q[0] == ds[Find(ds, n)] && Called(r, {n}) == [d] + q[1..]
  {
    var r := ds[Find(ds, n) := d];
    if ds[0].name == n {
      assert r[1..] == ds[1..];
    } else {
      FindInRest(ds, n);
      FirstChanged(ds[1..], n, d);
      assert r[1..] == ds[1..][Find(ds[1..], n) := d];
      hide Find;
      assert [] + Called(ds[1..], {n}) == Called(ds[1..], {n}) && [] + Called(r[1..], {n}) == Called(r[1..], {n});
    }
  }

  lemma {:induction false} NoneCalled(ds: seq<Dir>, n: string)
    ensures Find(ds, n) == |ds| <==> Called(ds, {n}) == []
  {
    if ds != [] {
      NoneCalled(ds[1..], n);
      if ds[0].name != n {
        FindInRest(ds, n);
      }
    }
  }

  lemma {:induction false} OneMore(ds: seq<Dir>, d: Dir, n: string)
    requires d.name == n
    ensures Others(ds + [d], {n}) == Others(ds, {n}) && Called(ds + [d], {n}) == Called(ds, {n}) + [d]
  {
    if ds == [] {
      assert ds + [d] == [d] && [d][1..] == [];
    } else {
      assert (ds + [d])[1..] == ds[1..] + [d];
      OneMore(ds[1..], d, n);
      var h := if ds[0].name == n then [ds[0]] else [];
      assert h + (Called(ds[1..], {n}) + [d]) == (h + Called(ds[1..], {n})) + [d];
    }
  }

  /** The block sip, found or made, takes the candidates. */
  lemma SipTakes(e: seq<Dir>, cs: seq<Dir>)
    requires cs != []
    ensures var s := Ensure(e, "sip"); var j := Find(s, "sip"); var q := Called(e, {"sip"});
      var b := s[j := s[j].(subs := s[j].subs + cs)];
      && Others(b, {"sip"}) == Others(e, {"sip"})
      && Called(b, {"sip"}) == if q == [] then [Dir("sip", [], cs, 0)] else [q[0].(subs := q[0].subs + cs)] + q[1..]
  {
    var s := Ensure(e, "sip");
    var j := Find(s, "sip");
    NoneCalled(e, "sip");
    OneMore(e, NewDir("sip"), "sip");
    FirstChanged(s, "sip", s[j].(subs := s[j].subs + cs));
    hide Find, Others, Called;
    assert [] + cs == cs;
  }

  lemma SipCleaned(ds: seq<Dir>)
    ensures var q := Called(ds, {"sip"});
      && Others(CleanSip(ds), {"sip"}) == Others(ds, {"sip"})
      && Called(CleanSip(ds), {"sip"}) == if q == [] then [] else [q[0].(subs := Others(q[0].subs, OLD_SIP))] + q[1..]
  {
    var j := Find(ds, "sip");
    NoneCalled(ds, "sip");
    if j < |ds| {
      UnusedSip();
      DropIsOthers(ds[j].subs, OLD_SIP);
      FirstChanged(ds, "sip", ds[j].(subs := Others(ds[j].subs, OLD_SIP)));
      hide Find, Others, Called, DropAll;
    }
  }

  lemma UnusedSip()
    ensures UNUSED_SIP == OLD_SIP
    ensures UNUSED_GB + {"host"} == OLD_CASTER && OLD_CASTER !! {"sip"}
  {
  }

  lemma CasterIsRewritten(ds: seq<Dir>)
    ensures CasterRewritten(ds, Caster(ds))
  {
    hide CleanSip, DropAll, Hosts, Find, Ensure, Caster, Others, Called, Candidates, UNUSED_SIP, UNUSED_GB, OLD_SIP,
         OLD_CASTER;
    UnusedSip();
    CasterIs(ds);
    var a := DropAll(ds, OLD_CASTER);
    var e, hs := CleanSip(a), Hosts(ds);
    HostsAreCandidates(ds);
    DropIsOthers(ds, OLD_CASTER);
    OthersTwice(ds, OLD_CASTER, {"sip"});
    CalledAmongOthers(ds, OLD_CASTER, {"sip"});
    SipCleaned(a);
    CandidatesAdded(ds, e, Caster(ds));
  }

  lemma CandidatesAdded(ds: seq<Dir>, e: seq<Dir>, b: seq<Dir>)
    requires var hs := Candidates(ds); var s := Ensure(e, "sip"); var j := Find(s, "sip");
      b == if hs == [] then e else s[j := s[j].(subs := s[j].subs + hs)]
    requires Others(e, {"sip"}) == Others(ds, OLD_CASTER + {"sip"})
    requires var q := Called(ds, {"sip"});
      Called(e, {"sip"}) == if q == [] then [] else [q[0].(subs := Others(q[0].subs, OLD_SIP))] + q[1..]
    ensures CasterRewritten(ds, b)
  {
    hide Find, Ensure, Others, Called, Candidates, OLD_SIP, OLD_CASTER;
    var hs, q := Candidates(ds), Called(ds, {"sip"});
    if hs == [] {
      if q != [] {
        assert Others(q[0].subs, OLD_SIP) + [] == Others(q[0].subs, OLD_SIP);
      }
    } else {
      SipTakes(e, hs);
    }
  }

  // ---------- the root ----------

  /** A directive of the root, other than rtmp, before and after the rewriting. */
  ghost predicate RootRewritten(d: Dir, r: Dir) {
    if d.name == "http_stream" then r == Dir("http_server", d.args, d.subs, d.line)
    else
      r.name == d.name && r.args == d.args && r.line == d.line && SubsRewritten(d.name, d.subs, r.subs)
  }

  ghost predicate SubsRewritten(n: string, a: seq<Dir>, b: seq<Dir>) {
    if n == "rtc_server" then b == Others(a, {"perf_stat", "queue_length"})
    else if n == "srt_server" then Respelled(a, b)
    else if n == "stream_caster" then CasterRewritten(a, b)
    else if n == "vhost" then VhostRewritten(a, b)
    else b == a
  }

  /** Every `tlpkdrop` is spelled `tlpktdrop`. */
  predicate Respelled(a: seq<Dir>, b: seq<Dir>) {
    |b| == |a| && forall i :: 0 <= i < |a| ==>
      b[i] == if a[i].name == "tlpkdrop" then Dir("tlpktdrop", a[i].args, a[i].subs, a[i].line) else a[i]
  }

  /** The rtmp blocks: but for listen and chunk_size of the first one, which is made when there is none, they stay. */
  predicate RtmpRewritten(a: seq<Dir>, b: seq<Dir>) {
    var a' := if a == [] then [Dir("rtmp", [], [], 0)] else a;
    && |b| == |a'| && b[1..] == a'[1..] && b[0] == a'[0].(subs := b[0].subs)
    && Others(b[0].subs, {"listen", "chunk_size"}) == Others(a'[0].subs, {"listen", "chunk_size"})
  }

  lemma RootDirRewritten(d: Dir)
    requires d.name != "rtmp"
    ensures RootRewritten(d, RootDir(d))
  {
    hide Vhost, Caster, DropAll, RenameAll, VhostRewritten, CasterRewritten, Others;
    VhostIsRewritten(d.subs);
    CasterIsRewritten(d.subs);
    UnusedRtc();
    DropIsOthers(d.subs, {"perf_stat", "queue_length"});
    hide UNUSED_RTC;
  }

  lemma UnusedRtc()
    ensures UNUSED_RTC == {"perf_stat", "queue_length"} && ROOT_MOVED == {"listen", "chunk_size"}
  {
  }

  lemma {:induction false} SameOthers(a: seq<Dir>, b: seq<Dir>)
    requires SameButRtmp(a, b)
    ensures Others(a, {"rtmp"}) == Others(b, {"rtmp"})
    ensures var p, q := Called(a, {"rtmp"}), Called(b, {"rtmp"});
      if q == [] then p == [] else p != [] && SameRtmp(p[0], q[0]) && p[1..] == q[1..]
    decreases a
  {
    if a != [] && b != [] && a[0].name != "rtmp" {
      hide SameRtmp;
      SameOthers(a[1..], b[1..]);
      assert [] + Called(a[1..], {"rtmp"}) == Called(a[1..], {"rtmp"});
      assert [] + Called(b[1..], {"rtmp"}) == Called(b[1..], {"rtmp"});
    }
  }

  lemma {:induction false} OthersOfRoot(ds: seq<Dir>)
    ensures var a, b := Others(ds, {"rtmp"}), Others(RootDirs(ds), {"rtmp"});
      |a| == |b| && forall i :: 0 <= i < |a| ==> RootRewritten(a[i], b[i])
    ensures Called(RootDirs(ds), {"rtmp"}) == Called(ds, {"rtmp"})
  {
    hide RootDir, RootRewritten;
    if ds != [] {
      OthersOfRoot(ds[1..]);
      RtmpIsRtmp(ds[0]);
      assert RootDirs(ds)[1..] == RootDirs(ds[1..]);
      if ds[0].name != "rtmp" {
        RootDirRewritten(ds[0]);
      }
    }
  }

  /** One pass over a configuration, with all names. */
  ghost predicate Rewritten(ds: seq<Dir>, r: seq<Dir>) {
    var a, b := Others(ds, {"rtmp", "listen", "chunk_size"}), Others(r, {"rtmp"});
    && |b| == |a| && (forall i :: 0 <= i < |a| ==> RootRewritten(a[i], b[i]))
    && (forall d :: d in r ==> d.name !in {"listen", "chunk_size", "http_stream"})
    && (if ds == [] then r == [] else RtmpRewritten(Called(ds, {"rtmp"}), Called(r, {"rtmp"})))
  }

  lemma EnsuredRtmp(ds: seq<Dir>)
    ensures var e := Ensure(DropAll(ds, ROOT_MOVED), "rtmp"); var q := Called(ds, {"rtmp"});
      && Others(e, {"rtmp"}) == Others(ds, {"rtmp", "listen", "chunk_size"})
      && Called(e, {"rtmp"}) == if q == [] then [Dir("rtmp", [], [], 0)] else q
  {
    var d := DropAll(ds, ROOT_MOVED);
    UnusedRtc();
    hide ROOT_MOVED, DropAll, Find, Others, Called;
    DropIsOthers(ds, ROOT_MOVED);
    OthersTwice(ds, ROOT_MOVED, {"rtmp"});
    assert {"listen", "chunk_size"} + {"rtmp"} == {"rtmp", "listen", "chunk_size"};
    CalledAmongOthers(ds, ROOT_MOVED, {"rtmp"});
    NoneCalled(d, "rtmp");
    OneMore(d, NewDir("rtmp"), "rtmp");
  }

  lemma RtmpIsRewritten(a: seq<Dir>, p: seq<Dir>)
    requires var q := if a == [] then [Dir("rtmp", [], [], 0)] else a;
      p != [] && SameRtmp(p[0], q[0]) && p[1..] == q[1..]
    ensures RtmpRewritten(a, p)
  {
    UnusedRtc();
    hide ROOT_MOVED, Others, DropAll;
    DropIsOthers(p[0].subs, ROOT_MOVED);
    DropIsOthers(if a == [] then [] else a[0].subs, ROOT_MOVED);
  }

  lemma RootHasNothingOld(ds: seq<Dir>)
    ensures forall d :: d in Transform(ds) ==> d.name !in {"listen", "chunk_size", "http_stream"}
  {
    hide Transform;
    NothingLegacyLeft(ds);
  }

  /** The rewriting of a configuration. */
  lemma TransformRewrites(ds: seq<Dir>)
    ensures Rewritten(ds, Transform(ds))
  {
    hide Transform, RootRewritten, RootDirs, DropAll, Find, Ensure, SameRtmp, RtmpRewritten, Others, Called;
    RootHasNothingOld(ds);
    TransformKeeps(ds);
    if ds == [] {
      NoneOfNone();
    } else {
      var e := Ensure(DropAll(ds, ROOT_MOVED), "rtmp");
      SameOthers(Transform(ds), RootDirs(e));
      OthersOfRoot(e);
      EnsuredRtmp(ds);
      RtmpIsRewritten(Called(ds, {"rtmp"}), Called(Transform(ds), {"rtmp"}));
    }
  }

  lemma NoneOfNone()
    ensures Others([], {"rtmp"}) == [] && Others([], {"rtmp", "listen", "chunk_size"}) == []
  {
  }

  /** The settings listen and chunk_size of the first rtmp: the first directive of the root wins. */
  lemma RtmpSettings(ds: seq<Dir>, k: string)
    requires k in {"listen", "chunk_size"}
    ensures Lookup(Transform(ds), "rtmp", k) == if Value(ds, k).Some? then Value(ds, k) else Lookup(ds, "rtmp", k)
  {
    hide Transform, Lookup, Value;
    FirstRootSettingWins(ds, k);
  }
}
