/**
 What the rewriting of legacy directives does: edits of directive lists, and the new
 place of each legacy setting.
 */
module ConfigLegacy {
  import opened Options
  import opened ConfigTree

  // ---------- edits ----------

  /** The first argument, or the empty string. */
  function Arg0(args: seq<string>): string {
    if args == [] then "" else args[0]
  }

  /** `set_arg0` */
  function SetArg0(args: seq<string>, a: string): seq<string> {
    if Arg0(args) == a then args else [a] + (if args == [] then [] else args[1..])
  }

  /** `get_or_create`: the list in which a directive called n can be found. */
  function Ensure(ds: seq<Dir>, n: string): (r: seq<Dir>)
    ensures Find(r, n) < |r| && Find(r, n) == Find(ds, n)
  {
    if Find(ds, n) < |ds| then ds
    else
      FindIs(ds + [NewDir(n)], n, |ds|);
      ds + [NewDir(n)]
  }

  /** `get_or_create(n)->args_ = args` */
  function Put(ds: seq<Dir>, n: string, args: seq<string>): seq<Dir> {
    var s := Ensure(ds, n);
    s[Find(s, n) := s[Find(s, n)].(args := args)]
  }

  /** `get_or_create(n)->set_arg0(a)` */
  function PutArg0(ds: seq<Dir>, n: string, a: string): seq<Dir> {
    var s := Ensure(ds, n);
    Put(s, n, SetArg0(s[Find(s, n)].args, a))
  }

  /** The arguments after the first. */
  function MoreArgs(args: seq<string>): seq<string> {
    if args == [] then [] else args[1..]
  }

  /** The first argument of the first directive called n, which is made when there is none, is a;
      every other directive, and all else of that one, stays. */
  lemma FirstArgIsSet(ds: seq<Dir>, n: string, a: string)
    ensures var r := PutArg0(ds, n, a); var f := Find(ds, n); var was := if f < |ds| then ds[f] else NewDir(n);
      && |r| == (if f < |ds| then |ds| else |ds| + 1) && (forall i :: 0 <= i < |ds| && i != f ==> r[i] == ds[i])
      && Arg0(r[f].args) == a && MoreArgs(r[f].args) == MoreArgs(was.args) && r[f] == was.(args := r[f].args)
  {
    var s := Ensure(ds, n);
    assert Find(s, n) == Find(ds, n);
    assert Ensure(s, n) == s;
  }

  /** `get_or_create("enabled", "on")` */
  function Enable(ds: seq<Dir>): seq<Dir> {
    if exists i :: 0 <= i < |ds| && ds[i].name == "enabled" && Arg0(ds[i].args) == "on" then ds
    else ds + [Dir("enabled", ["on"], [], 0)]
  }

  function Erase(ds: seq<Dir>, i: nat): seq<Dir>
    requires i < |ds|
  {
    ds[..i] + ds[i + 1..]
  }

  /** The first directive called n is removed, if there is one. */
  function Drop(ds: seq<Dir>, n: string): seq<Dir> {
    if Find(ds, n) < |ds| then Erase(ds, Find(ds, n)) else ds
  }

  /** All directives with one of these names are removed. */
  function DropAll(ds: seq<Dir>, names: set<string>): seq<Dir> {
    if ds == [] then []
    else if ds[0].name in names then DropAll(ds[1..], names)
    else [ds[0]] + DropAll(ds[1..], names)
  }

  // ---------- names ----------

  const PLAY: set<string> := {"time_jitter", "mix_correct", "atc", "atc_auto", "mw_latency", "gop_cache",
    "gop_cache_max_frames", "queue_length", "send_min_interval", "reduce_sequence_header"}
  const CLUSTER: set<string> := {"mode", "origin", "token_traverse", "vhost", "debug_srs_upnode"}
  const OTHERS: set<string> := {"refer_play", "refer_publish", "mr", "publish_1stpkt_timeout",
      "publish_normal_timeout", "nack", "twcc"}
  const UNUSED_RTC: set<string> := {"perf_stat", "queue_length"}
  const UNUSED_GB: set<string> := {"tcp_enable", "rtp_port_min", "rtp_port_max", "wait_keyframe", "rtp_idle_timeout",
    "audio_enable", "auto_create_channel"}
  const UNUSED_SIP: set<string> := {"serial", "realm", "ack_timeout", "keepalive_timeout", "invite_port_fixed",
    "query_catalog_interval", "auto_play"}

  /** The names that a child of a vhost must not have any more. */
  predicate MovedName(n: string) {
    n in PLAY || n in CLUSTER || n in OTHERS
  }

  /** A child of a vhost that moves into another block. */
  predicate Legacy(d: Dir) {
    MovedName(d.name) || (d.name == "refer" && d.subs == [])
  }

  /** The block into which a legacy child moves. */
  function Block(d: Dir): string {
    if d.name in PLAY then "play"
    else if d.name in CLUSTER then "cluster"
    else if d.name in {"mr", "publish_1stpkt_timeout", "publish_normal_timeout"} then "publish"
    else if d.name in {"nack", "twcc"} then "rtc"
    else "refer"
  }

  /** A setting of one child becomes a setting of the block. */
  datatype Setting = Setting(key: string, args: seq<string>)

  function FromSub(d: Dir, sub: string, key: string): seq<Setting> {
    match Get(d.subs, sub) case None => [] case Some(s) => [Setting(key, s.args)]
  }

  /** The settings that a legacy child gives to its block. */
  function Settings(d: Dir): seq<Setting> {
    if d.name in PLAY || d.name in CLUSTER then [Setting(d.name, d.args)]
    else if d.name == "mr" then FromSub(d, "enabled", "mr") + FromSub(d, "latency", "mr_latency")
    else if d.name == "publish_1stpkt_timeout" then [Setting("firstpkt_timeout", d.args)]
    else if d.name == "publish_normal_timeout" then [Setting("normal_timeout", d.args)]
    else if d.name == "nack" then FromSub(d, "enabled", "nack") + FromSub(d, "no_copy", "nack_no_copy")
    else if d.name == "twcc" then FromSub(d, "enabled", "twcc")
    else if d.name == "refer_play" then [Setting("play", d.args)]
    else if d.name == "refer_publish" then [Setting("publish", d.args)]
    else [Setting("all", d.args)]
  }

  function PutSettings(ds: seq<Dir>, settings: seq<Setting>): seq<Dir>
    decreases settings
  {
    if settings == [] then ds else PutSettings(Put(ds, settings[0].key, settings[0].args), settings[1..])
  }

  /** The children of a block that takes over the legacy directive d. */
  function TakeOver(subs: seq<Dir>, d: Dir): seq<Dir> {
    PutSettings(if Block(d) == "refer" then Enable(subs) else subs, Settings(d))
  }

  /** The legacy child at i is erased, and its settings go to its block. */
  function Move(ds: seq<Dir>, i: nat): seq<Dir>
    requires i < |ds|
  {
    var d := ds[i];
    var s := Ensure(Erase(ds, i), Block(d));
    var j := Find(s, Block(d));
    s[j := s[j].(subs := TakeOver(s[j].subs, d))]
  }

  predicate OldForward(d: Dir) {
    d.name == "forward" && d.subs == [] && d.args != []
  }

  /** The first directive called was goes; n is "on" if its argument was yes, and else "off". */
  function Replace(ds: seq<Dir>, was: string, yes: string, n: string): seq<Dir> {
    match Get(ds, was)
    case None => ds
    case Some(d) => Drop(PutArg0(ds, n, if Arg0(d.args) == yes then "on" else "off"), was)
  }

  /** `rtc { aac; bframe; }` becomes `rtc { rtmp_to_rtc; keep_bframe; }` */
  function Rtc(subs: seq<Dir>): seq<Dir> {
    Replace(Replace(subs, "aac", "transcode", "rtmp_to_rtc"), "bframe", "keep", "keep_bframe")
  }

  /** A child of a vhost that stays, rewritten in place. */
  function InPlace(d: Dir): Dir {
    if d.name == "http" then d.(name := "http_static")
    else if d.name == "http_remux" then d.(subs := Drop(d.subs, "hstrs"))
    else if OldForward(d) then d.(args := [], subs := Put(PutArg0([], "enabled", "on"), "destination", d.args))
    else if d.name == "rtc" then d.(subs := Rtc(d.subs))
    else d
  }

  // ---------- termination ----------

  /** Each legacy child counts twice: it goes, but may leave a new block at the end. */
  function Weight(ds: seq<Dir>): nat {
    if ds == [] then 0 else (if Legacy(ds[0]) then 2 else 1) + Weight(ds[1..])
  }

  lemma {:induction false} WeightOfConcat(a: seq<Dir>, b: seq<Dir>)
    ensures Weight(a + b) == Weight(a) + Weight(b)
  {
    if a == [] {
      assert a + b == b;
    } else {
      assert (a + b)[1..] == a[1..] + b;
      WeightOfConcat(a[1..], b);
    }
  }

  lemma {:induction false} WeightOfUpdate(ds: seq<Dir>, j: nat, d: Dir)
    requires j < |ds| && (Legacy(d) ==> Legacy(ds[j]))
    ensures Weight(ds[j := d]) <= Weight(ds)
  {
    assert ds == ds[..j] + ([ds[j]] + ds[j + 1..]);
    assert ds[j := d] == ds[..j] + ([d] + ds[j + 1..]);
    WeightOfConcat(ds[..j], [ds[j]] + ds[j + 1..]);
    WeightOfConcat(ds[..j], [d] + ds[j + 1..]);
  }

  lemma BlockIsNotMoved(d: Dir)
    ensures !MovedName(Block(d)) && Block(d) !in {"http", "http_remux", "forward"}
    ensures Block(d) in {"play", "cluster", "publish", "rtc", "refer"}
  {
  }

  lemma PutKeeps(ds: seq<Dir>, n: string, args: seq<string>)
    ensures |Put(ds, n, args)| >= |ds|
    ensures forall i :: 0 <= i < |ds| ==> Put(ds, n, args)[i].name == ds[i].name && Put(ds, n, args)[i].subs == ds[i].subs
    ensures forall i :: |ds| <= i < |Put(ds, n, args)| ==> Put(ds, n, args)[i].name == n
  {
  }

  lemma {:induction false} PutSettingsKeeps(ds: seq<Dir>, settings: seq<Setting>)
    ensures |PutSettings(ds, settings)| >= |ds|
    decreases settings
  {
    if settings != [] {
      PutKeeps(ds, settings[0].key, settings[0].args);
      PutSettingsKeeps(Put(ds, settings[0].key, settings[0].args), settings[1..]);
    }
  }

  /** A block that takes over a directive is not legacy, unless it was. */
  lemma BlockStays(subs: seq<Dir>, d: Dir)
    ensures Block(d) == "refer" ==> TakeOver(subs, d) != []
    ensures subs != [] ==> TakeOver(subs, d) != []
  {
    PutSettingsKeeps(if Block(d) == "refer" then Enable(subs) else subs, Settings(d));
  }

  /** What Move does, element by element. */
  lemma MoveIs(ds: seq<Dir>, i: nat)
    requires i < |ds|
    ensures var c := Block(ds[i]); var e := Erase(ds, i); var r := Move(ds, i); var j := Find(e, c);
      && (|r| == if j < |e| then |e| else |e| + 1) && |e| == |ds| - 1 && j < |r|
      && (forall k :: 0 <= k < |e| && k != j ==> r[k] == e[k])
      && r[j] == (if j < |e| then e[j] else NewDir(c)).(subs := TakeOver(if j < |e| then e[j].subs else [], ds[i]))
      && Find(r, c) == j && r[j].name == c && !Legacy(r[j])
  {
    var c := Block(ds[i]);
    var e := Erase(ds, i);
    var r := Move(ds, i);
    var s := Ensure(e, c);
    BlockIsNotMoved(ds[i]);
    BlockStays(s[Find(s, c)].subs, ds[i]);
    hide MovedName, Block, TakeOver;
    FindIs(r, c, Find(e, c));
  }

  /** r is e with its element j replaced, or appended, by one that is not legacy. */
  lemma WeightOfEdit(e: seq<Dir>, r: seq<Dir>, j: nat, i: nat)
    requires i <= |e| && j <= |e| && |r| == (if j < |e| then |e| else |e| + 1)
    requires (forall k :: 0 <= k < |e| && k != j ==> r[k] == e[k]) && !Legacy(r[j])
    ensures Weight(r[i..]) <= Weight(e[i..]) + 1
  {
    hide Legacy;
    if j == |e| {
      assert r[i..] == e[i..] + [r[j]];
      WeightOfConcat(e[i..], [r[j]]);
    } else if j < i {
      assert r[i..] == e[i..];
    } else {
      assert r[i..] == e[i..][j - i := r[j]];
      WeightOfUpdate(e[i..], j - i, r[j]);
    }
  }

  /** Moving a legacy child leaves less to do. */
  lemma MoveLeavesLess(ds: seq<Dir>, i: nat)
    requires i < |ds| && Legacy(ds[i])
    ensures i <= |Move(ds, i)| && Weight(Move(ds, i)[i..]) < Weight(ds[i..])
  {
    var e := Erase(ds, i);
    MoveIs(ds, i);
    assert e[i..] == ds[i..][1..];
    hide Move, Erase, Block, Legacy, TakeOver;
    WeightOfEdit(e, Move(ds, i), Find(e, Block(ds[i])), i);
  }
}
