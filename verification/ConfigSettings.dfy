/**
 The settings of a vhost before and after the rewriting: each legacy setting arrives in its
 block, the last one wins, and everything else stays.
 */
module ConfigSettings {
  import opened Options
  import opened ConfigTree
  import opened ConfigLegacy
  import opened ConfigVhost

  /** The arguments of the first directive called k. */
  function Value(ds: seq<Dir>, k: string): Option<seq<string>> {
    match Get(ds, k) case None => None case Some(d) => Some(d.args)
  }

  /** The arguments of k in the first block called c. */
  function Lookup(ds: seq<Dir>, c: string, k: string): Option<seq<string>> {
    match Get(ds, c) case None => None case Some(b) => Value(b.subs, k)
  }

  /** The value of k once the settings are made, one after the other. */
  function Override(settings: seq<Setting>, k: string, v: Option<seq<string>>): Option<seq<string>> {
    if settings == [] then v
    else Override(settings[1..], k, if settings[0].key == k then Some(settings[0].args) else v)
  }

  /** The value of k in block c when a legacy directive moves there: `refer` is enabled. */
  function Opened(c: string, k: string, v: Option<seq<string>>): Option<seq<string>> {
    if c == "refer" && k == "enabled" && v == None then Some(["on"]) else v
  }

  /** The value of k in block c once the legacy directives of ds have spoken, one after the other. */
  function Final(ds: seq<Dir>, c: string, k: string, v: Option<seq<string>>): Option<seq<string>> {
    if ds == [] then v
    else Final(ds[1..], c, k, if Speaks(ds[0], c) then Override(Settings(ds[0]), k, Opened(c, k, v)) else v)
  }

  predicate Speaks(d: Dir, c: string) {
    Legacy(d) && Block(d) == c
  }

  const BLOCKS: set<string> := {"play", "cluster", "publish", "rtc"}

  /** The first directive called c is a block, which stays where it is. */
  predicate Settled(ds: seq<Dir>, c: string) {
    c in BLOCKS || (c == "refer" && Get(ds, c).Some? && Get(ds, c).value.subs != [])
  }

  // ---------- blocks ----------

  lemma ValueOfPut(ds: seq<Dir>, n: string, args: seq<string>, k: string)
    ensures Value(Put(ds, n, args), k) == if k == n then Some(args) else Value(ds, k)
  {
    var s := Ensure(ds, n);
    var i := Find(s, n);
    var r := s[i := s[i].(args := args)];
    FindIs(r, n, i);
    if k != n {
      SameNames(ds, r, k);
    }
  }

  /** r has the directives of ds at the same places, or others with other names. */
  lemma SameNames(ds: seq<Dir>, r: seq<Dir>, k: string)
    requires |ds| <= |r| && forall i :: 0 <= i < |r| ==>
      if i < |ds| && ds[i].name == k then r[i] == ds[i] else r[i].name != k
    ensures Get(r, k) == Get(ds, k)
  {
    var i := Find(ds, k);
    if i < |ds| {
      FindIs(r, k, i);
    }
  }

  lemma {:induction false} ValueOfSettings(ds: seq<Dir>, settings: seq<Setting>, k: string)
    ensures Value(PutSettings(ds, settings), k) == Override(settings, k, Value(ds, k))
    decreases settings
  {
    hide Value, Put;
    if settings != [] {
      ValueOfPut(ds, settings[0].key, settings[0].args, k);
      ValueOfSettings(Put(ds, settings[0].key, settings[0].args), settings[1..], k);
    }
  }

  lemma EraseAt(ds: seq<Dir>, i: nat)
    requires i < |ds|
    ensures |Erase(ds, i)| == |ds| - 1
    ensures forall k :: 0 <= k < i ==> Erase(ds, i)[k] == ds[k]
    ensures forall k :: i <= k < |ds| - 1 ==> Erase(ds, i)[k] == ds[k + 1]
  {
  }

  lemma NotFound(ds: seq<Dir>, c: string)
    requires forall k :: 0 <= k < |ds| ==> ds[k].name != c
    ensures Find(ds, c) == |ds|
  {
  }

  /** e is ds without the directive at i. */
  lemma FindWithout(ds: seq<Dir>, e: seq<Dir>, i: nat, c: string)
    requires i < |ds| == |e| + 1 && i != Find(ds, c)
    requires (forall k :: 0 <= k < i ==> e[k] == ds[k]) && (forall k :: i <= k < |e| ==> e[k] == ds[k + 1])
    ensures Get(e, c) == Get(ds, c)
  {
    var f := Find(ds, c);
    if f < i {
      FindIs(e, c, f);
    } else if f < |ds| {
      FindIs(e, c, f - 1);
    } else {
      NotFound(e, c);
    }
  }

  lemma GetAfterErase(ds: seq<Dir>, i: nat, c: string)
    requires i < |ds| && i != Find(ds, c)
    ensures Get(Erase(ds, i), c) == Get(ds, c)
  {
    hide Erase, Find;
    EraseAt(ds, i);
    FindWithout(ds, Erase(ds, i), i, c);
  }

  /** A legacy directive is not the first block of its name. */
  lemma LegacyIsNoBlock(ds: seq<Dir>, i: nat, c: string)
    requires i < |ds| && Legacy(ds[i]) && Settled(ds, c)
    ensures i != Find(ds, c)
  {
    LegacyIsPlain(ds[i]);
  }

  lemma ValueAfterEnable(subs: seq<Dir>, k: string)
    ensures Value(Enable(subs), k) == Opened("refer", k, Value(subs, k))
  {
    if Enable(subs) != subs {
      if Find(subs, k) < |subs| {
        FindIs(Enable(subs), k, Find(subs, k));
      } else if k == "enabled" {
        FindIs(Enable(subs), k, |subs|);
      }
    } else if k == "enabled" {
      var i :| 0 <= i < |subs| && subs[i].name == "enabled";
      assert Find(subs, k) <= i;
    }
  }

  lemma ValueAfterTakeOver(subs: seq<Dir>, d: Dir, k: string)
    ensures Value(TakeOver(subs, d), k) == Override(Settings(d), k, Opened(Block(d), k, Value(subs, k)))
  {
    hide Value, Settings, Enable, Override;
    ValueAfterEnable(subs, k);
    ValueOfSettings(if Block(d) == "refer" then Enable(subs) else subs, Settings(d), k);
  }

  /** Moving a directive makes its settings in the block found once it is erased, and no other. */
  lemma LookupInMoved(ds: seq<Dir>, i: nat, c: string, k: string)
    requires i < |ds|
    ensures var v := Lookup(Erase(ds, i), c, k);
      Lookup(Move(ds, i), c, k) == if Block(ds[i]) == c then Override(Settings(ds[i]), k, Opened(c, k, v)) else v
  {
    var d := ds[i];
    var e := Erase(ds, i);
    var r := Move(ds, i);
    var j := Find(e, Block(d));
    MoveIs(ds, i);
    if Block(d) == c {
      ValueAfterTakeOver(if j < |e| then e[j].subs else [], d, k);
      hide Block, Settings, Override, Erase, Legacy, TakeOver;
    } else {
      hide Block, Legacy, Move, Erase, TakeOver;
      SameNames(e, r, c);
    }
  }

  lemma LookupAfterMove(ds: seq<Dir>, i: nat, c: string, k: string)
    requires i < |ds| && i != Find(ds, c)
    ensures Lookup(Move(ds, i), c, k) ==
      if Block(ds[i]) == c then Override(Settings(ds[i]), k, Opened(c, k, Lookup(ds, c, k))) else Lookup(ds, c, k)
  {
    LookupInMoved(ds, i, c, k);
    GetAfterErase(ds, i, c);
  }

  // ---------- the rest of the list ----------

  lemma {:induction false} FinalFrame(a: seq<Dir>, b: seq<Dir>, c: string, k: string, v: Option<seq<string>>)
    requires |a| <= |b|
    requires forall i :: 0 <= i < |b| ==> (i < |a| && a[i] == b[i]) || (!Speaks(b[i], c) && (i < |a| ==> !Speaks(a[i], c)))
    ensures Final(a, c, k, v) == Final(b, c, k, v)
    decreases b
  {
    hide Speaks, Settings, Override, Opened;
    if b != [] {
      var v' := if Speaks(b[0], c) then Override(Settings(b[0]), k, Opened(c, k, v)) else v;
      if a == [] {
        FinalFrame(a, b[1..], c, k, v');
      } else {
        assert forall i :: 0 <= i < |b| - 1 ==> b[1..][i] == b[i + 1] && (i < |a| - 1 ==> a[1..][i] == a[i + 1]);
        FinalFrame(a[1..], b[1..], c, k, v');
      }
    }
  }

  /** Neither the block that takes over a directive nor what it was before moves to c itself. */
  lemma BlockIsSilent(ds: seq<Dir>, i: nat, c: string)
    requires i < |ds| && Legacy(ds[i]) && Settled(ds, c)
    ensures var e := Erase(ds, i); var r := Move(ds, i); var j := Find(e, Block(ds[i]));
      j < |r| && !Speaks(r[j], c) && (j < |e| ==> !Speaks(e[j], c)) && Settled(r, c)
  {
    hide Move, Erase, TakeOver;
    var e := Erase(ds, i);
    var r := Move(ds, i);
    var j := Find(e, Block(ds[i]));
    MoveIs(ds, i);
    LegacyIsNoBlock(ds, i, c);
    GetAfterErase(ds, i, c);
    BlockIsNotMoved(ds[i]);
    hide MovedName, Block;
    if c == "refer" && r[j].name != c {
      SameNames(e, r, c);
    }
  }

  lemma FinalAfterMove(ds: seq<Dir>, i: nat, c: string, k: string, v: Option<seq<string>>)
    requires i < |ds| && Legacy(ds[i]) && Settled(ds, c)
    ensures |Move(ds, i)| >= i && Final(Move(ds, i)[i..], c, k, v) == Final(ds[i + 1..], c, k, v)
  {
    var e := Erase(ds, i);
    var r := Move(ds, i);
    var j := Find(e, Block(ds[i]));
    MoveIs(ds, i);
    BlockIsSilent(ds, i, c);
    assert e[i..] == ds[i + 1..];
    hide Move, Erase, TakeOver, Legacy, Speaks, Block, Settled;
    FinalOfEdit(e, r, j, i, c, k, v);
  }

  lemma FinalOfEdit(e: seq<Dir>, r: seq<Dir>, j: nat, i: nat, c: string, k: string, v: Option<seq<string>>)
    requires i <= |e| && j <= |e| && |r| == (if j < |e| then |e| else |e| + 1)
    requires (forall n :: 0 <= n < |e| && n != j ==> r[n] == e[n]) && !Speaks(r[j], c) && (j < |e| ==> !Speaks(e[j], c))
    ensures Final(r[i..], c, k, v) == Final(e[i..], c, k, v)
  {
    hide Speaks, Final;
    FinalFrame(e[i..], r[i..], c, k, v);
  }

  lemma ValueAfterDrop(ds: seq<Dir>, n: string, k: string)
    requires k != n
    ensures Value(Drop(ds, n), k) == Value(ds, k)
  {
    if Find(ds, n) < |ds| {
      GetAfterErase(ds, Find(ds, n), k);
    }
  }

  lemma ValueAfterPutArg0(ds: seq<Dir>, n: string, a: string, k: string)
    requires k != n
    ensures Value(PutArg0(ds, n, a), k) == Value(ds, k)
  {
    var s := Ensure(ds, n);
    SameNames(ds, s, k);
    ValueOfPut(s, n, SetArg0(s[Find(s, n)].args, a), k);
  }

  lemma ValueAfterReplace(ds: seq<Dir>, was: string, yes: string, n: string, k: string)
    requires k != was && k != n
    ensures Value(Replace(ds, was, yes, n), k) == Value(ds, k)
  {
    hide Value;
    if Get(ds, was).Some? {
      var a := if Arg0(Get(ds, was).value.args) == yes then "on" else "off";
      ValueAfterPutArg0(ds, n, a, k);
      ValueAfterDrop(PutArg0(ds, n, a), was, k);
    }
  }

  lemma ValueInRtc(subs: seq<Dir>, k: string)
    requires k !in RTC_KEYS
    ensures Value(Rtc(subs), k) == Value(subs, k)
  {
    hide Value, Replace;
    ValueAfterReplace(subs, "aac", "transcode", "rtmp_to_rtc", k);
    ValueAfterReplace(Replace(subs, "aac", "transcode", "rtmp_to_rtc"), "bframe", "keep", "keep_bframe", k);
  }

  lemma LookupInPlace(ds: seq<Dir>, i: nat, c: string, k: string)
    requires i < |ds| && (c in BLOCKS || c == "refer") && (c == "rtc" ==> k !in RTC_KEYS)
    ensures Lookup(ds[i := InPlace(ds[i])], c, k) == Lookup(ds, c, k)
    ensures Settled(ds, c) ==> Settled(ds[i := InPlace(ds[i])], c)
  {
    var r := ds[i := InPlace(ds[i])];
    NameInPlace(ds[i], c);
    if c == "rtc" {
      ValueInRtc(ds[i].subs, k);
    }
    hide InPlace, Rtc;
    if i == Find(ds, c) {
      FindIs(r, c, i);
    } else {
      SameFind(ds, r, c, i);
    }
  }

  lemma SameFind(ds: seq<Dir>, r: seq<Dir>, c: string, i: nat)
    requires |r| == |ds| && i < |ds| && i != Find(ds, c) && (r[i].name == c <==> ds[i].name == c)
    requires forall k :: 0 <= k < |ds| && k != i ==> r[k] == ds[k]
    ensures Get(r, c) == Get(ds, c)
  {
    if Find(ds, c) < |ds| {
      FindIs(r, c, Find(ds, c));
    }
  }

  lemma NameInPlace(d: Dir, c: string)
    requires c in BLOCKS || c == "refer"
    ensures InPlace(d).name == c <==> d.name == c
    ensures d.name == c ==> InPlace(d).subs == (if c == "rtc" then Rtc(d.subs) else d.subs)
  {
  }

  // ---------- the whole loop ----------

  /** Every setting of a block that stays where it is is, after the loop, what the last legacy
      directive for it said, or else what it was. */
  lemma {:induction false} SettingsArrive(ds: seq<Dir>, i: nat, c: string, k: string)
    requires i <= |ds| && Settled(ds, c) && (c == "rtc" ==> k !in RTC_KEYS)
    ensures Lookup(Vhost(ds, i), c, k) == Final(ds[i..], c, k, Lookup(ds, c, k))
    decreases Weight(ds[i..])
  {
    hide Lookup, InPlace, Move, Override, Settings, Opened, Settled, Speaks, Legacy;
    if i < |ds| {
      assert ds[i..][1..] == ds[i + 1..];
      if Legacy(ds[i]) {
        LegacyIsNoBlock(ds, i, c);
        MoveLeavesLess(ds, i);
        LookupAfterMove(ds, i, c, k);
        FinalAfterMove(ds, i, c, k, Lookup(Move(ds, i), c, k));
        BlockIsSilent(ds, i, c);
        SpeaksIff(ds[i], c);
        SettingsArrive(Move(ds, i), i, c, k);
      } else {
        var r := ds[i := InPlace(ds[i])];
        assert r[i + 1..] == ds[i..][1..];
        SettledIsKnown(ds, c);
        SpeaksIff(ds[i], c);
        LookupInPlace(ds, i, c, k);
        SettingsArrive(r, i + 1, c, k);
      }
    }
  }

  lemma SpeaksIff(d: Dir, c: string)
    ensures Speaks(d, c) <==> Legacy(d) && Block(d) == c
  {
  }

  lemma SettledIsKnown(ds: seq<Dir>, c: string)
    requires Settled(ds, c)
    ensures c in BLOCKS || c == "refer"
  {
  }

  lemma OverrideOne(s: Setting, k: string, v: Option<seq<string>>)
    ensures Override([s], k, v) == if s.key == k then Some(s.args) else v
  {
  }

  lemma OwnKey(d: Dir, n: string)
    requires n in PLAY || n in CLUSTER
    requires Speaks(d, if n in PLAY then "play" else "cluster")
    ensures Settings(d) == [Setting(d.name, d.args)]
  {
  }

  lemma {:induction false} FinalOfLast(ds: seq<Dir>, n: string, m: nat, v: Option<seq<string>>)
    requires n in PLAY || n in CLUSTER
    requires m < |ds| ==> ds[m].name == n
    requires m <= |ds| && forall k :: m < k < |ds| ==> ds[k].name != n
    requires m == |ds| ==> forall k :: 0 <= k < |ds| ==> ds[k].name != n
    ensures Final(ds, if n in PLAY then "play" else "cluster", n, v) == if m < |ds| then Some(ds[m].args) else v
    decreases ds
  {
    var c := if n in PLAY then "play" else "cluster";
    if ds != [] {
      if Speaks(ds[0], c) {
        OwnKey(ds[0], n);
        OverrideOne(Setting(ds[0].name, ds[0].args), n, v);
      }
      if ds[0].name == n {
        NamedSpeaks(ds[0], n);
      }
      hide Speaks, Settings, Override;
      var v' := if Speaks(ds[0], c) then Override(Settings(ds[0]), n, Opened(c, n, v)) else v;
      if m > 0 {
        FinalOfLast(ds[1..], n, m - 1, v');
      } else {
        FinalOfLast(ds[1..], n, |ds| - 1, v');
      }
    }
  }

  lemma NamedSpeaks(d: Dir, n: string)
    requires (n in PLAY || n in CLUSTER) && d.name == n
    ensures Speaks(d, if n in PLAY then "play" else "cluster")
  {
  }

  /** Of several legacy `play` or `cluster` settings of one name the last wins. */
  lemma LastLegacyWins(ds: seq<Dir>, n: string, m: nat)
    requires (n in PLAY || n in CLUSTER) && m < |ds| && ds[m].name == n && forall k :: m < k < |ds| ==> ds[k].name != n
    ensures Lookup(Vhost(ds, 0), if n in PLAY then "play" else "cluster", n) == Some(ds[m].args)
  {
    var c := if n in PLAY then "play" else "cluster";
    assert ds[0..] == ds;
    NotRtcKey(n);
    SettingsArrive(ds, 0, c, n);
    FinalOfLast(ds, n, m, Lookup(ds, c, n));
  }

  // ---------- what is not concerned ----------

  /** Neither legacy nor one of the blocks that take over settings. */
  predicate Stays(d: Dir) {
    !MovedName(d.name) && d.name !in {"refer", "play", "cluster", "publish", "rtc"}
  }

  function Stayers(ds: seq<Dir>): seq<Dir> {
    if ds == [] then [] else (if Stays(ds[0]) then [ds[0]] else []) + Stayers(ds[1..])
  }

  function AllInPlace(ds: seq<Dir>): seq<Dir> {
    if ds == [] then [] else [InPlace(ds[0])] + AllInPlace(ds[1..])
  }

  lemma {:induction false} StayersOfConcat(a: seq<Dir>, b: seq<Dir>)
    ensures Stayers(a + b) == Stayers(a) + Stayers(b)
  {
    hide Stays;
    if a == [] {
      assert a + b == b && [] + Stayers(b) == Stayers(b);
    } else {
      var h := if Stays(a[0]) then [a[0]] else [];
      assert (a + b)[1..] == a[1..] + b && (a + b)[0] == a[0];
      StayersOfConcat(a[1..], b);
      assert Stayers(a) == h + Stayers(a[1..]) && Stayers(a + b) == h + Stayers(a[1..] + b);
      hide Stayers;
      assert (h + Stayers(a[1..])) + Stayers(b) == h + (Stayers(a[1..]) + Stayers(b));
    }
  }

  /** Lists that differ only in what does not stay have the same stayers. */
  lemma {:induction false} SameStayers(a: seq<Dir>, b: seq<Dir>)
    requires |a| <= |b| && forall k :: 0 <= k < |b| ==>
      (k < |a| && b[k] == a[k]) || (!Stays(b[k]) && (k < |a| ==> !Stays(a[k])))
    ensures Stayers(a) == Stayers(b)
    decreases b
  {
    hide Stays;
    if b != [] {
      SameStayers(if a == [] then [] else a[1..], b[1..]);
    }
  }

  lemma StayersAround(ds: seq<Dir>, i: nat)
    requires i < |ds| && !Stays(ds[i])
    ensures Erase(ds, i)[..i] == ds[..i] && Stayers(ds[i..]) == Stayers(Erase(ds, i)[i..])
  {
    hide Stays;
    assert Erase(ds, i)[i..] == ds[i..][1..];
    assert [] + Stayers(ds[i..][1..]) == Stayers(ds[i..][1..]);
  }

  lemma LegacyGoes(d: Dir)
    requires Legacy(d)
    ensures !Stays(d)
  {
  }

  lemma BlockIsNoStayer(d: Dir, b: Dir)
    requires b.name == Block(d)
    ensures !Stays(b)
  {
  }

  /** A move changes none of the stayers, before place i or behind it. */
  lemma StayersAfterMove(ds: seq<Dir>, i: nat)
    requires i < |ds| && Legacy(ds[i])
    ensures var r := Move(ds, i); i <= |r| && Stayers(r[..i]) == Stayers(ds[..i]) && Stayers(r[i..]) == Stayers(ds[i..])
  {
    hide Stays, Move, TakeOver, Legacy, Block;
    var e := Erase(ds, i);
    var r := Move(ds, i);
    var j := Find(e, Block(ds[i]));
    MoveIs(ds, i);
    LegacyGoes(ds[i]);
    BlockIsNoStayer(ds[i], r[j]);
    if j < |e| {
      BlockIsNoStayer(ds[i], e[j]);
    }
    StayersAround(ds, i);
    hide Stayers, Erase, Find;
    SameStayers(e[..i], r[..i]);
    SameStayers(e[i..], r[i..]);
  }

  lemma InPlaceStays(d: Dir)
    requires !Legacy(d)
    ensures Stays(InPlace(d)) <==> Stays(d)
  {
  }

  lemma StayersWithOne(ds: seq<Dir>, i: nat, d: Dir)
    requires i < |ds| && (Stays(d) <==> Stays(ds[i]))
    ensures var r := ds[i := d];
      && Stayers(r[..i + 1]) == (if Stays(ds[i]) then Stayers(ds[..i]) + [d] else Stayers(ds[..i]))
      && Stayers(ds[i..]) == (if Stays(ds[i]) then [ds[i]] + Stayers(ds[i + 1..]) else Stayers(ds[i + 1..]))
      && r[i + 1..] == ds[i + 1..]
  {
    hide Stays;
    assert ds[i := d][..i + 1] == ds[..i] + [d];
    StayersOfConcat(ds[..i], [d]);
    assert ds[i..][1..] == ds[i + 1..];
    assert [d][1..] == [];
    InTurn(Stayers(ds[..i]), d, Stayers(ds[i + 1..]));
  }

  lemma NoStayers()
    ensures AllInPlace(Stayers([])) == []
  {
  }

  lemma InTurn(a: seq<Dir>, d: Dir, b: seq<Dir>)
    ensures (a + [d]) + b == a + ([d] + b) && a + [] == a && [] + b == b
  {
  }

  lemma AllInPlaceOfCons(d: Dir, rest: seq<Dir>)
    ensures AllInPlace([d] + rest) == [InPlace(d)] + AllInPlace(rest)
  {
    assert ([d] + rest)[1..] == rest;
  }

  /** What a vhost holds beside legacy directives and their blocks stays in order, each child rewritten in
      place. */
  lemma {:induction false} StayInPlace(ds: seq<Dir>, i: nat)
    requires i <= |ds|
    ensures Stayers(Vhost(ds, i)) == Stayers(ds[..i]) + AllInPlace(Stayers(ds[i..]))
    decreases Weight(ds[i..])
  {
    hide InPlace, Move, Stays, Legacy, Stayers, AllInPlace;
    if i == |ds| {
      assert ds[..i] == ds && ds[i..] == [];
      NoStayers();
    } else if Legacy(ds[i]) {
      MoveLeavesLess(ds, i);
      StayersAfterMove(ds, i);
      StayInPlace(Move(ds, i), i);
    } else {
      var d := InPlace(ds[i]);
      var r := ds[i := d];
      InPlaceStays(ds[i]);
      StayersWithOne(ds, i, d);
      assert r[i + 1..] == ds[i..][1..];
      AllInPlaceOfCons(ds[i], Stayers(ds[i + 1..]));
      StayInPlace(r, i + 1);
      InTurn(Stayers(ds[..i]), d, AllInPlace(Stayers(ds[i + 1..])));
    }
  }

  /** A child that the rewriting does not know. */
  predicate Unknown(d: Dir) {
    Stays(d) && d.name !in {"http", "http_static", "http_remux", "forward"}
  }

  function Unknowns(ds: seq<Dir>): seq<Dir> {
    if ds == [] then [] else (if Unknown(ds[0]) then [ds[0]] else []) + Unknowns(ds[1..])
  }

  lemma {:induction false} UnknownsOfConcat(a: seq<Dir>, b: seq<Dir>)
    ensures Unknowns(a + b) == Unknowns(a) + Unknowns(b)
  {
    hide Unknown;
    if a == [] {
      assert a + b == b && [] + Unknowns(b) == Unknowns(b);
    } else {
      var h := if Unknown(a[0]) then [a[0]] else [];
      assert (a + b)[1..] == a[1..] + b && (a + b)[0] == a[0];
      UnknownsOfConcat(a[1..], b);
      assert Unknowns(a) == h + Unknowns(a[1..]) && Unknowns(a + b) == h + Unknowns(a[1..] + b);
      hide Unknowns;
      assert (h + Unknowns(a[1..])) + Unknowns(b) == h + (Unknowns(a[1..]) + Unknowns(b));
    }
  }

  lemma UnknownsOfOne(d: Dir, rest: seq<Dir>)
    ensures Unknowns([d] + rest) == (if Unknown(d) then [d] else []) + Unknowns(rest)
  {
    hide Unknown;
    assert ([d] + rest)[1..] == rest;
  }

  lemma {:induction false} UnknownsOfStayers(ds: seq<Dir>)
    ensures Unknowns(Stayers(ds)) == Unknowns(ds)
    decreases ds
  {
    hide Unknown, Stays;
    if ds != [] {
      var d, rest := ds[0], Stayers(ds[1..]);
      UnknownsOfStayers(ds[1..]);
      InPlaceUnknown(d);
      UnknownsOfOne(d, rest);
      assert [] + rest == rest && [] + Unknowns(rest) == Unknowns(rest);
    }
  }

  lemma {:induction false} UnknownsInPlace(ds: seq<Dir>)
    requires forall d :: d in ds ==> Stays(d)
    ensures Unknowns(AllInPlace(ds)) == Unknowns(ds)
    decreases ds
  {
    hide Unknown, Stays, InPlace;
    if ds != [] {
      UnknownsInPlace(ds[1..]);
      assert ds[0] in ds;
      InPlaceUnknown(ds[0]);
      UnknownsOfOne(InPlace(ds[0]), AllInPlace(ds[1..]));
    }
  }

  lemma {:induction false} StayersStay(ds: seq<Dir>)
    ensures forall d :: d in Stayers(ds) ==> Stays(d)
    decreases ds
  {
    hide Stays;
    if ds != [] {
      StayersStay(ds[1..]);
    }
  }

  lemma InPlaceUnknown(d: Dir)
    ensures Unknown(d) ==> Stays(d)
    ensures Stays(d) ==> if Unknown(d) then InPlace(d) == d else !Unknown(InPlace(d))
  {
  }

  /** The children that the rewriting does not know stay as they are, in order. */
  lemma UnknownsStay(ds: seq<Dir>, i: nat)
    requires i <= |ds|
    ensures Unknowns(Vhost(ds, i)) == Unknowns(ds)
  {
    hide Vhost, Unknown, Stays, InPlace, Stayers, AllInPlace, Unknowns;
    StayInPlace(ds, i);
    UnknownsOfStayers(Vhost(ds, i));
    UnknownsOfStayers(ds[..i]);
    UnknownsOfStayers(ds[i..]);
    StayersStay(ds[i..]);
    UnknownsInPlace(Stayers(ds[i..]));
    UnknownsOfConcat(Stayers(ds[..i]), AllInPlace(Stayers(ds[i..])));
    UnknownsOfConcat(ds[..i], ds[i..]);
    assert ds == ds[..i] + ds[i..];
  }
}
