/**
 What `rtmp_to_rtc` and `keep_bframe` of the `rtc` block are after the rewriting, in terms of the
 `aac` and `bframe` that go.
 */
module ConfigRtc {
  import opened Options
  import opened ConfigTree
  import opened ConfigLegacy
  import opened ConfigVhost
  import opened ConfigSettings

  const MADE: set<string> := {"rtmp_to_rtc", "keep_bframe"}

  /** The old setting from which k is made. */
  function Origin(k: string): string {
    if k == "rtmp_to_rtc" then "aac" else "bframe"
  }

  /** The argument of the old setting that turns k on. */
  function TurnsOn(k: string): string {
    if k == "rtmp_to_rtc" then "transcode" else "keep"
  }

  /** The value of k in an rtc block after it is rewritten: on or off by the first old setting, with
      any further arguments that k had, or as it was when there is no old setting. */
  function Made(subs: seq<Dir>, k: string): Option<seq<string>> {
    match Value(subs, Origin(k))
    case None => Value(subs, k)
    case Some(args) =>
      Some(SetArg0(match Value(subs, k) case None => [] case Some(v) => v,
                   if Arg0(args) == TurnsOn(k) then "on" else "off"))
  }

  lemma ValueOfPutArg0(ds: seq<Dir>, n: string, a: string)
    ensures Value(PutArg0(ds, n, a), n) == Some(SetArg0(match Value(ds, n) case None => [] case Some(v) => v, a))
  {
    var s := Ensure(ds, n);
    ValueOfPut(s, n, SetArg0(s[Find(s, n)].args, a), n);
  }

  lemma ValueOfReplace(ds: seq<Dir>, was: string, yes: string, n: string)
    requires was != n
    ensures Value(Replace(ds, was, yes, n), n) ==
      match Value(ds, was)
      case None => Value(ds, n)
      case Some(args) =>
        Some(SetArg0(match Value(ds, n) case None => [] case Some(v) => v, if Arg0(args) == yes then "on" else "off"))
  {
    if Get(ds, was).Some? {
      var a := if Arg0(Get(ds, was).value.args) == yes then "on" else "off";
      ValueOfPutArg0(ds, n, a);
      ValueAfterDrop(PutArg0(ds, n, a), was, n);
    }
  }

  lemma RtcMakes(subs: seq<Dir>, k: string)
    requires k in MADE
    ensures Value(Rtc(subs), k) == Made(subs, k)
  {
    var s := Replace(subs, "aac", "transcode", "rtmp_to_rtc");
    hide Value, Replace, SetArg0;
    if k == "rtmp_to_rtc" {
      ValueOfReplace(subs, "aac", "transcode", k);
      ValueAfterReplace(s, "bframe", "keep", "keep_bframe", k);
    } else {
      ValueAfterReplace(subs, "aac", "transcode", "rtmp_to_rtc", "bframe");
      ValueAfterReplace(subs, "aac", "transcode", "rtmp_to_rtc", k);
      ValueOfReplace(s, "bframe", "keep", k);
    }
  }

  lemma {:induction false} OverrideNothing(settings: seq<Setting>, k: string, v: Option<seq<string>>)
    requires forall s :: s in settings ==> s.key != k
    ensures Override(settings, k, v) == v
    decreases settings
  {
    if settings != [] {
      OverrideNothing(settings[1..], k, v);
    }
  }

  /** Taking over `nack` or `twcc` does not concern these settings. */
  lemma MadeAfterTakeOver(subs: seq<Dir>, d: Dir, k: string)
    requires k in MADE && Block(d) == "rtc"
    ensures Value(TakeOver(subs, d), k) == Value(subs, k) && Made(TakeOver(subs, d), k) == Made(subs, k)
  {
    hide TakeOver, Block, Value, Settings, Override;
    PlainKeys(d);
    forall n | n in RTC_KEYS
      ensures Value(TakeOver(subs, d), n) == Value(subs, n)
    {
      ValueAfterTakeOver(subs, d, n);
      OverrideNothing(Settings(d), n, Value(subs, n));
    }
  }

  /** What the first rtc block says, or will say when the loop, which is at i, comes to it. */
  function Outcome(ds: seq<Dir>, i: nat, k: string): Option<seq<string>> {
    var f := Find(ds, "rtc");
    if f == |ds| then None else if f < i then Value(ds[f].subs, k) else Made(ds[f].subs, k)
  }

  lemma FindAfterErase(ds: seq<Dir>, i: nat, c: string)
    requires i < |ds| && i != Find(ds, c)
    ensures var f := Find(ds, c); var e := Erase(ds, i); var g := Find(e, c);
      |e| == |ds| - 1 && g == (if f > i then f - 1 else f) && (f < |ds| ==> g < |e| && e[g] == ds[f])
  {
    var f := Find(ds, c);
    var g := if f > i then f - 1 else f;
    var e := Erase(ds, i);
    EraseAt(ds, i);
    hide Erase, Find;
    if f < |ds| {
      assert e[g] == ds[f];
      FindIs(e, c, g);
    }
  }

  /** r has the directives of e at the same places, or others with other names. */
  lemma SameFindIn(e: seq<Dir>, r: seq<Dir>, c: string)
    requires |e| <= |r| && forall n :: 0 <= n < |r| ==>
      if n < |e| && e[n].name == c then r[n] == e[n] else r[n].name != c
    ensures Find(r, c) == if Find(e, c) < |e| then Find(e, c) else |r|
  {
    hide Find;
    if Find(e, c) < |e| {
      FindIs(r, c, Find(e, c));
    }
  }

  lemma OutcomeAfterErase(ds: seq<Dir>, i: nat, k: string)
    requires i < |ds| && i != Find(ds, "rtc")
    ensures Outcome(Erase(ds, i), i, k) == Outcome(ds, i, k)
  {
    hide Erase, Find, Value, Made;
    FindAfterErase(ds, i, "rtc");
  }

  /** The first rtc block of e, or a new one at its end, takes over d. */
  lemma OutcomeOfBlock(e: seq<Dir>, r: seq<Dir>, i: nat, d: Dir, k: string)
    requires k in MADE && Block(d) == "rtc" && i <= |e|
    requires var j := Find(e, "rtc");
      j < |r| && r[j].subs == TakeOver(if j < |e| then e[j].subs else [], d) && Find(r, "rtc") == j
    ensures Outcome(r, i, k) == Outcome(e, i, k)
  {
    var j := Find(e, "rtc");
    MadeAfterTakeOver(if j < |e| then e[j].subs else [], d, k);
    NothingMade(k);
    hide TakeOver, Block, Value, Made, Find;
  }

  lemma OutcomeOfOther(e: seq<Dir>, r: seq<Dir>, i: nat, k: string)
    requires |e| <= |r| && forall n :: 0 <= n < |r| ==>
      if n < |e| && e[n].name == "rtc" then r[n] == e[n] else r[n].name != "rtc"
    ensures Outcome(r, i, k) == Outcome(e, i, k)
  {
    SameFindIn(e, r, "rtc");
    hide Find, Value, Made;
  }

  lemma OutcomeAfterMove(ds: seq<Dir>, i: nat, k: string)
    requires i < |ds| && Legacy(ds[i]) && k in MADE
    ensures Outcome(Move(ds, i), i, k) == Outcome(ds, i, k)
  {
    var e := Erase(ds, i);
    var r := Move(ds, i);
    MoveIs(ds, i);
    LegacyIsNoBlock(ds, i, "rtc");
    OutcomeAfterErase(ds, i, k);
    hide Outcome, Move, Erase, TakeOver, Legacy, Block, Find;
    if Block(ds[i]) == "rtc" {
      OutcomeOfBlock(e, r, i, ds[i], k);
    } else {
      OutcomeOfOther(e, r, i, k);
    }
  }

  lemma NothingMade(k: string)
    ensures Value([], k) == None && Made([], k) == None
  {
  }

  lemma OutcomeInPlace(ds: seq<Dir>, i: nat, k: string)
    requires i < |ds| && k in MADE
    ensures Outcome(ds[i := InPlace(ds[i])], i + 1, k) == Outcome(ds, i, k)
  {
    var r := ds[i := InPlace(ds[i])];
    NameInPlace(ds[i], "rtc");
    RtcMakes(ds[i].subs, k);
    hide InPlace, Value, Made, Rtc, Find;
    if Find(ds, "rtc") < |ds| {
      FindIs(r, "rtc", Find(ds, "rtc"));
    }
  }

  lemma {:induction false} OutcomeArrives(ds: seq<Dir>, i: nat, k: string)
    requires i <= |ds| && k in MADE
    ensures Lookup(Vhost(ds, i), "rtc", k) == Outcome(ds, i, k)
    decreases Weight(ds[i..])
  {
    hide InPlace, Move, Legacy, Value, Made;
    if i < |ds| {
      hide Lookup, Outcome;
      if Legacy(ds[i]) {
        MoveLeavesLess(ds, i);
        OutcomeAfterMove(ds, i, k);
        OutcomeArrives(Move(ds, i), i, k);
      } else {
        var r := ds[i := InPlace(ds[i])];
        assert r[i + 1..] == ds[i..][1..];
        OutcomeInPlace(ds, i, k);
        OutcomeArrives(r, i + 1, k);
      }
    }
  }

  /** `rtmp_to_rtc` and `keep_bframe` of a vhost are made of the first `aac` and `bframe` of its first
      rtc block; a block that `nack` or `twcc` opens has neither. */
  lemma RtcSettingsArrive(ds: seq<Dir>, k: string)
    requires k in MADE
    ensures Lookup(Vhost(ds, 0), "rtc", k) == match Get(ds, "rtc") case None => None case Some(d) => Made(d.subs, k)
  {
    OutcomeArrives(ds, 0, k);
  }
}
