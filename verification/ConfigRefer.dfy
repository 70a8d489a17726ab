/**
 The old `refer`, `refer_play` and `refer_publish` of a vhost: which of them become settings of
 the new `refer` block, and which one is taken for that block and lost.
 */
module ConfigRefer {
  import opened Options
  import opened ConfigTree
  import opened ConfigLegacy
  import opened ConfigVhost
  import opened ConfigSettings

  const REFERS: set<string> := {"refer", "refer_play", "refer_publish"}

  /** The refer directives of a vhost, in order. */
  function Refers(ds: seq<Dir>): seq<Dir> {
    if ds == [] then [] else (if ds[0].name in REFERS then [ds[0]] else []) + Refers(ds[1..])
  }

  /** The old-style ones: `refer_play`, `refer_publish`, and `refer` without a block. */
  function Speakers(ds: seq<Dir>): seq<Dir> {
    if ds == [] then [] else (if Speaks(ds[0], "refer") then [ds[0]] else []) + Speakers(ds[1..])
  }

  /** The directives that the loop moves into the refer block, from child i on. */
  function ReferMoves(ds: seq<Dir>, i: nat): seq<Dir>
    requires i <= |ds|
    decreases Weight(ds[i..])
  {
    if i == |ds| then []
    else if Legacy(ds[i]) then
      MoveLeavesLess(ds, i);
      (if Block(ds[i]) == "refer" then [ds[i]] else []) + ReferMoves(Move(ds, i), i)
    else
      assert ds[i := InPlace(ds[i])][i + 1..] == ds[i..][1..];
      ReferMoves(ds[i := InPlace(ds[i])], i + 1)
  }

  /** Of the refer directives q of a vhost, the ones that move: when the first is old-style, the
      next `refer` becomes the block and does not move. */
  function Arriving(q: seq<Dir>): seq<Dir> {
    if q == [] || !Speaks(q[0], "refer") then Speakers(q) else [q[0]] + Speakers(Drop(q[1..], "refer"))
  }

  /** What the directive that becomes the block says about k beforehand. */
  function Held(q: seq<Dir>, k: string): Option<seq<string>> {
    if q == [] then None
    else if !Speaks(q[0], "refer") then Value(q[0].subs, k)
    else Lookup(q[1..], "refer", k)
  }

  /** The first `refer` has a block, or it is the first refer directive of all and the next
      `refer`, if there is one, has a block. */
  predicate AllRefersMove(q: seq<Dir>) {
    var f := Find(q, "refer");
    f == |q| || q[f].subs != [] || (f == 0 && (Get(q[1..], "refer").Some? ==> Get(q[1..], "refer").value.subs != []))
  }

  /** The one that is lost otherwise: the first `refer` when something stands before it, and else
      the next one. */
  function Lost(q: seq<Dir>): nat
    requires q != []
  {
    var f := Find(q, "refer");
    if f > 0 then f else 1 + Find(q[1..], "refer")
  }

  // ---------- the three names ----------

  lemma SpeaksIffOld(d: Dir)
    ensures Speaks(d, "refer") <==> d.name in REFERS && (d.name == "refer" ==> d.subs == [])
    ensures d.name in REFERS && Legacy(d) ==> Block(d) == "refer"
  {
  }

  lemma BlockNames(d: Dir)
    ensures Block(d) in REFERS ==> Block(d) == "refer"
    ensures Legacy(d) ==> (Block(d) == "refer" <==> d.name in REFERS)
  {
  }

  lemma InPlaceNames(d: Dir)
    requires !Legacy(d)
    ensures InPlace(d).name in REFERS <==> d.name in REFERS
  {
  }

  // ---------- filters ----------

  lemma {:induction false} RefersFrame(a: seq<Dir>, b: seq<Dir>)
    requires |a| <= |b| && forall i :: 0 <= i < |b| ==>
      (i < |a| && a[i] == b[i]) || (b[i].name !in REFERS && (i < |a| ==> a[i].name !in REFERS))
    ensures Refers(a) == Refers(b)
    decreases b
  {
    hide REFERS;
    if b != [] {
      if a == [] {
        RefersFrame(a, b[1..]);
      } else {
        assert forall i :: 0 <= i < |b| - 1 ==> b[1..][i] == b[i + 1] && (i < |a| - 1 ==> a[1..][i] == a[i + 1]);
        RefersFrame(a[1..], b[1..]);
      }
    }
  }

  lemma {:induction false} SpeakersFrame(a: seq<Dir>, b: seq<Dir>)
    requires |a| <= |b| && forall i :: 0 <= i < |b| ==>
      (i < |a| && a[i] == b[i]) || (!Speaks(b[i], "refer") && (i < |a| ==> !Speaks(a[i], "refer")))
    ensures Speakers(a) == Speakers(b)
    decreases b
  {
    hide Speaks;
    if b != [] {
      if a == [] {
        SpeakersFrame(a, b[1..]);
      } else {
        assert forall i :: 0 <= i < |b| - 1 ==> b[1..][i] == b[i + 1] && (i < |a| - 1 ==> a[1..][i] == a[i + 1]);
        SpeakersFrame(a[1..], b[1..]);
      }
    }
  }

  lemma {:induction false} SpeakersOfConcat(a: seq<Dir>, b: seq<Dir>)
    ensures Speakers(a + b) == Speakers(a) + Speakers(b)
  {
    hide Speaks;
    if a == [] {
      assert a + b == b && [] + Speakers(b) == Speakers(b);
    } else {
      var h := if Speaks(a[0], "refer") then [a[0]] else [];
      assert (a + b)[1..] == a[1..] + b && (a + b)[0] == a[0];
      SpeakersOfConcat(a[1..], b);
      assert Speakers(a) == h + Speakers(a[1..]) && Speakers(a + b) == h + Speakers(a[1..] + b);
      hide Speakers;
      assert (h + Speakers(a[1..])) + Speakers(b) == h + (Speakers(a[1..]) + Speakers(b));
    }
  }

  /** Only the refer directives matter. */
  lemma {:induction false} OnlyRefersMatter(ds: seq<Dir>)
    ensures Speakers(Refers(ds)) == Speakers(ds) && Get(Refers(ds), "refer") == Get(ds, "refer")
    ensures Speakers(Drop(Refers(ds), "refer")) == Speakers(Drop(ds, "refer"))
  {
    if ds != [] {
      var d, t, q := ds[0], ds[1..], Refers(ds[1..]);
      OnlyRefersMatter(t);
      SpeaksIffOld(d);
      assert ds == [d] + t && Refers(ds) == if d.name in REFERS then [d] + q else q;
      hide Speaks, Speakers, Refers, Drop;
      DropAfterFirst(d, t);
      SpeakersOfCons(d, t);
      SpeakersOfCons(d, Drop(t, "refer"));
      if d.name in REFERS {
        DropAfterFirst(d, q);
        SpeakersOfCons(d, q);
        SpeakersOfCons(d, Drop(q, "refer"));
      }
    }
  }

  lemma SpeakersOfCons(d: Dir, t: seq<Dir>)
    ensures Speakers([d] + t) == (if Speaks(d, "refer") then [d] else []) + Speakers(t)
  {
    assert ([d] + t)[1..] == t;
  }

  lemma FindAfterFirst(d: Dir, t: seq<Dir>)
    ensures Find([d] + t, "refer") == if d.name == "refer" then 0 else 1 + Find(t, "refer")
  {
    assert ([d] + t)[1..] == t;
  }

  lemma DropAfterFirst(d: Dir, t: seq<Dir>)
    ensures Drop([d] + t, "refer") == if d.name == "refer" then t else [d] + Drop(t, "refer")
    ensures Get([d] + t, "refer") == if d.name == "refer" then Some(d) else Get(t, "refer")
  {
    var i, ds := Find(t, "refer"), [d] + t;
    FindAfterFirst(d, t);
    hide Find;
    if d.name == "refer" {
      assert ds[..0] + ds[1..] == t;
    } else if i < |t| {
      assert ds[..i + 1] == [d] + t[..i] && ds[i + 2..] == t[i + 1..];
    }
  }

  lemma {:induction false} FinalOfSpeakers(ds: seq<Dir>, k: string, v: Option<seq<string>>)
    ensures Final(Speakers(ds), "refer", k, v) == Final(ds, "refer", k, v)
    decreases ds
  {
    hide Speaks, Settings, Override, Opened;
    if ds != [] {
      if Speaks(ds[0], "refer") {
        assert ([ds[0]] + Speakers(ds[1..]))[1..] == Speakers(ds[1..]);
        FinalOfSpeakers(ds[1..], k, Override(Settings(ds[0]), k, Opened("refer", k, v)));
      } else {
        FinalOfSpeakers(ds[1..], k, v);
        assert [] + Speakers(ds[1..]) == Speakers(ds[1..]);
      }
    }
  }

  // ---------- when the block is there ----------

  /** Every old-style directive that is still to come moves into a block that is there. */
  lemma {:induction false} SettledMoves(ds: seq<Dir>, i: nat)
    requires i <= |ds| && Settled(ds, "refer")
    ensures ReferMoves(ds, i) == Speakers(ds[i..])
    decreases Weight(ds[i..])
  {
    hide InPlace, Move, Settled, Speaks, Legacy, Block;
    if i < |ds| {
      assert ds[i..][1..] == ds[i + 1..];
      SpeaksIff(ds[i], "refer");
      if Legacy(ds[i]) {
        MoveLeavesLess(ds, i);
        BlockIsSilent(ds, i, "refer");
        SpeakersAfterMove(ds, i);
        SettledMoves(Move(ds, i), i);
      } else {
        var r := ds[i := InPlace(ds[i])];
        assert r[i + 1..] == ds[i..][1..];
        LookupInPlace(ds, i, "refer", "");
        SettledMoves(r, i + 1);
      }
    }
  }

  lemma SpeakersAfterMove(ds: seq<Dir>, i: nat)
    requires i < |ds| && Legacy(ds[i]) && Settled(ds, "refer")
    ensures |Move(ds, i)| >= i && Speakers(Move(ds, i)[i..]) == Speakers(ds[i + 1..])
  {
    var e := Erase(ds, i);
    var r := Move(ds, i);
    var j := Find(e, Block(ds[i]));
    MoveIs(ds, i);
    BlockIsSilent(ds, i, "refer");
    assert e[i..] == ds[i + 1..];
    hide Move, Erase, TakeOver, Legacy, Speaks, Block, Settled;
    SpeakersOfEdit(e, r, j, i);
  }

  lemma SpeakersOfEdit(e: seq<Dir>, r: seq<Dir>, j: nat, i: nat)
    requires i <= |e| && j <= |e| && |r| == (if j < |e| then |e| else |e| + 1)
    requires forall n :: 0 <= n < |e| && n != j ==> r[n] == e[n]
    requires !Speaks(r[j], "refer") && (j < |e| ==> !Speaks(e[j], "refer"))
    ensures Speakers(r[i..]) == Speakers(e[i..])
  {
    hide Speaks, Speakers;
    SpeakersFrame(e[i..], r[i..]);
  }

  // ---------- before the block is there ----------

  predicate NoRefers(ds: seq<Dir>) {
    forall j :: 0 <= j < |ds| ==> ds[j].name !in REFERS
  }

  /** A move into another block does not concern the refer directives. */
  lemma RefersAfterOther(ds: seq<Dir>, i: nat)
    requires i < |ds| && Legacy(ds[i]) && ds[i].name !in REFERS && NoRefers(ds[..i])
    ensures i <= |Move(ds, i)| && NoRefers(Move(ds, i)[..i]) && Refers(Move(ds, i)[i..]) == Refers(ds[i + 1..])
  {
    var e := Erase(ds, i);
    var r := Move(ds, i);
    MoveIs(ds, i);
    BlockNames(ds[i]);
    assert e[i..] == ds[i + 1..] && e[..i] == ds[..i];
    hide Move, Erase, TakeOver, Legacy, Block, REFERS;
    RefersOfEdit(e, r, Find(e, Block(ds[i])), i);
  }

  lemma RefersOfEdit(e: seq<Dir>, r: seq<Dir>, j: nat, i: nat)
    requires i <= |e| && j <= |e| && |r| == (if j < |e| then |e| else |e| + 1)
    requires forall n :: 0 <= n < |e| && n != j ==> r[n] == e[n]
    requires r[j].name !in REFERS && (j < |e| ==> e[j].name !in REFERS) && NoRefers(e[..i])
    ensures Refers(r[i..]) == Refers(e[i..]) && NoRefers(r[..i])
  {
    hide REFERS;
    assert forall n :: 0 <= n < i ==> e[..i][n] == e[n] && r[..i][n] == r[n];
    RefersFrame(e[i..], r[i..]);
  }

  lemma {:induction false} FindBehindThese(a: seq<Dir>, b: seq<Dir>)
    requires NoRefers(a)
    ensures Find(a + b, "refer") == |a| + Find(b, "refer")
  {
    if a == [] {
      assert a + b == b;
    } else {
      assert a + b == [a[0]] + (a[1..] + b);
      FindAfterFirst(a[0], a[1..] + b);
      FindBehindThese(a[1..], b);
    }
  }

  /** The first `refer` when there is none before i. */
  lemma FindBehind(ds: seq<Dir>, i: nat)
    requires i <= |ds| && NoRefers(ds[..i])
    ensures Find(ds, "refer") == i + Find(ds[i..], "refer") && Get(ds, "refer") == Get(ds[i..], "refer")
  {
    FindBehindThese(ds[..i], ds[i..]);
    assert ds[..i] + ds[i..] == ds;
    hide Find, NoRefers;
  }

  /** The first move: afterwards the block is there, and what became the block does not move. */
  lemma FirstMove(ds: seq<Dir>, i: nat, k: string)
    requires i < |ds| && Speaks(ds[i], "refer") && NoRefers(ds[..i])
    ensures var r := Move(ds, i); var rest := ds[i + 1..];
      && i <= |r| && Settled(r, "refer") && Speakers(r[i..]) == Speakers(Drop(rest, "refer"))
      && Lookup(r, "refer", k) == Override(Settings(ds[i]), k, Opened("refer", k, Lookup(rest, "refer", k)))
  {
    var e := Erase(ds, i);
    var r := Move(ds, i);
    var j := Find(e, "refer");
    MoveIs(ds, i);
    LookupInMoved(ds, i, "refer", k);
    BlockStays(if j < |e| then e[j].subs else [], ds[i]);
    assert e[i..] == ds[i + 1..] && e[..i] == ds[..i];
    FindBehind(e, i);
    SpeaksIffOld(r[j]);
    hide Move, Erase, TakeOver, Legacy, Speaks, Block;
    SpeakersOfHome(e, r, j, i);
  }

  lemma SpeakersOfHome(e: seq<Dir>, r: seq<Dir>, j: nat, i: nat)
    requires i <= j <= |e| && j == i + Find(e[i..], "refer") && |r| == (if j < |e| then |e| else |e| + 1)
    requires (forall n :: 0 <= n < |e| && n != j ==> r[n] == e[n]) && !Speaks(r[j], "refer")
    ensures Speakers(r[i..]) == Speakers(Drop(e[i..], "refer"))
  {
    var t := e[i..];
    var a, b := t[..j - i], r[j + 1..];
    assert Drop(t, "refer") == a + b;
    hide Speaks, Speakers, Find, Drop;
    assert r[i..] == a + ([r[j]] + b);
    SpeakersOfCons(r[j], b);
    SpeakersOfConcat(a, [r[j]] + b);
    SpeakersOfConcat(a, b);
    assert [] + Speakers(b) == Speakers(b);
  }

  /** What the loop makes of the refer directives, from child i on. */
  lemma {:induction false} RefersArrive(ds: seq<Dir>, i: nat, k: string)
    requires i <= |ds| && NoRefers(ds[..i])
    ensures var q := Refers(ds[i..]);
      ReferMoves(ds, i) == Arriving(q) && Lookup(Vhost(ds, i), "refer", k) == Final(Arriving(q), "refer", k, Held(q, k))
    decreases Weight(ds[i..])
  {
    hide Lookup, InPlace, Move, Override, Settings, Opened, Speaks, Legacy, Block, REFERS;
    if i == |ds| {
      assert ds[..i] == ds;
      NothingToLookUp(ds, k);
    } else {
      RefersSkip(ds, i);
      if ds[i].name in REFERS {
        RefersFromHere(ds, i, k);
      } else if Legacy(ds[i]) {
        MoveLeavesLess(ds, i);
        RefersAfterOther(ds, i);
        BlockNames(ds[i]);
        RefersArrive(Move(ds, i), i, k);
        assert [] + ReferMoves(Move(ds, i), i) == ReferMoves(Move(ds, i), i);
        assert [] + Refers(ds[i + 1..]) == Refers(ds[i + 1..]);
      } else {
        var r := ds[i := InPlace(ds[i])];
        assert r[i + 1..] == ds[i..][1..];
        InPlaceNames(ds[i]);
        assert NoRefers(r[..i + 1]) by {
          assert forall j :: 0 <= j < i ==> ds[..i][j] == ds[j] && r[..i + 1][j] == ds[j];
        }
        RefersArrive(r, i + 1, k);
        assert [] + Refers(ds[i + 1..]) == Refers(ds[i + 1..]);
      }
    }
  }

  lemma RefersSkip(ds: seq<Dir>, i: nat)
    requires i < |ds|
    ensures Refers(ds[i..]) == (if ds[i].name in REFERS then [ds[i]] else []) + Refers(ds[i + 1..])
  {
    assert ds[i..][1..] == ds[i + 1..];
  }

  lemma NothingToLookUp(ds: seq<Dir>, k: string)
    requires NoRefers(ds)
    ensures Lookup(ds, "refer", k) == None
  {
  }

  /** The case that the first refer directive has been reached. */
  lemma RefersFromHere(ds: seq<Dir>, i: nat, k: string)
    requires i < |ds| && NoRefers(ds[..i]) && ds[i].name in REFERS
    ensures var q := Refers(ds[i..]);
      ReferMoves(ds, i) == Arriving(q) && Lookup(Vhost(ds, i), "refer", k) == Final(Arriving(q), "refer", k, Held(q, k))
  {
    var rest := ds[i + 1..];
    var q := Refers(ds[i..]);
    assert ds[i..][1..] == rest && q == [ds[i]] + Refers(rest) && q[1..] == Refers(rest);
    SpeaksIffOld(ds[i]);
    SpeaksIff(ds[i], "refer");
    OnlyRefersMatter(rest);
    hide InPlace, Move, Override, Settings, Opened, Speaks, Legacy, Block, REFERS;
    if Speaks(ds[i], "refer") {
      FirstMoveFromHere(ds, i, k);
    } else {
      FindBehind(ds, i);
      assert Get(ds, "refer") == Some(ds[i]);
      SettledMoves(ds, i);
      SettingsArrive(ds, i, "refer", k);
      OnlyRefersMatter(ds[i..]);
      FinalOfSpeakers(ds[i..], k, Held(q, k));
    }
  }

  lemma FirstMoveFromHere(ds: seq<Dir>, i: nat, k: string)
    requires i < |ds| && NoRefers(ds[..i]) && Speaks(ds[i], "refer")
    ensures var rest := ds[i + 1..]; var arriving := [ds[i]] + Speakers(Drop(rest, "refer"));
      && ReferMoves(ds, i) == arriving
      && Lookup(Vhost(ds, i), "refer", k) == Final(arriving, "refer", k, Lookup(rest, "refer", k))
  {
    var r := Move(ds, i);
    var rest := ds[i + 1..];
    var moved := Speakers(Drop(rest, "refer"));
    FirstMove(ds, i, k);
    MoveLeavesLess(ds, i);
    SpeaksIff(ds[i], "refer");
    SettledMoves(r, i);
    SettingsArrive(r, i, "refer", k);
    FinalOfSpeakers(r[i..], k, Lookup(r, "refer", k));
    hide Move, Override, Settings, Opened, Speaks, Legacy, Block, Lookup, Drop, Settled;
    assert ([ds[i]] + moved)[1..] == moved;
  }

  // ---------- the results ----------

  /** Every setting of the refer block after the loop: what the last directive that moves says of
      it, or else what the block held; `enabled` is on once something has moved. */
  lemma ReferSettings(ds: seq<Dir>, k: string)
    ensures var q := Refers(ds); Lookup(Vhost(ds, 0), "refer", k) == Final(Arriving(q), "refer", k, Held(q, k))
  {
    assert ds[0..] == ds && NoRefers(ds[..0]);
    RefersArrive(ds, 0, k);
  }

  /** Every old-style directive becomes a setting iff the condition holds; else exactly one is lost. */
  lemma RefersMoveIff(ds: seq<Dir>)
    ensures var q := Refers(ds);
      && (ReferMoves(ds, 0) == Speakers(ds) <==> AllRefersMove(q))
      && (!AllRefersMove(q) ==> Lost(q) < |q| && q[Lost(q)].name == "refer" && q[Lost(q)].subs == [] &&
                                ReferMoves(ds, 0) == Speakers(Erase(q, Lost(q))) &&
                                |ReferMoves(ds, 0)| == |Speakers(ds)| - 1)
  {
    var q := Refers(ds);
    assert ds[0..] == ds && NoRefers(ds[..0]);
    RefersArrive(ds, 0, "");
    OnlyRefersMatter(ds);
    AllAreRefers(ds);
    hide ReferMoves, Refers, Vhost;
    if q != [] {
      SpeaksIffOld(q[0]);
      if Speaks(q[0], "refer") {
        FirstSpeaks(q);
      }
    }
  }

  lemma {:induction false} AllAreRefers(ds: seq<Dir>)
    ensures forall d :: d in Refers(ds) ==> d.name in REFERS
  {
    if ds != [] {
      AllAreRefers(ds[1..]);
    }
  }

  lemma SpeakersWithout(t: seq<Dir>, h: nat)
    requires h < |t| && t[h].name == "refer"
    ensures Speakers(Erase(t, h)) == Speakers(t) || t[h].subs == []
    ensures |Speakers(Erase(t, h))| == |Speakers(t)| - if t[h].subs == [] then 1 else 0
  {
    SpeaksIffOld(t[h]);
    hide Speaks, Speakers;
    assert t == t[..h] + ([t[h]] + t[h + 1..]);
    SpeakersOfCons(t[h], t[h + 1..]);
    SpeakersOfConcat(t[..h], [t[h]] + t[h + 1..]);
    SpeakersOfConcat(t[..h], t[h + 1..]);
  }

  /** The first refer directive is old-style: then the next `refer` is the block. */
  lemma FirstSpeaks(q: seq<Dir>)
    requires q != [] && Speaks(q[0], "refer")
    ensures |Arriving(q)| == |Speakers(q)| - (if AllRefersMove(q) then 0 else 1)
    ensures AllRefersMove(q) ==> Arriving(q) == Speakers(q)
    ensures !AllRefersMove(q) ==> Lost(q) < |q| && q[Lost(q)].name == "refer" && q[Lost(q)].subs == []
    ensures !AllRefersMove(q) ==> Arriving(q) == Speakers(Erase(q, Lost(q)))
  {
    var t := q[1..];
    var h := Find(t, "refer");
    WhenFirstSpeaks(q);
    ArrivingOf(q);
    hide Arriving, AllRefersMove, Lost, Speaks, REFERS, Find, Speakers, Drop, Erase;
    if h < |t| {
      SpeakersWithout(t, h);
      if t[h].subs == [] {
        WithoutHome(q, h);
      }
    }
  }

  lemma ArrivingOf(q: seq<Dir>)
    requires q != [] && Speaks(q[0], "refer")
    ensures var t := q[1..]; var h := Find(t, "refer");
      Speakers(q) == [q[0]] + Speakers(t) && Arriving(q) == [q[0]] + Speakers(if h < |t| then Erase(t, h) else t)
  {
  }

  lemma WithoutHome(q: seq<Dir>, h: nat)
    requires q != [] && Speaks(q[0], "refer") && h < |q| - 1
    ensures Speakers(Erase(q, 1 + h)) == [q[0]] + Speakers(Erase(q[1..], h))
  {
    assert Erase(q, 1 + h) == [q[0]] + Erase(q[1..], h);
    hide Speaks, Erase, Speakers;
    SpeakersOfCons(q[0], Erase(q[1..], h));
  }

  lemma WhenFirstSpeaks(q: seq<Dir>)
    requires q != [] && Speaks(q[0], "refer")
    ensures var t := q[1..]; var h := Find(t, "refer");
      (AllRefersMove(q) <==> h == |t| || t[h].subs != []) && (h < |t| && t[h].subs == [] ==> Lost(q) == 1 + h)
  {
    SpeaksIffOld(q[0]);
    assert Find(q, "refer") == if q[0].name == "refer" then 0 else 1 + Find(q[1..], "refer");
    hide Find, Speaks, REFERS;
  }

  /** The setting that an old-style directive of this name becomes. */
  function KeyOf(n: string): string {
    if n == "refer_play" then "play" else if n == "refer_publish" then "publish" else "all"
  }

  lemma KeyIsOwn(d: Dir, n: string)
    requires Speaks(d, "refer") && n in REFERS
    ensures Settings(d) == [Setting(KeyOf(d.name), d.args)] && (KeyOf(d.name) == KeyOf(n) <==> d.name == n)
    ensures KeyOf(n) != "enabled"
  {
  }

  lemma {:induction false} LastOfKindWins(moved: seq<Dir>, n: string, m: nat, v: Option<seq<string>>)
    requires n in REFERS && m <= |moved| && forall d :: d in moved ==> Speaks(d, "refer")
    requires (m < |moved| ==> moved[m].name == n) && forall k :: m < k < |moved| ==> moved[k].name != n
    requires m == |moved| ==> forall k :: 0 <= k < |moved| ==> moved[k].name != n
    ensures Final(moved, "refer", KeyOf(n), v) == if m < |moved| then Some(moved[m].args) else v
    decreases moved
  {
    if moved != [] {
      var d := moved[0];
      assert d in moved;
      KeyIsOwn(d, n);
      OverrideOne(Setting(KeyOf(d.name), d.args), KeyOf(n), v);
      assert Opened("refer", KeyOf(n), v) == v;
      hide Speaks, Settings, Override, Opened, REFERS, KeyOf;
      LastOfKindWins(moved[1..], n, if m > 0 then m - 1 else |moved| - 1,
                     if KeyOf(d.name) == KeyOf(n) then Some(d.args) else v);
    }
  }

  lemma {:induction false} SpeakersSpeak(ds: seq<Dir>)
    ensures forall d :: d in Speakers(ds) ==> Speaks(d, "refer")
  {
    if ds != [] {
      SpeakersSpeak(ds[1..]);
    }
  }

  /** Of the directives of one kind that move the last wins, and without one the block keeps what
      it held. */
  lemma LastReferWins(ds: seq<Dir>, n: string, m: nat)
    requires n in REFERS && m <= |ReferMoves(ds, 0)|
    requires m < |ReferMoves(ds, 0)| ==> ReferMoves(ds, 0)[m].name == n
    requires forall k :: 0 <= k < |ReferMoves(ds, 0)| && (k > m || m == |ReferMoves(ds, 0)|) ==>
      ReferMoves(ds, 0)[k].name != n
    ensures Lookup(Vhost(ds, 0), "refer", KeyOf(n)) ==
      if m < |ReferMoves(ds, 0)| then Some(ReferMoves(ds, 0)[m].args) else Held(Refers(ds), KeyOf(n))
  {
    var q := Refers(ds);
    var moved := ReferMoves(ds, 0);
    assert ds[0..] == ds && NoRefers(ds[..0]);
    RefersArrive(ds, 0, KeyOf(n));
    SpeakersSpeak(q);
    if q != [] {
      SpeakersSpeak(Drop(q[1..], "refer"));
    }
    hide ReferMoves, Vhost, Refers, Speaks, Held, Lookup;
    LastOfKindWins(moved, n, m, Held(q, KeyOf(n)));
  }

  /** Two ways to lose an old-style `refer`: behind a `refer_play`, and behind another `refer`. */
  lemma ReferIsHijacked(a: seq<string>, b: seq<string>)
    ensures var ds := [Dir("refer_play", a, [], 0), Dir("refer", b, [], 0)];
      Lookup(Vhost(ds, 0), "refer", "all") == None && Lookup(Vhost(ds, 0), "refer", "play") == Some(a)
    ensures var ds := [Dir("refer", a, [], 0), Dir("refer", b, [], 0)];
      Lookup(Vhost(ds, 0), "refer", "all") == Some(a)
  {
    SpeaksIffOld(Dir("refer_play", a, [], 0));
    SpeaksIffOld(Dir("refer", a, [], 0));
    hide Speaks, Vhost, Lookup, Weight;
    OneMoves(Dir("refer_play", a, [], 0), b, "all");
    OneMoves(Dir("refer_play", a, [], 0), b, "play");
    OneMoves(Dir("refer", a, [], 0), b, "all");
  }

  lemma OneMoves(d: Dir, b: seq<string>, k: string)
    requires Speaks(d, "refer") && k in {"all", "play"}
    ensures Lookup(Vhost([d, Dir("refer", b, [], 0)], 0), "refer", k) == if KeyOf(d.name) == k then Some(d.args) else None
  {
    var next := Dir("refer", b, [], 0);
    var ds := [d, next];
    SpeaksIffOld(d);
    assert ds[1..] == [next] && [next][1..] == [];
    assert Refers([next]) == [next] + [] == [next];
    assert Refers(ds) == [d] + [next] == ds;
    FindIs([next], "refer", 0);
    assert Drop([next], "refer") == [] && Arriving(ds) == [d];
    assert Held(ds, k) == None;
    ReferSettings(ds, k);
    KeyIsOwn(d, d.name);
    hide Speaks, Settings, Vhost, REFERS;
    assert [d][1..] == [];
    OverrideOne(Setting(KeyOf(d.name), d.args), k, None);
  }
}
