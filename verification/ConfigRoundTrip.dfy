/**
 Exactly the trees of plain words come back from their text.  A token takes at least as many
 characters other than spaces as its words and its mark have, and more when it is not plain; the
 printed text has just as many as the tree.
 */
module ConfigRoundTrip {
  import opened ConfigTree
  import opened ConfigText

  /** How many characters of w are not spaces. */
  function Ink(w: string): nat {
    if w == [] then 0 else (if Space(w[0]) then 0 else 1) + Ink(w[1..])
  }

  function InkOfAll(ws: seq<string>): nat {
    if ws == [] then 0 else Ink(ws[0]) + InkOfAll(ws[1..])
  }

  lemma {:induction false} InkOfConcat(a: string, b: string)
    ensures Ink(a + b) == Ink(a) + Ink(b)
  {
    if a == [] {
      assert a + b == b;
    } else {
      assert (a + b)[1..] == a[1..] + b;
      InkOfConcat(a[1..], b);
    }
  }

  lemma {:induction false} InkOfMore(ws: seq<string>, w: string)
    ensures InkOfAll(ws + [w]) == InkOfAll(ws) + Ink(w)
  {
    if ws == [] {
      assert [w][1..] == [];
    } else {
      assert (ws + [w])[1..] == ws[1..] + [w];
      InkOfMore(ws[1..], w);
    }
  }

  /** A word is cut at its first NUL. */
  lemma {:induction false} InkOfCString(w: string)
    ensures Ink(CString(w)) <= Ink(w)
    ensures Ink(CString(w)) == Ink(w) && (forall i :: 0 <= i < |w| ==> !Space(w[i])) ==> CString(w) == w
    ensures forall i :: 0 <= i < |CString(w)| ==> CString(w)[i] != '\0'
  {
    if w != [] && w[0] != '\0' {
      InkOfCString(w[1..]);
      assert w == [w[0]] + w[1..];
    }
  }

  // ---------- the tokenizer ----------

  /** A character that can stand in a word without quotes. */
  predicate Bare(ch: char) {
    !Space(ch) && ch != ';' && ch != '{'
  }

  predicate PlainWords(ws: seq<string>) {
    forall i :: 0 <= i < |ws| ==> PlainWord(ws[i])
  }

  /** The start of a word without quotes. */
  predicate BareWord(w: string) {
    && w != [] && w[0] != '}' && w[0] != '#' && w[0] != '"' && w[0] != '\''
    && forall i :: 0 <= i < |w| ==> Bare(w[i])
  }

  /** Outside a word there is no word. */
  predicate Orderly(s: Scan) {
    s.lastSpace || s.needSpace ==> s.word == []
  }

  /** So far only plain words have been read. */
  predicate Plain(s: Scan) {
    && !s.comment && !s.dq && !s.sq && !s.needSpace && PlainWords(s.args)
    && (!s.lastSpace ==> BareWord(s.word))
  }

  /** The ink that has gone into words. */
  function InkIn(s: Scan): nat {
    InkOfAll(s.args) + Ink(s.word)
  }

  lemma InkOfOne(ch: char)
    ensures Ink([ch]) == if Space(ch) then 0 else 1
  {
    assert [ch][1..] == [];
  }

  /** A word ends. */
  lemma WordEnds(args: seq<string>, w: string)
    ensures var args' := if CString(w) != [] then args + [CString(w)] else args;
      && InkOfAll(args') <= InkOfAll(args) + Ink(w)
      && (InkOfAll(args') == InkOfAll(args) + Ink(w) && PlainWords(args) && BareWord(w) ==> PlainWords(args'))
  {
    InkOfCString(w);
    InkOfMore(args, CString(w));
    if BareWord(w) && CString(w) == w {
      assert PlainWord(w);
    }
    hide PlainWord;
  }

  ghost predicate Thrifty(s: Scan, ink: nat, s': Scan) {
    InkIn(s') <= InkIn(s) + ink && (InkIn(s') == InkIn(s) + ink && Plain(s) ==> Plain(s'))
  }

  /** The words of a token, and its mark, have at most the ink that went in. */
  ghost predicate ThriftyEnd(s: Scan, ink: nat, args: seq<string>, left: nat) {
    InkOfAll(args) + left <= InkIn(s) + ink && (InkOfAll(args) + left == InkIn(s) + ink && Plain(s) ==> PlainWords(args))
  }

  function InkOfChar(ch: char): nat {
    if Space(ch) then 0 else 1
  }

  lemma AfterSpaceIsThrifty(s: Scan, ch: char)
    requires Orderly(s) && s.lastSpace && !s.needSpace
    ensures match AfterSpace(s, ch)
            case Fail(_) => true
            case More(s') => Orderly(s') && Thrifty(s, InkOfChar(ch), s')
            case Done(_, s') => ThriftyEnd(s, InkOfChar(ch), s'.args, 1)
  {
    InkOfOne(ch);
    hide PlainWords, InkOfAll;
  }

  lemma WordGrows(w: string, ch: char)
    ensures Ink(w + [ch]) == Ink(w) + InkOfChar(ch)
    ensures BareWord(w) && Bare(ch) ==> BareWord(w + [ch])
  {
    InkOfConcat(w, [ch]);
    InkOfOne(ch);
  }

  lemma InWordIsThrifty(s: Scan, ch: char)
    requires Orderly(s) && !s.lastSpace && !s.needSpace
    ensures match InWord(s, ch)
            case Fail(_) => true
            case More(s') => Orderly(s') && Thrifty(s, InkOfChar(ch), s')
            case Done(_, s') => ThriftyEnd(s, InkOfChar(ch), s'.args, 1)
  {
    WordEnds(s.args, s.word);
    WordGrows(s.word, ch);
    hide PlainWords, InkOfAll, BareWord, CString;
  }

  lemma TurnIsThrifty(s: Scan, ch: char)
    requires Orderly(s)
    ensures match Turn(s, ch)
            case Fail(_) => true
            case More(s') => Orderly(s') && Thrifty(s, InkOfChar(ch), s')
            case Done(_, s') => ThriftyEnd(s, InkOfChar(ch), s'.args, 1)
  {
    var t := s.(line := if ch == '\n' then s.line + 1 else s.line, comment := s.comment && !EndsLine(ch));
    if !t.needSpace && !t.comment {
      if t.lastSpace {
        AfterSpaceIsThrifty(t, ch);
      } else {
        InWordIsThrifty(t, ch);
      }
    }
    hide PlainWords, InkOfAll, BareWord, CString, AfterSpace, InWord;
  }

  /** The words of a token and its mark have at most the ink of the text that was read; with just
      as much the words are plain. */
  lemma {:induction false} TokenIsThrifty(text: string, s: Scan)
    requires Orderly(s)
    ensures match ReadToken(text, s)
            case Bad(_) => true
            case Token(args, mark, _, _, rest) =>
              ThriftyEnd(s, Ink(text), args, (if mark == Eof then 0 else 1) + Ink(rest))
  {
    hide Plain, InkOfAll;
    if text != [] {
      TurnIsThrifty(s, text[0]);
      if Turn(s, text[0]).More? {
        TokenIsThrifty(text[1..], Turn(s, text[0]).s);
      }
      hide Turn;
    } else {
      PlainMeansWords(s);
    }
  }

  lemma PlainMeansWords(s: Scan)
    ensures Plain(s) ==> PlainWords(s.args)
  {
  }

  lemma FirstTokenIsThrifty(text: string, line: nat)
    ensures match ReadToken(text, Init(line))
            case Bad(_) => true
            case Token(args, mark, _, _, rest) =>
              var ink := InkOfAll(args) + (if mark == Eof then 0 else 1) + Ink(rest);
              ink <= Ink(text) && (ink == Ink(text) ==> PlainWords(args))
  {
    TokenIsThrifty(text, Init(line));
    assert InkIn(Init(line)) == 0 && Plain(Init(line));
    hide ReadToken, InkOfAll, PlainWords, Plain;
  }

  // ---------- the parser ----------

  /** The ink of the text of a directive. */
  function Cost(d: Dir): nat
    decreases d, 1
  {
    InkOfAll([d.name] + d.args) + (if d.subs == [] then 1 else 2) + CostOfAll(d.subs)
  }

  function CostOfAll(ds: seq<Dir>): nat
    decreases ds, 0
  {
    if ds == [] then 0 else Cost(ds[0]) + CostOfAll(ds[1..])
  }

  predicate PlainTrees(ds: seq<Dir>) {
    forall i :: 0 <= i < |ds| ==> PlainTree(ds[i])
  }

  lemma CostOfCons(d: Dir, ds: seq<Dir>)
    ensures CostOfAll([d] + ds) == Cost(d) + CostOfAll(ds)
    ensures PlainTrees([d] + ds) <==> PlainTree(d) && PlainTrees(ds)
  {
    var r := [d] + ds;
    assert r[1..] == ds && r[0] == d;
    hide PlainTree, Cost;
    assert PlainTrees(r) ==> PlainTree(r[0]);
    assert forall i :: 0 <= i < |ds| ==> ds[i] == r[i + 1];
  }

  lemma DirectiveIs(ws: seq<string>, subs: seq<Dir>, line: nat)
    requires ws != []
    ensures var d := Dir(ws[0], ws[1..], subs, line);
      && Cost(d) == InkOfAll(ws) + (if subs == [] then 1 else 2) + CostOfAll(subs)
      && (PlainWords(ws) && ws[0] != "include" && PlainTrees(subs) ==> PlainTree(d))
  {
    assert [ws[0]] + ws[1..] == ws;
    hide PlainWord;
  }

  /** What is parsed costs at most the ink that was read; with just as much it is plain. */
  ghost predicate ThriftyParse(text: string, r: Parsed, end: nat) {
    r.Parsed? ==>
      && CostOfAll(r.dirs) + end + Ink(r.rest) <= Ink(text)
      && (CostOfAll(r.dirs) + end + Ink(r.rest) == Ink(text) ==> PlainTrees(r.dirs))
  }

  lemma ThriftyCons(text: string, ws: seq<string>, rest: string, rest': string, subs: seq<Dir>, line: nat,
                    r: Parsed, end: nat)
    requires ws != [] && ws[0] != "include"
    requires InkOfAll(ws) + 1 + Ink(rest) <= Ink(text)
    requires InkOfAll(ws) + 1 + Ink(rest) == Ink(text) ==> PlainWords(ws)
    requires (subs == [] && rest' == rest) || ThriftyParse(rest, Parsed(subs, 0, rest'), 1)
    requires ThriftyParse(rest', r, end)
    ensures ThriftyParse(text, Prepend([Dir(ws[0], ws[1..], subs, line)], r), end)
  {
    DirectiveIs(ws, subs, line);
    if r.Parsed? {
      CostOfCons(Dir(ws[0], ws[1..], subs, line), r.dirs);
    }
    assert PlainTrees([]) && CostOfAll([]) == 0;
    hide PlainTrees, PlainWords, Ink, InkOfAll, Cost, CostOfAll, PlainTree;
  }

  lemma {:induction false} ParseIsThrifty(text: string, line: nat, block: bool)
    ensures ThriftyParse(text, Parse(text, line, block), if block then 1 else 0)
    decreases |text|, 1
  {
    hide PlainWords, Ink, InkOfAll, ReadToken, Init;
    FirstTokenIsThrifty(text, line);
    match ReadToken(text, Init(line)) {
      case Bad(_) =>
      case Token(args, mark, lineStart, line', rest) =>
        if mark != BlockEnd && mark != Eof && args != [] && args[0] != "include" {
          hide ThriftyParse;
          ParseTail(text, line, block, args, mark, lineStart, line', rest);
        } else {
          NoDirectives();
          hide Cost, CostOfAll, PlainTrees;
        }
    }
  }

  lemma NoDirectives()
    ensures PlainTrees([]) && CostOfAll([]) == 0
  {
  }

  lemma {:induction false} ParseTail(text: string, line: nat, block: bool, args: seq<string>, mark: Mark,
                                     lineStart: nat, line': nat, rest: string)
    requires ReadToken(text, Init(line)) == Token(args, mark, lineStart, line', rest) && |rest| < |text|
    requires mark != BlockEnd && mark != Eof && args != [] && args[0] != "include"
    requires InkOfAll(args) + 1 + Ink(rest) <= Ink(text)
    requires InkOfAll(args) + 1 + Ink(rest) == Ink(text) ==> PlainWords(args)
    ensures ThriftyParse(text, Parse(text, line, block), if block then 1 else 0)
    decreases |text|, 0
  {
    hide PlainWords, Ink, InkOfAll, ReadToken, Init, Cost, CostOfAll, PlainTrees;
    var end := if block then 1 else 0;
    if mark == BlockStart {
      ParseIsThrifty(rest, line', true);
      match Parse(rest, line', true) {
        case Failed(_) =>
        case Parsed(subs, line'', rest') =>
          ParseIsThrifty(rest', line'', block);
          ThriftyCons(text, args, rest, rest', subs, lineStart, Parse(rest', line'', block), end);
      }
    } else {
      ParseIsThrifty(rest, line', block);
      ThriftyCons(text, args, rest, rest, [], lineStart, Parse(rest, line', block), end);
    }
  }

  // ---------- the printer ----------

  lemma {:induction false} InkOfIndent(n: nat)
    ensures Ink(Indent(n)) == 0
  {
    if n > 0 {
      InkOfIndent(n - 1);
      InkOfConcat("    ", Indent(n - 1));
      InkOfConcat("  ", "  ");
      InkOfConcat(" ", " ");
      assert "    " == "  " + "  " && "  " == " " + " ";
      InkOfOne(' ');
    }
  }

  lemma {:induction false} InkOfJoin(ws: seq<string>)
    ensures Ink(Join(ws)) == InkOfAll(ws)
  {
    if |ws| == 1 {
      assert ws[1..] == [];
    } else if ws != [] {
      InkOfJoin(ws[1..]);
      InkOfConcat(ws[0] + " ", Join(ws[1..]));
      InkOfConcat(ws[0], " ");
      InkOfOne(' ');
    }
  }

  lemma InkOfMarks()
    ensures Ink(";\n") == 1 && Ink(" {\n") == 1 && Ink("}\n") == 1
  {
    assert ";\n"[1..] == "\n" && "\n"[1..] == "" && "}\n"[1..] == "\n";
    assert " {\n"[1..] == "{\n" && "{\n"[1..] == "\n";
    assert Ink("") == 0 && Ink("\n") == 0 && Ink("{\n") == 1;
  }

  /** The printed text has just the ink of the tree. */
  lemma {:induction false} InkOfPrint(d: Dir, level: nat)
    requires level > 0
    ensures Ink(Print(d, level)) == Cost(d)
    decreases d, 1
  {
    var indent, words := Indent(level - 1), Join([d.name] + d.args);
    InkOfIndent(level - 1);
    InkOfJoin([d.name] + d.args);
    InkOfMarks();
    InkOfConcat(indent, words);
    if d.subs == [] {
      InkOfConcat(indent + words, ";\n");
    } else {
      var body := PrintAll(d.subs, level + 1);
      InkOfPrintAll(d.subs, level + 1);
      InkOfConcat(indent + words, " {\n");
      InkOfConcat(indent + words + " {\n", body);
      InkOfConcat(indent + words + " {\n" + body, indent);
      InkOfConcat(indent + words + " {\n" + body + indent, "}\n");
    }
    hide Ink, Join, Indent, PrintAll, InkOfAll;
  }

  lemma {:induction false} InkOfPrintAll(ds: seq<Dir>, level: nat)
    requires level > 0
    ensures Ink(PrintAll(ds, level)) == CostOfAll(ds)
    decreases ds, 0
  {
    if ds != [] {
      InkOfPrint(ds[0], level);
      InkOfPrintAll(ds[1..], level);
      InkOfConcat(Print(ds[0], level), PrintAll(ds[1..], level));
      hide Print, Cost;
    }
  }

  // ---------- line numbers do not matter ----------

  lemma {:induction false} CostOfStrip(d: Dir)
    ensures Cost(Strip(d)) == Cost(d) && (PlainTree(Strip(d)) <==> PlainTree(d))
    decreases d, 1
  {
    CostOfStripAll(d.subs);
    assert PlainTree(d) <==> PlainHead(d) && PlainTrees(d.subs);
    assert PlainTree(Strip(d)) <==> PlainHead(Strip(d)) && PlainTrees(StripAll(d.subs));
    hide InkOfAll, PlainWord, PlainTrees, PlainTree;
  }

  predicate PlainHead(d: Dir) {
    PlainWord(d.name) && d.name != "include" && PlainWords(d.args)
  }

  lemma {:induction false} CostOfStripAll(ds: seq<Dir>)
    ensures CostOfAll(StripAll(ds)) == CostOfAll(ds) && (PlainTrees(StripAll(ds)) <==> PlainTrees(ds))
    decreases ds, 0
  {
    if ds != [] {
      CostOfStrip(ds[0]);
      CostOfStripAll(ds[1..]);
      CostOfCons(ds[0], ds[1..]);
      CostOfCons(Strip(ds[0]), StripAll(ds[1..]));
      assert [ds[0]] + ds[1..] == ds;
      hide PlainTree, PlainTrees, Cost, Strip, CostOfAll;
    }
  }

  /** Parsing what is printed gives the same tree but for line numbers exactly for the trees of
      plain words. */
  lemma RoundTripIff(ds: seq<Dir>, line: nat)
    ensures var r := Parse(PrintAll(ds, 1), line, false);
      (r.Parsed? && StripAll(r.dirs) == StripAll(ds)) <==> PlainTrees(ds)
  {
    var text := PrintAll(ds, 1);
    var r := Parse(text, line, false);
    if PlainTrees(ds) {
      RoundTrip(ds, line);
    }
    if r.Parsed? && StripAll(r.dirs) == StripAll(ds) {
      InkOfPrintAll(ds, 1);
      ParseIsThrifty(text, line, false);
      CostOfStripAll(ds);
      CostOfStripAll(r.dirs);
    }
    hide Parse, PrintAll, PlainTrees;
  }

  lemma OneWordNotPlain(ds: seq<Dir>, i: nat, j: nat)
    requires i < |ds| && j < |ds[i].args| && !PlainWord(ds[i].args[j])
    ensures !PlainTrees(ds)
  {
    assert !PlainTree(ds[i]);
  }

  /** So a word with a space, a semicolon, an opening brace or a NUL does not come back. */
  lemma SpacesSplitWords(ds: seq<Dir>, line: nat, i: nat, j: nat, k: nat)
    requires i < |ds| && j < |ds[i].args| && k < |ds[i].args[j]| && !PlainChar(ds[i].args[j][k])
    ensures var r := Parse(PrintAll(ds, 1), line, false); r.Failed? || StripAll(r.dirs) != StripAll(ds)
  {
    RoundTripIff(ds, line);
    OneWordNotPlain(ds, i, j);
    hide Parse, PrintAll, PlainTrees;
  }
}
