/**
 The text of a configuration: the tokenizer, the recursive parser and the printer, as functions
 on the characters that are left.  Parsing what is printed gives the same tree.
 */
module ConfigText {
  import opened ConfigTree

  // ---------- the tokenizer ----------

  datatype Error = UnexpectedEof | UnexpectedEol | Unexpected | EmptyDirective | IncludeEmpty | NoConfig

  datatype Mark = Entire | BlockStart | BlockEnd | Eof

  /** The variables of `read_token`; word holds the characters from `pstart` on. */
  datatype Scan = Scan(args: seq<string>, word: string, comment: bool, dq: bool, sq: bool,
                       needSpace: bool, lastSpace: bool, line: nat, lineStart: nat)

  datatype Step = More(s: Scan) | Done(mark: Mark, s: Scan) | Fail(e: Error)

  datatype Token = Token(args: seq<string>, mark: Mark, lineStart: nat, line: nat, rest: string) | Bad(e: Error)

  /** `is_common_space` */
  predicate Space(ch: char) {
    ch == ' ' || ch == '\t' || ch == '\r' || ch == '\n'
  }

  predicate EndsLine(ch: char) {
    ch == '\r' || ch == '\n'
  }

  /** A word is kept as a C string: it ends at the first NUL. */
  function CString(w: string): string {
    if w == [] || w[0] == '\0' then [] else [w[0]] + CString(w[1..])
  }

  function Init(line: nat): Scan {
    Scan([], [], false, false, false, false, true, line, 0)
  }

  /** The last character was a space, and so a word or a mark may start. */
  function AfterSpace(s: Scan, ch: char): Step {
    if Space(ch) then More(s)
    else if ch == ';' then (if s.args == [] then Fail(Unexpected) else Done(Entire, s))
    else if ch == '{' then (if s.args == [] then Fail(Unexpected) else Done(BlockStart, s))
    else if ch == '}' then (if s.args != [] then Fail(Unexpected) else Done(BlockEnd, s))
    else if ch == '#' then More(s.(comment := true))
    else if ch == '"' then More(s.(word := [], dq := true, lastSpace := false))
    else if ch == '\'' then More(s.(word := [], sq := true, lastSpace := false))
    else More(s.(word := [ch], lastSpace := false))
  }

  predicate EndsWord(s: Scan, ch: char) {
    if s.dq then ch == '"' else if s.sq then ch == '\'' else Space(ch) || ch == ';' || ch == '{'
  }

  /** The last character was part of a word. */
  function InWord(s: Scan, ch: char): Step {
    var s := s.(lineStart := if s.lineStart == 0 then s.line else s.lineStart);
    if !EndsWord(s, ch) then More(s.(word := s.word + [ch]))
    else
      var args := if CString(s.word) != [] then s.args + [CString(s.word)] else s.args;
      var s' := if s.dq || s.sq then s.(args := args, word := [], dq := false, sq := false, needSpace := true)
                else s.(args := args, word := [], lastSpace := true);
      if ch == ';' then Done(Entire, s')
      else if ch == '{' then Done(BlockStart, s')
      else if EndsLine(ch) && args != [] then Fail(UnexpectedEol)
      else More(s')
  }

  /** One turn of the loop of `read_token`. */
  function Turn(s: Scan, ch: char): (r: Step)
    ensures r.Done? ==> r.mark != Eof
  {
    var s := s.(line := if ch == '\n' then s.line + 1 else s.line, comment := s.comment && !EndsLine(ch));
    if EndsLine(ch) && s.args != [] then Fail(UnexpectedEol)
    else if s.comment then More(s)
    else if s.needSpace then
      if Space(ch) then More(s.(lastSpace := true, needSpace := false))
      else if ch == ';' then Done(Entire, s)
      else if ch == '{' then Done(BlockStart, s)
      else Fail(Unexpected)
    else if s.lastSpace then AfterSpace(s, ch)
    else InWord(s, ch)
  }

  /** `read_token` on the characters that are left. */
  function ReadToken(text: string, s: Scan): (r: Token)
    ensures r.Token? && r.mark != Eof ==> |r.rest| < |text|
    ensures r.Token? && r.mark == Eof ==> r.rest == []
  {
    if text == [] then
      if s.args != [] || !s.lastSpace then Bad(UnexpectedEof) else Token(s.args, Eof, s.lineStart, s.line, [])
    else match Turn(s, text[0])
      case Fail(e) => Bad(e)
      case Done(mark, s') => Token(s'.args, mark, s'.lineStart, s'.line, text[1..])
      case More(s') => ReadToken(text[1..], s')
  }

  // ---------- the parser ----------

  datatype Parsed = Parsed(dirs: seq<Dir>, line: nat, rest: string) | Failed(e: Error)

  function Prepend(ds: seq<Dir>, r: Parsed): Parsed {
    match r case Failed(_) => r case Parsed(dirs, line, rest) => Parsed(ds + dirs, line, rest)
  }

  /** `parse_conf` without a configuration object, so that an include is an error. */
  function Parse(text: string, line: nat, block: bool): (r: Parsed)
    ensures r.Parsed? ==> |r.rest| <= |text|
    decreases |text|
  {
    match ReadToken(text, Init(line))
    case Bad(e) => Failed(e)
    case Token(args, mark, lineStart, line', rest) =>
      if mark == BlockEnd then (if block then Parsed([], line', rest) else Failed(Unexpected))
      else if mark == Eof then (if block then Failed(UnexpectedEof) else Parsed([], line', rest))
      else if args == [] then Failed(EmptyDirective)
      else if args[0] == "include" then Failed(if |args| == 1 then IncludeEmpty else NoConfig)
      else if mark == BlockStart then
        match Parse(rest, line', true)
        case Failed(e) => Failed(e)
        case Parsed(subs, line'', rest') => Prepend([Dir(args[0], args[1..], subs, lineStart)], Parse(rest', line'', block))
      else Prepend([Dir(args[0], args[1..], [], lineStart)], Parse(rest, line', block))
  }

  // ---------- the printer ----------

  function Indent(n: nat): string {
    if n == 0 then "" else "    " + Indent(n - 1)
  }

  /** The words with a space between each two. */
  function Join(ws: seq<string>): string {
    if ws == [] then "" else if |ws| == 1 then ws[0] else ws[0] + " " + Join(ws[1..])
  }

  /** `persistence` of a directive below the root, at this level of 1 or more. */
  function Print(d: Dir, level: nat): string
    requires level > 0
    decreases d, 1
  {
    if d.subs == [] then Indent(level - 1) + Join([d.name] + d.args) + ";\n"
    else Indent(level - 1) + Join([d.name] + d.args) + " {\n" + PrintAll(d.subs, level + 1) + Indent(level - 1) + "}\n"
  }

  function PrintAll(ds: seq<Dir>, level: nat): string
    requires level > 0
    decreases ds, 0
  {
    if ds == [] then "" else Print(ds[0], level) + PrintAll(ds[1..], level)
  }

  // ---------- plain trees ----------

  predicate PlainChar(ch: char) {
    !Space(ch) && ch != ';' && ch != '{' && ch != '\0'
  }

  /** A word that reads back as itself without quotes. */
  predicate PlainWord(w: string) {
    && w != [] && w[0] != '}' && w[0] != '#' && w[0] != '"' && w[0] != '\''
    && forall i :: 0 <= i < |w| ==> PlainChar(w[i])
  }

  predicate PlainTree(d: Dir) {
    && PlainWord(d.name) && d.name != "include"
    && (forall i :: 0 <= i < |d.args| ==> PlainWord(d.args[i]))
    && (forall i :: 0 <= i < |d.subs| ==> PlainTree(d.subs[i]))
  }

  // ---------- reading back ----------

  lemma {:induction false} PlainCString(w: string)
    requires forall i :: 0 <= i < |w| ==> PlainChar(w[i])
    ensures CString(w) == w
  {
    if w != [] {
      PlainCString(w[1..]);
    }
  }

  /** The state in which the word `word` has been read so far. */
  function Reading(args: seq<string>, word: string, line: nat, lineStart: nat): Scan {
    Scan(args, word, false, false, false, false, false, line, lineStart)
  }

  /** The state between two words. */
  function Between(args: seq<string>, line: nat, lineStart: nat): Scan {
    Scan(args, [], false, false, false, false, true, line, lineStart)
  }

  function Started(line: nat, lineStart: nat): nat {
    if lineStart == 0 then line else lineStart
  }

  /** The rest of a plain word is read up to the space or semicolon that ends it. */
  lemma {:induction false} ReadRest(args: seq<string>, word: string, w: string, c: char, tail: string, line: nat, ls: nat)
    requires forall i :: 0 <= i < |w| ==> PlainChar(w[i])
    requires (c == ' ' || c == ';') && CString(word + w) == word + w != []
    ensures var args' := args + [word + w]; var ls' := Started(line, ls);
      ReadToken(w + [c] + tail, Reading(args, word, line, ls)) ==
      if c == ';' then Token(args', Entire, ls', line, tail) else ReadToken(tail, Between(args', line, ls'))
    decreases w
  {
    var text := w + [c] + tail;
    var s := Reading(args, word, line, ls);
    if w == [] {
      assert word + w == word && text[0] == c && text[1..] == tail;
    } else {
      assert text[0] == w[0] && text[1..] == w[1..] + [c] + tail;
      assert PlainChar(w[0]);
      assert Turn(s, w[0]) == More(Reading(args, word + [w[0]], line, Started(line, ls)));
      assert (word + [w[0]]) + w[1..] == word + w;
      ReadRest(args, word + [w[0]], w[1..], c, tail, line, Started(line, ls));
    }
  }

  lemma ReadWord(args: seq<string>, w: string, c: char, tail: string, line: nat, ls: nat)
    requires PlainWord(w) && (c == ' ' || c == ';')
    ensures var args' := args + [w]; var ls' := Started(line, ls);
      ReadToken(w + [c] + tail, Between(args, line, ls)) ==
      if c == ';' then Token(args', Entire, ls', line, tail) else ReadToken(tail, Between(args', line, ls'))
  {
    var text := w + [c] + tail;
    assert PlainChar(w[0]) && text[0] == w[0] && text[1..] == w[1..] + [c] + tail;
    assert Turn(Between(args, line, ls), w[0]) == More(Reading(args, [w[0]], line, ls));
    assert [w[0]] + w[1..] == w;
    PlainCString(w);
    ReadRest(args, [w[0]], w[1..], c, tail, line, ls);
  }

  /** The words of a directive are read up to the character that ends the last one. */
  lemma {:induction false} ReadWords(args: seq<string>, ws: seq<string>, c: char, tail: string, line: nat, ls: nat)
    requires ws != [] && (forall i :: 0 <= i < |ws| ==> PlainWord(ws[i])) && (c == ' ' || c == ';')
    ensures var args' := args + ws; var ls' := Started(line, ls);
      ReadToken(Join(ws) + [c] + tail, Between(args, line, ls)) ==
      if c == ';' then Token(args', Entire, ls', line, tail) else ReadToken(tail, Between(args', line, ls'))
    decreases ws
  {
    hide Turn, PlainWord;
    if |ws| == 1 {
      assert args + ws == args + [ws[0]];
      ReadWord(args, ws[0], c, tail, line, ls);
    } else {
      var rest := Join(ws[1..]) + [c] + tail;
      assert Join(ws) + [c] + tail == ws[0] + [' '] + rest;
      assert (args + [ws[0]]) + ws[1..] == args + ws;
      ReadWord(args, ws[0], ' ', rest, line, ls);
      ReadWords(args + [ws[0]], ws[1..], c, tail, line, Started(line, ls));
    }
  }

  /** Spaces before a token do not matter. */
  lemma SkipSpace(c: char, tail: string, line: nat)
    requires c == ' ' || c == '\n'
    ensures ReadToken([c] + tail, Init(line)) == ReadToken(tail, Init(if c == '\n' then line + 1 else line))
  {
    assert ([c] + tail)[1..] == tail;
  }

  lemma {:induction false} SkipIndent(n: nat, tail: string, line: nat)
    ensures ReadToken(Indent(n) + tail, Init(line)) == ReadToken(tail, Init(line))
  {
    if n == 0 {
      assert Indent(n) + tail == tail;
    } else {
      var rest := Indent(n - 1) + tail;
      assert Indent(n) + tail == [' '] + ([' '] + ([' '] + ([' '] + rest)));
      SkipSpace(' ', rest, line);
      SkipSpace(' ', [' '] + rest, line);
      SkipSpace(' ', [' '] + ([' '] + rest), line);
      SkipSpace(' ', [' '] + ([' '] + ([' '] + rest)), line);
      SkipIndent(n - 1, tail, line);
    }
  }

  /** The token of a directive without a block. */
  lemma ReadLeaf(n: nat, ws: seq<string>, tail: string, line: nat)
    requires ws != [] && forall i :: 0 <= i < |ws| ==> PlainWord(ws[i])
    ensures ReadToken(Indent(n) + (Join(ws) + [';'] + tail), Init(line)) == Token(ws, Entire, line, line, tail)
  {
    SkipIndent(n, Join(ws) + [';'] + tail, line);
    ReadWords([], ws, ';', tail, line, 0);
    assert [] + ws == ws;
  }

  /** The token of a directive that opens a block. */
  lemma ReadOpening(n: nat, ws: seq<string>, tail: string, line: nat)
    requires ws != [] && forall i :: 0 <= i < |ws| ==> PlainWord(ws[i])
    ensures ReadToken(Indent(n) + (Join(ws) + [' '] + (['{'] + tail)), Init(line)) ==
        Token(ws, BlockStart, line, line, tail)
  {
    var rest := ['{'] + tail;
    SkipIndent(n, Join(ws) + [' '] + rest, line);
    ReadWords([], ws, ' ', rest, line, 0);
    assert [] + ws == ws && rest[0] == '{' && rest[1..] == tail;
  }

  /** The brace that closes a block. */
  lemma ReadClosing(n: nat, tail: string, line: nat)
    ensures ReadToken(Indent(n) + (['}'] + tail), Init(line)) == Token([], BlockEnd, 0, line, tail)
  {
    SkipIndent(n, ['}'] + tail, line);
    assert (['}'] + tail)[0] == '}' && (['}'] + tail)[1..] == tail;
  }

  lemma ParseAfterNewline(tail: string, line: nat, block: bool)
    ensures Parse(['\n'] + tail, line, block) == Parse(tail, line + 1, block)
  {
    SkipSpace('\n', tail, line);
  }

  // ---------- the round trip ----------

  lemma PlainWords(d: Dir)
    requires PlainTree(d)
    ensures var ws := [d.name] + d.args;
      && ws[0] == d.name && ws[1..] == d.args && ws[0] != "include"
      && forall i :: 0 <= i < |ws| ==> PlainWord(ws[i])
  {
    hide PlainWord;
  }

  lemma PlainSubs(d: Dir)
    requires PlainTree(d)
    ensures forall i :: 0 <= i < |d.subs| ==> PlainTree(d.subs[i])
  {
  }

  lemma ParseByEntire(text: string, line: nat, block: bool, ws: seq<string>, line': nat, rest: string)
    requires ws != [] && ws[0] != "include" && ReadToken(text, Init(line)) == Token(ws, Entire, line, line', rest)
    ensures Parse(text, line, block) == Prepend([Dir(ws[0], ws[1..], [], line)], Parse(rest, line', block))
  {
    hide ReadToken;
  }

  lemma ParseByBlock(text: string, line: nat, block: bool, ws: seq<string>, line': nat, rest: string,
      subs: seq<Dir>, line'': nat, rest': string)
    requires ws != [] && ws[0] != "include" && ReadToken(text, Init(line)) == Token(ws, BlockStart, line, line', rest)
    requires Parse(rest, line', true) == Parsed(subs, line'', rest')
    ensures Parse(text, line, block) == Prepend([Dir(ws[0], ws[1..], subs, line)], Parse(rest', line'', block))
  {
    hide ReadToken;
  }

  lemma ParseLeaf(d: Dir, level: nat, tail: string, line: nat, block: bool)
    requires level > 0 && PlainTree(d) && d.subs == []
    ensures Parse(Print(d, level) + tail, line, block) == Prepend([d.(line := line)], Parse(tail, line + 1, block))
  {
    var ws := [d.name] + d.args;
    PlainWords(d);
    hide PlainTree, PlainWord;
    assert Print(d, level) + tail == Indent(level - 1) + (Join(ws) + [';'] + (['\n'] + tail));
    ReadLeaf(level - 1, ws, ['\n'] + tail, line);
    hide ReadToken, Print, Parse, Join, Indent;
    ParseAfterNewline(tail, line, block);
    ParseByEntire(Print(d, level) + tail, line, block, ws, line, ['\n'] + tail);
  }

  /** The text of a directive with a block, taken apart. */
  function Body(d: Dir, level: nat, tail: string): string
    requires level > 0
  {
    PrintAll(d.subs, level + 1) + (Indent(level - 1) + (['}'] + (['\n'] + tail)))
  }

  lemma PrintedBlock(d: Dir, level: nat, tail: string)
    requires level > 0 && d.subs != []
    ensures Print(d, level) + tail ==
      Indent(level - 1) + (Join([d.name] + d.args) + [' '] + (['{'] + (['\n'] + Body(d, level, tail))))
  {
    hide Join, Indent, PrintAll;
    var a := Indent(level - 1) + Join([d.name] + d.args);
    var b := PrintAll(d.subs, level + 1);
    assert Print(d, level) == a + " {\n" + b + Indent(level - 1) + "}\n";
    assert "}\n" + tail == ['}'] + (['\n'] + tail);
    assert " {\n" == [' '] + (['{'] + ['\n']);
  }

  lemma ParseBlockEnd(n: nat, tail: string, line: nat)
    ensures Parse(Indent(n) + (['}'] + tail), line, true) == Parsed([], line, tail)
  {
    ReadClosing(n, tail, line);
    hide ReadToken;
  }

  lemma {:induction false} ParseDir(d: Dir, level: nat, tail: string, line: nat, block: bool) returns (d': Dir, line': nat)
    requires level > 0 && PlainTree(d)
    ensures Strip(d') == Strip(d)
    ensures Parse(Print(d, level) + tail, line, block) == Prepend([d'], Parse(tail, line', block))
    decreases d, 1
  {
    hide Parse, Print, PrintAll, Indent, Join, Body, PlainTree;
    if d.subs == [] {
      d', line' := d.(line := line), line + 1;
      ParseLeaf(d, level, tail, line, block);
    } else {
      var subs, line'' := ParseSubs(d, level, tail, line);
      d', line' := Dir(d.name, d.args, subs, line), line'' + 1;
      PrintedBlock(d, level, tail);
      ParseOpened(d, level, tail, line, block, subs, line'');
    }
  }

  /** The block of d, up to and with its closing brace. */
  lemma {:induction false} ParseSubs(d: Dir, level: nat, tail: string, line: nat) returns (subs: seq<Dir>, line': nat)
    requires level > 0 && PlainTree(d)
    ensures StripAll(subs) == StripAll(d.subs)
    ensures Parse(Body(d, level, tail), line + 1, true) == Parsed(subs, line', ['\n'] + tail)
    decreases d, 0
  {
    hide Parse, PrintAll, Indent;
    PlainSubs(d);
    hide PlainTree;
    var end := Indent(level - 1) + (['}'] + (['\n'] + tail));
    subs, line' := ParseAll(d.subs, level + 1, end, line + 1, true);
    ParseBlockEnd(level - 1, ['\n'] + tail, line');
    assert subs + [] == subs;
  }

  lemma ParseOpened(d: Dir, level: nat, tail: string, line: nat, block: bool, subs: seq<Dir>, line': nat)
    requires level > 0 && PlainTree(d)
    requires Parse(Body(d, level, tail), line + 1, true) == Parsed(subs, line', ['\n'] + tail)
    ensures Parse(Indent(level - 1) + (Join([d.name] + d.args) + [' '] + (['{'] + (['\n'] + Body(d, level, tail)))),
        line, block) ==
      Prepend([Dir(d.name, d.args, subs, line)], Parse(tail, line' + 1, block))
  {
    hide PlainTree, PlainWord, Body, Parse, Join, Indent, ReadToken;
    var ws := [d.name] + d.args;
    var rest := ['\n'] + Body(d, level, tail);
    PlainWords(d);
    ReadOpening(level - 1, ws, rest, line);
    ParseAfterNewline(Body(d, level, tail), line, true);
    ParseAfterNewline(tail, line', block);
    ParseByBlock(Indent(level - 1) + (Join(ws) + [' '] + (['{'] + rest)), line, block, ws, line, rest, subs, line',
        ['\n'] + tail);
  }

  lemma {:induction false} ParseAll(ds: seq<Dir>, level: nat, tail: string, line: nat, block: bool)
    returns (ds': seq<Dir>, line': nat)
    requires level > 0 && forall i :: 0 <= i < |ds| ==> PlainTree(ds[i])
    ensures StripAll(ds') == StripAll(ds)
    ensures Parse(PrintAll(ds, level) + tail, line, block) == Prepend(ds', Parse(tail, line', block))
    decreases ds, 0
  {
    if ds == [] {
      ds', line' := [], line;
      assert PrintAll(ds, level) + tail == tail;
      PrependNothing(Parse(tail, line', block));
    } else {
      var rest := PrintAll(ds[1..], level) + tail;
      assert PrintAll(ds, level) + tail == Print(ds[0], level) + rest;
      hide Parse, Print, PrintAll, PlainTree, Prepend;
      var d', line'' := ParseDir(ds[0], level, rest, line, block);
      var more, line3 := ParseAll(ds[1..], level, tail, line'', block);
      ds', line' := [d'] + more, line3;
      PrependInTurn(d', more, Parse(tail, line', block));
      assert ds'[1..] == more;
    }
  }

  lemma PrependNothing(r: Parsed)
    ensures Prepend([], r) == r
  {
    assert r.Parsed? ==> [] + r.dirs == r.dirs;
  }

  lemma PrependInTurn(d: Dir, ds: seq<Dir>, r: Parsed)
    ensures Prepend([d], Prepend(ds, r)) == Prepend([d] + ds, r)
  {
    assert r.Parsed? ==> [d] + (ds + r.dirs) == [d] + ds + r.dirs;
  }

  /** Parsing what is printed for a tree of plain words gives the same tree but for line numbers. */
  lemma RoundTrip(ds: seq<Dir>, line: nat)
    requires forall i :: 0 <= i < |ds| ==> PlainTree(ds[i])
    ensures var r := Parse(PrintAll(ds, 1), line, false); r.Parsed? && StripAll(r.dirs) == StripAll(ds) && r.rest == []
  {
    var ds', line' := ParseAll(ds, 1, "", line, false);
    assert PrintAll(ds, 1) + "" == PrintAll(ds, 1);
    hide PlainTree, PrintAll;
    assert Parse("", line', false) == Parsed([], line', []);
    assert ds' + [] == ds';
  }
}
