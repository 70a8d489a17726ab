/**
 The tokenizer, parser and printer of the configuration, working on a buffer and a writer step
 by step, against the functions of ConfigText.
 */
module ConfigParser {
  import opened Options
  import opened ConfigTree
  import opened ConfigText
  import opened ConfigRoundTrip

  class ConfigBuffer {
    const text: string
    var pos: nat
    var line: nat

    constructor (text: string)
      ensures this.text == text && Valid() && Rest() == text && line == 1
    {
      this.text := text;
      pos := 0;
      line := 1;
    }

    ghost predicate Valid()
      reads this
    {
      pos <= |text|
    }

    /** The characters not yet read. */
    ghost function Rest(): string
      requires Valid()
      reads this
    {
      text[pos..]
    }

    predicate Empty()
      reads this
    {
      pos >= |text|
    }
  }

  // ---------- the tokenizer ----------

  /** What the variables of the loop stand for. */
  ghost function Variables(buffer: ConfigBuffer, args: seq<string>, pstart: nat, f: Flags, lineStart: nat): Scan
    reads buffer
  {
    Scan(args, if !f.lastSpace && !f.needSpace && pstart <= buffer.pos <= |buffer.text|
        then buffer.text[pstart..buffer.pos] else [],
         f.comment, f.dq, f.sq, f.needSpace, f.lastSpace, buffer.line, lineStart)
  }

  method ToCString(w: string) returns (r: string)
    ensures r == CString(w)
  {
    var i := 0;
    r := [];
    while i < |w| && w[i] != '\0'
      invariant i <= |w| && r == w[..i] && CString(w) == w[..i] + CString(w[i..])
    {
      assert w[i..][0] == w[i] && w[i..][1..] == w[i + 1..];
      r := r + [w[i]];
      i := i + 1;
    }
    assert CString(w[i..]) == [];
  }

  /** The flags that go together. */
  predicate Sensible(s: Flags) {
    && !(s.needSpace && s.lastSpace) && !(s.dq && s.sq)
    && (s.dq || s.sq ==> !s.needSpace && !s.lastSpace && !s.comment) && (s.comment ==> s.lastSpace)
  }

  /** The out-parameters and the buffer hold the token t. */
  ghost predicate Answer(buffer: ConfigBuffer, t: Token, was: nat, args: seq<string>, lineStart: nat, mark: Mark,
      err: Option<Error>)
    reads buffer
  {
    && buffer.Valid() && buffer.pos >= was
    && match t
       case Bad(e) => err == Some(e)
       case Token(a, m, ls, line, rest) =>
         err == None && args == a && mark == m && lineStart == ls && buffer.line == line && buffer.Rest() == rest
  }

  lemma OneTurn(text: string, s: Scan)
    ensures ReadToken(text, s) ==
      if text == [] then (if s.args != [] || !s.lastSpace then Bad(UnexpectedEof)
          else Token(s.args, Eof, s.lineStart, s.line, []))
      else match Turn(s, text[0])
           case Fail(e) => Bad(e)
           case Done(mark, s') => Token(s'.args, mark, s'.lineStart, s'.line, text[1..])
           case More(s') => ReadToken(text[1..], s')
  {
  }

  /** The flags of the loop of `read_token`. */
  datatype Flags = Flags(comment: bool, dq: bool, sq: bool, needSpace: bool, lastSpace: bool)

  /** A character after a space: the start of a word or comment, or a mark. */
  method AtStart(args: seq<string>, ch: char) returns (f: Flags, mark: Option<Mark>, err: Option<Error>)
    ensures forall line, ls :: match AfterSpace(Between(args, line, ls), ch)
      case Fail(e) => err == Some(e)
      case Done(m, s) => err == None && mark == Some(m) && s == Between(args, line, ls)
      case More(s) => err == None && mark == None && f == Flags(s.comment, s.dq, s.sq, s.needSpace, s.lastSpace)
  {
    f, mark, err := Flags(false, false, false, false, true), None, None;
    if Space(ch) {
      return;
    }
    if ch == ';' || ch == '{' {
      if args == [] {
        err := Some(Unexpected);
      }
      mark := Some(if ch == ';' then Entire else BlockStart);
    } else if ch == '}' {
      if args != [] {
        err := Some(Unexpected);
      }
      mark := Some(BlockEnd);
    } else if ch == '#' {
      f := f.(comment := true);
    } else if ch == '"' {
      f := f.(dq := true, lastSpace := false);
    } else if ch == '\'' {
      f := f.(sq := true, lastSpace := false);
    } else {
      f := f.(lastSpace := false);
    }
  }

  /** A character within the word that started at `pstart`, which it may end. */
  method WithinWord(w: string, args: seq<string>, dq: bool, sq: bool, ch: char)
    returns (f: Flags, args': seq<string>, mark: Option<Mark>, err: Option<Error>)
    ensures forall line, ls :: match InWord(Scan(args, w, false, dq, sq, false, false, line, ls), ch)
      case Fail(e) => err == Some(e)
      case Done(m, s) =>
        err == None && mark == Some(m) && args' == s.args && s.lineStart == Started(line, ls) && s.line == line
      case More(s) =>
        err == None && mark == None && args' == s.args && f == Flags(s.comment, s.dq, s.sq, s.needSpace, s.lastSpace)
  {
    hide CString;
    f, args', mark, err := Flags(false, dq, sq, false, false), args, None, None;
    var found := false;
    if dq {
      if ch == '"' {
        f, found := f.(dq := false, sq := false, needSpace := true), true;
      }
    } else if sq {
      if ch == '\'' {
        f, found := f.(sq := false, needSpace := true), true;
      }
    } else if Space(ch) || ch == ';' || ch == '{' {
      f, found := f.(lastSpace := true), true;
    }
    if found {
      var word := ToCString(w);
      if word != [] {
        args' := args' + [word];
      }
      if ch == ';' {
        mark := Some(Entire);
      } else if ch == '{' {
        mark := Some(BlockStart);
      } else if EndsLine(ch) && args' != [] {
        err := Some(UnexpectedEol);
      }
    }
  }

  lemma AfterSpaceWord(args: seq<string>, ch: char, line: nat, ls: nat)
    ensures match AfterSpace(Between(args, line, ls), ch)
      case More(s) => s.args == args && s.line == line && s.lineStart == ls && !s.needSpace &&
        s.word == (if s.lastSpace || ch == '"' || ch == '\'' then [] else [ch]) &&
        Sensible(Flags(s.comment, s.dq, s.sq, s.needSpace, s.lastSpace))
      case _ => true
  {
  }

  lemma InWordWord(args: seq<string>, w: string, dq: bool, sq: bool, ch: char, line: nat, ls: nat)
    requires !(dq && sq)
    ensures match InWord(Scan(args, w, false, dq, sq, false, false, line, ls), ch)
      case More(s) => s.line == line && s.lineStart == Started(line, ls) &&
        s.word == (if s.lastSpace || s.needSpace then [] else w + [ch]) &&
        Sensible(Flags(s.comment, s.dq, s.sq, s.needSpace, s.lastSpace))
      case _ => true
  {
  }

  /** What one turn leaves in the variables is what Turn says. */
  ghost predicate Turned(r: Step, s: Scan, mark: Option<Mark>, err: Option<Error>) {
    match r
    case Fail(e) => err == Some(e)
    case Done(m, s') =>
      err == None && mark == Some(m) && s.args == s'.args && s.lineStart == s'.lineStart && s.line == s'.line
    case More(s') => err == None && mark == None && s == s'
  }

  /** The switch of `read_token`, once the line ends have been dealt with. */
  method Switch(buffer: ConfigBuffer, args: seq<string>, pstart: nat, f: Flags, lineStart: nat, ch: char)
    returns (args': seq<string>, pstart': nat, f': Flags, lineStart': nat, mark: Option<Mark>, err: Option<Error>)
    requires pstart < buffer.pos <= |buffer.text| && buffer.text[buffer.pos - 1] == ch && Sensible(f) && !f.comment
    ensures pstart' <= buffer.pos && (mark == None && err == None ==> Sensible(f'))
    ensures
      var line := buffer.line;
      var s := Scan(args, if f.needSpace || f.lastSpace then [] else buffer.text[pstart..buffer.pos - 1],
                    false, f.dq, f.sq, f.needSpace, f.lastSpace, line, lineStart);
      var r := if f.needSpace then
                 (if Space(ch) then More(s.(lastSpace := true, needSpace := false))
                  else if ch == ';' then Done(Entire, s) else if ch == '{' then Done(BlockStart, s) else Fail(Unexpected))
               else if f.lastSpace then AfterSpace(s, ch) else InWord(s, ch);
      Turned(r, Variables(buffer, args', pstart', f', lineStart'), mark, err)
  {
    hide AfterSpace, InWord;
    args', pstart', f', lineStart', mark, err := args, pstart, f, lineStart, None, None;
    if f.needSpace {
      if Space(ch) {
        f' := f.(lastSpace := true, needSpace := false);
      } else if ch == ';' {
        mark := Some(Entire);
      } else if ch == '{' {
        mark := Some(BlockStart);
      } else {
        err := Some(Unexpected);
      }
    } else if f.lastSpace {
      pstart' := if ch == '"' || ch == '\'' then buffer.pos else buffer.pos - 1;
      f', mark, err := AtStart(args, ch);
      AfterSpaceWord(args, ch, buffer.line, lineStart);
      assert buffer.text[buffer.pos - 1..buffer.pos] == [ch];
    } else {
      var w := buffer.text[pstart..buffer.pos - 1];
      assert buffer.text[pstart..buffer.pos] == w + [ch];
      InWordWord(args, w, f.dq, f.sq, ch, buffer.line, lineStart);
      f', args', mark, err := WithinWord(w, args, f.dq, f.sq, ch);
      lineStart' := if lineStart == 0 then buffer.line else lineStart;
    }
  }

  /** One turn of the loop of `read_token`. */
  method TakeOne(buffer: ConfigBuffer, args: seq<string>, pstart: nat, f: Flags, lineStart: nat)
    returns (args': seq<string>, pstart': nat, f': Flags, lineStart': nat, mark: Option<Mark>, err: Option<Error>)
    requires pstart <= buffer.pos < |buffer.text| && Sensible(f)
    modifies buffer
    ensures buffer.Valid() && buffer.pos == old(buffer.pos) + 1 && pstart' <= buffer.pos
        && (mark == None && err == None ==> Sensible(f'))
    ensures Turned(old(Turn(Variables(buffer, args, pstart, f, lineStart), buffer.text[buffer.pos])),
                   Variables(buffer, args', pstart', f', lineStart'), mark, err)
  {
    hide AfterSpace, InWord;
    args', pstart', f', lineStart', mark, err := args, pstart, f, lineStart, None, None;
    var ch := buffer.text[buffer.pos];
    buffer.pos := buffer.pos + 1;
    if EndsLine(ch) {
      if ch == '\n' {
        buffer.line := buffer.line + 1;
      }
      f' := f'.(comment := false);
      if args != [] {
        err := Some(UnexpectedEol);
        return;
      }
    }
    if !f'.comment {
      args', pstart', f', lineStart', mark, err := Switch(buffer, args, pstart, f', lineStart, ch);
    }
  }

  /** `read_token` */
  method ReadOne(buffer: ConfigBuffer) returns (args: seq<string>, lineStart: nat, mark: Mark, err: Option<Error>)
    requires buffer.Valid()
    modifies buffer
    ensures Answer(buffer, old(ReadToken(buffer.Rest(), Init(buffer.line))), old(buffer.pos), args, lineStart, mark, err)
  {
    hide ReadToken, Turn;
    args, lineStart, mark, err := [], 0, Eof, None;
    var pstart: nat := buffer.pos;
    var f := Flags(false, false, false, false, true);
    while true
      invariant buffer.Valid() && buffer.pos >= old(buffer.pos) && pstart <= buffer.pos && Sensible(f)
      invariant ReadToken(buffer.Rest(), Variables(buffer, args, pstart, f, lineStart)) ==
          old(ReadToken(buffer.Rest(), Init(buffer.line)))
      decreases |buffer.text| - buffer.pos
    {
      OneTurn(buffer.Rest(), Variables(buffer, args, pstart, f, lineStart));
      if buffer.Empty() {
        err := if args != [] || !f.lastSpace then Some(UnexpectedEof) else None;
        mark := Eof;
        return;
      }
      assert buffer.Rest()[1..] == buffer.text[buffer.pos + 1..];
      var done: Option<Mark>;
      args, pstart, f, lineStart, done, err := TakeOne(buffer, args, pstart, f, lineStart);
      if err.Some? {
        return;
      }
      if done.Some? {
        mark := done.value;
        return;
      }
    }
  }

  // ---------- the parser ----------

  /** The out-parameters and the buffer hold the result r of parsing. */
  ghost predicate Result(buffer: ConfigBuffer, r: Parsed, was: nat, dirs: seq<Dir>, err: Option<Error>)
    reads buffer
  {
    && buffer.Valid() && buffer.pos >= was
    && match r
       case Failed(e) => err == Some(e)
       case Parsed(ds, line, rest) => err == None && dirs == ds && buffer.line == line && buffer.Rest() == rest
  }

  lemma PrependTwice(a: seq<Dir>, b: seq<Dir>, r: Parsed)
    ensures Prepend(a, Prepend(b, r)) == Prepend(a + b, r)
  {
    assert r.Parsed? ==> a + (b + r.dirs) == a + b + r.dirs;
  }

  /** Parsing stops at this token, with this result. */
  ghost predicate Stops(t: Token, block: bool, r: Parsed) {
    match t
    case Bad(e) => r == Failed(e)
    case Token(args, mark, ls, line, rest) =>
      if mark == BlockEnd then r == (if block then Parsed([], line, rest) else Failed(Unexpected))
      else if mark == Eof then r == (if block then Failed(UnexpectedEof) else Parsed([], line, rest))
      else if args == [] then r == Failed(EmptyDirective)
      else args[0] == "include" && r == Failed(if |args| == 1 then IncludeEmpty else NoConfig)
  }

  lemma ParseStops(text: string, line: nat, block: bool, r: Parsed)
    requires Stops(ReadToken(text, Init(line)), block, r)
    ensures Parse(text, line, block) == r
  {
    hide ReadToken;
  }

  lemma ParseBlockFails(text: string, line: nat, block: bool, t: Token, e: Error)
    requires ReadToken(text, Init(line)) == t && t.Token? && t.mark == BlockStart && t.args != [] && t.args[0] != "include"
    requires Parse(t.rest, t.line, true) == Failed(e)
    ensures Parse(text, line, block) == Failed(e)
  {
    hide ReadToken;
  }

  /** The directive of a token with its block, and what follows. */
  lemma ParseContinues(text: string, line: nat, block: bool, t: Token, subs: seq<Dir>, line': nat, rest': string)
    requires ReadToken(text, Init(line)) == t && t.Token? && t.args != [] && t.args[0] != "include"
    requires t.mark == BlockStart || t.mark == Entire
    requires if t.mark == BlockStart then Parse(t.rest, t.line, true) == Parsed(subs, line', rest')
             else subs == [] && line' == t.line && rest' == t.rest
    ensures Parse(text, line, block) == Prepend([Dir(t.args[0], t.args[1..], subs, t.lineStart)],
        Parse(rest', line', block))
  {
    hide ReadToken;
  }

  /** `parse_conf`: the directives of a file, or of a block up to its closing brace.  It ends
      because every token but the last takes at least one character. */
  method ParseConf(buffer: ConfigBuffer, block: bool) returns (dirs: seq<Dir>, err: Option<Error>)
    requires buffer.Valid()
    modifies buffer
    ensures Result(buffer, old(Parse(buffer.Rest(), buffer.line, block)), old(buffer.pos), dirs, err)
    decreases |buffer.text| - buffer.pos
  {
    hide Parse, ReadToken;
    dirs, err := [], None;
    if !block && buffer.Empty() {
      OneTurn([], Init(buffer.line));
      assert buffer.Rest() == [];
      ParseStops(buffer.Rest(), buffer.line, block, Parsed([], buffer.line, []));
      return;
    }
    PrependNothing(Parse(buffer.Rest(), buffer.line, block));
    while true
      invariant buffer.Valid() && buffer.pos >= old(buffer.pos)
      invariant Prepend(dirs, Parse(buffer.Rest(), buffer.line, block)) == old(Parse(buffer.Rest(), buffer.line, block))
      decreases |buffer.text| - buffer.pos
    {
      ghost var text, line := buffer.Rest(), buffer.line;
      ghost var t := ReadToken(text, Init(line));
      var args, lineStart, mark;
      args, lineStart, mark, err := ReadOne(buffer);
      if err.Some? {
        ParseStops(text, line, block, Failed(err.value));
        return;
      }
      if mark == BlockEnd || mark == Eof {
        err := if mark == BlockEnd then (if block then None else Some(Unexpected))
               else if block then Some(UnexpectedEof) else None;
        ParseStops(text, line, block, if err.Some? then Failed(err.value) else Parsed([], t.line, t.rest));
        assert dirs + [] == dirs;
        return;
      }
      if args == [] || args[0] == "include" {
        err := Some(if args == [] then EmptyDirective else if |args| == 1 then IncludeEmpty else NoConfig);
        ParseStops(text, line, block, Failed(err.value));
        return;
      }
      var subs := [];
      if mark == BlockStart {
        subs, err := ParseConf(buffer, true);
        if err.Some? {
          ParseBlockFails(text, line, block, t, err.value);
          return;
        }
      }
      var directive := Dir(args[0], args[1..], subs, lineStart);
      ParseContinues(text, line, block, t, subs, buffer.line, buffer.Rest());
      PrependTwice(dirs, [directive], Parse(buffer.Rest(), buffer.line, block));
      dirs := dirs + [directive];
    }
  }

  // ---------- the printer ----------

  class Writer {
    var content: string

    constructor ()
      ensures content == ""
    {
      content := "";
    }

    method Write(s: string)
      modifies this
      ensures content == old(content) + s
    {
      content := content + s;
    }
  }

  method WriteIndent(writer: Writer, n: nat)
    modifies writer
    ensures writer.content == old(writer.content) + Indent(n)
  {
    var i := 0;
    while i < n
      invariant i <= n && writer.content + Indent(n - i) == old(writer.content) + Indent(n)
    {
      writer.Write("    ");
      i := i + 1;
    }
  }

  method WriteWords(writer: Writer, name: string, args: seq<string>)
    modifies writer
    ensures writer.content == old(writer.content) + Join([name] + args)
  {
    var ws := [name] + args;
    writer.Write(name);
    if args != [] {
      writer.Write(" ");
    }
    var i := 0;
    assert ws[1..] == args;
    while i < |args|
      invariant i <= |args|
      invariant writer.content + Join(args[i..]) == old(writer.content) + Join(ws)
    {
      assert args[i..][1..] == args[i + 1..];
      writer.Write(args[i]);
      if i < |args| - 1 {
        writer.Write(" ");
      }
      i := i + 1;
    }
  }

  ghost function Opening(d: Dir, level: nat): string
    requires level > 0
  {
    Indent(level - 1) + Join([d.name] + d.args) + (if d.subs == [] then ";\n" else " {\n")
  }

  ghost function Closing(d: Dir, level: nat): string
    requires level > 0
  {
    if d.subs == [] then "" else Indent(level - 1) + "}\n"
  }

  lemma PrintIs(d: Dir, level: nat)
    requires level > 0
    ensures Print(d, level) == Opening(d, level) + (PrintAll(d.subs, level + 1) + Closing(d, level))
  {
    hide Join, Indent;
  }

  method WriteOpening(writer: Writer, d: Dir, level: nat)
    requires level > 0
    modifies writer
    ensures writer.content == old(writer.content) + Opening(d, level)
  {
    hide Indent, Join;
    WriteIndent(writer, level - 1);
    WriteWords(writer, d.name, d.args);
    if d.subs == [] {
      writer.Write(";");
    } else {
      writer.Write(" ");
      writer.Write("{");
    }
    writer.Write("\n");
  }

  method WriteClosing(writer: Writer, d: Dir, level: nat)
    requires level > 0
    modifies writer
    ensures writer.content == old(writer.content) + Closing(d, level)
  {
    hide Indent;
    if d.subs != [] {
      WriteIndent(writer, level - 1);
      writer.Write("}");
      writer.Write("\n");
    }
  }

  lemma InFour(a: string, b: string, c: string, d: string)
    ensures ((a + b) + c) + d == a + ((b + c) + d) == a + (b + (c + d))
  {
  }

  /** `persistence` of a directive below the root. */
  method Persist(writer: Writer, d: Dir, level: nat)
    requires level > 0
    modifies writer
    ensures writer.content == old(writer.content) + Print(d, level)
    decreases d, 1
  {
    hide Print, PrintAll, Opening, Closing;
    PrintIs(d, level);
    InFour(writer.content, Opening(d, level), PrintAll(d.subs, level + 1), Closing(d, level));
    WriteOpening(writer, d, level);
    PersistAll(writer, d.subs, level + 1);
    WriteClosing(writer, d, level);
  }

  /** `persistence` of the root: only the directives below it. */
  method PersistAll(writer: Writer, ds: seq<Dir>, level: nat)
    requires level > 0
    modifies writer
    ensures writer.content == old(writer.content) + PrintAll(ds, level)
    decreases ds, 0
  {
    var i := 0;
    while i < |ds|
      invariant i <= |ds| && writer.content + PrintAll(ds[i..], level) == old(writer.content) + PrintAll(ds, level)
    {
      assert ds[i..][1..] == ds[i + 1..];
      Persist(writer, ds[i], level);
      i := i + 1;
    }
  }

  /** Writing a tree and reading the text gives the same directives but for line numbers exactly when
      the tree is plain. */
  method WriteThenRead(ds: seq<Dir>) returns (r: seq<Dir>, err: Option<Error>)
    ensures err == None && StripAll(r) == StripAll(ds) <==> PlainTrees(ds)
  {
    var writer := new Writer();
    PersistAll(writer, ds, 1);
    var buffer := new ConfigBuffer(writer.content);
    RoundTripIff(ds, 1);
    hide PlainTrees, Parse, PrintAll;
    r, err := ParseConf(buffer, false);
  }
}
