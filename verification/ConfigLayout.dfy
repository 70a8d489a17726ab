/**
 What the parser makes of a text, however it is laid out: comments, blanks, quoted words, and blocks, with the
 line numbers of the directives; and which texts it refuses.
 */
module ConfigLayout {
  import opened ConfigTree
  import opened ConfigText

  // ---------- the layout ----------

  datatype Word = Bare(w: string) | Quoted(w: string, q: char)

  /** A word of a directive and the blanks behind it. */
  datatype Item = Item(word: Word, blanks: string)

  datatype Piece =
    | Blank(ch: char)
    | Comment(text: string)
    | Leaf(items: seq<Item>)
    | Block(items: seq<Item>, body: seq<Piece>)

  predicate NoLineEnd(w: string) {
    forall i :: 0 <= i < |w| ==> w[i] != '\r' && w[i] != '\n'
  }

  /** Between quotes everything counts but the quote, a line end and NUL; a word without quotes must not start like
      a comment, a quoted word or the end of a block, nor hold a space, a semicolon or an opening brace. */
  predicate GoodWord(word: Word) {
    match word
    case Bare(w) =>
      && w != [] && w[0] != '#' && w[0] != '"' && w[0] != '\'' && w[0] != '}'
      && forall i :: 0 <= i < |w| ==> w[i] !in {' ', '\t', '\r', '\n', ';', '{', '\0'}
    case Quoted(w, q) =>
      && (q == '"' || q == '\'') && NoLineEnd(w) && forall i :: 0 <= i < |w| ==> w[i] != q && w[i] != '\0'
  }

  predicate Blanks(b: string) {
    forall i :: 0 <= i < |b| ==> b[i] == ' ' || b[i] == '\t'
  }

  /** Blanks stand between two words; behind the last one there need not be any. */
  predicate WellSpaced(items: seq<Item>) {
    && items != [] && (forall i :: 0 <= i < |items| ==> GoodWord(items[i].word) && Blanks(items[i].blanks))
    && forall i :: 0 <= i < |items| - 1 ==> items[i].blanks != []
  }

  /** The words that count: two quotes with nothing between them are no word. */
  function Words(items: seq<Item>): seq<string> {
    if items == [] then [] else Value(items[0].word) + Words(items[1..])
  }

  function Value(word: Word): seq<string> {
    if word.w == [] then [] else [word.w]
  }

  predicate GoodItems(items: seq<Item>) {
    WellSpaced(items) && Words(items) != [] && Words(items)[0] != "include"
  }

  predicate GoodPiece(p: Piece) {
    match p
    case Blank(ch) => ch in {' ', '\t', '\r', '\n'}
    case Comment(text) => NoLineEnd(text)
    case Leaf(items) => GoodItems(items)
    case Block(items, body) => GoodItems(items) && forall i :: 0 <= i < |body| ==> GoodPiece(body[i])
  }

  // ---------- its text ----------

  /** A word, with its quotes, and the text behind it. */
  function WordText(word: Word, tail: string): string {
    match word case Bare(w) => w + tail case Quoted(w, q) => [q] + (w + ([q] + tail))
  }

  function ItemsText(items: seq<Item>, tail: string): string
    decreases items
  {
    if items == [] then tail else WordText(items[0].word, items[0].blanks + ItemsText(items[1..], tail))
  }

  function PieceText(p: Piece, tail: string): string
    decreases p, 1
  {
    match p
    case Blank(ch) => [ch] + tail
    case Comment(text) => ['#'] + (text + (['\n'] + tail))
    case Leaf(items) => ItemsText(items, [';'] + tail)
    case Block(items, body) => ItemsText(items, ['{'] + Text(body, ['}'] + tail))
  }

  /** The text of the pieces, and the text behind them. */
  function Text(ps: seq<Piece>, tail: string): string
    decreases ps, 0
  {
    if ps == [] then tail else PieceText(ps[0], Text(ps[1..], tail))
  }

  // ---------- its meaning ----------

  /** The line after the piece. */
  function LineAfter(p: Piece, line: nat): nat
    decreases p, 1
  {
    match p
    case Blank(ch) => if ch == '\n' then line + 1 else line
    case Comment(_) => line + 1
    case Leaf(_) => line
    case Block(_, body) => LineAfterAll(body, line)
  }

  function LineAfterAll(ps: seq<Piece>, line: nat): nat
    decreases ps, 0
  {
    if ps == [] then line else LineAfterAll(ps[1..], LineAfter(ps[0], line))
  }

  function Directive(ws: seq<string>, subs: seq<Dir>, line: nat): seq<Dir> {
    if ws == [] then [] else [Dir(ws[0], ws[1..], subs, line)]
  }

  /** The directives of a piece that starts on this line. */
  function Meaning(p: Piece, line: nat): seq<Dir>
    decreases p, 1
  {
    match p
    case Blank(_) => []
    case Comment(_) => []
    case Leaf(items) => Directive(Words(items), [], line)
    case Block(items, body) => Directive(Words(items), MeaningAll(body, line), line)
  }

  function MeaningAll(ps: seq<Piece>, line: nat): seq<Dir>
    decreases ps, 0
  {
    if ps == [] then [] else Meaning(ps[0], line) + MeaningAll(ps[1..], LineAfter(ps[0], line))
  }

  // ---------- reading words ----------

  /** The state within a quoted word of which word has been read so far. */
  function InQuotes(args: seq<string>, word: string, q: char, line: nat, lineStart: nat): Scan {
    Scan(args, word, false, q == '"', q != '"', false, false, line, lineStart)
  }

  /** The state behind the closing quote. */
  function Closed(args: seq<string>, line: nat, lineStart: nat): Scan {
    Scan(args, [], false, false, false, true, false, line, lineStart)
  }

  lemma ReadOn(text: string, s: Scan, s': Scan)
    requires text != [] && Turn(s, text[0]) == More(s')
    ensures ReadToken(text, s) == ReadToken(text[1..], s')
  {
  }

  lemma NextChar(c: char, tail: string, s: Scan, s': Scan)
    requires Turn(s, c) == More(s')
    ensures ReadToken([c] + tail, s) == ReadToken(tail, s')
  {
    assert ([c] + tail)[1..] == tail;
    hide Turn;
    ReadOn([c] + tail, s, s');
  }

  lemma {:induction false} SkipBlanks(args: seq<string>, b: string, tail: string, line: nat, ls: nat)
    requires Blanks(b)
    ensures ReadToken(b + tail, Between(args, line, ls)) == ReadToken(tail, Between(args, line, ls))
  {
    if b == [] {
      assert b + tail == tail;
    } else {
      assert b + tail == [b[0]] + (b[1..] + tail);
      NextChar(b[0], b[1..] + tail, Between(args, line, ls), Between(args, line, ls));
      hide Turn;
      SkipBlanks(args, b[1..], tail, line, ls);
    }
  }

  /** The characters of a word that has begun are read one by one. */
  lemma {:induction false} BareGoesOn(args: seq<string>, word: string, w: string, tail: string, line: nat, ls: nat)
    requires forall i :: 0 <= i < |w| ==> w[i] !in {' ', '\t', '\r', '\n', ';', '{', '\0'}
    ensures ReadToken(w + tail, Reading(args, word, line, ls)) ==
      ReadToken(tail, Reading(args, word + w, line, if w == [] then ls else Started(line, ls)))
    decreases w
  {
    if w == [] {
      assert w + tail == tail && word + w == word;
    } else {
      assert w + tail == [w[0]] + (w[1..] + tail) && word + w == (word + [w[0]]) + w[1..];
      NextChar(w[0], w[1..] + tail, Reading(args, word, line, ls), Reading(args, word + [w[0]], line, Started(line, ls)));
      hide Turn, ReadToken;
      BareGoesOn(args, word + [w[0]], w[1..], tail, line, Started(line, ls));
    }
  }

  lemma {:induction false} QuotedGoesOn(args: seq<string>, word: string, w: string, q: char, tail: string,
                                        line: nat, ls: nat)
    requires (q == '"' || q == '\'') && NoLineEnd(w) && forall i :: 0 <= i < |w| ==> w[i] != q
    ensures ReadToken(w + tail, InQuotes(args, word, q, line, ls)) ==
      ReadToken(tail, InQuotes(args, word + w, q, line, if w == [] then ls else Started(line, ls)))
    decreases w
  {
    if w == [] {
      assert w + tail == tail && word + w == word;
    } else {
      assert w + tail == [w[0]] + (w[1..] + tail) && word + w == (word + [w[0]]) + w[1..];
      NextChar(w[0], w[1..] + tail, InQuotes(args, word, q, line, ls),
               InQuotes(args, word + [w[0]], q, line, Started(line, ls)));
      hide Turn, ReadToken;
      QuotedGoesOn(args, word + [w[0]], w[1..], q, tail, line, Started(line, ls));
    }
  }

  lemma {:induction false} NoNul(w: string)
    requires forall i :: 0 <= i < |w| ==> w[i] != '\0'
    ensures CString(w) == w
  {
    if w != [] {
      NoNul(w[1..]);
    }
  }

  /** The state behind a good word. */
  function Behind(args: seq<string>, word: Word, line: nat, ls: nat): Scan {
    match word
    case Bare(w) => Reading(args, w, line, if |w| == 1 then ls else Started(line, ls))
    case Quoted(w, _) => Closed(args + Value(word), line, Started(line, ls))
  }

  lemma ReadTo(args: seq<string>, word: Word, tail: string, line: nat, ls: nat)
    requires GoodWord(word)
    ensures ReadToken(WordText(word, tail), Between(args, line, ls)) == ReadToken(tail, Behind(args, word, line, ls))
  {
    match word {
      case Bare(w) =>
        assert w + tail == [w[0]] + (w[1..] + tail) && [w[0]] + w[1..] == w;
        NextChar(w[0], w[1..] + tail, Between(args, line, ls), Reading(args, [w[0]], line, ls));
        hide Turn, ReadToken;
        BareGoesOn(args, [w[0]], w[1..], tail, line, ls);
      case Quoted(w, q) => ReadQuoted(args, w, q, tail, line, ls);
    }
  }

  lemma ReadQuoted(args: seq<string>, w: string, q: char, tail: string, line: nat, ls: nat)
    requires GoodWord(Quoted(w, q))
    ensures ReadToken(WordText(Quoted(w, q), tail), Between(args, line, ls)) ==
      ReadToken(tail, Closed(args + Value(Quoted(w, q)), line, Started(line, ls)))
  {
    var ls' := if w == [] then ls else Started(line, ls);
    NextChar(q, w + ([q] + tail), Between(args, line, ls), InQuotes(args, [], q, line, ls));
    QuoteCloses(args, w, q, tail, line, ls');
    hide Turn, ReadToken, GoodWord;
    assert [] + w == w && GoodWord(Quoted(w, q));
    InsideQuotes(w, q);
    QuotedGoesOn(args, [], w, q, [q] + tail, line, ls);
  }

  lemma QuoteCloses(args: seq<string>, w: string, q: char, tail: string, line: nat, ls: nat)
    requires GoodWord(Quoted(w, q))
    ensures ReadToken([q] + tail, InQuotes(args, w, q, line, ls)) ==
      ReadToken(tail, Closed(args + Value(Quoted(w, q)), line, Started(line, ls)))
  {
    NoNul(w);
    assert args + [] == args;
    NextChar(q, tail, InQuotes(args, w, q, line, ls), Closed(args + Value(Quoted(w, q)), line, Started(line, ls)));
  }

  lemma InsideQuotes(w: string, q: char)
    requires GoodWord(Quoted(w, q))
    ensures (q == '"' || q == '\'') && NoLineEnd(w) && forall i :: 0 <= i < |w| ==> w[i] != q
  {
  }

  /** A blank behind a word. */
  lemma BlankBehind(args: seq<string>, word: Word, c: char, tail: string, line: nat, ls: nat)
    requires GoodWord(word) && (c == ' ' || c == '\t')
    ensures ReadToken([c] + tail, Behind(args, word, line, ls)) ==
      ReadToken(tail, Between(args + Value(word), line, Started(line, ls)))
  {
    if word.Bare? {
      NoNul(word.w);
    }
    NextChar(c, tail, Behind(args, word, line, ls), Between(args + Value(word), line, Started(line, ls)));
  }

  /** A semicolon or an opening brace ends the directive, behind a word or behind blanks. */
  lemma MarkBehind(args: seq<string>, word: Word, c: char, tail: string, line: nat, ls: nat)
    requires GoodWord(word) && (c == ';' || c == '{')
    ensures ReadToken([c] + tail, Behind(args, word, line, ls)) ==
      Token(args + Value(word), if c == ';' then Entire else BlockStart, Started(line, ls), line, tail)
  {
    if word.Bare? {
      NoNul(word.w);
    }
    assert ([c] + tail)[1..] == tail && ([c] + tail)[0] == c;
  }

  lemma MarkAfterBlanks(args: seq<string>, c: char, tail: string, line: nat, ls: nat)
    requires args != [] && (c == ';' || c == '{')
    ensures ReadToken([c] + tail, Between(args, line, ls)) ==
      Token(args, if c == ';' then Entire else BlockStart, ls, line, tail)
  {
    assert ([c] + tail)[1..] == tail && ([c] + tail)[0] == c;
  }

  /** A word with blanks behind it. */
  lemma ReadItem(args: seq<string>, item: Item, tail: string, line: nat, ls: nat)
    requires GoodWord(item.word) && Blanks(item.blanks) && item.blanks != []
    ensures ReadToken(WordText(item.word, item.blanks + tail), Between(args, line, ls)) ==
      ReadToken(tail, Between(args + Value(item.word), line, Started(line, ls)))
  {
    var b := item.blanks;
    assert b + tail == [b[0]] + (b[1..] + tail) && (b[0] == ' ' || b[0] == '\t') && Blanks(b[1..]);
    hide ReadToken, GoodWord, WordText, Blanks;
    ReadTo(args, item.word, b + tail, line, ls);
    BlankBehind(args, item.word, b[0], b[1..] + tail, line, ls);
    SkipBlanks(args + Value(item.word), b[1..], tail, line, Started(line, ls));
  }

  lemma ReadLastItem(args: seq<string>, item: Item, c: char, tail: string, line: nat, ls: nat)
    requires GoodWord(item.word) && Blanks(item.blanks) && (c == ';' || c == '{') && args + Value(item.word) != []
    ensures ReadToken(WordText(item.word, item.blanks + ([c] + tail)), Between(args, line, ls)) ==
      Token(args + Value(item.word), if c == ';' then Entire else BlockStart, Started(line, ls), line, tail)
  {
    hide ReadToken, GoodWord, WordText, Blanks;
    if item.blanks == [] {
      assert [] + ([c] + tail) == [c] + tail;
      ReadTo(args, item.word, [c] + tail, line, ls);
      MarkBehind(args, item.word, c, tail, line, ls);
    } else {
      ReadItem(args, item, [c] + tail, line, ls);
      MarkAfterBlanks(args + Value(item.word), c, tail, line, Started(line, ls));
    }
  }

  /** The words of a directive that has begun. */
  lemma {:induction false} ReadItems(args: seq<string>, items: seq<Item>, c: char, tail: string, line: nat, ls: nat)
    requires WellSpaced(items) && args + Words(items) != [] && (c == ';' || c == '{')
    ensures ReadToken(ItemsText(items, [c] + tail), Between(args, line, ls)) ==
      Token(args + Words(items), if c == ';' then Entire else BlockStart, Started(line, ls), line, tail)
    decreases items
  {
    hide ReadToken, GoodWord, WordText, Blanks, Value;
    var v := Value(items[0].word);
    assert args + v + Words(items[1..]) == args + Words(items);
    if |items| == 1 {
      assert items[1..] == [] && v + [] == v;
      ReadLastItem(args, items[0], c, tail, line, ls);
    } else {
      ReadItem(args, items[0], ItemsText(items[1..], [c] + tail), line, ls);
      ReadItems(args + v, items[1..], c, tail, line, Started(line, ls));
    }
  }

  // ---------- parsing ----------

  /** The text of a directive without its end. */
  lemma ReadDirective(items: seq<Item>, c: char, tail: string, line: nat)
    requires WellSpaced(items) && Words(items) != [] && (c == ';' || c == '{')
    ensures ReadToken(ItemsText(items, [c] + tail), Init(line)) ==
      Token(Words(items), if c == ';' then Entire else BlockStart, line, line, tail)
  {
    hide WellSpaced, ReadToken;
    assert [] + Words(items) == Words(items);
    ReadItems([], items, c, tail, line, 0);
  }

  /** A directive that ends with a semicolon. */
  lemma ParseLeafText(items: seq<Item>, tail: string, line: nat, block: bool)
    requires GoodItems(items)
    ensures Parse(ItemsText(items, [';'] + tail), line, block) ==
      Prepend(Directive(Words(items), [], line), Parse(tail, line, block))
  {
    hide WellSpaced, ReadToken, ItemsText, Parse;
    ReadDirective(items, ';', tail, line);
    ParseByEntire(ItemsText(items, [';'] + tail), line, block, Words(items), line, tail);
  }

  /** What is parsed when the block of a directive gave r: its failure is that of the whole, and else parsing goes
      on behind it. */
  function WithBlock(ws: seq<string>, line: nat, block: bool, r: Parsed): Parsed {
    if r.Failed? then r else Prepend(Directive(ws, r.dirs, line), Parse(r.rest, r.line, block))
  }

  /** A directive with a block. */
  lemma ParseBlockText(items: seq<Item>, tail: string, line: nat, block: bool)
    requires GoodItems(items)
    ensures Parse(ItemsText(items, ['{'] + tail), line, block) ==
      WithBlock(Words(items), line, block, Parse(tail, line, true))
  {
    hide WellSpaced, ReadToken, ItemsText, Parse;
    var text := ItemsText(items, ['{'] + tail);
    var r := Parse(tail, line, true);
    ReadDirective(items, '{', tail, line);
    if r.Failed? {
      BlockFails(text, line, block, Words(items), tail, r.e);
    } else {
      ParseByBlock(text, line, block, Words(items), line, tail, r.dirs, r.line, r.rest);
    }
  }

  lemma BlockFails(text: string, line: nat, block: bool, ws: seq<string>, rest: string, e: Error)
    requires ws != [] && ws[0] != "include" && ReadToken(text, Init(line)) == Token(ws, BlockStart, line, line, rest)
    requires Parse(rest, line, true) == Failed(e)
    ensures Parse(text, line, block) == Failed(e)
  {
    hide ReadToken;
  }

  /** A space where a directive may start. */
  lemma ParseSpace(ch: char, tail: string, line: nat, block: bool)
    requires ch in {' ', '\t', '\r', '\n'}
    ensures Parse([ch] + tail, line, block) == Parse(tail, if ch == '\n' then line + 1 else line, block)
  {
    NextChar(ch, tail, Init(line), Init(if ch == '\n' then line + 1 else line));
    hide ReadToken;
  }

  function InComment(line: nat): Scan {
    Scan([], [], true, false, false, false, true, line, 0)
  }

  lemma {:induction false} CommentGoesOn(text: string, tail: string, line: nat)
    requires NoLineEnd(text)
    ensures ReadToken(text + tail, InComment(line)) == ReadToken(tail, InComment(line))
  {
    if text == [] {
      assert text + tail == tail;
    } else {
      assert text + tail == [text[0]] + (text[1..] + tail);
      NextChar(text[0], text[1..] + tail, InComment(line), InComment(line));
      hide Turn, ReadToken;
      CommentGoesOn(text[1..], tail, line);
    }
  }

  /** A comment where a directive may start goes up to the line end, whatever it holds. */
  lemma ParseComment(text: string, tail: string, line: nat, block: bool)
    requires NoLineEnd(text)
    ensures Parse(['#'] + (text + (['\n'] + tail)), line, block) == Parse(tail, line + 1, block)
  {
    NextChar('#', text + (['\n'] + tail), Init(line), InComment(line));
    CommentGoesOn(text, ['\n'] + tail, line);
    NextChar('\n', tail, InComment(line), Init(line + 1));
    hide ReadToken;
  }

  /** A comment that the end of the file ends is the end of the file. */
  lemma ParseLastComment(text: string, line: nat, block: bool)
    requires NoLineEnd(text)
    ensures Parse(['#'] + text, line, block) == if block then Failed(UnexpectedEof) else Parsed([], line, [])
    ensures Parse([], line, block) == if block then Failed(UnexpectedEof) else Parsed([], line, [])
  {
    NextChar('#', text, Init(line), InComment(line));
    assert text + [] == text;
    CommentGoesOn(text, [], line);
  }

  /** The end of a block. */
  lemma ParseBrace(tail: string, line: nat, block: bool)
    ensures Parse(['}'] + tail, line, block) == if block then Parsed([], line, tail) else Failed(Unexpected)
  {
    assert (['}'] + tail)[1..] == tail && (['}'] + tail)[0] == '}';
  }

  /** The parser takes a piece for what it means. */
  lemma {:induction false} ParsePiece(p: Piece, tail: string, line: nat, block: bool)
    requires GoodPiece(p)
    ensures Parse(PieceText(p, tail), line, block) == Prepend(Meaning(p, line), Parse(tail, LineAfter(p, line), block))
    decreases p, 1
  {
    match p {
      case Blank(ch) =>
        ParseSpace(ch, tail, line, block);
        PrependNothing(Parse(tail, LineAfter(p, line), block));
      case Comment(text) =>
        ParseComment(text, tail, line, block);
        PrependNothing(Parse(tail, LineAfter(p, line), block));
      case Leaf(items) =>
        ParseLeafText(items, tail, line, block);
      case Block(items, body) =>
        hide Parse, Text, GoodItems, ItemsText;
        ParseBlockText(items, Text(body, ['}'] + tail), line, block);
        ParsePieces(body, ['}'] + tail, line, true);
        ParseBrace(tail, LineAfterAll(body, line), true);
        assert MeaningAll(body, line) + [] == MeaningAll(body, line);
    }
  }

  lemma {:induction false} ParsePieces(ps: seq<Piece>, tail: string, line: nat, block: bool)
    requires forall i :: 0 <= i < |ps| ==> GoodPiece(ps[i])
    ensures Parse(Text(ps, tail), line, block) == Prepend(MeaningAll(ps, line), Parse(tail, LineAfterAll(ps, line), block))
    decreases ps, 0
  {
    hide Parse, GoodPiece, PieceText, Prepend;
    if ps == [] {
      PrependNothing(Parse(tail, line, block));
    } else {
      var line' := LineAfter(ps[0], line);
      ParsePiece(ps[0], Text(ps[1..], tail), line, block);
      ParsePieces(ps[1..], tail, line', block);
      PrependBoth(Meaning(ps[0], line), MeaningAll(ps[1..], line'), Parse(tail, LineAfterAll(ps, line), block));
    }
  }

  lemma PrependBoth(a: seq<Dir>, b: seq<Dir>, r: Parsed)
    ensures Prepend(a, Prepend(b, r)) == Prepend(a + b, r)
  {
    assert r.Parsed? ==> a + (b + r.dirs) == a + b + r.dirs;
  }

  /** However a file is laid out, the parser reads the directives it means, with their lines; the file may end in a
      comment. */
  lemma LayoutParses(ps: seq<Piece>, end: string, line: nat)
    requires (forall i :: 0 <= i < |ps| ==> GoodPiece(ps[i])) && (end == [] || (end[0] == '#' && NoLineEnd(end)))
    ensures Parse(Text(ps, end), line, false) == Parsed(MeaningAll(ps, line), LineAfterAll(ps, line), [])
  {
    hide Parse, GoodPiece, Text;
    ParsePieces(ps, end, line, false);
    ParseLastComment(if end == [] then [] else end[1..], LineAfterAll(ps, line), false);
    assert end != [] ==> end == ['#'] + end[1..];
    assert MeaningAll(ps, line) + [] == MeaningAll(ps, line);
  }

  // ---------- what is refused ----------

  /** Words with blanks behind each. */
  predicate AllSpaced(items: seq<Item>) {
    forall i :: 0 <= i < |items| ==> GoodWord(items[i].word) && Blanks(items[i].blanks) && items[i].blanks != []
  }

  function StartOf(items: seq<Item>, line: nat, ls: nat): nat {
    if items == [] then ls else Started(line, ls)
  }

  /** The state behind words and blanks. */
  function Amid(items: seq<Item>, line: nat): Scan {
    Between(Words(items), line, StartOf(items, line, 0))
  }

  lemma {:induction false} ReadFront(args: seq<string>, items: seq<Item>, tail: string, line: nat, ls: nat)
    requires AllSpaced(items)
    ensures ReadToken(ItemsText(items, tail), Between(args, line, ls)) ==
      ReadToken(tail, Between(args + Words(items), line, StartOf(items, line, ls)))
    decreases items
  {
    hide ReadToken, GoodWord, WordText, Blanks, Value;
    if items == [] {
      assert args + [] == args;
    } else {
      var v := Value(items[0].word);
      assert args + v + Words(items[1..]) == args + Words(items);
      ReadItem(args, items[0], ItemsText(items[1..], tail), line, ls);
      ReadFront(args + v, items[1..], tail, line, Started(line, ls));
    }
  }

  lemma ReadAmid(items: seq<Item>, tail: string, line: nat)
    requires AllSpaced(items)
    ensures ReadToken(ItemsText(items, tail), Init(line)) == ReadToken(tail, Amid(items, line))
  {
    hide ReadToken, AllSpaced, Words;
    ReadFront([], items, tail, line, 0);
    assert [] + Words(items) == Words(items);
  }

  lemma BadToken(text: string, line: nat, block: bool, e: Error)
    requires ReadToken(text, Init(line)) == Bad(e)
    ensures Parse(text, line, block) == Failed(e)
  {
    hide ReadToken;
  }

  lemma FailsAt(c: char, tail: string, s: Scan, e: Error)
    requires Turn(s, c) == Fail(e)
    ensures ReadToken([c] + tail, s) == Bad(e)
  {
    hide Turn;
    assert ([c] + tail)[0] == c;
  }

  /** A directive that the end of the file, a line end, a closing brace or a comment breaks off behind a blank. */
  lemma BrokenOff(items: seq<Item>, c: char, tail: string, line: nat, block: bool)
    requires AllSpaced(items) && Words(items) != []
    ensures Parse(ItemsText(items, []), line, block) == Failed(UnexpectedEof)
    ensures c in {'\r', '\n'} ==> Parse(ItemsText(items, [c] + tail), line, block) == Failed(UnexpectedEol)
    ensures c == '}' ==> Parse(ItemsText(items, [c] + tail), line, block) == Failed(Unexpected)
  {
    var s := Amid(items, line);
    ReadAmid(items, [], line);
    ReadAmid(items, [c] + tail, line);
    hide AllSpaced, ItemsText, Words;
    if c in {'\r', '\n'} {
      FailsAt(c, tail, s, UnexpectedEol);
    } else if c == '}' {
      FailsAt(c, tail, s, Unexpected);
    }
    BadEnds(s);
    hide ReadToken, Parse;
    BadToken(ItemsText(items, []), line, block, UnexpectedEof);
    if c in {'\r', '\n', '}'} {
      BadToken(ItemsText(items, [c] + tail), line, block, if c == '}' then Unexpected else UnexpectedEol);
    }
  }

  lemma BadEnds(s: Scan)
    requires s.args != [] || !s.lastSpace
    ensures ReadToken([], s) == Bad(UnexpectedEof)
  {
  }

  /** The same within a directive that has words but no end: a comment does not help. */
  lemma {:induction false} CommentBreaks(s: Scan, text: string, c: char, tail: string)
    requires NoLineEnd(text) && s.comment && s.args != [] && c in {'\r', '\n'}
    ensures ReadToken(text, s) == Bad(UnexpectedEof) && ReadToken(text + ([c] + tail), s) == Bad(UnexpectedEol)
    decreases text
  {
    if text == [] {
      assert text + ([c] + tail) == [c] + tail;
      FailsAt(c, tail, s, UnexpectedEol);
    } else {
      assert text + ([c] + tail) == [text[0]] + (text[1..] + ([c] + tail)) && text == [text[0]] + text[1..];
      NextChar(text[0], text[1..] + ([c] + tail), s, s);
      NextChar(text[0], text[1..], s, s);
      hide Turn, ReadToken;
      CommentBreaks(s, text[1..], c, tail);
    }
  }

  lemma CommentWithin(items: seq<Item>, text: string, c: char, tail: string, line: nat, block: bool)
    requires AllSpaced(items) && Words(items) != [] && NoLineEnd(text) && c in {'\r', '\n'}
    ensures Parse(ItemsText(items, ['#'] + text), line, block) == Failed(UnexpectedEof)
    ensures Parse(ItemsText(items, ['#'] + (text + ([c] + tail))), line, block) == Failed(UnexpectedEol)
  {
    var s := Amid(items, line);
    NextChar('#', text, s, s.(comment := true));
    NextChar('#', text + ([c] + tail), s, s.(comment := true));
    hide ReadToken, AllSpaced, ItemsText, Words, Parse;
    ReadAmid(items, ['#'] + text, line);
    ReadAmid(items, ['#'] + (text + ([c] + tail)), line);
    CommentBreaks(s.(comment := true), text, c, tail);
    BadToken(ItemsText(items, ['#'] + text), line, block, UnexpectedEof);
    BadToken(ItemsText(items, ['#'] + (text + ([c] + tail))), line, block, UnexpectedEol);
  }

  /** A directive that is broken off right behind a word, and a quoted word that something else follows. */
  lemma BrokenBehind(items: seq<Item>, word: Word, c: char, tail: string, line: nat, block: bool)
    requires AllSpaced(items) && GoodWord(word)
    ensures Parse(ItemsText(items, WordText(word, [])), line, block) == Failed(UnexpectedEof)
    ensures c in {'\r', '\n'} && Words(items) + Value(word) != [] ==>
      Parse(ItemsText(items, WordText(word, [c] + tail)), line, block) == Failed(UnexpectedEol)
    ensures word.Quoted? && c !in {' ', '\t', '\r', '\n', ';', '{'} ==>
      Parse(ItemsText(items, WordText(word, [c] + tail)), line, block) == Failed(Unexpected)
  {
    var args, ls := Words(items), StartOf(items, line, 0);
    var s := Behind(args, word, line, ls);
    var text, text' := WordText(word, []), WordText(word, [c] + tail);
    if word.Bare? {
      NoNul(word.w);
    }
    if c in {'\r', '\n'} && args + Value(word) != [] {
      FailsAt(c, tail, s, UnexpectedEol);
    } else if word.Quoted? && c !in {' ', '\t', '\r', '\n', ';', '{'} {
      FailsAt(c, tail, s, Unexpected);
    }
    BadEnds(s);
    hide ReadToken, AllSpaced, ItemsText, Words, Parse, Turn, Behind, WordText, GoodWord;
    ReadAmid(items, text, line);
    ReadAmid(items, text', line);
    ReadTo(args, word, [], line, ls);
    ReadTo(args, word, [c] + tail, line, ls);
    BadToken(ItemsText(items, text), line, block, UnexpectedEof);
    if ReadToken(ItemsText(items, text'), Init(line)).Bad? {
      BadToken(ItemsText(items, text'), line, block, ReadToken(ItemsText(items, text'), Init(line)).e);
    }
  }

  /** A mark without a word, a directive without a word, an include, and a quote that is never closed. */
  lemma NoDirective(items: seq<Item>, w: string, q: char, c: char, tail: string, line: nat, block: bool)
    requires (c == ';' || c == '{') && (q == '"' || q == '\'') && NoLineEnd(w) && q !in w
    requires WellSpaced(items) && Words(items) != [] && Words(items)[0] == "include"
    ensures Parse([c] + tail, line, block) == Failed(Unexpected)
    ensures Parse([q] + ([q] + ([c] + tail)), line, block) == Failed(EmptyDirective)
    ensures Parse(ItemsText(items, [c] + tail), line, block) ==
      Failed(if |Words(items)| == 1 then IncludeEmpty else NoConfig)
    ensures Parse([q] + w, line, block) == Failed(UnexpectedEof)
  {
    FailsAt(c, tail, Init(line), Unexpected);
    hide Turn, WellSpaced, ItemsText, GoodWord, Words;
    BadToken([c] + tail, line, block, Unexpected);
    NoWord(q, c, tail, line);
    ReadDirective(items, c, tail, line);
    Unclosed(w, q, line);
    hide ReadToken;
  }

  lemma NoWord(q: char, c: char, tail: string, line: nat)
    requires (c == ';' || c == '{') && (q == '"' || q == '\'')
    ensures ReadToken([q] + ([q] + ([c] + tail)), Init(line)) ==
      Token([], if c == ';' then Entire else BlockStart, line, line, tail)
  {
    var word := Quoted([], q);
    assert [] + ([q] + ([c] + tail)) == [q] + ([c] + tail);
    ReadTo([], word, [c] + tail, line, 0);
    MarkBehind([], word, c, tail, line, 0);
    assert [] + Value(word) == [];
  }

  lemma Unclosed(w: string, q: char, line: nat)
    requires (q == '"' || q == '\'') && NoLineEnd(w) && q !in w
    ensures ReadToken([q] + w, Init(line)) == Bad(UnexpectedEof)
  {
    NextChar(q, w, Init(line), InQuotes([], [], q, line, 0));
    assert w + [] == w;
    QuotedGoesOn([], [], w, q, [], line, 0);
  }
}
