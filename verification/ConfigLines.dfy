/** The printed text of a configuration, line by line. */
module ConfigLines {
  import opened ConfigTree
  import opened ConfigText

  // ---------- the printed lines ----------

  /** A line of a file: how deep it is indented, its words, and what ends it. */
  datatype TextLine = TextLine(depth: nat, words: seq<string>, end: string)

  /** A directive without children is one line; any other is a line that opens its block, its children one deeper,
      and a line that closes the block. */
  function LinesOf(d: Dir, depth: nat): seq<TextLine>
    decreases d, 1
  {
    if d.subs == [] then [TextLine(depth, [d.name] + d.args, ";")]
    else [TextLine(depth, [d.name] + d.args, " {")] + Lines(d.subs, depth + 1) + [TextLine(depth, [], "}")]
  }

  function Lines(ds: seq<Dir>, depth: nat): seq<TextLine>
    decreases ds, 0
  {
    if ds == [] then [] else LinesOf(ds[0], depth) + Lines(ds[1..], depth)
  }

  function WithSpaces(ws: seq<string>): string {
    if ws == [] then "" else if ws[1..] == [] then ws[0] else ws[0] + " " + WithSpaces(ws[1..])
  }

  /** Four spaces for each level, the words with a space between each two, the end, and a line end. */
  function LineText(l: TextLine): string {
    seq(4 * l.depth, _ => ' ') + (WithSpaces(l.words) + l.end + "\n")
  }

  function LinesText(ls: seq<TextLine>): string {
    if ls == [] then "" else LineText(ls[0]) + LinesText(ls[1..])
  }

  lemma {:induction false} LinesTextOfConcat(a: seq<TextLine>, b: seq<TextLine>)
    ensures LinesText(a + b) == LinesText(a) + LinesText(b)
  {
    hide LineText;
    if a == [] {
      assert a + b == b;
    } else {
      assert (a + b)[1..] == a[1..] + b;
      LinesTextOfConcat(a[1..], b);
    }
  }

  lemma LinesTextOfOne(l: TextLine)
    ensures LinesText([l]) == LineText(l)
  {
    hide LineText;
    assert [l][1..] == [];
  }

  lemma {:induction false} IndentIs(n: nat)
    ensures Indent(n) == seq(4 * n, _ => ' ')
  {
    if n > 0 {
      IndentIs(n - 1);
      assert seq(4 * n, _ => ' ') == "    " + seq(4 * (n - 1), _ => ' ');
    }
  }

  lemma {:induction false} JoinIs(ws: seq<string>)
    ensures Join(ws) == WithSpaces(ws)
  {
    if ws != [] {
      assert ws[1..] == [] <==> |ws| == 1;
      JoinIs(ws[1..]);
    }
  }

  lemma PrintedLine(depth: nat, ws: seq<string>, end: string)
    ensures Indent(depth) + Join(ws) + (end + "\n") == LineText(TextLine(depth, ws, end))
  {
    IndentIs(depth);
    JoinIs(ws);
    var a, b := Indent(depth), Join(ws);
    hide Indent, Join, WithSpaces;
    assert a + b + (end + "\n") == a + (b + end + "\n");
  }

  lemma PrintedEnd(depth: nat)
    ensures Indent(depth) + "}\n" == LineText(TextLine(depth, [], "}"))
  {
    PrintedLine(depth, [], "}");
    assert Indent(depth) + Join([]) == Indent(depth);
    assert "}" + "\n" == "}\n";
  }

  lemma {:induction false} PrintedOne(d: Dir, level: nat)
    requires level > 0
    ensures Print(d, level) == LinesText(LinesOf(d, level - 1))
    decreases d, 1
  {
    var ws := [d.name] + d.args;
    hide Join, Indent, LineText;
    if d.subs == [] {
      LinesTextOfOne(TextLine(level - 1, ws, ";"));
      PrintedLine(level - 1, ws, ";");
      assert ";" + "\n" == ";\n";
    } else {
      PrintedLines(d.subs, level + 1);
      var first, body, last := TextLine(level - 1, ws, " {"), Lines(d.subs, level), TextLine(level - 1, [], "}");
      LinesTextOfOne(first);
      LinesTextOfOne(last);
      LinesTextOfConcat([first], body);
      LinesTextOfConcat([first] + body, [last]);
      PrintedLine(level - 1, ws, " {");
      PrintedEnd(level - 1);
      assert " {" + "\n" == " {\n";
      hide LinesText, PrintAll;
      var a, b := Indent(level - 1) + Join(ws), PrintAll(d.subs, level + 1);
      assert a + " {\n" + b + Indent(level - 1) + "}\n" == (a + " {\n") + b + (Indent(level - 1) + "}\n");
    }
  }

  /** The printed text, line by line. */
  lemma {:induction false} PrintedLines(ds: seq<Dir>, level: nat)
    requires level > 0
    ensures PrintAll(ds, level) == LinesText(Lines(ds, level - 1))
    decreases ds, 0
  {
    hide Print, LinesOf, LineText;
    if ds != [] {
      PrintedOne(ds[0], level);
      PrintedLines(ds[1..], level);
      LinesTextOfConcat(LinesOf(ds[0], level - 1), Lines(ds[1..], level - 1));
    }
  }
}
