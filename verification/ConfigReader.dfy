/** Reading a file from its buffer. */
module ConfigReader {
  import opened Options
  import opened ConfigTree
  import opened ConfigText
  import opened ConfigLayout
  import opened ConfigParser

  /** A file is read as the directives that its layout means, whatever its comments, blanks and quotes. */
  method ReadLayout(ps: seq<Piece>, end: string) returns (r: seq<Dir>, err: Option<Error>)
    requires forall i :: 0 <= i < |ps| ==> GoodPiece(ps[i])
    requires end == [] || (end[0] == '#' && NoLineEnd(end))
    ensures err == None && r == MeaningAll(ps, 1)
  {
    var buffer := new ConfigBuffer(Text(ps, end));
    LayoutParses(ps, end, 1);
    hide Parse;
    r, err := ParseConf(buffer, false);
  }
}
