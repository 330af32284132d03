/** A file whose coloured rows are not the plain ones: a row of wide characters reaches
    the length cutoff in colour, where the style takes room as well. */
module MdCutoff {
  import opened Bytes
  import opened MdWrap
  import opened MdRender
  import opened MdDoc
  import opened MdSource
  import MdContent
  import BatchLines

  /** A character of four bytes that takes one column. */
  const FACE: seq<byte> := [0xF0, 0x9F, 0x98, 0x80]

  function Faces(n: nat): (r: seq<byte>)
    ensures |r| == 4 * n && forall i :: 0 <= i < |r| ==> r[i] >= 0x80
    ensures n > 0 ==> r[0] == 0xF0
  {
    if n == 0 then [] else Faces(n - 1) + FACE
  }

  /** An indented code line of n such characters. */
  function FaceFile(n: nat): seq<byte> {
    [SPACE, SPACE, SPACE, SPACE] + Faces(n)
  }

  // ----- its one block -----

  lemma {:induction false} CleanedIsAll(line: seq<byte>)
    requires 0 !in line && 13 !in line
    ensures Cleaned(line) == line
  {
    if line != [] {
      assert forall c :: c in line[..|line| - 1] ==> c in line;
      assert line[|line| - 1] in line;
      CleanedIsAll(line[..|line| - 1]);
    }
  }

  lemma {:induction false} NoLf(data: seq<byte>)
    requires BatchLines.LF !in data
    ensures BatchLines.FirstLf(data) == |data|
  {
  }

  lemma IndentOfFaces(n: nat)
    requires n > 0
    ensures Indent(FaceFile(n), 0, 0) == (4, 4) && CodeFrom(FaceFile(n), 0, 0) == 4
  {
    var f := FaceFile(n);
    assert !White(f[4]);
    assert Indent(f, 4, 4) == (4, 4) && Indent(f, 3, 3) == (4, 4) && Indent(f, 2, 2) == (4, 4) && Indent(f, 1, 1) == (4, 4);
    assert CodeFrom(f, 4, 4) == 4 && CodeFrom(f, 3, 3) == 4 && CodeFrom(f, 2, 2) == 4 && CodeFrom(f, 1, 1) == 4;
  }

  lemma FaceBlocks(n: nat)
    requires n > 0
    ensures Blocks(FaceFile(n)) == [Code(Faces(n))]
  {
    hide Indent, CodeFrom, Cleaned, Marker, RunEnd, TextEnd, WhiteEnd, Occurrences, Faces;
    var f := FaceFile(n);
    NoLf(f);
    CleanedIsAll(f);
    IndentOfFaces(n);
    assert f[4..] == Faces(n);
    var lines := [f];
    assert SplitLines(f) == lines && lines[..0] == [];
    assert Parsed([]) == (FRESH_PARSE, []);
    assert LineStep(FRESH_PARSE, f) == (FRESH_PARSE, [Code(Faces(n))]);
    assert Parsed(lines) == (FRESH_PARSE, [] + [Code(Faces(n))]);
  }

  // ----- its rows -----

  function InCode(line: seq<byte>): (r: seq<Put>) {
    seq(|line|, i requires 0 <= i < |line| => Put(line[i], CODE_STYLE))
  }

  lemma {:induction false} FacePuts(line: seq<byte>, col: nat)
    requires forall i :: 0 <= i < |line| ==> line[i] >= 0x80
    ensures CodePuts(line, col) == InCode(line)
    decreases |line|
  {
    if line != [] {
      FacePuts(line[1..], NextCol(line[0], col));
      assert InCode(line) == [Put(line[0], CODE_STYLE)] + InCode(line[1..]);
    }
  }

  lemma PutOne(cfg: Config, s: State, p: Put)
    ensures PutAll(cfg, s, [p]) == PutByte(cfg, s.(cur := p.style), p.ch)
  {
    var one := [p];
    assert one[..0] == [];
  }

  lemma GlyphStarts(cfg: Config, s: State, c: byte)
    requires s.started
    ensures PutGlyph(cfg, s, c).started
  {
    hide StyleBytes;
  }

  /** A character: its first byte is a glyph, the others only lengthen the row. */
  lemma PutFace(cfg: Config, s: State)
    requires s.started
    ensures var g := PutGlyph(cfg, s.(cur := CODE_STYLE), 0xF0);
            PutAll(cfg, s, InCode(FACE)) == g.(rb := g.rb + [0x9F, 0x98, 0x80], cur := CODE_STYLE)
  {
    hide PutGlyph, PutAll;
    var p := (c: byte) => Put(c, CODE_STYLE);
    assert InCode(FACE) == [p(0xF0)] + [p(0x9F)] + [p(0x98)] + [p(0x80)];
    PutAllCat(cfg, s, [p(0xF0)] + [p(0x9F)] + [p(0x98)], [p(0x80)]);
    PutAllCat(cfg, s, [p(0xF0)] + [p(0x9F)], [p(0x98)]);
    PutAllCat(cfg, s, [p(0xF0)], [p(0x9F)]);
    PutOne(cfg, s, p(0xF0));
    var g := PutGlyph(cfg, s.(cur := CODE_STYLE), 0xF0);
    GlyphStarts(cfg, s.(cur := CODE_STYLE), 0xF0);
    PutOne(cfg, g, p(0x9F));
    var h := g.(rb := g.rb + [0x9F], cur := CODE_STYLE);
    PutOne(cfg, h, p(0x98));
    var k := g.(rb := g.rb + [0x9F] + [0x98], cur := CODE_STYLE);
    PutOne(cfg, k, p(0x80));
    assert g.rb + [0x9F] + [0x98] + [0x80] == g.rb + [0x9F, 0x98, 0x80];
  }

  /** The bytes the style of code takes in a row. */
  lemma StyleLength(cfg: Config)
    requires cfg.base == []
    ensures |StyleBytes(cfg, CODE_STYLE)| == if cfg.plain then 0 else 7
  {
  }

  /** The row after n characters, while they fit. */
  lemma {:induction false} FaceRow(width: nat, plain: bool, n: nat)
    requires n + 2 <= width && n <= if plain then 224 else 223
    ensures var cfg := CodeConfig(width, plain);
            var t := PutAll(cfg, Start(cfg, IDLE, true), InCode(Faces(n)));
            && t.started && !t.needBlank && t.rows == [] && t.col == 2 + n
            && |t.rb| == 2 + 4 * n + (if n > 0 && !plain then 7 else 0)
            && t.rstyle == if n > 0 then Some(CODE_STYLE) else None
  {
    var cfg := CodeConfig(width, plain);
    var o := Start(cfg, IDLE, true);
    if n > 0 {
      FaceRow(width, plain, n - 1);
      hide Faces, PutAll, StyleBytes;
      var t := PutAll(cfg, o, InCode(Faces(n - 1)));
      FacesStep(n);
      PutAllCat(cfg, o, InCode(Faces(n - 1)), InCode(FACE));
      PutFace(cfg, t);
      StyleLength(cfg);
      CodeShows();
    }
  }

  lemma FacesStep(n: nat)
    requires n > 0
    ensures InCode(Faces(n)) == InCode(Faces(n - 1)) + InCode(FACE)
  {
  }

  lemma CodeShows()
    ensures !CODE_STYLE.Plain()
  {
  }

  /** 224 characters of four bytes in a code line, on a screen of at least 226 columns:
      one row in plain, two in colour. */
  lemma LongRowExample(width: nat)
    requires width >= 226
    ensures |Rows(FaceFile(224), width, true)| == 1
    ensures |Rows(FaceFile(224), width, false)| == 2
  {
    FaceRows(width, true);
    FaceRows(width, false);
  }

  lemma FaceRows(width: nat, plain: bool)
    requires width >= 226
    ensures |Rows(FaceFile(224), width, plain)| == if plain then 1 else 2
  {
    hide Faces, PutAll, StyleBytes, Blocks, Prefix.Bytes, Prefix.Cols;
    var cfg, data := CodeConfig(width, plain), Faces(224);
    FaceBlocks(224);
    FacePuts(data, 0);
    var b := Code(data);
    var blocks := [b];
    assert blocks[..0] == [];
    assert Document(width, plain, IDLE, []) == IDLE;
    assert Document(width, plain, IDLE, blocks) == Rendered(width, plain, IDLE, b);
    var o := Start(cfg, IDLE, true);
    var t := PutAll(cfg, o, InCode(data));
    if plain {
      FaceRow(width, plain, 224);
    } else {
      FaceRow(width, plain, 223);
      var r := PutAll(cfg, o, InCode(Faces(223)));
      FacesStep(224);
      PutAllCat(cfg, o, InCode(Faces(223)), InCode(FACE));
      PutFace(cfg, r);
      assert Room(cfg, r.(cur := CODE_STYLE)) == NewRow(cfg, r.(cur := CODE_STYLE));
      MdContent.ApplyOnly(cfg, Room(cfg, r.(cur := CODE_STYLE)));
    }
  }
}
