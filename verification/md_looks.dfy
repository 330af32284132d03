/** What the parts of a document look like on the terminal: prefixes, rows without text,
    styles, and code with its tabs. */
module MdLooks {
  import opened Bytes
  import opened MdTerminal
  import opened MdWrap
  import MdContent
  import opened MdDoc
  import opened MdSource
  import opened MdStack

  function InStyle(text: seq<byte>, style: seq<byte>): seq<Cell> {
    seq(|text|, i requires 0 <= i < |text| => Cell(text[i], style))
  }

  /** Coloured text is shown in its colour, and the terminal is reset behind it. */
  lemma ColouredLooks(plain: bool, params: seq<byte>, text: seq<byte>)
    requires SgrParams(params) && params != [48] && forall c :: c in text ==> 32 <= c < 127
    ensures Cells(FRESH, Coloured(plain, params, text)) == InStyle(text, if plain then [] else params)
    ensures After(FRESH, Coloured(plain, params, text)) == FRESH
  {
    hide After, Cells, Sgr;
    ShowPlain(FRESH, text);
    if !plain {
      var p := Pen(Ground, params);
      ShowPlain(p, text);
      ShowSgr(FRESH, params);
      ShowSgr(p, RESET_PARAMS);
      ShowCat(FRESH, Sgr(params), text);
      ShowCat(FRESH, Sgr(params) + text, Sgr(RESET_PARAMS));
      assert [] + Cells(p, text) + [] == Cells(p, text);
    }
  }

  /** A list item is led by its margin, its marker in cyan and a space; a quote by a green
      bar and a space; everything else by its margin. */
  lemma LeadLooks(p: Prefix, plain: bool)
    requires p.Sound()
    ensures Cells(FRESH, p.Bytes(plain)) ==
              match p {
                case Margin(n) => InStyle(Blanks(n), [])
                case Item(n, marker) => InStyle(Blanks(n), []) + InStyle(marker, if plain then [] else [51, 54]) + InStyle([SPACE], [])
                case Bar => InStyle([124], if plain then [] else [51, 50]) + InStyle([SPACE], [])
              }
  {
    hide After, Cells, Coloured;
    ShowPlain(FRESH, [SPACE]);
    match p
    case Margin(n) => ShowPlain(FRESH, Blanks(n));
    case Item(n, marker) =>
      ShowPlain(FRESH, Blanks(n));
      ColouredLooks(plain, [51, 54], marker);
      ShowCat(FRESH, Blanks(n), Coloured(plain, [51, 54], marker));
      ShowCat(FRESH, Blanks(n) + Coloured(plain, [51, 54], marker), [SPACE]);
    case Bar =>
      ColouredLooks(plain, [51, 50], [124]);
      ShowCat(FRESH, Coloured(plain, [51, 50], [124]), [SPACE]);
  }

  lemma OwnRow(width: nat, plain: bool)
    ensures Own(width, plain, Rule) == [Coloured(plain, [51, 54], Dashes(width))]
    ensures Own(width, plain, EmptyQuote) == [Coloured(plain, [51, 50], [124])]
  {
    hide Coloured;
  }

  /** A thematic break is one row of dashes across the screen, in cyan; an empty quote one
      green bar. */
  lemma AloneLooks(width: nat, plain: bool)
    ensures var rows := Own(width, plain, Rule);
            |rows| == 1 && Cells(FRESH, rows[0]) == seq(width, i => Cell(45, if plain then [] else [51, 54]))
    ensures var rows := Own(width, plain, EmptyQuote);
            |rows| == 1 && Cells(FRESH, rows[0]) == [Cell(124, if plain then [] else [51, 50])]
  {
    hide Own, Coloured, Cells, After;
    OwnRow(width, plain);
    ColouredLooks(plain, [51, 54], Dashes(width));
    ColouredLooks(plain, [51, 50], [124]);
    assert InStyle([124], if plain then [] else [51, 50]) == [Cell(124, if plain then [] else [51, 50])];
  }

  /** The SGR codes of the styles: 1 bold, 3 italic, 4 underlined for links, 33 yellow for
      code, 32 green for URLs, behind the block's own. */
  lemma StyleCodes(base: seq<byte>)
    ensures StyleParams(base, NO_STYLE) == [48] + base
    ensures StyleParams(base, NO_STYLE.(bold := true)) == [48] + base + [59, 49]
    ensures StyleParams(base, NO_STYLE.(italic := true)) == [48] + base + [59, 51]
    ensures StyleParams(base, NO_STYLE.(link := true)) == [48] + base + [59, 52]
    ensures StyleParams(base, NO_STYLE.(code := true)) == [48] + base + [59, 51, 51]
    ensures StyleParams(base, NO_STYLE.(url := true)) == [48] + base + [59, 51, 50]
    ensures StyleParams(base, NO_STYLE.(bold := true, italic := true)) == [48] + base + [59, 49, 59, 51]
  {
  }

  /** Headings: 1 bold and underlined in cyan, 2 bold in cyan, 3 bold in magenta, the others
      bold. */
  lemma HeadingCodes(level: nat)
    ensures HeadingParams(1) == [59, 49, 59, 52, 59, 51, 54] && HeadingParams(2) == [59, 49, 59, 51, 54]
    ensures HeadingParams(3) == [59, 49, 59, 51, 53] && (level > 3 ==> HeadingParams(level) == [59, 49])
  {
  }

  /** What a byte of text is shown as: a tab as a space, a control not at all. */
  lemma ByteLooks(cfg: Config, puts: seq<Put>, p: Put)
    ensures MdContent.Text(cfg, puts + [p]) ==
              MdContent.Text(cfg, puts)
              + if p.ch == 9 then [Cell(32, cfg.Look(p.style))]
                else if p.ch < 32 || p.ch == 127 then [] else [Cell(p.ch, cfg.Look(p.style))]
  {
    assert (puts + [p])[..|puts|] == puts;
  }

  // ----- code -----

  /** The columns some bytes of code take. */
  function Columns(puts: seq<Put>): nat {
    if puts == [] then 0 else Columns(puts[..|puts| - 1]) + if Continues(puts[|puts| - 1].ch) then 0 else 1
  }

  function EndCol(u: seq<byte>, col: nat): nat {
    if u == [] then col else EndCol(u[1..], NextCol(u[0], col))
  }

  lemma {:induction false} CodePutsCat(u: seq<byte>, v: seq<byte>, col: nat)
    ensures CodePuts(u + v, col) == CodePuts(u, col) + CodePuts(v, EndCol(u, col))
    decreases |u|
  {
    hide CodeByte, NextCol;
    if u == [] {
      assert u + v == v;
    } else {
      assert (u + v)[1..] == u[1..] + v;
      CodePutsCat(u[1..], v, NextCol(u[0], col));
    }
  }

  lemma {:induction false} ColumnsCat(a: seq<Put>, b: seq<Put>)
    ensures Columns(a + b) == Columns(a) + Columns(b)
  {
    if b == [] {
      assert a + b == a;
    } else {
      assert (a + b)[..|a + b| - 1] == a + b[..|b| - 1];
      ColumnsCat(a, b[..|b| - 1]);
    }
  }

  lemma {:induction false} ColumnsOfSpaces(n: nat)
    ensures Columns(seq(n, i => Put(SPACE, CODE_STYLE))) == n
  {
    if n > 0 {
      assert seq(n, i => Put(SPACE, CODE_STYLE))[..n - 1] == seq(n - 1, i => Put(SPACE, CODE_STYLE));
      ColumnsOfSpaces(n - 1);
    }
  }

  lemma ColumnsOfByte(c: byte, col: nat)
    ensures NextCol(c, col) == col + Columns(CodeByte(c, col))
  {
    if c == TAB {
      ColumnsOfSpaces(8 - col % 8);
    } else if c >= 32 && c != 127 {
      assert [Put(c, CODE_STYLE)][..0] == [];
    }
  }

  lemma {:induction false} ColumnsAre(u: seq<byte>, col: nat)
    ensures EndCol(u, col) == col + Columns(CodePuts(u, col))
    decreases |u|
  {
    hide CodeByte, NextCol;
    if u != [] {
      ColumnsOfByte(u[0], col);
      ColumnsAre(u[1..], NextCol(u[0], col));
      ColumnsCat(CodeByte(u[0], col), CodePuts(u[1..], NextCol(u[0], col)));
    }
  }

  /** A tab in code becomes the one to eight spaces that lead to the next column that is
      a multiple of eight; any other byte stays, and controls are dropped. */
  lemma TabStops(u: seq<byte>, c: byte)
    ensures c == TAB ==>
              var k := 8 - Columns(CodePuts(u, 0)) % 8;
              1 <= k <= 8 && CodePuts(u + [TAB], 0) == CodePuts(u, 0) + seq(k, i => Put(SPACE, CODE_STYLE))
    ensures c != TAB ==> CodePuts(u + [c], 0) == CodePuts(u, 0) + if c < 32 || c == 127 then [] else [Put(c, CODE_STYLE)]
  {
    CodePutsCat(u, [c], 0);
    ColumnsAre(u, 0);
    LastByte(c, EndCol(u, 0));
  }

  lemma LastByte(c: byte, col: nat)
    ensures CodePuts([c], col) == CodeByte(c, col)
  {
    assert [c][1..] == [];
    assert CodeByte(c, col) + [] == CodeByte(c, col);
  }
}
