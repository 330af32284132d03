/** Documents: blocks rendered one after another onto one output. */
module MdDoc {
  import opened Bytes
  import opened MdTerminal
  import opened MdWrap
  import opened MdContent
  import opened MdColour
  import opened MdUtf8
  import opened MdBuilder
  import opened MdInline
  import opened MdRender

  /** What a document's lines have been gathered into. */
  datatype Block =
    | Text(first: Prefix, cont: Prefix, base: seq<byte>, text: seq<byte>)
    | Code(line: seq<byte>)
    | Rule
    | EmptyQuote
    | Gap
  {
    predicate Sound() {
      Text? ==>
        && first.Sound() && cont.Sound() && cont.Cols() <= first.Cols()
        && SgrParams(base) && Terminated(text)
    }
  }

  const CODE_STYLE := NO_STYLE.(code := true)

  function TextConfig(width: nat, plain: bool, b: Block): Config
    requires b.Text?
  {
    Config(width, plain, true, b.first, b.cont, b.base)
  }

  function CodeConfig(width: nat, plain: bool): Config {
    Config(width, plain, false, Margin(2), Margin(2), [])
  }

  /** A byte of a code line: a tab runs to the next multiple of eight, controls
      are dropped. */
  function CodeByte(c: byte, col: nat): seq<Put> {
    if c == TAB then seq(8 - col % 8, i => Put(SPACE, CODE_STYLE))
    else if c < 32 || c == 127 then []
    else [Put(c, CODE_STYLE)]
  }

  function NextCol(c: byte, col: nat): nat {
    if c == TAB then col + 8 - col % 8
    else if c < 32 || c == 127 || Continues(c) then col
    else col + 1
  }

  function CodePuts(line: seq<byte>, col: nat): seq<Put> {
    if line == [] then [] else CodeByte(line[0], col) + CodePuts(line[1..], NextCol(line[0], col))
  }

  /** A row of its own, after the blank row that may be due. */
  function Alone(s: State, row: seq<byte>): State {
    EmitRow((if s.needBlank && s.anyOut then EmitRow(s, []) else s).(needBlank := false), row)
  }

  function Dashes(n: nat): seq<byte> {
    seq(n, i => 45)
  }

  function Rendered(width: nat, plain: bool, s: State, b: Block): State
    requires b.Sound()
  {
    match b
    case Text(_, _, _, text) => MdContent.Block(TextConfig(width, plain, b), s, Render(text))
    case Code(line) => MdContent.Block(CodeConfig(width, plain), s, CodePuts(line, 0))
    case Rule => Alone(s, Coloured(plain, [51, 54], Dashes(width)))
    case EmptyQuote => Alone(s, Coloured(plain, [51, 50], [124]))
    case Gap => s.(needBlank := s.needBlank || s.anyOut)
  }

  function Document(width: nat, plain: bool, s: State, blocks: seq<Block>): State
    requires forall b :: b in blocks ==> b.Sound()
  {
    if blocks == [] then s
    else Rendered(width, plain, Document(width, plain, s, blocks[..|blocks| - 1]), blocks[|blocks| - 1])
  }

  const IDLE := State([], false, false, [], 0, 0, None, None, NO_STYLE, false)

  // ----- every row fits -----

  /** A row that fits the screen and leaves the terminal reset. */
  ghost predicate Fits(width: nat, row: seq<byte>) {
    After(FRESH, row) == FRESH && Width(Cells(FRESH, row)) <= width
  }

  ghost predicate AllFit(width: nat, rows: seq<seq<byte>>) {
    forall k :: 0 <= k < |rows| ==> Fits(width, rows[k])
  }

  lemma AllFitCat(width: nat, a: seq<seq<byte>>, b: seq<seq<byte>>)
    requires AllFit(width, a) && AllFit(width, b)
    ensures AllFit(width, a + b)
  {
  }

  lemma BlankFits(width: nat)
    ensures Fits(width, [])
  {
  }

  /** The rows of a wrapped block fit, whatever is put. */
  lemma {:induction false} WrappedFits(cfg: Config, from: nat, s: State, puts: seq<Put>)
    requires Inv(cfg, from, s) && s.started
    ensures Inv(cfg, from, PutAll(cfg, s, puts)) && PutAll(cfg, s, puts).started
  {
    hide Inv, PutByte, Content;
    if puts != [] {
      var m := |puts| - 1;
      WrappedFits(cfg, from, s, puts[..m]);
      SetStyle(cfg, from, PutAll(cfg, s, puts[..m]), puts[m].style);
      PutByteOk(cfg, from, PutAll(cfg, s, puts[..m]).(cur := puts[m].style), puts[m].ch);
    }
  }

  lemma {:induction false} EarlierRowsStay(cfg: Config, s: State, puts: seq<Put>)
    ensures s.rows <= PutAll(cfg, s, puts).rows
  {
    if puts != [] {
      EarlierRowsStay(cfg, s, puts[..|puts| - 1]);
      PutKeepsRows(cfg, PutAll(cfg, s, puts[..|puts| - 1]).(cur := puts[|puts| - 1].style), puts[|puts| - 1].ch);
    }
  }

  lemma PutKeepsRows(cfg: Config, s: State, c: byte)
    ensures s.rows <= PutByte(cfg, s, c).rows
  {
    hide Cells, Width, StyleBytes, Start, NewRow, Apply, Room;
    StartKeepsRows(cfg, s);
    var t := if s.started then s else Start(cfg, s, true);
    RoomKeepsRows(cfg, t);
    ApplyOnly(cfg, Room(cfg, t));
    ApplyOnly(cfg, t);
  }

  lemma StartKeepsRows(cfg: Config, s: State)
    ensures s.rows <= Start(cfg, s, true).rows
  {
  }

  lemma RoomKeepsRows(cfg: Config, s: State)
    ensures s.rows <= Room(cfg, s).rows && s.rows <= NewRow(cfg, s).rows
  {
    hide Cells, Width, StyleBytes;
  }

  lemma BlockFits(cfg: Config, s: State, puts: seq<Put>)
    requires cfg.Sound() && AllFit(cfg.width, s.rows)
    ensures AllFit(cfg.width, MdContent.Block(cfg, s, puts).rows)
  {
    hide Inv, Content, After, Cells, Width, RowsShown;
    var o := Start(cfg, s, true);
    OpenOk(cfg, s);
    WrappedFits(cfg, |o.rows|, o, puts);
    var p := PutAll(cfg, o, puts);
    FinishOk(cfg, |o.rows|, p);
    EarlierRowsStay(cfg, o, puts);
    BlankFits(cfg.width);
    var rows := MdContent.Block(cfg, s, puts).rows;
    assert o.rows == s.rows || o.rows == s.rows + [[]];
    AllFitCat(cfg.width, s.rows, [[]]);
    assert AllFit(cfg.width, o.rows);
    forall k | 0 <= k < |rows| ensures Fits(cfg.width, rows[k]) {
      if k < |o.rows| {
        assert rows[k] == o.rows[k];
      } else {
        assert Emitted(cfg, k - |o.rows|, rows[|o.rows|..][k - |o.rows|]);
      }
    }
  }

  lemma AloneFits(width: nat, s: State, row: seq<byte>)
    requires AllFit(width, s.rows) && Fits(width, row)
    ensures AllFit(width, Alone(s, row).rows)
  {
    hide Fits;
    BlankFits(width);
  }

  /** For every document and every width of at least 20, no row is wider than the
      screen and every row leaves the terminal reset. */
  lemma {:induction false} DocumentFits(width: nat, plain: bool, s: State, blocks: seq<Block>)
    requires width >= 20 && AllFit(width, s.rows)
    requires forall b :: b in blocks ==> b.Sound()
    ensures AllFit(width, Document(width, plain, s, blocks).rows)
  {
    hide Fits, Render, CodePuts, MdContent.Block;
    if blocks != [] {
      var m := |blocks| - 1;
      assert forall b :: b in blocks[..m] ==> b in blocks;
      assert blocks[m] in blocks;
      DocumentFits(width, plain, s, blocks[..m]);
      var d, b := Document(width, plain, s, blocks[..m]), blocks[m];
      match b
      case Text(_, _, _, text) => BlockFits(TextConfig(width, plain, b), d, Render(text));
      case Code(line) => BlockFits(CodeConfig(width, plain), d, CodePuts(line, 0));
      case Rule => RuleFits(width, plain); AloneFits(width, d, Coloured(plain, [51, 54], Dashes(width)));
      case EmptyQuote => ShowColoured(plain, [51, 50], [124]); BarFits(width, plain); AloneFits(width, d, Coloured(plain, [51, 50], [124]));
      case Gap =>
    }
  }

  lemma RuleFits(width: nat, plain: bool)
    ensures Fits(width, Coloured(plain, [51, 54], Dashes(width)))
  {
    ShowColoured(plain, [51, 54], Dashes(width));
  }

  lemma BarFits(width: nat, plain: bool)
    requires width >= 1
    ensures Fits(width, Coloured(plain, [51, 50], [124]))
  {
    ShowColoured(plain, [51, 50], [124]);
  }

  // ----- colour does not change layout -----

  ghost predicate BlockUncut(width: nat, s: State, b: Block)
    requires b.Sound()
  {
    match b
    case Text(_, _, _, text) =>
      NoCutoff(TextConfig(width, false, b), Start(TextConfig(width, false, b), s, true), Render(text))
    case Code(line) => NoCutoff(CodeConfig(width, false), Start(CodeConfig(width, false), s, true), CodePuts(line, 0))
    case _ => true
  }

  /** No row of the coloured document reaches the length cutoff. */
  ghost predicate Uncut(width: nat, s: State, blocks: seq<Block>)
    requires forall b :: b in blocks ==> b.Sound()
  {
    blocks == []
    || (Uncut(width, s, blocks[..|blocks| - 1])
        && BlockUncut(width, Document(width, false, s, blocks[..|blocks| - 1]), blocks[|blocks| - 1]))
  }

  lemma BlockSim(width: nat, c: State, p: State, b: Block)
    requires width >= 20 && b.Sound() && Sim(c, p) && BlockUncut(width, c, b)
    ensures Sim(Rendered(width, false, c, b), Rendered(width, true, p, b))
  {
    hide Closes, PutAll, Render, CodePuts, NoCutoff;
    match b
    case Text(_, _, _, text) => ColourKeepsLayout(TextConfig(width, false, b), c, p, Render(text));
    case Code(line) => ColourKeepsLayout(CodeConfig(width, false), c, p, CodePuts(line, 0));
    case Rule => AloneSim(c, p, [51, 54], Dashes(width));
    case EmptyQuote => AloneSim(c, p, [51, 50], [124]);
    case Gap =>
  }

  lemma AloneSim(c: State, p: State, params: seq<byte>, text: seq<byte>)
    requires Sim(c, p) && SgrParams(params) && 27 !in text
    ensures Sim(Alone(c, Coloured(false, params, text)), Alone(p, Coloured(true, params, text)))
  {
    ColouredCloses(params, text);
    ClosesText([]);
    hide Closes;
  }

  /** Stripping a coloured document gives the plain one, row by row. */
  lemma {:induction false} DocumentColour(width: nat, blocks: seq<Block>)
    requires width >= 20 && forall b :: b in blocks ==> b.Sound()
    requires Uncut(width, IDLE, blocks)
    ensures Sim(Document(width, false, IDLE, blocks), Document(width, true, IDLE, blocks))
  {
    hide Rendered, BlockUncut, Closes;
    if blocks != [] {
      var m := |blocks| - 1;
      assert forall b :: b in blocks[..m] ==> b in blocks;
      assert blocks[m] in blocks;
      DocumentColour(width, blocks[..m]);
      BlockSim(width, Document(width, false, IDLE, blocks[..m]), Document(width, true, IDLE, blocks[..m]), blocks[m]);
    }
  }

  lemma ColouredDocumentStrips(width: nat, blocks: seq<Block>)
    requires width >= 20 && forall b :: b in blocks ==> b.Sound()
    requires Uncut(width, IDLE, blocks)
    ensures var c, p := Document(width, false, IDLE, blocks).rows, Document(width, true, IDLE, blocks).rows;
            |c| == |p| && forall k :: 0 <= k < |c| ==> Strip(c[k]) == p[k]
  {
    DocumentColour(width, blocks);
  }

  // ----- content -----

  /** A wrapped block, whatever its text, shows each non-space byte once and in order;
      in its style too, exactly when the continuation bytes find theirs in effect, as in
      plain and in well-formed text, where no row starts inside a character either. */
  lemma TextBlockKept(width: nat, plain: bool, s: State, b: Block)
    requires width >= 20 && b.Text? && b.Sound()
    ensures var cfg, puts := TextConfig(width, plain, b), Render(b.text);
            var o, t := Start(cfg, s, true), Rendered(width, plain, s, b);
            && |o.rows| <= |t.rows|
            && Shows(Ink(RowsShown(cfg, t.rows[|o.rows|..])), Ink(MdContent.Text(cfg, puts)), Styled(cfg, o, puts))
            && (plain || Utf8(b.text) ==> Styled(cfg, o, puts))
            && (Utf8(b.text) ==> HeadsOk(cfg, t.rows[|o.rows|..]))
  {
    hide Render, PutAll, RowsShown, MdContent.Block, HeadsOk, Shows, Styled, Start, Utf8, Attached, OneStyle;
    var cfg, puts := TextConfig(width, plain, b), Render(b.text);
    BlockKeepsText(cfg, s, puts);
    if Utf8(b.text) {
      RenderKeepsCharacters(b.text);
      GroupedIsAttached(cfg, puts);
      BlockHeads(cfg, s, puts);
    }
  }

  /** The first byte of a code line that is shown does not continue a character. */
  predicate StartsWhole(line: seq<byte>) {
    line == [] || if Filtered(line[0]).None? then StartsWhole(line[1..]) else !Continues(line[0])
  }

  lemma {:induction false} Utf8StartsWhole(line: seq<byte>)
    requires Utf8(line)
    ensures StartsWhole(line)
  {
    if line != [] && Filtered(line[0]).None? {
      SliceUtf8(line, 1, |line|);
      Utf8StartsWhole(line[1..]);
    }
  }

  /** All bytes of a code line are shown, in the one style of code. */
  lemma {:induction false} CodePutsCount(cfg: Config, line: seq<byte>, col: nat)
    requires !cfg.words
    ensures var puts := CodePuts(line, col);
            && (forall i :: 0 <= i < |puts| ==> Counts(cfg, puts[i].ch) && puts[i].style == CODE_STYLE)
            && (StartsWhole(line) <==> puts == [] || !Continues(puts[0].ch))
    decreases |line|
  {
    if line != [] {
      CodePutsCount(cfg, line[1..], NextCol(line[0], col));
    }
  }

  lemma CodeLooks(width: nat)
    ensures CodeConfig(width, false).Look(CODE_STYLE) != [] == CodeConfig(width, false).Effect(None)
  {
  }

  /** A code line, whatever its bytes, loses none of them: its rows put end to end are its
      whole text. In colour they have its style too exactly when the line does not start
      inside a character, and exactly then no row does. */
  lemma CodeLineKept(width: nat, plain: bool, s: State, line: seq<byte>)
    requires width >= 20
    ensures var cfg := CodeConfig(width, plain);
            var from, t := |Start(cfg, s, true).rows|, Rendered(width, plain, s, Code(line));
            && from <= |t.rows|
            && Shows(RowsShown(cfg, t.rows[from..]), MdContent.Text(cfg, CodePuts(line, 0)), plain || StartsWhole(line))
            && (HeadsOk(cfg, t.rows[from..]) <==> StartsWhole(line))
            && (Utf8(line) ==> StartsWhole(line))
  {
    hide MdContent.Block, RowsShown, CodePuts, HeadsOk, Start, StartsWhole, PutAll, Utf8, Config.Look;
    var cfg, puts := CodeConfig(width, plain), CodePuts(line, 0);
    var o, t := Start(cfg, s, true), Rendered(width, plain, s, Code(line));
    CodePutsCount(cfg, line, 0);
    BlockKeepsText(cfg, s, puts);
    if StartsWhole(line) {
      assert Attached(cfg, puts) && OneStyle(puts);
      BlockHeads(cfg, s, puts);
    } else {
      StrayStart(cfg, s, puts);
      if HeadsOk(cfg, t.rows[|o.rows|..]) {
        FirstShown(cfg, t.rows[|o.rows|..]);
        TextStarts(cfg, puts);
      }
    }
    if Utf8(line) {
      Utf8StartsWhole(line);
    }
  }

  /** A stray first byte is shown before any style is set. */
  lemma StrayStart(cfg: Config, s: State, puts: seq<Put>)
    requires puts != [] && Continues(puts[0].ch) && puts[0].style == CODE_STYLE && cfg == CodeConfig(cfg.width, cfg.plain)
    ensures Styled(cfg, Start(cfg, s, true), puts) ==> cfg.plain
  {
    var o := Start(cfg, s, true);
    assert puts[..0] == [] && PutAll(cfg, o, []) == o;
    if !cfg.plain {
      CodeLooks(cfg.width);
    }
  }

  lemma {:induction false} TextStarts(cfg: Config, puts: seq<Put>)
    requires puts != [] && Filtered(puts[0].ch).Some?
    ensures MdContent.Text(cfg, puts) != [] && MdContent.Text(cfg, puts)[0].ch == Filtered(puts[0].ch).value
  {
    if |puts| > 1 {
      TextStarts(cfg, puts[..|puts| - 1]);
    } else {
      assert puts[..0] == [];
    }
  }

  /** A code line of one stray continuation byte: in colour it is shown, but not in the
      style of code, and its row starts inside a character. */
  lemma StrayByteExample(width: nat, s: State)
    requires width >= 20
    ensures var cfg := CodeConfig(width, false);
            var from, t := |Start(cfg, s, true).rows|, Rendered(width, false, s, Code([0x80]));
            && from <= |t.rows|
            && Chars(RowsShown(cfg, t.rows[from..])) == [0x80]
            && RowsShown(cfg, t.rows[from..]) != MdContent.Text(cfg, CodePuts([0x80], 0))
            && !HeadsOk(cfg, t.rows[from..])
  {
    hide RowsShown, HeadsOk, Start, Rendered;
    CodeLineKept(width, false, s, [0x80]);
    var cfg, one := CodeConfig(width, false), Put(0x80, CODE_STYLE);
    assert CodePuts([0x80][1..], 0) == [] && CodePuts([0x80], 0) == [one] && [one][..0] == [];
    assert MdContent.Text(cfg, [one]) == [] + [Cell(0x80, cfg.Look(CODE_STYLE))];
  }

  // ----- the routines that feed the builder -----

  /** The row is started by the first byte put, or at the end if there is none. */
  lemma {:induction false} StartedLate(cfg: Config, s: State, puts: seq<Put>)
    requires !s.started
    ensures if puts == [] then PutAll(cfg, s, puts) == s
            else PutAll(cfg, s, puts) == PutAll(cfg, Start(cfg, s, true), puts)
  {
    hide Prefix.Bytes, Apply, Room;
    if puts != [] {
      var head, p := puts[..|puts| - 1], puts[|puts| - 1];
      StartedLate(cfg, s, head);
      if head == [] {
        assert Start(cfg, s.(cur := p.style), true) == Start(cfg, s, true).(cur := p.style);
      }
    }
  }

  lemma FinishForgetsStyle(cfg: Config, s: State, st: Style)
    ensures Finish(cfg, s.(cur := st)) == Finish(cfg, s).(cur := st)
  {
  }

  /** Closing a builder that started late gives the block's rows. */
  lemma ClosedLate(cfg: Config, s: State, puts: seq<Put>, st: Style)
    requires !s.started
    ensures var f, b := Finish(cfg, PutAll(cfg, s, puts).(cur := st)), MdContent.Block(cfg, s, puts);
            f.rows == b.rows && f.anyOut == b.anyOut && f.needBlank == b.needBlank
  {
    StartedLate(cfg, s, puts);
    FinishForgetsStyle(cfg, PutAll(cfg, s, puts), st);
  }

  ghost function Between(o: Output): State
    reads o
  {
    State(o.rows, o.anyOut, o.needBlank, [], 0, 0, None, None, NO_STYLE, false)
  }

  /** A block's text through a fresh builder: what `flush` does. */
  method FlushText(o: Output, b: Block)
    requires b.Text? && b.Sound()
    modifies o
    ensures var s := Rendered(o.width, o.plain, old(Between(o)), b);
            o.rows == s.rows && o.anyOut == s.anyOut && o.needBlank == s.needBlank
  {
    hide PutByte, Render, Start, EndRow;
    var w := new Builder(o, true, b.first, b.cont, b.base);
    ghost var s := w.Snap();
    RenderInline(w, b.text);
    ClosedLate(w.cfg, s, Render(b.text), NO_STYLE);
    assert w.cfg == TextConfig(o.width, o.plain, b);
    w.Close();
  }

  /** A line of code, with its tabs expanded. */
  method CodeRow(o: Output, line: seq<byte>)
    modifies o
    ensures var s := Rendered(o.width, o.plain, old(Between(o)), Code(line));
            o.rows == s.rows && o.anyOut == s.anyOut && o.needBlank == s.needBlank
  {
    hide PutByte, Start, EndRow, PutAll, Finish, Coded, CodeByte, NextCol;
    var w := new Builder(o, false, Margin(2), Margin(2), []);
    ghost var s := w.Snap();
    w.cur := CODE_STYLE;
    ghost var done: seq<Put> := [];
    var col := 0;
    CodeStart(w.cfg, s);
    for i := 0 to |line|
      invariant w.Valid() && w.cur == CODE_STYLE && w.Snap() == Coded(w.cfg, s, done)
      invariant done + CodePuts(line[i..], col) == CodePuts(line, 0)
    {
      assert line[i..][0] == line[i] && line[i..][1..] == line[i + 1..];
      AddCode(w, s, done, line[i], col);
      done := done + CodeByte(line[i], col);
      col := NextCol(line[i], col);
    }
    assert line[|line|..] == [] && done + [] == done;
    CodedIs(w.cfg, s, done);
    ClosedLate(w.cfg, s, done, CODE_STYLE);
    w.Close();
  }

  lemma CodedIs(cfg: Config, s: State, puts: seq<Put>)
    ensures Coded(cfg, s, puts) == PutAll(cfg, s, puts).(cur := CODE_STYLE)
  {
  }

  method AddCode(w: Builder, ghost s: State, ghost done: seq<Put>, c: byte, col: nat)
    requires w.Valid() && w.cur == CODE_STYLE && w.Snap() == Coded(w.cfg, s, done)
    modifies w, w.o
    ensures w.Valid() && w.cur == CODE_STYLE && w.Snap() == Coded(w.cfg, s, done + CodeByte(c, col))
  {
    hide PutByte, Coded;
    if c == TAB {
      AddSpaces(w, s, done, 8 - col % 8);
    } else if c < 32 || c == 127 {
      assert done + [] == done;
    } else {
      w.Add(c);
      CodedStep(w.cfg, s, done, c);
    }
  }

  /** The builder of a code line after some puts. */
  function Coded(cfg: Config, s: State, puts: seq<Put>): State {
    PutAll(cfg, s, puts).(cur := CODE_STYLE)
  }

  lemma CodeStart(cfg: Config, s: State)
    ensures Coded(cfg, s, []) == s.(cur := CODE_STYLE)
  {
  }

  lemma CodedStep(cfg: Config, s: State, puts: seq<Put>, c: byte)
    ensures Coded(cfg, s, puts + [Put(c, CODE_STYLE)]) == PutByte(cfg, Coded(cfg, s, puts), c).(cur := CODE_STYLE)
  {
    assert (puts + [Put(c, CODE_STYLE)])[..|puts|] == puts;
  }

  method AddSpaces(w: Builder, ghost s: State, ghost done: seq<Put>, n: nat)
    requires w.Valid() && w.cur == CODE_STYLE && w.Snap() == Coded(w.cfg, s, done)
    modifies w, w.o
    ensures w.Valid() && w.cur == CODE_STYLE && w.Snap() == Coded(w.cfg, s, done + seq(n, i => Put(SPACE, CODE_STYLE)))
  {
    hide PutByte, PutAll;
    assert done + seq(0, i => Put(SPACE, CODE_STYLE)) == done;
    for i := 0 to n
      invariant w.Valid() && w.cur == CODE_STYLE && w.Snap() == Coded(w.cfg, s, done + seq(i, j => Put(SPACE, CODE_STYLE)))
    {
      w.Add(SPACE);
      CodedStep(w.cfg, s, done + seq(i, j => Put(SPACE, CODE_STYLE)), SPACE);
      assert done + seq(i, j => Put(SPACE, CODE_STYLE)) + [Put(SPACE, CODE_STYLE)] == done + seq(i + 1, j => Put(SPACE, CODE_STYLE));
    }
  }
}
