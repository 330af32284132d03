/** What the row builder keeps: every byte put is shown once, in order, in the
    style it was put with, and no row is wider than the screen. */
module MdContent {
  import opened Bytes
  import opened MdTerminal
  import opened MdWrap

  /** A row stripped of its prefix. */
  function Body(cfg: Config, k: nat, row: seq<byte>): seq<byte> {
    if |cfg.LeadBytes(k)| <= |row| then row[|cfg.LeadBytes(k)|..] else []
  }

  /** What the bodies of a block's rows show, row after row. */
  function RowsShown(cfg: Config, rows: seq<seq<byte>>): seq<Cell> {
    if rows == [] then []
    else RowsShown(cfg, rows[..|rows| - 1]) + Cells(FRESH, Body(cfg, |rows| - 1, rows[|rows| - 1]))
  }

  /** Everything a block shows: rows emitted since `from`, and the open one. */
  function Content(cfg: Config, from: nat, s: State): seq<Cell>
    requires from <= |s.rows|
  {
    RowsShown(cfg, s.rows[from..]) + if s.started then Cells(FRESH, Body(cfg, |s.rows| - from, s.rb)) else []
  }

  /** The cells that are not spaces. */
  function Ink(cells: seq<Cell>): seq<Cell> {
    if cells == [] then []
    else Ink(cells[..|cells| - 1]) + if cells[|cells| - 1].ch == SPACE then [] else [cells[|cells| - 1]]
  }

  lemma {:induction false} InkCat(a: seq<Cell>, b: seq<Cell>)
    ensures Ink(a + b) == Ink(a) + Ink(b)
  {
    if b == [] {
      assert a + b == a;
    } else {
      assert (a + b)[..|a + b| - 1] == a + b[..|b| - 1];
      InkCat(a, b[..|b| - 1]);
    }
  }

  /** The cells that count as content: all of them in code, ink in words. */
  function Counted(cfg: Config, cells: seq<Cell>): seq<Cell> {
    if cfg.words then Ink(cells) else cells
  }

  lemma CountedCat(cfg: Config, a: seq<Cell>, b: seq<Cell>)
    ensures Counted(cfg, a + b) == Counted(cfg, a) + Counted(cfg, b)
  {
    InkCat(a, b);
  }

  /** The open row: prefix, then a body that leaves the terminal in the style the
      builder thinks is in effect, its columns counted. */
  ghost predicate RowOk(cfg: Config, k: nat, s: State) {
    && s.started
    && cfg.LeadBytes(k) <= s.rb
    && After(FRESH, Body(cfg, k, s.rb)) == Pen(Ground, cfg.Effect(s.rstyle))
    && s.pcol == cfg.Lead(k).Cols()
    && s.col == s.pcol + Width(Cells(FRESH, Body(cfg, k, s.rb)))
    && s.col <= cfg.width
  }

  /** The break, if any, is a space of the body with something before it. */
  ghost predicate BreakOk(cfg: Config, k: nat, s: State) {
    s.brk.Some? ==>
      && cfg.words
      && |cfg.LeadBytes(k)| <= s.brk.value.idx < |s.rb|
      && s.rb[s.brk.value.idx] == SPACE
      && var pre := s.rb[|cfg.LeadBytes(k)|..s.brk.value.idx];
         After(FRESH, pre) == Pen(Ground, cfg.Effect(s.brk.value.style)) && Width(Cells(FRESH, pre)) >= 1
  }

  /** An emitted row fits the screen and hands the terminal back reset. */
  ghost predicate Emitted(cfg: Config, k: nat, row: seq<byte>) {
    && cfg.LeadBytes(k) <= row
    && After(FRESH, row) == FRESH
    && Width(Cells(FRESH, row)) <= cfg.width
  }

  ghost predicate AllEmitted(cfg: Config, rows: seq<seq<byte>>) {
    forall k :: 0 <= k < |rows| ==> Emitted(cfg, k, rows[k])
  }

  ghost predicate Inv(cfg: Config, from: nat, s: State) {
    && cfg.Sound() && from <= |s.rows|
    && AllEmitted(cfg, s.rows[from..])
    && (s.started ==> !s.needBlank && RowOk(cfg, |s.rows| - from, s) && BreakOk(cfg, |s.rows| - from, s))
  }

  /** The open row as a whole: its prefix shows nothing of the body. */
  lemma RowShows(cfg: Config, k: nat, row: seq<byte>)
    requires cfg.Sound() && cfg.LeadBytes(k) <= row
    ensures After(FRESH, row) == After(FRESH, Body(cfg, k, row))
    ensures Width(Cells(FRESH, row)) == cfg.Lead(k).Cols() + Width(Cells(FRESH, Body(cfg, k, row)))
  {
    var p := cfg.LeadBytes(k);
    assert row == p + Body(cfg, k, row);
    ShowLead(cfg, k);
    ShowCat(FRESH, p, Body(cfg, k, row));
    WidthCat(Cells(FRESH, p), Cells(FRESH, Body(cfg, k, row)));
  }

  // ----- adding to the open row -----

  lemma BodyGrows(cfg: Config, k: nat, row: seq<byte>, more: seq<byte>)
    requires cfg.LeadBytes(k) <= row
    ensures cfg.LeadBytes(k) <= row + more
    ensures Body(cfg, k, row + more) == Body(cfg, k, row) + more
  {
  }

  lemma BreakStays(cfg: Config, k: nat, s: State, t: State)
    requires BreakOk(cfg, k, s) && s.rb <= t.rb && t.brk == s.brk
    ensures BreakOk(cfg, k, t)
  {
    hide After, Cells, Width, Config.LeadBytes;
    if s.brk.Some? {
      assert t.rb[|cfg.LeadBytes(k)|..s.brk.value.idx] == s.rb[|cfg.LeadBytes(k)|..s.brk.value.idx];
    }
  }

  /** Bytes that show nothing, added to a row. */
  lemma AddSilent(cfg: Config, k: nat, row: seq<byte>, more: seq<byte>)
    requires cfg.LeadBytes(k) <= row
    requires Cells(After(FRESH, Body(cfg, k, row)), more) == []
    ensures cfg.LeadBytes(k) <= row + more
    ensures After(FRESH, Body(cfg, k, row + more)) == After(After(FRESH, Body(cfg, k, row)), more)
    ensures Cells(FRESH, Body(cfg, k, row + more)) == Cells(FRESH, Body(cfg, k, row))
  {
    hide After, Cells, Width, Config.LeadBytes;
    BodyGrows(cfg, k, row, more);
    ShowCat(FRESH, Body(cfg, k, row), more);
  }

  lemma ApplyOk(cfg: Config, k: nat, s: State)
    requires cfg.Sound() && RowOk(cfg, k, s) && BreakOk(cfg, k, s)
    ensures RowOk(cfg, k, Apply(cfg, s)) && BreakOk(cfg, k, Apply(cfg, s))
    ensures cfg.Effect(Apply(cfg, s).rstyle) == cfg.Look(s.cur)
    ensures Cells(FRESH, Body(cfg, k, Apply(cfg, s).rb)) == Cells(FRESH, Body(cfg, k, s.rb))
    ensures s.rb <= Apply(cfg, s).rb
  {
    hide After, Cells, Width, Config.LeadBytes, Config.Look, StyleBytes, Body, BreakOk, Sgr;
    LookOfNone(cfg);
    var pen := Pen(Ground, cfg.Effect(s.rstyle));
    ShowStyle(cfg, pen, s.cur);
    AddSilent(cfg, k, s.rb, StyleBytes(cfg, s.cur));
    ShowSgr(pen, RESET_PARAMS);
    AddSilent(cfg, k, s.rb, Sgr(RESET_PARAMS));
    BreakStays(cfg, k, s, Apply(cfg, s));
  }

  lemma LookOfNone(cfg: Config)
    ensures cfg.base == [] ==> cfg.Look(NO_STYLE) == []
    ensures cfg.plain ==> forall st :: cfg.Look(st) == []
    ensures Normal(RESET_PARAMS) == []
  {
    if cfg.base == [] {
      assert StyleParams(cfg.base, NO_STYLE) == [48];
    }
  }

  lemma AppendOk(cfg: Config, k: nat, s: State, c: byte)
    requires cfg.Sound() && RowOk(cfg, k, s) && BreakOk(cfg, k, s)
    requires c >= 32 && (Continues(c) || s.col < cfg.width)
    ensures var t := s.(rb := s.rb + [c], col := if Continues(c) then s.col else s.col + 1);
            && RowOk(cfg, k, t) && BreakOk(cfg, k, t)
            && Cells(FRESH, Body(cfg, k, t.rb)) == Cells(FRESH, Body(cfg, k, s.rb)) + [Cell(c, cfg.Effect(s.rstyle))]
  {
    var t := s.(rb := s.rb + [c], col := if Continues(c) then s.col else s.col + 1);
    var cell := Cell(c, cfg.Effect(s.rstyle));
    WidthOne(cell);
    hide After, Cells, Width, Config.LeadBytes, BreakOk;
    BodyGrows(cfg, k, s.rb, [c]);
    ShowByte(FRESH, Body(cfg, k, s.rb), c);
    WidthCat(Cells(FRESH, Body(cfg, k, s.rb)), [cell]);
    BreakStays(cfg, k, s, t);
  }

  lemma WidthOne(cell: Cell)
    ensures Width([cell]) == if Continues(cell.ch) then 0 else 1
  {
    assert [cell][..0] == [];
  }

  // ----- ending a row -----

  lemma StartOk(cfg: Config, k: nat, s: State)
    requires cfg.Sound()
    ensures var t := Start(cfg, s, k == 0);
            RowOk(cfg, k, t) && BreakOk(cfg, k, t) && !t.needBlank && Body(cfg, k, t.rb) == [] && t.rb == cfg.LeadBytes(k)
  {
    assert Start(cfg, s, k == 0).rb == cfg.LeadBytes(k);
  }

  lemma RowsShownStep(cfg: Config, rows: seq<seq<byte>>, row: seq<byte>)
    ensures RowsShown(cfg, rows + [row]) == RowsShown(cfg, rows) + Cells(FRESH, Body(cfg, |rows|, row))
  {
    assert (rows + [row])[..|rows|] == rows;
  }

  /** The closing reset leaves the row's text alone and the terminal fresh. */
  lemma ResetOk(cfg: Config, k: nat, s: State)
    requires cfg.Sound() && RowOk(cfg, k, s)
    ensures var row := EndRow(cfg, s).rows[|s.rows|];
            Emitted(cfg, k, row) && Cells(FRESH, Body(cfg, k, row)) == Cells(FRESH, Body(cfg, k, s.rb))
  {
    hide After, Cells, Width, Config.LeadBytes, Body, Sgr, Config.Look;
    LookOfNone(cfg);
    ShowSgr(Pen(Ground, cfg.Effect(s.rstyle)), RESET_PARAMS);
    AddSilent(cfg, k, s.rb, Sgr(RESET_PARAMS));
    RowShows(cfg, k, EndRow(cfg, s).rows[|s.rows|]);
  }

  /** Ending a row emits it reset; what it shows is unchanged. */
  lemma EndRowOk(cfg: Config, from: nat, s: State)
    requires Inv(cfg, from, s) && s.started
    ensures var t := EndRow(cfg, s);
            && |t.rows| == |s.rows| + 1
            && AllEmitted(cfg, t.rows[from..])
            && RowsShown(cfg, t.rows[from..]) == Content(cfg, from, s)
  {
    hide After, Cells, Width, Config.LeadBytes, Body, Sgr, RowsShown, Emitted;
    var t, k := EndRow(cfg, s), |s.rows| - from;
    ResetOk(cfg, k, s);
    assert t.rows[from..] == s.rows[from..] + [t.rows[|s.rows|]];
    RowsShownStep(cfg, s.rows[from..], t.rows[|s.rows|]);
  }

  lemma NewRowOk(cfg: Config, from: nat, s: State)
    requires Inv(cfg, from, s) && s.started
    ensures var t := NewRow(cfg, s);
            && Inv(cfg, from, t) && t.started && t.brk.None? && t.cur == s.cur
            && t.col == t.pcol < cfg.width && |t.rows| > from && t.rb == cfg.LeadBytes(|t.rows| - from)
            && Content(cfg, from, t) == RowsShown(cfg, t.rows[from..]) == Content(cfg, from, s)
  {
    var e, t := EndRow(cfg, s), NewRow(cfg, s);
    EndRowOk(cfg, from, s);
    StartOk(cfg, |e.rows| - from, e);
    assert Cells(FRESH, []) == [];
    hide After, Cells, Width, Config.LeadBytes, Body, Sgr, RowsShown, Emitted;
    assert t.rows == e.rows && |t.rows| - from == |e.rows| - from > 0;
    assert Content(cfg, from, t) == Content(cfg, from, s) + [];
  }

  // ----- backing up to a space -----

  lemma {:induction false} PenWidth(p: Pen, q: Pen, b: seq<byte>)
    requires p.mode == q.mode
    ensures After(p, b).mode == After(q, b).mode
    ensures Width(Cells(p, b)) == Width(Cells(q, b))
  {
    if b != [] {
      var m := |b| - 1;
      PenWidth(p, q, b[..m]);
      WidthCat(Cells(p, b[..m]), Shown(After(p, b[..m]), b[m]));
      WidthCat(Cells(q, b[..m]), Shown(After(q, b[..m]), b[m]));
      if After(p, b[..m]).mode.Ground? && b[m] != ESC {
        WidthOne(Cell(b[m], After(p, b[..m]).style));
        WidthOne(Cell(b[m], After(q, b[..m]).style));
      }
    }
  }

  lemma ShowAround(pre: seq<byte>, rest: seq<byte>, q: Pen)
    requires After(FRESH, pre) == q && q.mode.Ground?
    ensures Cells(FRESH, pre + [SPACE] + rest) == Cells(FRESH, pre) + [Cell(SPACE, q.style)] + Cells(q, rest)
    ensures After(FRESH, pre + [SPACE] + rest) == After(q, rest)
    ensures Width(Cells(FRESH, rest)) == Width(Cells(q, rest))
    ensures Width(Cells(FRESH, pre + [SPACE] + rest)) == Width(Cells(FRESH, pre)) + 1 + Width(Cells(q, rest))
  {
    PenWidth(FRESH, q, rest);
    WidthOne(Cell(SPACE, q.style));
    hide After, Cells, Width;
    ShowByte(FRESH, pre, SPACE);
    ShowCat(FRESH, pre + [SPACE], rest);
    WidthCat(Cells(FRESH, pre), [Cell(SPACE, q.style)]);
    WidthCat(Cells(FRESH, pre) + [Cell(SPACE, q.style)], Cells(q, rest));
  }

  /** What precedes the break on the open row, and what follows it. */
  function Before(cfg: Config, k: nat, s: State): seq<byte> {
    if s.brk.Some? && |cfg.LeadBytes(k)| <= s.brk.value.idx <= |s.rb| then s.rb[|cfg.LeadBytes(k)|..s.brk.value.idx] else []
  }

  function Rest(s: State): seq<byte> {
    if s.brk.Some? && s.brk.value.idx < |s.rb| then s.rb[s.brk.value.idx + 1..] else []
  }

  function BreakPen(cfg: Config, s: State): Pen {
    Pen(Ground, if s.brk.Some? then cfg.Effect(s.brk.value.style) else [])
  }

  lemma BodySplits(cfg: Config, k: nat, s: State)
    requires RowOk(cfg, k, s) && BreakOk(cfg, k, s) && s.brk.Some?
    ensures Body(cfg, k, s.rb) == Before(cfg, k, s) + [SPACE] + Rest(s)
    ensures Body(cfg, k, s.rb[..s.brk.value.idx]) == Before(cfg, k, s)
    ensures cfg.LeadBytes(k) <= s.rb[..s.brk.value.idx]
  {
    hide After, Cells, Width, Config.LeadBytes;
    var p := cfg.LeadBytes(k);
    assert p == s.rb[..|p|];
  }

  /** The row around its break, as shown. */
  lemma BreakSplits(cfg: Config, k: nat, s: State)
    requires cfg.Sound() && RowOk(cfg, k, s) && BreakOk(cfg, k, s) && s.brk.Some?
    ensures var q := BreakPen(cfg, s);
            && Cells(FRESH, Body(cfg, k, s.rb)) == Cells(FRESH, Before(cfg, k, s)) + [Cell(SPACE, q.style)] + Cells(q, Rest(s))
            && After(FRESH, Before(cfg, k, s)) == q
            && After(q, Rest(s)) == Pen(Ground, cfg.Effect(s.rstyle))
            && Width(Cells(FRESH, Rest(s))) == Width(Cells(q, Rest(s)))
            && s.col == s.pcol + Width(Cells(FRESH, Before(cfg, k, s))) + 1 + Width(Cells(q, Rest(s)))
            && Width(Cells(FRESH, Before(cfg, k, s))) >= 1
  {
    BodySplits(cfg, k, s);
    hide After, Cells, Width, Config.LeadBytes, Config.Look, Body, Rest;
    ShowAround(Before(cfg, k, s), Rest(s), BreakPen(cfg, s));
  }

  /** The row cut at its break. */
  function Cut(s: State, b: Break, cols: nat): State
    requires b.idx < |s.rb|
  {
    s.(rb := s.rb[..b.idx], rstyle := b.style, brk := None, col := cols)
  }

  lemma CutOk(cfg: Config, from: nat, s: State)
    requires Inv(cfg, from, s) && s.started && s.brk.Some?
    ensures var u := Cut(s, s.brk.value, s.pcol + Width(Cells(FRESH, Before(cfg, |s.rows| - from, s))));
            && Inv(cfg, from, u)
            && Content(cfg, from, u) == RowsShown(cfg, s.rows[from..]) + Cells(FRESH, Before(cfg, |s.rows| - from, s))
  {
    hide After, Cells, Width, Config.LeadBytes, Config.Look, RowsShown, Emitted, Body, Before, Rest, AllEmitted;
    var k := |s.rows| - from;
    BodySplits(cfg, k, s);
    BreakSplits(cfg, k, s);
    var u := Cut(s, s.brk.value, s.pcol + Width(Cells(FRESH, Before(cfg, k, s))));
    assert RowOk(cfg, k, u);
  }

  /** A new row does not depend on the columns and break of the old one. */
  lemma NewRowForgets(cfg: Config, s: State, b: Break, cols: nat)
    requires b.idx < |s.rb|
    ensures NewRow(cfg, Cut(s, b, cols)) == NewRow(cfg, s.(rb := s.rb[..b.idx], rstyle := b.style))
  {
  }

  /** A fresh row continued with the moved text, in the style it was written in. */
  lemma ResumeOk(cfg: Config, k: nat, n: State, st: Option<Style>, rest: seq<byte>)
    requires cfg.Sound() && n.rb == cfg.LeadBytes(k)
    ensures var rb := n.rb + (if st.Some? then StyleBytes(cfg, st.value) else []) + rest;
            var q := Pen(Ground, cfg.Effect(st));
            && cfg.LeadBytes(k) <= rb
            && Cells(FRESH, Body(cfg, k, rb)) == Cells(q, rest)
            && After(FRESH, Body(cfg, k, rb)) == After(q, rest)
  {
    var style := if st.Some? then StyleBytes(cfg, st.value) else [];
    assert Cells(FRESH, []) == [] && After(FRESH, []) == FRESH;
    if st.Some? {
      ShowStyle(cfg, FRESH, st.value);
    }
    hide After, Cells, Config.LeadBytes, Config.Look, StyleBytes;
    assert n.rb + style + rest == n.rb + (style + rest);
    BodyGrows(cfg, k, n.rb, style + rest);
    assert Body(cfg, k, n.rb) == [] && [] + (style + rest) == style + rest;
    ShowCat(FRESH, style, rest);
  }

  /** Breaking at the last space keeps the ink, its order and its styles, and
      leaves room on the new row. */
  lemma BackUpOk(cfg: Config, from: nat, s: State)
    requires Inv(cfg, from, s) && s.started && s.brk.Some?
    ensures var t := BackUp(cfg, s, s.brk.value);
            && Inv(cfg, from, t) && t.started && t.cur == s.cur && t.rstyle == s.rstyle
            && t.col < cfg.width
            && Ink(Content(cfg, from, t)) == Ink(Content(cfg, from, s))
  {
    hide After, Cells, Width, Ink, Config.LeadBytes, Config.Look, RowsShown, Emitted, StyleBytes, Body, Before, AllEmitted, NewRow;
    var k, b, q := |s.rows| - from, s.brk.value, BreakPen(cfg, s);
    var cols := s.pcol + Width(Cells(FRESH, Before(cfg, k, s)));
    var n, t := NewRow(cfg, Cut(s, b, cols)), BackUp(cfg, s, b);
    BreakSplits(cfg, k, s);
    CutOk(cfg, from, s);
    NewRowForgets(cfg, s, b, cols);
    NewRowOk(cfg, from, Cut(s, b, cols));
    ResumeOk(cfg, |n.rows| - from, n, b.style, Rest(s));
    InkAround(RowsShown(cfg, s.rows[from..]), Cells(FRESH, Before(cfg, k, s)), q.style, Cells(q, Rest(s)));
    assert t.rows == n.rows && RowOk(cfg, |n.rows| - from, t);
  }

  lemma InkAround(r: seq<Cell>, pre: seq<Cell>, style: seq<byte>, rest: seq<Cell>)
    ensures Ink(r + (pre + [Cell(SPACE, style)] + rest)) == Ink(r + pre + rest)
  {
    InkSpace(style);
    hide Ink;
    assert r + (pre + [Cell(SPACE, style)] + rest) == r + pre + [Cell(SPACE, style)] + rest;
    InkCat(r + pre, [Cell(SPACE, style)]);
    InkCat(r + pre + [Cell(SPACE, style)], rest);
    InkCat(r + pre, rest);
  }

  lemma InkSpace(style: seq<byte>)
    ensures Ink([Cell(SPACE, style)]) == []
  {
    assert [Cell(SPACE, style)][..0] == [];
  }

  // ----- one put -----

  lemma PutSpaceOk(cfg: Config, from: nat, s: State)
    requires Inv(cfg, from, s) && s.started && cfg.words
    ensures var t := PutSpace(cfg, s);
            && Inv(cfg, from, t) && t.started && t.cur == s.cur
            && Ink(Content(cfg, from, t)) == Ink(Content(cfg, from, s))
  {
    hide After, Cells, Width, Ink, Config.LeadBytes, Config.Look, RowsShown, Emitted, Body, AllEmitted, NewRow, Apply;
    var k := |s.rows| - from;
    if s.col != s.pcol && s.col < cfg.width {
      var a := Apply(cfg, s);
      ApplyOk(cfg, k, s);
      ApplyOnly(cfg, s);
      AppendOk(cfg, k, a, SPACE);
      SpaceBreakOk(cfg, k, a);
      ContentCat(cfg, from, s, Append(a, SPACE), [Cell(SPACE, cfg.Effect(a.rstyle))]);
      InkSpace(cfg.Effect(a.rstyle));
      InkCat(Content(cfg, from, s), [Cell(SPACE, cfg.Effect(a.rstyle))]);
      var t := PutSpace(cfg, s);
      assert RowOk(cfg, k, t);
      assert Content(cfg, from, t) == Content(cfg, from, Append(a, SPACE));
    } else if s.col != s.pcol {
      NewRowOk(cfg, from, s);
    }
  }

  /** Applying a style touches only the row and the style in effect. */
  lemma ApplyOnly(cfg: Config, s: State)
    ensures Apply(cfg, s) == s.(rb := Apply(cfg, s).rb, rstyle := Apply(cfg, s).rstyle)
  {
  }

  /** A space just put, with something before it, is a good place to break. */
  lemma SpaceBreakOk(cfg: Config, k: nat, a: State)
    requires cfg.words && RowOk(cfg, k, a) && a.col > a.pcol
    ensures BreakOk(cfg, k, Append(a, SPACE).(brk := Some(Break(|a.rb|, a.rstyle))))
  {
    hide After, Cells, Width, Config.LeadBytes, Config.Look;
    assert (a.rb + [SPACE])[|cfg.LeadBytes(k)|..|a.rb|] == Body(cfg, k, a.rb);
  }

  lemma ContentCat(cfg: Config, from: nat, s: State, t: State, more: seq<Cell>)
    requires from <= |s.rows| && t.rows == s.rows && s.started && t.started
    requires var k := |s.rows| - from; Cells(FRESH, Body(cfg, k, t.rb)) == Cells(FRESH, Body(cfg, k, s.rb)) + more
    ensures Content(cfg, from, t) == Content(cfg, from, s) + more
  {
    hide RowsShown, Cells, After, Body;
    var k := |s.rows| - from;
    AppendTwice(RowsShown(cfg, s.rows[from..]), Cells(FRESH, Body(cfg, k, s.rb)), more);
  }

  lemma AppendTwice(a: seq<Cell>, b: seq<Cell>, c: seq<Cell>)
    ensures a + (b + c) == a + b + c
  {
  }

  lemma RoomOk(cfg: Config, from: nat, s: State)
    requires Inv(cfg, from, s) && s.started
    ensures var t := Room(cfg, s);
            && Inv(cfg, from, t) && t.started && t.cur == s.cur && t.col < cfg.width
            && Counted(cfg, Content(cfg, from, t)) == Counted(cfg, Content(cfg, from, s))
  {
    hide After, Cells, Width, Ink, Config.LeadBytes, Config.Look, Body, NewRow, BackUp;
    if s.brk.Some? {
      BackUpOk(cfg, from, s);
    }
    NewRowOk(cfg, from, s);
  }

  lemma PutGlyphOk(cfg: Config, from: nat, s: State, c: byte)
    requires Inv(cfg, from, s) && s.started && c >= 32 && !Continues(c)
    ensures var t := PutGlyph(cfg, s, c);
            && Inv(cfg, from, t) && t.started && t.cur == s.cur && cfg.Effect(t.rstyle) == cfg.Look(s.cur)
            && Counted(cfg, Content(cfg, from, t)) == Counted(cfg, Content(cfg, from, s)) + Counted(cfg, [Cell(c, cfg.Look(s.cur))])
  {
    hide After, Cells, Width, Ink, Config.LeadBytes, Config.Look, RowsShown, Emitted, Body, AllEmitted, NewRow, BackUp, Apply;
    RoomOk(cfg, from, s);
    var r := Room(cfg, s);
    var k, a := |r.rows| - from, Apply(cfg, r);
    ApplyOk(cfg, k, r);
    ApplyOnly(cfg, r);
    AppendOk(cfg, k, a, c);
    ContentCat(cfg, from, r, Append(a, c), [Cell(c, cfg.Look(s.cur))]);
    CountedCat(cfg, Content(cfg, from, r), [Cell(c, cfg.Look(s.cur))]);
    assert PutGlyph(cfg, s, c) == Append(a, c);
  }

  /** The cell a filtered byte becomes; a continuation byte is shown in the style
      already in effect. */
  function NewCell(cfg: Config, s: State, c: byte): Cell {
    Cell(c, if Continues(c) then cfg.Effect(s.rstyle) else cfg.Look(s.cur))
  }

  predicate Glyph(c: byte) {
    c > 32 && c != 127
  }

  /** A byte that is part of the content: a glyph, in code also a space. */
  predicate Counts(cfg: Config, c: byte) {
    Filtered(c).Some? && !(cfg.words && Filtered(c).value == SPACE)
  }

  lemma PutByteOk(cfg: Config, from: nat, s: State, c: byte)
    requires Inv(cfg, from, s) && s.started
    ensures var t := PutByte(cfg, s, c);
            && Inv(cfg, from, t) && t.started && t.cur == s.cur
            && Counted(cfg, Content(cfg, from, t))
               == (if Filtered(c).None? then Counted(cfg, Content(cfg, from, s))
                   else Counted(cfg, Content(cfg, from, s)) + Counted(cfg, [NewCell(cfg, s, Filtered(c).value)]))
            && (Counts(cfg, c) ==> cfg.Effect(t.rstyle) == NewCell(cfg, s, Filtered(c).value).style)
  {
    hide After, Cells, Width, Ink, Config.LeadBytes, Config.Look, RowsShown, Emitted, Body, AllEmitted, NewRow, BackUp, Apply, PutGlyph, PutSpace;
    match Filtered(c)
    case None =>
    case Some(d) =>
      var cell := NewCell(cfg, s, d);
      if Continues(d) {
        AppendOk(cfg, |s.rows| - from, s, d);
        ContentCat(cfg, from, s, PutByte(cfg, s, c), [cell]);
        CountedCat(cfg, Content(cfg, from, s), [cell]);
      } else if d == SPACE && cfg.words {
        PutSpaceOk(cfg, from, s);
        InkSpace(cell.style);
      } else {
        PutGlyphOk(cfg, from, s, d);
      }
  }

  // ----- whole blocks -----

  /** The text of a block: what is put, each byte in the style wanted for it. */
  function Text(cfg: Config, puts: seq<Put>): seq<Cell> {
    if puts == [] then []
    else
      var p := puts[|puts| - 1];
      Text(cfg, puts[..|puts| - 1]) + if Filtered(p.ch).Some? then [Cell(Filtered(p.ch).value, cfg.Look(p.style))] else []
  }

  /** UTF-8 continuation bytes follow a byte of the same character, in its style. */
  predicate Grouped(puts: seq<Put>) {
    forall i :: 0 <= i < |puts| && Continues(puts[i].ch) ==>
      i > 0 && Glyph(puts[i - 1].ch) && puts[i - 1].style == puts[i].style
  }

  /** Continuation bytes follow a byte of the content. */
  predicate Attached(cfg: Config, puts: seq<Put>) {
    forall i :: 0 <= i < |puts| && Continues(puts[i].ch) ==> i > 0 && Counts(cfg, puts[i - 1].ch)
  }

  /** They follow it in the same style. */
  predicate OneStyle(puts: seq<Put>) {
    forall i :: 0 < i < |puts| && Continues(puts[i].ch) ==> puts[i - 1].style == puts[i].style
  }

  lemma GroupedIsAttached(cfg: Config, puts: seq<Put>)
    requires Grouped(puts)
    ensures Attached(cfg, puts) && OneStyle(puts)
  {
  }

  lemma SetStyle(cfg: Config, from: nat, s: State, st: Style)
    requires Inv(cfg, from, s)
    ensures Inv(cfg, from, s.(cur := st)) && Content(cfg, from, s.(cur := st)) == Content(cfg, from, s)
  {
    hide After, Cells, Width, Config.LeadBytes, Config.Look, RowsShown, Emitted, Body, AllEmitted;
    if s.started {
      var k := |s.rows| - from;
      assert RowOk(cfg, k, s.(cur := st)) && BreakOk(cfg, k, s.(cur := st));
    }
  }

  /** Each continuation byte finds the style wanted for it already in effect. */
  ghost predicate Styled(cfg: Config, s: State, puts: seq<Put>) {
    forall i :: 0 <= i < |puts| && Continues(puts[i].ch) ==>
      cfg.Effect(PutAll(cfg, s, puts[..i]).rstyle) == cfg.Look(puts[i].style)
  }

  /** The two lists of cells show the same bytes, and are the same exactly when the
      styles agree as well. */
  ghost predicate Shows(a: seq<Cell>, b: seq<Cell>, styled: bool) {
    Chars(a) == Chars(b) && (a == b <==> styled)
  }

  lemma ShowsMore(a: seq<Cell>, b: seq<Cell>, styled: bool, x: seq<Cell>, y: seq<Cell>)
    requires Shows(a, b, styled) && Chars(x) == Chars(y)
    ensures Shows(a + x, b + y, styled && x == y)
  {
    assert |a| == |Chars(a)| == |b| && |x| == |Chars(x)| == |y|;
    assert (a + x)[..|a|] == a && (b + y)[..|a|] == b && (a + x)[|a|..] == x && (b + y)[|a|..] == y;
    assert Chars(a + x) == Chars(a) + Chars(x) && Chars(b + y) == Chars(b) + Chars(y);
  }

  lemma CountedOne(cfg: Config, c: byte, st: seq<byte>)
    ensures Counted(cfg, [Cell(c, st)]) == if cfg.words && c == SPACE then [] else [Cell(c, st)]
  {
    var one := [Cell(c, st)];
    assert one[..0] == [] && one[0].ch == c;
    assert Ink(one) == Ink([]) + if c == SPACE then [] else [one[0]];
  }

  /** The bodies of a block's rows show exactly the text put, whatever is put: in words
      every non-space byte, in code every byte, in order. Each also has the style it was
      put with, exactly when the continuation bytes among them find that style in effect. */
  lemma {:induction false} ContentKept(cfg: Config, from: nat, s: State, puts: seq<Put>)
    requires Inv(cfg, from, s) && s.started && Content(cfg, from, s) == []
    ensures var t := PutAll(cfg, s, puts);
            && Inv(cfg, from, t) && t.started && from <= |t.rows|
            && Shows(Counted(cfg, Content(cfg, from, t)), Counted(cfg, Text(cfg, puts)), Styled(cfg, s, puts))
            && (puts != [] && Counts(cfg, puts[|puts| - 1].ch) && !Continues(puts[|puts| - 1].ch) ==>
                  cfg.Effect(t.rstyle) == cfg.Look(puts[|puts| - 1].style))
            && (puts != [] && Continues(puts[|puts| - 1].ch) ==>
                  cfg.Effect(t.rstyle) == cfg.Effect(PutAll(cfg, s, puts[..|puts| - 1]).rstyle))
  {
    hide After, Cells, Width, Ink, Config.LeadBytes, Config.Look, Config.Effect, RowsShown, Emitted, Body, AllEmitted, PutByte, Content, Inv, Shows, Styled, Counted;
    InvRows(cfg, from, s);
    if puts == [] {
      NothingShown(cfg, s);
    } else {
      var m := |puts| - 1;
      var p, head := puts[m], puts[..m];
      ContentKept(cfg, from, s, head);
      StyledStep(cfg, s, puts);
      var t := PutAll(cfg, s, head);
      SetStyle(cfg, from, t, p.style);
      var u := t.(cur := p.style);
      PutByteOk(cfg, from, u, p.ch);
      InvRows(cfg, from, PutAll(cfg, s, puts));
      if Filtered(p.ch).Some? {
        var c := Filtered(p.ch).value;
        var x, y := NewCell(cfg, u, c), Cell(c, cfg.Look(p.style));
        CountedOne(cfg, c, x.style);
        CountedOne(cfg, c, y.style);
        CountedCat(cfg, Text(cfg, head), [y]);
        ShowsMore(Counted(cfg, Content(cfg, from, t)), Counted(cfg, Text(cfg, head)), Styled(cfg, s, head),
                  Counted(cfg, [x]), Counted(cfg, [y]));
      } else {
        assert Text(cfg, puts) == Text(cfg, head);
      }
    }
  }

  lemma InvRows(cfg: Config, from: nat, s: State)
    requires Inv(cfg, from, s)
    ensures from <= |s.rows|
  {
  }

  lemma NothingShown(cfg: Config, s: State)
    ensures Shows(Counted(cfg, []), Counted(cfg, []), Styled(cfg, s, []))
  {
  }

  lemma StyledStep(cfg: Config, s: State, puts: seq<Put>)
    requires puts != []
    ensures var m := |puts| - 1;
            Styled(cfg, s, puts) <==>
              Styled(cfg, s, puts[..m])
              && (Continues(puts[m].ch) ==> cfg.Effect(PutAll(cfg, s, puts[..m]).rstyle) == cfg.Look(puts[m].style))
  {
    hide Config.Effect, Config.Look, PutAll;
    var m := |puts| - 1;
    assert forall i :: 0 <= i <= m ==> puts[..m][..i] == puts[..i];
  }

  /** Well-formed text is shown in its style. */
  lemma AttachedIsStyled(cfg: Config, from: nat, s: State, puts: seq<Put>)
    requires Inv(cfg, from, s) && s.started && Content(cfg, from, s) == [] && Attached(cfg, puts) && OneStyle(puts)
    ensures Styled(cfg, s, puts)
  {
    hide After, Cells, Width, Ink, Config.LeadBytes, Config.Look, Config.Effect, RowsShown, Emitted, Body, AllEmitted, PutByte, Content, Inv, Shows;
    forall i | 0 <= i < |puts| && Continues(puts[i].ch)
      ensures cfg.Effect(PutAll(cfg, s, puts[..i]).rstyle) == cfg.Look(puts[i].style)
    {
      AttachedEffect(cfg, from, s, puts, i);
    }
  }

  lemma {:induction false} AttachedEffect(cfg: Config, from: nat, s: State, puts: seq<Put>, i: nat)
    requires Inv(cfg, from, s) && s.started && Content(cfg, from, s) == [] && Attached(cfg, puts) && OneStyle(puts)
    requires 0 < i < |puts| && Continues(puts[i].ch)
    ensures cfg.Effect(PutAll(cfg, s, puts[..i]).rstyle) == cfg.Look(puts[i].style)
  {
    hide After, Cells, Width, Ink, Config.LeadBytes, Config.Look, Config.Effect, RowsShown, Emitted, Body, AllEmitted, PutByte, Content, Inv, Shows, Styled;
    ContentKept(cfg, from, s, puts[..i]);
    assert puts[..i][..i - 1] == puts[..i - 1];
    if Continues(puts[i - 1].ch) {
      AttachedEffect(cfg, from, s, puts, i - 1);
    }
  }

  /** Without colour there is no style to miss. */
  lemma PlainIsStyled(cfg: Config, s: State, puts: seq<Put>)
    requires cfg.plain
    ensures Styled(cfg, s, puts)
  {
  }

  /** Opening a block: the separating blank row, if one is due, comes first. */
  lemma OpenOk(cfg: Config, s: State)
    requires cfg.Sound()
    ensures var t := Start(cfg, s, true);
            Inv(cfg, |t.rows|, t) && t.started && Content(cfg, |t.rows|, t) == [] && s.rows <= t.rows
  {
    var t := Start(cfg, s, true);
    StartOk(cfg, 0, s);
    assert t.rows[|t.rows|..] == [];
  }

  lemma FinishOk(cfg: Config, from: nat, s: State)
    requires Inv(cfg, from, s) && s.started
    ensures var t := Finish(cfg, s);
            && from <= |t.rows| && AllEmitted(cfg, t.rows[from..]) && RowsShown(cfg, t.rows[from..]) == Content(cfg, from, s)
  {
    hide After, Cells, Width, Config.LeadBytes, Config.Look, RowsShown, Emitted, Body, AllEmitted, EndRow;
    EndRowOk(cfg, from, s);
  }

  /** A whole block, from an idle builder to its last row. */
  function Block(cfg: Config, s: State, puts: seq<Put>): State {
    Finish(cfg, PutAll(cfg, Start(cfg, s, true), puts))
  }

  /** Whatever is put, a block's rows fit and show its text; in its styles too, exactly
      when continuation bytes find them, as they do in well-formed text and in plain. */
  lemma BlockKeepsText(cfg: Config, s: State, puts: seq<Put>)
    requires cfg.Sound()
    ensures var o, t := Start(cfg, s, true), Block(cfg, s, puts);
            && s.rows <= o.rows && |o.rows| <= |t.rows|
            && Shows(Counted(cfg, RowsShown(cfg, t.rows[|o.rows|..])), Counted(cfg, Text(cfg, puts)), Styled(cfg, o, puts))
            && AllEmitted(cfg, t.rows[|o.rows|..])
            && ((Attached(cfg, puts) && OneStyle(puts)) || cfg.plain ==> Styled(cfg, o, puts))
  {
    hide After, Cells, Width, Ink, Config.LeadBytes, Config.Look, RowsShown, Emitted, Body, AllEmitted, PutByte, Content, Inv, Start, Finish, Shows, Styled, Attached, OneStyle;
    var o := Start(cfg, s, true);
    OpenOk(cfg, s);
    ContentKept(cfg, |o.rows|, o, puts);
    FinishOk(cfg, |o.rows|, PutAll(cfg, o, puts));
    if Attached(cfg, puts) && OneStyle(puts) {
      AttachedIsStyled(cfg, |o.rows|, o, puts);
    }
    if cfg.plain {
      PlainIsStyled(cfg, o, puts);
    }
  }
}
