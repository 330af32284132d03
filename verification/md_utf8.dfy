/** No row break falls inside a UTF-8 character: no row's body starts with a
    continuation byte. */
module MdUtf8 {
  import opened Bytes
  import opened MdTerminal
  import opened MdWrap
  import opened MdContent

  predicate HeadOk(cells: seq<Cell>) {
    cells == [] || !Continues(cells[0].ch)
  }

  ghost predicate HeadsOk(cfg: Config, rows: seq<seq<byte>>) {
    forall k :: 0 <= k < |rows| ==> HeadOk(Cells(FRESH, Body(cfg, k, rows[k])))
  }

  /** What the open row shows, and what it shows after its last break. */
  function Open(cfg: Config, from: nat, s: State): seq<Cell>
    requires from <= |s.rows|
  {
    Cells(FRESH, Body(cfg, |s.rows| - from, s.rb))
  }

  function Moved(cfg: Config, s: State): seq<Cell> {
    Cells(BreakPen(cfg, s), Rest(s))
  }

  ghost predicate Whole(cfg: Config, from: nat, s: State) {
    && Inv(cfg, from, s) && s.started
    && HeadsOk(cfg, s.rows[from..])
    && HeadOk(Open(cfg, from, s))
    && (s.brk.Some? ==> HeadOk(Moved(cfg, s)))
  }

  /** The last byte put is on the open row, after any break: it can be continued. */
  ghost predicate Continuable(cfg: Config, from: nat, s: State) {
    from <= |s.rows| && Open(cfg, from, s) != [] && (s.brk.Some? ==> Moved(cfg, s) != [])
  }

  lemma HeadsStep(cfg: Config, rows: seq<seq<byte>>, row: seq<byte>)
    requires HeadsOk(cfg, rows) && HeadOk(Cells(FRESH, Body(cfg, |rows|, row)))
    ensures HeadsOk(cfg, rows + [row])
  {
  }

  lemma ShowOne(style: seq<byte>, c: byte)
    requires c != ESC
    ensures Cells(Pen(Ground, style), [c]) == [Cell(c, style)]
  {
    assert [c][..0] == [];
  }

  lemma ShowNothing()
    ensures forall p :: Cells(p, []) == [] && After(p, []) == p
  {
  }

  lemma RestGrows(s: State, more: seq<byte>)
    requires s.brk.Some? && s.brk.value.idx < |s.rb|
    ensures Rest(s.(rb := s.rb + more)) == Rest(s) + more
  {
  }

  /** Text added at the end of the row is added at the end of the moved part. */
  lemma MovedGrows(cfg: Config, k: nat, s: State, more: seq<byte>)
    requires cfg.Sound() && RowOk(cfg, k, s) && BreakOk(cfg, k, s) && s.brk.Some?
    ensures Moved(cfg, s.(rb := s.rb + more))
            == Moved(cfg, s) + Cells(Pen(Ground, cfg.Effect(s.rstyle)), more)
  {
    hide After, Cells, Width, Config.LeadBytes, Config.Look, Body, Rest, Config.Effect;
    RestGrows(s, more);
    BreakSplits(cfg, k, s);
    ShowCat(BreakPen(cfg, s), Rest(s), more);
  }

  /** Adding one byte, with or without a style before it. */
  lemma AppendWhole(cfg: Config, from: nat, s: State, c: byte)
    requires Whole(cfg, from, s) && c >= 32
    requires if Continues(c) then Continuable(cfg, from, s) else s.col < cfg.width
    ensures var t := s.(rb := s.rb + [c], col := if Continues(c) then s.col else s.col + 1);
            Whole(cfg, from, t) && Continuable(cfg, from, t)
  {
    hide After, Cells, Width, Config.LeadBytes, Config.Look, Config.Effect, Body, Emitted, AllEmitted, HeadsOk, RowOk, BreakOk, Moved;
    var k := |s.rows| - from;
    ShowOne(cfg.Effect(s.rstyle), c);
    AppendOk(cfg, k, s, c);
    if s.brk.Some? {
      MovedGrows(cfg, k, s, [c]);
      MovedIgnoresCol(cfg, s.(rb := s.rb + [c]), if Continues(c) then s.col else s.col + 1);
    }
  }

  lemma MovedIgnoresCol(cfg: Config, s: State, col: nat)
    ensures Moved(cfg, s.(col := col)) == Moved(cfg, s)
  {
    hide After, Cells;
  }

  lemma ApplyWhole(cfg: Config, from: nat, s: State)
    requires Whole(cfg, from, s)
    ensures Whole(cfg, from, Apply(cfg, s))
  {
    hide After, Cells, Width, Config.LeadBytes, Config.Look, Config.Effect, Body, Emitted, AllEmitted, HeadsOk, RowOk, BreakOk, Moved, Apply;
    ApplyOk(cfg, |s.rows| - from, s);
    ApplyOnly(cfg, s);
    if s.brk.Some? {
      ApplyKeepsMoved(cfg, |s.rows| - from, s);
    }
  }

  lemma ApplyKeepsMoved(cfg: Config, k: nat, s: State)
    requires cfg.Sound() && RowOk(cfg, k, s) && BreakOk(cfg, k, s) && s.brk.Some?
    ensures Moved(cfg, Apply(cfg, s)) == Moved(cfg, s)
  {
    hide After, Cells, Width, Config.LeadBytes, Config.Look, Body, Sgr, StyleBytes, Rest, RowOk, BreakOk, BreakPen;
    var pen := Pen(Ground, cfg.Effect(s.rstyle));
    PlainEffect(cfg, s.rstyle);
    ShowStyle(cfg, pen, s.cur);
    ShowSgr(pen, RESET_PARAMS);
    MovedGrows(cfg, k, s, StyleBytes(cfg, s.cur));
    MovedGrows(cfg, k, s, Sgr(RESET_PARAMS));
    var more := Apply(cfg, s).rb[|s.rb|..];
    ApplyOk(cfg, k, s);
    if Apply(cfg, s).rb != s.rb {
      MovedIgnoresStyle(cfg, s.(rb := Apply(cfg, s).rb), Apply(cfg, s).rstyle);
    } else {
      MovedIgnoresStyle(cfg, s, Apply(cfg, s).rstyle);
    }
  }

  lemma PlainEffect(cfg: Config, st: Option<Style>)
    ensures cfg.plain ==> cfg.Effect(st) == []
  {
  }

  lemma MovedIgnoresStyle(cfg: Config, s: State, st: Option<Style>)
    ensures Moved(cfg, s.(rstyle := st)) == Moved(cfg, s)
  {
    hide After, Cells;
  }

  lemma EmptyBody(cfg: Config, k: nat, t: State)
    requires t.rb == cfg.LeadBytes(k)
    ensures Cells(FRESH, Body(cfg, k, t.rb)) == []
  {
  }

  lemma NewRowWhole(cfg: Config, from: nat, s: State)
    requires Inv(cfg, from, s) && s.started && HeadsOk(cfg, s.rows[from..]) && HeadOk(Open(cfg, from, s))
    ensures Whole(cfg, from, NewRow(cfg, s)) && HeadsOk(cfg, NewRow(cfg, s).rows[from..])
  {
    hide After, Cells, Width, Config.LeadBytes, Config.Look, Config.Effect, Body, Emitted, AllEmitted, HeadsOk, RowsShown, Sgr, RowOk, BreakOk;
    var k, e, t := |s.rows| - from, EndRow(cfg, s), NewRow(cfg, s);
    NewRowOk(cfg, from, s);
    ResetOk(cfg, k, s);
    assert t.rows == e.rows;
    assert t.rows[from..] == s.rows[from..] + [e.rows[|s.rows|]];
    EmptyBody(cfg, k + 1, t);
    HeadsStep(cfg, s.rows[from..], e.rows[|s.rows|]);
  }

  lemma BackUpWhole(cfg: Config, from: nat, s: State)
    requires Whole(cfg, from, s) && s.brk.Some?
    ensures Whole(cfg, from, BackUp(cfg, s, s.brk.value)) && BackUp(cfg, s, s.brk.value).brk.None?
  {
    hide After, Cells, Width, Config.LeadBytes, Config.Look, Config.Effect, Body, Emitted, AllEmitted, HeadsOk, RowsShown, NewRow, StyleBytes,
         Before, Rest, RowOk, ResumeRow;
    var k, b := |s.rows| - from, s.brk.value;
    var u := Cut(s, b, s.pcol + Width(Cells(FRESH, Before(cfg, k, s))));
    CutWhole(cfg, from, s);
    var n := NewRow(cfg, u);
    NewRowOk(cfg, from, u);
    NewRowWhole(cfg, from, u);
    BackUpOk(cfg, from, s);
    BackUpIs(cfg, s, b, u.col);
    ResumeOk(cfg, |n.rows| - from, n, b.style, Rest(s));
  }

  /** The new row after backing up, as the next row plus the moved text. */
  function ResumeRow(cfg: Config, n: State, s: State, b: Break): State {
    n.(rb := n.rb + (if b.style.Some? then StyleBytes(cfg, b.style.value) else []) + Rest(s),
       rstyle := s.rstyle, col := n.col + Width(Cells(FRESH, Rest(s))))
  }

  lemma BackUpIs(cfg: Config, s: State, b: Break, cols: nat)
    requires s.brk == Some(b) && b.idx < |s.rb|
    ensures BackUp(cfg, s, b) == ResumeRow(cfg, NewRow(cfg, Cut(s, b, cols)), s, b)
    ensures BackUp(cfg, s, b).rows == NewRow(cfg, Cut(s, b, cols)).rows
    ensures BackUp(cfg, s, b).rb == NewRow(cfg, Cut(s, b, cols)).rb + (if b.style.Some? then StyleBytes(cfg, b.style.value) else []) + Rest(s)
    ensures BackUp(cfg, s, b).brk.None?
  {
    hide Cells, Width, EndRow, StyleBytes;
    NewRowForgets(cfg, s, b, cols);
  }

  lemma HeadOfPrefix(a: seq<Cell>, b: seq<Cell>, all: seq<Cell>)
    requires all == a + b && HeadOk(all)
    ensures HeadOk(a)
  {
  }

  lemma CutWhole(cfg: Config, from: nat, s: State)
    requires Whole(cfg, from, s) && s.brk.Some?
    ensures var u := Cut(s, s.brk.value, s.pcol + Width(Cells(FRESH, Before(cfg, |s.rows| - from, s))));
            Inv(cfg, from, u) && u.started && HeadsOk(cfg, u.rows[from..]) && HeadOk(Open(cfg, from, u))
  {
    hide After, Cells, Width, Config.LeadBytes, Config.Look, Config.Effect, Body, Emitted, AllEmitted, HeadsOk, RowsShown, Before, Rest, RowOk;
    var k := |s.rows| - from;
    BreakSplits(cfg, k, s);
    BodySplits(cfg, k, s);
    CutOk(cfg, from, s);
    HeadOfPrefix(Cells(FRESH, Before(cfg, k, s)), [Cell(SPACE, BreakPen(cfg, s).style)] + Cells(BreakPen(cfg, s), Rest(s)), Open(cfg, from, s));
  }

  lemma PutByteWhole(cfg: Config, from: nat, s: State, c: byte)
    requires Whole(cfg, from, s) && (Continues(c) ==> Continuable(cfg, from, s))
    ensures Whole(cfg, from, PutByte(cfg, s, c))
    ensures Counts(cfg, c) ==> Continuable(cfg, from, PutByte(cfg, s, c))
  {
    hide After, Cells, Width, Config.LeadBytes, Config.Look, Body, Emitted, AllEmitted, HeadsOk, RowsShown, NewRow, BackUp, Apply, Content;
    PutByteOk(cfg, from, s, c);
    match Filtered(c)
    case None =>
    case Some(d) =>
      if Continues(d) {
        AppendWhole(cfg, from, s, d);
      } else if d == SPACE && cfg.words {
        PutSpaceWhole(cfg, from, s);
      } else {
        RoomOk(cfg, from, s);
        if s.brk.Some? {
          BackUpWhole(cfg, from, s);
        }
        NewRowWhole(cfg, from, s);
        var r := Room(cfg, s);
        ApplyWhole(cfg, from, r);
        ApplyOnly(cfg, r);
        AppendWhole(cfg, from, Apply(cfg, r), d);
        assert PutByte(cfg, s, c) == Append(Apply(cfg, r), d);
      }
  }

  lemma PutSpaceWhole(cfg: Config, from: nat, s: State)
    requires Whole(cfg, from, s) && cfg.words
    ensures Whole(cfg, from, PutSpace(cfg, s))
  {
    hide After, Cells, Width, Config.LeadBytes, Config.Look, Body, Emitted, AllEmitted, HeadsOk, RowsShown, NewRow, Apply, RowOk, BreakOk;
    ShowNothing();
    PutSpaceOk(cfg, from, s);
    NewRowWhole(cfg, from, s);
    if s.col != s.pcol && s.col < cfg.width {
      ApplyWhole(cfg, from, s);
      ApplyOnly(cfg, s);
      AppendWhole(cfg, from, Apply(cfg, s), SPACE);
      var t := PutSpace(cfg, s);
      assert Rest(t) == [];
    }
  }

  /** However a text is wrapped, no row starts inside a character, as long as every
      continuation byte follows a byte of the content. */
  lemma {:induction false} NoBreakInsideCharacter(cfg: Config, from: nat, s: State, puts: seq<Put>)
    requires Inv(cfg, from, s) && s.started && from == |s.rows| && Open(cfg, from, s) == [] && s.brk.None?
    requires Attached(cfg, puts)
    ensures Whole(cfg, from, PutAll(cfg, s, puts))
    ensures puts != [] && Counts(cfg, puts[|puts| - 1].ch) ==> Continuable(cfg, from, PutAll(cfg, s, puts))
  {
    hide After, Cells, Width, Config.LeadBytes, Config.Look, Body, Emitted, AllEmitted, RowsShown, PutByte;
    if puts != [] {
      var m := |puts| - 1;
      var p, head := puts[m], puts[..m];
      assert Attached(cfg, head);
      NoBreakInsideCharacter(cfg, from, s, head);
      var t := PutAll(cfg, s, head);
      SetStyle(cfg, from, t, p.style);
      var u := t.(cur := p.style);
      assert Whole(cfg, from, u);
      if Continues(p.ch) {
        assert Counts(cfg, head[m - 1].ch);
      }
      PutByteWhole(cfg, from, u, p.ch);
    } else {
      assert s.rows[from..] == [];
    }
  }

  // ----- whole blocks -----

  lemma OpenIsEmpty(cfg: Config, s: State)
    requires cfg.Sound()
    ensures var t := Start(cfg, s, true); Open(cfg, |t.rows|, t) == [] && t.brk.None?
  {
    StartOk(cfg, 0, s);
  }

  /** So no row of a block starts inside a character. */
  lemma BlockHeads(cfg: Config, s: State, puts: seq<Put>)
    requires cfg.Sound() && Attached(cfg, puts)
    ensures var from, t := |Start(cfg, s, true).rows|, MdContent.Block(cfg, s, puts);
            from <= |t.rows| && HeadsOk(cfg, t.rows[from..])
  {
    hide After, Cells, Width, Config.LeadBytes, Config.Look, Config.Effect, Body, Emitted, AllEmitted, HeadsOk, RowsShown, Sgr, RowOk, BreakOk, PutAll, Start;
    var o := Start(cfg, s, true);
    var from := |o.rows|;
    OpenOk(cfg, s);
    OpenIsEmpty(cfg, s);
    NoBreakInsideCharacter(cfg, from, o, puts);
    var p := PutAll(cfg, o, puts);
    var e := EndRow(cfg, p);
    ResetOk(cfg, |p.rows| - from, p);
    assert e.rows[from..] == p.rows[from..] + [e.rows[|p.rows|]];
    HeadsStep(cfg, p.rows[from..], e.rows[|p.rows|]);
  }

  /** Rows that start between characters show nothing that starts inside one. */
  lemma {:induction false} FirstShown(cfg: Config, rows: seq<seq<byte>>)
    requires HeadsOk(cfg, rows)
    ensures HeadOk(RowsShown(cfg, rows))
  {
    hide Cells, Body;
    if rows != [] {
      var m := |rows| - 1;
      assert forall k :: 0 <= k < m ==> rows[..m][k] == rows[k];
      FirstShown(cfg, rows[..m]);
      assert HeadOk(Cells(FRESH, Body(cfg, m, rows[m])));
    }
  }
}
