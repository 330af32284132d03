/** Colour does not change layout: stripping the escape sequences from coloured
    rows gives the plain rows. */
module MdColour {
  import opened Bytes
  import opened MdTerminal
  import opened MdWrap

  /** A row without its escape sequences. */
  function Strip(b: seq<byte>): seq<byte> {
    Chars(Cells(FRESH, b))
  }

  /** b is made of whole escape sequences and the text t. */
  ghost predicate Closes(b: seq<byte>, t: seq<byte>) {
    After(FRESH, b).mode.Ground? && Strip(b) == t
  }

  lemma {:induction false} PenChars(p: Pen, q: Pen, b: seq<byte>)
    requires p.mode == q.mode
    ensures After(p, b).mode == After(q, b).mode && Chars(Cells(p, b)) == Chars(Cells(q, b))
  {
    if b != [] {
      PenChars(p, q, b[..|b| - 1]);
    }
  }

  lemma ClosesCat(a: seq<byte>, t: seq<byte>, b: seq<byte>, u: seq<byte>)
    requires Closes(a, t) && Closes(b, u)
    ensures Closes(a + b, t + u)
  {
    ShowCat(FRESH, a, b);
    PenChars(FRESH, After(FRESH, a), b);
    assert Chars(Cells(FRESH, a) + Cells(After(FRESH, a), b)) == Chars(Cells(FRESH, a)) + Chars(Cells(After(FRESH, a), b));
  }

  lemma ClosesByte(c: byte)
    requires c != ESC
    ensures Closes([c], [c])
  {
    ClosesText([c]);
  }

  lemma ClosesSgr(params: seq<byte>)
    requires SgrParams(params)
    ensures Closes(Sgr(params), [])
  {
    ShowSgr(FRESH, params);
  }

  lemma ClosesText(b: seq<byte>)
    requires ESC !in b
    ensures Closes(b, b)
  {
    ShowPlain(FRESH, b);
  }

  lemma {:induction false} StripHasNoEscapes(b: seq<byte>)
    ensures ESC !in Strip(b)
  {
    if b != [] {
      StripHasNoEscapes(b[..|b| - 1]);
      forall i | 0 <= i < |Strip(b)| ensures Strip(b)[i] != ESC {
        if i < |Strip(b[..|b| - 1])| {
          assert Strip(b)[i] == Strip(b[..|b| - 1])[i];
        }
      }
    }
  }

  /** Stripping does not change the columns. */
  lemma StripWidth(b: seq<byte>, t: seq<byte>)
    requires Closes(b, t)
    ensures Width(Cells(FRESH, b)) == Width(Cells(FRESH, t))
  {
    StripHasNoEscapes(b);
    ShowPlain(FRESH, t);
    WidthStyled(Cells(FRESH, b), Cells(FRESH, t));
  }

  function InPlain(cfg: Config): Config {
    cfg.(plain := true)
  }

  lemma LeadCloses(p: Prefix)
    requires p.Sound()
    ensures Closes(p.Bytes(false), p.Bytes(true))
  {
    hide Closes;
    ClosesByte(SPACE);
    match p
    case Margin(n) => ClosesText(Blanks(n));
    case Item(m, mk) =>
      ClosesText(Blanks(m));
      ColouredCloses([51, 54], mk);
      ClosesCat(Blanks(m), Blanks(m), Coloured(false, [51, 54], mk), mk);
      ClosesCat(Blanks(m) + Coloured(false, [51, 54], mk), Blanks(m) + mk, [SPACE], [SPACE]);
    case Bar =>
      ColouredCloses([51, 50], [124]);
      ClosesCat(Coloured(false, [51, 50], [124]), [124], [SPACE], [SPACE]);
  }

  lemma ColouredCloses(params: seq<byte>, text: seq<byte>)
    requires SgrParams(params) && ESC !in text
    ensures Closes(Coloured(false, params, text), text)
  {
    hide Closes, Sgr;
    ClosesSgr(params);
    ClosesText(text);
    ClosesSgr(RESET_PARAMS);
    ClosesCat(Sgr(params), [], text, text);
    ClosesCat(Sgr(params) + text, [] + text, Sgr(RESET_PARAMS), []);
    assert [] + text + [] == text;
  }

  /** The coloured builder c and the plain builder p are at the same point. */
  ghost predicate Sim(c: State, p: State) {
    && |c.rows| == |p.rows| && (forall k :: 0 <= k < |c.rows| ==> Closes(c.rows[k], p.rows[k]))
    && c.anyOut == p.anyOut && c.needBlank == p.needBlank && c.started == p.started && c.cur == p.cur
    && (c.started ==>
          && c.col == p.col && c.pcol == p.pcol && c.rstyle == p.rstyle
          && Closes(c.rb, p.rb)
          && BreaksMatch(c, p))
  }

  ghost predicate BreaksMatch(c: State, p: State) {
    && c.brk.Some? == p.brk.Some?
    && (c.brk.Some? ==>
          && c.brk.value.style == p.brk.value.style
          && c.brk.value.idx < |c.rb| && p.brk.value.idx < |p.rb|
          && Closes(c.rb[..c.brk.value.idx], p.rb[..p.brk.value.idx])
          && Closes(c.rb[c.brk.value.idx + 1..], p.rb[p.brk.value.idx + 1..]))
  }

  /** Both rows grow by bytes that strip to the same text. */
  lemma GrowSim(c: State, p: State, more: seq<byte>, text: seq<byte>)
    requires Sim(c, p) && c.started && Closes(more, text)
    ensures Sim(c.(rb := c.rb + more), p.(rb := p.rb + text))
  {
    hide Closes;
    ClosesCat(c.rb, p.rb, more, text);
    if c.brk.Some? {
      var i, j := c.brk.value.idx, p.brk.value.idx;
      assert (c.rb + more)[..i] == c.rb[..i] && (c.rb + more)[i + 1..] == c.rb[i + 1..] + more;
      assert (p.rb + text)[..j] == p.rb[..j] && (p.rb + text)[j + 1..] == p.rb[j + 1..] + text;
      ClosesCat(c.rb[i + 1..], p.rb[j + 1..], more, text);
    }
  }

  lemma StyleCloses(cfg: Config, st: Style)
    requires cfg.Sound() && !cfg.plain
    ensures Closes(StyleBytes(cfg, st), [])
  {
    assert SgrParams(StyleParams(cfg.base, st));
    ClosesSgr(StyleParams(cfg.base, st));
  }

  lemma ApplySim(cfg: Config, c: State, p: State)
    requires cfg.Sound() && !cfg.plain && Sim(c, p) && c.started
    ensures Sim(Apply(cfg, c), Apply(InPlain(cfg), p))
  {
    hide Closes, Sgr, BreaksMatch;
    StyleCloses(cfg, c.cur);
    ClosesSgr(RESET_PARAMS);
    GrowSim(c, p, StyleBytes(cfg, c.cur), []);
    GrowSim(c, p, Sgr(RESET_PARAMS), []);
    assert p.rb + [] == p.rb;
    BreaksIgnoreStyle(c.(rb := c.rb + StyleBytes(cfg, c.cur)), p.(rb := p.rb + []), Some(c.cur));
    BreaksIgnoreStyle(c.(rb := c.rb + Sgr(RESET_PARAMS)), p.(rb := p.rb + []), None);
  }

  lemma BreaksIgnoreStyle(c: State, p: State, st: Option<Style>)
    requires BreaksMatch(c, p)
    ensures BreaksMatch(c.(rstyle := st), p.(rstyle := st))
  {
  }

  lemma AppendSim(c: State, p: State, b: byte, cols: nat)
    requires Sim(c, p) && c.started && b != ESC
    ensures Sim(c.(rb := c.rb + [b], col := cols), p.(rb := p.rb + [b], col := cols))
  {
    hide Closes;
    ClosesByte(b);
    GrowSim(c, p, [b], [b]);
  }

  lemma EmitSim(c: State, p: State, row: seq<byte>, text: seq<byte>)
    requires Sim(c, p) && Closes(row, text)
    ensures Sim(EmitRow(c, row), EmitRow(p, text))
  {
    hide Closes;
  }

  lemma StartSim(cfg: Config, c: State, p: State, first: bool)
    requires cfg.Sound() && !cfg.plain && Sim(c, p)
    ensures Sim(Start(cfg, c, first), Start(InPlain(cfg), p, first))
  {
    ClosesText([]);
    hide Closes, Prefix.Bytes, Prefix.Cols, BreaksMatch, EmitRow;
    EmitSim(c, p, [], []);
    var lead := if first then cfg.first else cfg.cont;
    LeadCloses(lead);
    var t, u := if c.needBlank && c.anyOut then EmitRow(c, []) else c, if p.needBlank && p.anyOut then EmitRow(p, []) else p;
    OpenSim(t, u, lead.Bytes(false), lead.Bytes(true), lead.Cols());
  }

  lemma OpenSim(c: State, p: State, row: seq<byte>, text: seq<byte>, cols: nat)
    requires Sim(c, p) && Closes(row, text)
    ensures Sim(c.(needBlank := false, rb := row, col := cols, pcol := cols, rstyle := None, brk := None, started := true),
                p.(needBlank := false, rb := text, col := cols, pcol := cols, rstyle := None, brk := None, started := true))
  {
    hide Closes;
  }

  lemma EndRowSim(cfg: Config, c: State, p: State)
    requires cfg.Sound() && !cfg.plain && Sim(c, p) && c.started
    ensures Sim(EndRow(cfg, c), EndRow(InPlain(cfg), p))
  {
    hide Closes, Sgr, BreaksMatch;
    ClosesSgr(RESET_PARAMS);
    ClosesCat(c.rb, p.rb, Sgr(RESET_PARAMS), []);
    assert p.rb + [] == p.rb;
    EmitSim(c, p, if c.rstyle.Some? then c.rb + Sgr(RESET_PARAMS) else c.rb, p.rb);
  }

  lemma NewRowSim(cfg: Config, c: State, p: State)
    requires cfg.Sound() && !cfg.plain && Sim(c, p) && c.started
    ensures Sim(NewRow(cfg, c), NewRow(InPlain(cfg), p))
  {
    EndRowSim(cfg, c, p);
    StartSim(cfg, EndRow(cfg, c), EndRow(InPlain(cfg), p), false);
  }

  lemma PlainStyle(cfg: Config, st: Style)
    ensures StyleBytes(InPlain(cfg), st) == []
  {
  }

  /** A new row, the style of the break, and the moved text. */
  lemma ResumeCloses(n: seq<byte>, m: seq<byte>, style: seq<byte>, rest: seq<byte>, text: seq<byte>)
    requires Closes(n, m) && Closes(style, []) && Closes(rest, text)
    ensures Closes(n + style + rest, m + [] + text)
  {
    hide Closes;
    ClosesCat(n, m, style, []);
    ClosesCat(n + style, m + [], rest, text);
  }

  lemma BackUpSim(cfg: Config, c: State, p: State)
    requires cfg.Sound() && !cfg.plain && Sim(c, p) && c.started && c.brk.Some?
    ensures Sim(BackUp(cfg, c, c.brk.value), BackUp(InPlain(cfg), p, p.brk.value))
  {
    hide Closes, Cells, Width, NewRow, StyleBytes;
    var b, d := c.brk.value, p.brk.value;
    var cr, pr := c.rb[b.idx + 1..], p.rb[d.idx + 1..];
    StripWidth(cr, pr);
    CutSim(cfg, c, p);
    var n := NewRow(cfg, c.(rb := c.rb[..b.idx], rstyle := b.style));
    var m := NewRow(InPlain(cfg), p.(rb := p.rb[..d.idx], rstyle := d.style));
    ClosesText([]);
    if b.style.Some? {
      StyleCloses(cfg, b.style.value);
      PlainStyle(cfg, b.style.value);
    }
    ResumeCloses(n.rb, m.rb, if b.style.Some? then StyleBytes(cfg, b.style.value) else [], cr, pr);
  }

  lemma CutSim(cfg: Config, c: State, p: State)
    requires cfg.Sound() && !cfg.plain && Sim(c, p) && c.started && c.brk.Some?
    ensures var b, d := c.brk.value, p.brk.value;
            var n, m := NewRow(cfg, c.(rb := c.rb[..b.idx], rstyle := b.style)), NewRow(InPlain(cfg), p.(rb := p.rb[..d.idx], rstyle := d.style));
            Sim(n, m) && n.brk.None? && n.started
  {
    hide Closes;
    var b, d := c.brk.value, p.brk.value;
    var u, v := c.(rb := c.rb[..b.idx], rstyle := b.style, brk := None), p.(rb := p.rb[..d.idx], rstyle := d.style, brk := None);
    assert Sim(u, v);
    NewRowSim(cfg, u, v);
    assert NewRow(cfg, u) == NewRow(cfg, c.(rb := c.rb[..b.idx], rstyle := b.style));
    assert NewRow(InPlain(cfg), v) == NewRow(InPlain(cfg), p.(rb := p.rb[..d.idx], rstyle := d.style));
  }

  /** A row that strips to t is at least as long as t. */
  lemma {:induction false} StripShortens(b: seq<byte>)
    ensures |Strip(b)| <= |b|
  {
    if b != [] {
      StripShortens(b[..|b| - 1]);
    }
  }

  lemma RoomSim(cfg: Config, c: State, p: State)
    requires cfg.Sound() && !cfg.plain && Sim(c, p) && c.started && |c.rb| <= CUTOFF
    ensures Sim(Room(cfg, c), Room(InPlain(cfg), p))
  {
    StripShortens(c.rb);
    hide NewRow, BackUp, Strip;
    NewRowSim(cfg, c, p);
    if c.brk.Some? {
      BackUpSim(cfg, c, p);
    }
  }

  lemma SpaceSim(cfg: Config, c: State, p: State)
    requires cfg.Sound() && !cfg.plain && Sim(c, p) && c.started
    ensures Sim(PutSpace(cfg, c), PutSpace(InPlain(cfg), p))
  {
    hide Closes, NewRow, Apply, BreaksMatch;
    NewRowSim(cfg, c, p);
    ApplySim(cfg, c, p);
    ApplyStarted(cfg, c);
    MarkSim(Apply(cfg, c), Apply(InPlain(cfg), p));
  }

  /** A space put, and remembered as the place to break. */
  lemma MarkSim(a: State, b: State)
    requires Sim(a, b) && a.started
    ensures Sim(Append(a, SPACE).(brk := Some(Break(|a.rb|, a.rstyle))), Append(b, SPACE).(brk := Some(Break(|b.rb|, b.rstyle))))
  {
    ClosesText([]);
    hide Closes;
    AppendSim(a, b, SPACE, a.col + 1);
    var ar, br := a.rb + [SPACE], b.rb + [SPACE];
    assert ar[..|a.rb|] == a.rb && br[..|b.rb|] == b.rb && ar[|a.rb| + 1..] == [] && br[|b.rb| + 1..] == [];
  }

  lemma ApplyStarted(cfg: Config, s: State)
    ensures Apply(cfg, s).started == s.started
  {
  }

  lemma PutByteSim(cfg: Config, c: State, p: State, b: byte)
    requires cfg.Sound() && !cfg.plain && Sim(c, p) && c.started && |c.rb| <= CUTOFF
    ensures Sim(PutByte(cfg, c, b), PutByte(InPlain(cfg), p, b)) && PutByte(cfg, c, b).started
  {
    hide Closes, NewRow, Apply, PutSpace, Room, BreaksMatch;
    match Filtered(b)
    case None =>
    case Some(d) =>
      if Continues(d) {
        AppendSim(c, p, d, c.col);
        AppendSim(c, p, d, p.col);
      } else if d == SPACE && cfg.words {
        SpaceSim(cfg, c, p);
        SpaceStarted(cfg, c);
      } else {
        RoomSim(cfg, c, p);
        var r, q := Room(cfg, c), Room(InPlain(cfg), p);
        RoomStarted(cfg, c);
        ApplySim(cfg, r, q);
        ApplyStarted(cfg, r);
        AppendSim(Apply(cfg, r), Apply(InPlain(cfg), q), d, Apply(cfg, r).col + 1);
      }
  }

  lemma SpaceStarted(cfg: Config, s: State)
    requires s.started
    ensures PutSpace(cfg, s).started
  {
  }

  lemma RoomStarted(cfg: Config, s: State)
    requires s.started
    ensures Room(cfg, s).started
  {
    hide Cells, Width;
  }

  /** No row reaches the length cutoff while the text is put. */
  ghost predicate NoCutoff(cfg: Config, s: State, puts: seq<Put>) {
    forall i :: 0 <= i < |puts| ==> |PutAll(cfg, s, puts[..i]).rb| <= CUTOFF
  }

  lemma {:induction false} PutAllSim(cfg: Config, c: State, p: State, puts: seq<Put>)
    requires cfg.Sound() && !cfg.plain && Sim(c, p) && c.started && NoCutoff(cfg, c, puts)
    ensures Sim(PutAll(cfg, c, puts), PutAll(InPlain(cfg), p, puts)) && PutAll(cfg, c, puts).started
  {
    hide Closes, PutByte, BreaksMatch;
    if puts != [] {
      var m := |puts| - 1;
      forall i | 0 <= i < m ensures |PutAll(cfg, c, puts[..m][..i]).rb| <= CUTOFF {
        assert puts[..m][..i] == puts[..i];
      }
      PutAllSim(cfg, c, p, puts[..m]);
      var t, u := PutAll(cfg, c, puts[..m]), PutAll(InPlain(cfg), p, puts[..m]);
      BreaksIgnoreCur(t, u, puts[m].style);
      PutByteSim(cfg, t.(cur := puts[m].style), u.(cur := puts[m].style), puts[m].ch);
    }
  }

  lemma BreaksIgnoreCur(c: State, p: State, st: Style)
    requires Sim(c, p)
    ensures Sim(c.(cur := st), p.(cur := st))
  {
  }

  /** A block rendered in colour strips to the same block rendered plain. */
  lemma ColourKeepsLayout(cfg: Config, c: State, p: State, puts: seq<Put>)
    requires cfg.Sound() && !cfg.plain && Sim(c, p)
    requires NoCutoff(cfg, Start(cfg, c, true), puts)
    ensures Sim(Finish(cfg, PutAll(cfg, Start(cfg, c, true), puts)),
                Finish(InPlain(cfg), PutAll(InPlain(cfg), Start(InPlain(cfg), p, true), puts)))
  {
    hide Closes, PutAll, BreaksMatch, EndRow;
    StartSim(cfg, c, p, true);
    var s, t := Start(cfg, c, true), Start(InPlain(cfg), p, true);
    PutAllSim(cfg, s, t, puts);
    EndRowSim(cfg, PutAll(cfg, s, puts), PutAll(InPlain(cfg), t, puts));
  }
}
