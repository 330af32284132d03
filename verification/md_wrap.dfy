/** The row builder: greedy wrapping that backs up to the last space and carries
    the SGR style over the break, as functions of its state. */
module MdWrap {
  import opened Bytes
  import opened MdTerminal

  const TAB := 9
  const CUTOFF := 900

  datatype Style = Style(bold: bool, italic: bool, link: bool, code: bool, url: bool) {
    predicate Plain() {
      !bold && !italic && !link && !code && !url
    }
  }

  const NO_STYLE := Style(false, false, false, false, false)

  const RESET_PARAMS: seq<byte> := [48]  // "0"

  /** "0", the block's own parameters, then ;1 ;3 ;4 ;33 ;32 as wanted. */
  function StyleParams(base: seq<byte>, st: Style): seq<byte> {
    [48] + base
    + (if st.bold then [59, 49] else []) + (if st.italic then [59, 51] else [])
    + (if st.link then [59, 52] else []) + (if st.code then [59, 51, 51] else [])
    + (if st.url then [59, 51, 50] else [])
  }

  /** What a block puts at the start of a row. */
  datatype Prefix = Margin(n: nat) | Item(margin: nat, marker: seq<byte>) | Bar {
    function Cols(): nat {
      match this
      case Margin(n) => n
      case Item(m, mk) => m + |mk| + 1
      case Bar => 2
    }

    function Bytes(plain: bool): seq<byte> {
      match this
      case Margin(n) => Blanks(n)
      case Item(m, mk) => Blanks(m) + Coloured(plain, [51, 54], mk) + [SPACE]
      case Bar => Coloured(plain, [51, 50], [124]) + [SPACE]
    }

    predicate Sound() {
      Cols() <= 19 && (Item? ==> forall c :: c in marker ==> 33 <= c < 127)
    }
  }

  function Blanks(n: nat): seq<byte> {
    seq(n, i => SPACE)
  }

  function Coloured(plain: bool, params: seq<byte>, text: seq<byte>): seq<byte> {
    if plain then text else Sgr(params) + text + Sgr(RESET_PARAMS)
  }

  datatype Config = Config(width: nat, plain: bool, words: bool, first: Prefix, cont: Prefix, base: seq<byte>) {
    predicate Sound() {
      && width >= 20 && first.Sound() && cont.Sound() && cont.Cols() <= first.Cols()
      && SgrParams(base)
    }

    /** The prefix of the block's k-th row. */
    function Lead(k: nat): Prefix {
      if k == 0 then first else cont
    }

    function LeadBytes(k: nat): seq<byte> {
      Lead(k).Bytes(plain)
    }

    /** The style the terminal shows for a style put, and for the one in effect. */
    function Look(st: Style): seq<byte> {
      if plain then [] else Normal(StyleParams(base, st))
    }

    function Effect(st: Option<Style>): seq<byte> {
      if st.None? then [] else Look(st.value)
    }
  }

  datatype Break = Break(idx: nat, style: Option<Style>)

  datatype State = State(rows: seq<seq<byte>>, anyOut: bool, needBlank: bool, rb: seq<byte>, col: nat, pcol: nat,
                         rstyle: Option<Style>, brk: Option<Break>, cur: Style, started: bool)

  function StyleBytes(cfg: Config, st: Style): seq<byte> {
    if cfg.plain then [] else Sgr(StyleParams(cfg.base, st))
  }

  function EmitRow(s: State, row: seq<byte>): State {
    s.(rows := s.rows + [row], anyOut := true)
  }

  function Start(cfg: Config, s: State, first: bool): State {
    var t := if s.needBlank && s.anyOut then EmitRow(s, []) else s;
    var p := if first then cfg.first else cfg.cont;
    t.(needBlank := false, rb := p.Bytes(cfg.plain), col := p.Cols(), pcol := p.Cols(), rstyle := None, brk := None, started := true)
  }

  function Apply(cfg: Config, s: State): State {
    if !s.cur.Plain() || cfg.base != [] then
      if s.rstyle != Some(s.cur) then s.(rb := s.rb + StyleBytes(cfg, s.cur), rstyle := Some(s.cur)) else s
    else if s.rstyle.Some? then
      s.(rb := if cfg.plain then s.rb else s.rb + Sgr(RESET_PARAMS), rstyle := None)
    else s
  }

  function EndRow(cfg: Config, s: State): State {
    EmitRow(s, if s.rstyle.Some? && !cfg.plain then s.rb + Sgr(RESET_PARAMS) else s.rb)
  }

  function NewRow(cfg: Config, s: State): State {
    Start(cfg, EndRow(cfg, s), false)
  }

  /** Break at the last space: the row ends before it, and what follows it moves
      to the next row in the style it was written in. */
  function BackUp(cfg: Config, s: State, b: Break): State
    requires b.idx < |s.rb|
  {
    var rest := s.rb[b.idx + 1..];
    var t := NewRow(cfg, s.(rb := s.rb[..b.idx], rstyle := b.style));
    t.(rb := t.rb + (if b.style.Some? then StyleBytes(cfg, b.style.value) else []) + rest,
       rstyle := s.rstyle, col := t.col + Width(Cells(FRESH, rest)))
  }

  function Append(s: State, c: byte): State {
    s.(rb := s.rb + [c], col := s.col + 1)
  }

  function PutSpace(cfg: Config, s: State): State {
    if s.col == s.pcol then s
    else if s.col >= cfg.width then NewRow(cfg, s)
    else
      var t := Append(Apply(cfg, s), SPACE);
      t.(brk := Some(Break(|t.rb| - 1, t.rstyle)))
  }

  /** The row a byte goes to: the open one, or a new one when that is full. */
  function Room(cfg: Config, s: State): State {
    if s.col >= cfg.width || |s.rb| > CUTOFF then
      if cfg.words && s.brk.Some? && s.brk.value.idx < |s.rb| then BackUp(cfg, s, s.brk.value) else NewRow(cfg, s)
    else s
  }

  function PutGlyph(cfg: Config, s: State, c: byte): State {
    Append(Apply(cfg, Room(cfg, s)), c)
  }

  /** The byte a put really adds: tabs are spaces, controls nothing. */
  function Filtered(c: byte): Option<byte> {
    if c == TAB then Some(SPACE) else if c < 32 || c == 127 then None else Some(c)
  }

  function PutByte(cfg: Config, s: State, c: byte): State {
    var s := if s.started then s else Start(cfg, s, true);
    match Filtered(c)
    case None => s
    case Some(c) =>
      if Continues(c) then s.(rb := s.rb + [c])
      else if c == SPACE && cfg.words then PutSpace(cfg, s)
      else PutGlyph(cfg, s, c)
  }

  /** One put of rendered text: the byte, and the style wanted for it. */
  datatype Put = Put(ch: byte, style: Style)

  function PutAll(cfg: Config, s: State, puts: seq<Put>): State {
    if puts == [] then s
    else
      var p := puts[|puts| - 1];
      PutByte(cfg, PutAll(cfg, s, puts[..|puts| - 1]).(cur := p.style), p.ch)
  }

  function Finish(cfg: Config, s: State): State {
    var s := if s.started then s else Start(cfg, s, true);
    EndRow(cfg, s).(started := false)
  }

  // ----- what a row shows -----

  /** Bytes that leave a fresh terminal fresh and take w columns. */
  predicate Neutral(b: seq<byte>, w: nat) {
    After(FRESH, b) == FRESH && Width(Cells(FRESH, b)) == w
  }

  lemma NeutralCat(a: seq<byte>, w: nat, b: seq<byte>, v: nat)
    requires Neutral(a, w) && Neutral(b, v)
    ensures Neutral(a + b, w + v)
  {
    ShowCat(FRESH, a, b);
    WidthCat(Cells(FRESH, a), Cells(FRESH, b));
  }

  lemma ShowLead(cfg: Config, k: nat)
    requires cfg.Sound()
    ensures Neutral(cfg.LeadBytes(k), cfg.Lead(k).Cols())
  {
    hide Neutral, Coloured;
    ShowFlat([SPACE]);
    match cfg.Lead(k)
    case Margin(n) => ShowFlat(Blanks(n));
    case Item(m, mk) =>
      var text := Coloured(cfg.plain, [51, 54], mk);
      ShowFlat(Blanks(m));
      ShowColoured(cfg.plain, [51, 54], mk);
      NeutralCat(Blanks(m), m, text, |mk|);
      NeutralCat(Blanks(m) + text, m + |mk|, [SPACE], 1);
    case Bar =>
      ShowColoured(cfg.plain, [51, 50], [124]);
      NeutralCat(Coloured(cfg.plain, [51, 50], [124]), 1, [SPACE], 1);
  }

  lemma {:induction false} ShowText(p: Pen, b: seq<byte>)
    requires p.mode.Ground? && forall c :: c in b ==> 32 <= c < 127
    ensures After(p, b) == p && Width(Cells(p, b)) == |b|
  {
    if b != [] {
      var m := |b| - 1;
      assert forall c :: c in b[..m] ==> c in b;
      assert b[m] in b;
      ShowText(p, b[..m]);
      WidthCat(Cells(p, b[..m]), Shown(p, b[m]));
    }
  }

  lemma ShowFlat(b: seq<byte>)
    requires forall c :: c in b ==> 32 <= c < 127
    ensures Neutral(b, |b|)
  {
    ShowText(FRESH, b);
  }

  lemma {:induction false} WidthStyled(a: seq<Cell>, b: seq<Cell>)
    requires |a| == |b| && forall i :: 0 <= i < |a| ==> a[i].ch == b[i].ch
    ensures Width(a) == Width(b)
  {
    if a != [] {
      WidthStyled(a[..|a| - 1], b[..|b| - 1]);
    }
  }

  lemma ShowColoured(plain: bool, params: seq<byte>, text: seq<byte>)
    requires SgrParams(params) && forall c :: c in text ==> 32 <= c < 127
    ensures Neutral(Coloured(plain, params, text), |text|)
  {
    hide After, Cells, Width, Sgr;
    ShowText(FRESH, text);
    if !plain {
      var p := Pen(Ground, Normal(params));
      ShowText(p, text);
      ShowSgr(FRESH, params);
      ShowSgr(p, RESET_PARAMS);
      ShowCat(FRESH, Sgr(params), text);
      ShowCat(FRESH, Sgr(params) + text, Sgr(RESET_PARAMS));
      assert [] + Cells(p, text) + [] == Cells(p, text);
    }
  }

  lemma ShowStyle(cfg: Config, p: Pen, st: Style)
    requires cfg.Sound() && p.mode.Ground? && (cfg.plain ==> p.style == [])
    ensures After(p, StyleBytes(cfg, st)) == Pen(Ground, cfg.Look(st))
    ensures Cells(p, StyleBytes(cfg, st)) == []
  {
    if !cfg.plain {
      assert SgrParams(StyleParams(cfg.base, st));
      ShowSgr(p, StyleParams(cfg.base, st));
    }
  }
}
