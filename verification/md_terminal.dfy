/** What a terminal shows of a row of bytes: the visible bytes, each with the SGR
    style in effect when it appears. */
module MdTerminal {
  import opened Bytes

  const ESC := 27

  /** Where the terminal is in an escape sequence, and the style last set. The
      style is kept as its parameter bytes; a reset is the empty style. */
  datatype Mode = Ground | Escape | Params(acc: seq<byte>)

  datatype Pen = Pen(mode: Mode, style: seq<byte>)

  datatype Cell = Cell(ch: byte, style: seq<byte>)

  const FRESH := Pen(Ground, [])

  function Normal(params: seq<byte>): seq<byte> {
    if params == ['0' as int] then [] else params
  }

  function Feed(p: Pen, c: byte): Pen {
    match p.mode
    case Ground => if c == ESC then Pen(Escape, p.style) else p
    case Escape => if c == '[' as int then Pen(Params([]), p.style) else Pen(Ground, p.style)
    case Params(acc) =>
      if 0x40 <= c <= 0x7e then Pen(Ground, if c == 'm' as int then Normal(acc) else p.style)
      else Pen(Params(acc + [c]), p.style)
  }

  function Shown(p: Pen, c: byte): seq<Cell> {
    if p.mode.Ground? && c != ESC then [Cell(c, p.style)] else []
  }

  function After(p: Pen, b: seq<byte>): Pen {
    if b == [] then p else Feed(After(p, b[..|b| - 1]), b[|b| - 1])
  }

  function Cells(p: Pen, b: seq<byte>): seq<Cell> {
    if b == [] then [] else Cells(p, b[..|b| - 1]) + Shown(After(p, b[..|b| - 1]), b[|b| - 1])
  }

  /** UTF-8 continuation bytes take no column. */
  predicate Continues(c: byte) {
    0x80 <= c < 0xC0
  }

  function Width(cells: seq<Cell>): nat {
    if cells == [] then 0 else Width(cells[..|cells| - 1]) + if Continues(cells[|cells| - 1].ch) then 0 else 1
  }

  /** The bytes shown, whatever their style. */
  function Chars(cells: seq<Cell>): (r: seq<byte>)
    ensures |r| == |cells| && forall i :: 0 <= i < |r| ==> r[i] == cells[i].ch
  {
    seq(|cells|, i requires 0 <= i < |cells| => cells[i].ch)
  }

  lemma {:induction false} WidthCat(a: seq<Cell>, b: seq<Cell>)
    ensures Width(a + b) == Width(a) + Width(b)
  {
    if b == [] {
      assert a + b == a;
    } else {
      assert (a + b)[..|a + b| - 1] == a + b[..|b| - 1];
      WidthCat(a, b[..|b| - 1]);
    }
  }

  /** Showing is additive: the second part is shown from where the first ends. */
  lemma {:induction false} ShowCat(p: Pen, a: seq<byte>, b: seq<byte>)
    ensures After(p, a + b) == After(After(p, a), b)
    ensures Cells(p, a + b) == Cells(p, a) + Cells(After(p, a), b)
  {
    if b == [] {
      assert a + b == a;
    } else {
      assert (a + b)[..|a + b| - 1] == a + b[..|b| - 1];
      ShowCat(p, a, b[..|b| - 1]);
    }
  }

  lemma ShowByte(p: Pen, a: seq<byte>, c: byte)
    ensures After(p, a + [c]) == Feed(After(p, a), c)
    ensures Cells(p, a + [c]) == Cells(p, a) + Shown(After(p, a), c)
  {
    assert (a + [c])[..|a|] == a;
  }

  /** Text without escapes is shown as it is. */
  lemma {:induction false} ShowPlain(p: Pen, b: seq<byte>)
    requires p.mode.Ground? && ESC !in b
    ensures After(p, b) == p
    ensures Cells(p, b) == seq(|b|, i requires 0 <= i < |b| => Cell(b[i], p.style))
  {
    if b != [] {
      ShowPlain(p, b[..|b| - 1]);
    }
  }

  /** A parameter string between "ESC [" and "m". */
  predicate SgrParams(params: seq<byte>) {
    forall c :: c in params ==> !(0x40 <= c <= 0x7e)
  }

  function Sgr(params: seq<byte>): seq<byte> {
    [ESC, '[' as int] + params + ['m' as int]
  }

  lemma {:induction false} ShowParams(p: Pen, params: seq<byte>)
    requires p.mode.Params? && SgrParams(params)
    ensures After(p, params) == Pen(Params(p.mode.acc + params), p.style) && Cells(p, params) == []
  {
    if params == [] {
      assert p.mode.acc + params == p.mode.acc;
    } else {
      var m := |params| - 1;
      assert forall c :: c in params[..m] ==> c in params;
      assert params[m] in params;
      ShowParams(p, params[..m]);
      assert p.mode.acc + params[..m] + [params[m]] == p.mode.acc + params;
    }
  }

  /** An SGR sequence shows nothing and sets the style to its parameters. */
  lemma ShowSgr(p: Pen, params: seq<byte>)
    requires p.mode.Ground? && SgrParams(params)
    ensures After(p, Sgr(params)) == Pen(Ground, Normal(params))
    ensures Cells(p, Sgr(params)) == []
  {
    hide After, Cells;
    var head: seq<byte> := [ESC, '[' as int];
    ShowCsi(p);
    ShowParams(After(p, head), params);
    ShowCat(p, head, params);
    ShowByte(p, head + params, 'm' as int);
    assert [] + params == params;
  }

  lemma ShowCsi(p: Pen)
    requires p.mode.Ground?
    ensures After(p, [ESC, '[' as int]) == Pen(Params([]), p.style) && Cells(p, [ESC, '[' as int]) == []
  {
    assert After(p, []) == p && Cells(p, []) == [];
    ShowByte(p, [], ESC);
    assert [] + [ESC] == [ESC];
    ShowByte(p, [ESC], '[' as int);
    assert [ESC] + ['[' as int] == [ESC, '[' as int];
  }

  /** Columns the first i bytes take, and one byte more. */
  function Cols(b: seq<byte>, i: nat): nat
    requires i <= |b|
  {
    Width(Cells(FRESH, b[..i]))
  }

  lemma ColsStep(b: seq<byte>, i: nat)
    requires i < |b|
    ensures After(FRESH, b[..i + 1]) == Feed(After(FRESH, b[..i]), b[i])
    ensures Cols(b, i + 1) == Cols(b, i) + if After(FRESH, b[..i]).mode.Ground? && b[i] != ESC && !Continues(b[i]) then 1 else 0
  {
    assert b[..i + 1] == b[..i] + [b[i]];
    ShowByte(FRESH, b[..i], b[i]);
    WidthCat(Cells(FRESH, b[..i]), Shown(After(FRESH, b[..i]), b[i]));
  }

  /** Columns a row takes, skipping escape sequences. */
  method Vis(b: seq<byte>) returns (n: nat)
    ensures n == Width(Cells(FRESH, b))
  {
    n := 0;
    var i: nat := 0;
    while i < |b|
      invariant if i <= |b| then After(FRESH, b[..i]).mode.Ground? && n == Cols(b, i) else n == Cols(b, |b|)
      decreases |b| - i
    {
      hide Cols;
      ColsStep(b, i);
      var c := b[i];
      if c == ESC {
        i := SkipEscape(b, i);
        continue;
      }
      if !Continues(c) {
        n := n + 1;
      }
      i := i + 1;
    }
    assert b[..|b|] == b;
  }

  method SkipEscape(b: seq<byte>, start: nat) returns (i: nat)
    requires start < |b| && b[start] == ESC && After(FRESH, b[..start]).mode.Ground?
    ensures start < i && Cols(b, if i < |b| then i else |b|) == Cols(b, start)
    ensures i <= |b| ==> After(FRESH, b[..i]).mode.Ground?
  {
    hide Cols;
    i := start;
    ColsStep(b, i);
    i := i + 1;
    if i < |b| {
      ColsStep(b, i);
    }
    if i < |b| && b[i] == '[' as int {
      i := i + 1;
      while i < |b| && !(0x40 <= b[i] <= 0x7e)
        invariant start < i <= |b| && After(FRESH, b[..i]).mode.Params? && Cols(b, i) == Cols(b, start)
      {
        ColsStep(b, i);
        i := i + 1;
      }
      if i < |b| {
        ColsStep(b, i);
      }
    }
    i := i + 1;
  }
}
