/** The row builder as the program runs it: one object updated in place, writing
    rows to an output it shares with the other blocks of the document. */
module MdBuilder {
  import opened Bytes
  import opened MdTerminal
  import opened MdWrap

  class Output {
    const width: nat
    const plain: bool
    var rows: seq<seq<byte>>
    var anyOut: bool
    var needBlank: bool

    constructor (width: nat, plain: bool)
      ensures this.width == width && this.plain == plain && rows == [] && !anyOut && !needBlank
    {
      this.width, this.plain := width, plain;
      rows, anyOut, needBlank := [], false, false;
    }

    method Row(b: seq<byte>)
      modifies this
      ensures rows == old(rows) + [b] && anyOut && needBlank == old(needBlank)
    {
      rows := rows + [b];
      anyOut := true;
    }
  }

  class Builder {
    const o: Output
    const cfg: Config
    var rb: seq<byte>
    var col: nat
    var pcol: nat
    var rstyle: Option<Style>
    var brk: Option<Break>
    var cur: Style
    var started: bool

    constructor (o: Output, words: bool, first: Prefix, cont: Prefix, base: seq<byte>)
      ensures this.o == o && cfg == Config(o.width, o.plain, words, first, cont, base)
      ensures rb == [] && col == 0 && pcol == 0 && rstyle.None? && brk.None? && cur == NO_STYLE && !started
    {
      this.o := o;
      cfg := Config(o.width, o.plain, words, first, cont, base);
      rb, col, pcol, rstyle, brk, cur, started := [], 0, 0, None, None, NO_STYLE, false;
    }

    ghost function Snap(): State
      reads this, o
    {
      State(o.rows, o.anyOut, o.needBlank, rb, col, pcol, rstyle, brk, cur, started)
    }

    /** The break always lies on the open row. */
    ghost predicate Valid()
      reads this
    {
      brk.Some? ==> brk.value.idx < |rb|
    }

    method StartRow(first: bool)
      modifies this, o
      ensures cur == old(cur) && Snap() == Start(cfg, old(Snap()), first) && Valid() && started
    {
      if o.needBlank && o.anyOut {
        o.Row([]);
      }
      o.needBlank := false;
      var p := if first then cfg.first else cfg.cont;
      rb := p.Bytes(cfg.plain);
      col := p.Cols();
      pcol := col;
      rstyle := None;
      brk := None;
      started := true;
    }

    /** Put the wanted style in effect before a visible byte. */
    method ApplyStyle()
      requires Valid()
      modifies this
      ensures cur == old(cur) && Snap() == Apply(cfg, old(Snap())) && Valid() && started == old(started)
    {
      if !cur.Plain() || cfg.base != [] {
        if rstyle != Some(cur) {
          rb := rb + StyleBytes(cfg, cur);
          rstyle := Some(cur);
        }
      } else if rstyle.Some? {
        if !cfg.plain {
          rb := rb + Sgr(RESET_PARAMS);
        }
        rstyle := None;
      }
    }

    method FinishRow()
      modifies o
      ensures Snap() == EndRow(cfg, old(Snap()))
    {
      o.Row(if rstyle.Some? && !cfg.plain then rb + Sgr(RESET_PARAMS) else rb);
    }

    /** End the row at its last space and carry the rest over. */
    method CarryOver()
      requires Valid() && brk.Some?
      modifies this, o
      ensures cur == old(cur) && Snap() == BackUp(cfg, old(Snap()), old(brk.value)) && Valid() && started
    {
      hide Start, EndRow, StyleBytes, Cells, Width;
      var Break(idx, bst) := brk.value;
      var rest := rb[idx + 1..];
      var oldStyle := rstyle;
      rb := rb[..idx];
      rstyle := bst;
      FinishRow();
      StartRow(false);
      if bst.Some? {
        rb := rb + StyleBytes(cfg, bst.value);
      }
      rb := rb + rest;
      rstyle := oldStyle;
      var n := Vis(rest);
      col := col + n;
    }

    method AddSpace()
      requires Valid() && started
      modifies this, o
      ensures cur == old(cur) && Snap() == PutSpace(cfg, old(Snap())) && Valid() && started
    {
      hide Start, EndRow, Apply;
      if col == pcol {
        return;
      }
      if col >= cfg.width {
        FinishRow();
        StartRow(false);
        return;
      }
      ApplyStyle();
      rb := rb + [SPACE];
      col := col + 1;
      brk := Some(Break(|rb| - 1, rstyle));
    }

    method AddGlyph(c: byte)
      requires Valid() && started
      modifies this, o
      ensures cur == old(cur) && Snap() == PutGlyph(cfg, old(Snap()), c) && Valid() && started
    {
      hide Start, EndRow, BackUp, Apply;
      if col >= cfg.width || |rb| > CUTOFF {
        if cfg.words && brk.Some? {
          CarryOver();
        } else {
          FinishRow();
          StartRow(false);
        }
      }
      ApplyStyle();
      rb := rb + [c];
      col := col + 1;
    }

    /** Add one byte of rendered text. */
    method Add(b: byte)
      requires Valid()
      modifies this, o
      ensures cur == old(cur) && Snap() == PutByte(cfg, old(Snap()), b) && Valid() && started
    {
      hide Start, PutSpace, PutGlyph;
      var c := b;
      if !started {
        StartRow(true);
      }
      if c == TAB {
        c := SPACE;
      }
      if c < 32 || c == 127 {
        return;
      }
      if Continues(c) {
        rb := rb + [c];
      } else if c == SPACE && cfg.words {
        AddSpace();
      } else {
        AddGlyph(c);
      }
    }

    method Close()
      requires Valid()
      modifies this, o
      ensures cur == old(cur) && Snap() == Finish(cfg, old(Snap())) && Valid()
    {
      if !started {
        StartRow(true);
      }
      FinishRow();
      started := false;
    }
  }
}
