/** A document is its blocks, one below the other: each shows what it would show alone, and
    where there was a gap, and only there, one blank row keeps two of them apart. */
module MdStack {
  import opened Bytes
  import opened MdTerminal
  import opened MdWrap
  import MdContent
  import opened MdDoc
  import opened MdInline
  import opened MdSource

  // ----- a block does not depend on the rows above it -----

  /** The same state below other rows. */
  function Below(s: State, above: seq<seq<byte>>): State {
    s.(rows := above + s.rows, anyOut := above != [] || s.anyOut)
  }

  lemma EmitBelow(s: State, above: seq<seq<byte>>, row: seq<byte>)
    ensures EmitRow(Below(s, above), row) == Below(EmitRow(s, row), above)
  {
    assert above + s.rows + [row] == above + (s.rows + [row]);
  }

  lemma NewRowBelow(cfg: Config, s: State, above: seq<seq<byte>>)
    requires !s.needBlank
    ensures NewRow(cfg, Below(s, above)) == Below(NewRow(cfg, s), above) && !NewRow(cfg, s).needBlank && NewRow(cfg, s).started
  {
    hide Prefix.Bytes, Prefix.Cols, Sgr;
    EmitBelow(s, above, if s.rstyle.Some? && !cfg.plain then s.rb + Sgr(RESET_PARAMS) else s.rb);
  }

  lemma ApplyBelow(cfg: Config, s: State, above: seq<seq<byte>>)
    ensures Apply(cfg, Below(s, above)) == Below(Apply(cfg, s), above)
    ensures Apply(cfg, s).needBlank == s.needBlank && Apply(cfg, s).started == s.started
  {
    hide StyleBytes, Sgr;
  }

  lemma BackUpBelow(cfg: Config, s: State, above: seq<seq<byte>>, b: Break)
    requires !s.needBlank && b.idx < |s.rb|
    ensures BackUp(cfg, Below(s, above), b) == Below(BackUp(cfg, s, b), above)
    ensures !BackUp(cfg, s, b).needBlank && BackUp(cfg, s, b).started
  {
    hide NewRow, StyleBytes, Cells, Width;
    NewRowBelow(cfg, s.(rb := s.rb[..b.idx], rstyle := b.style), above);
  }

  lemma RoomBelow(cfg: Config, s: State, above: seq<seq<byte>>)
    requires !s.needBlank && s.started
    ensures Room(cfg, Below(s, above)) == Below(Room(cfg, s), above) && !Room(cfg, s).needBlank && Room(cfg, s).started
  {
    hide NewRow, BackUp;
    NewRowBelow(cfg, s, above);
    if s.brk.Some? && s.brk.value.idx < |s.rb| {
      BackUpBelow(cfg, s, above, s.brk.value);
    }
  }

  lemma PutBelow(cfg: Config, s: State, above: seq<seq<byte>>, c: byte)
    requires !s.needBlank && s.started
    ensures PutByte(cfg, Below(s, above), c) == Below(PutByte(cfg, s, c), above)
    ensures !PutByte(cfg, s, c).needBlank && PutByte(cfg, s, c).started
  {
    hide NewRow, Room, Apply;
    NewRowBelow(cfg, s, above);
    RoomBelow(cfg, s, above);
    ApplyBelow(cfg, s, above);
    ApplyBelow(cfg, Room(cfg, s), above);
  }

  lemma {:induction false} AllBelow(cfg: Config, s: State, above: seq<seq<byte>>, puts: seq<Put>)
    requires !s.needBlank && s.started
    ensures PutAll(cfg, Below(s, above), puts) == Below(PutAll(cfg, s, puts), above)
    ensures !PutAll(cfg, s, puts).needBlank && PutAll(cfg, s, puts).started
  {
    hide PutByte;
    if puts != [] {
      var m := |puts| - 1;
      AllBelow(cfg, s, above, puts[..m]);
      PutBelow(cfg, PutAll(cfg, s, puts[..m]).(cur := puts[m].style), above, puts[m].ch);
    }
  }

  /** What is above a block when it is opened: the rows so far and the blank row due. */
  function Above(s: State): seq<seq<byte>> {
    s.rows + if s.needBlank && s.anyOut then [[]] else []
  }

  lemma BlockBelow(cfg: Config, s: State, puts: seq<Put>)
    requires s.anyOut == (s.rows != [])
    ensures MdContent.Block(cfg, s, puts).rows == Above(s) + MdContent.Block(cfg, IDLE, puts).rows
    ensures var t := MdContent.Block(cfg, s, puts); t.anyOut && !t.needBlank && MdContent.Block(cfg, IDLE, puts).rows != []
  {
    hide PutByte, Prefix.Bytes, Prefix.Cols, Sgr;
    var o := Start(cfg, IDLE, true);
    Restart(cfg, s, puts);
    AllBelow(cfg, o.(cur := s.cur), Above(s), puts);
    WantedFirst(cfg, o, s.cur, puts);
    var p := PutAll(cfg, o.(cur := s.cur), puts);
    EmitBelow(p, Above(s), if p.rstyle.Some? && !cfg.plain then p.rb + Sgr(RESET_PARAMS) else p.rb);
  }

  /** Opened below other rows, the builder is as when it is opened alone. */
  lemma Restart(cfg: Config, s: State, puts: seq<Put>)
    requires s.anyOut == (s.rows != [])
    ensures Start(cfg, s, true) == Below(Start(cfg, IDLE, true).(cur := s.cur), Above(s))
  {
    hide Prefix.Bytes, Prefix.Cols;
    assert Above(s) + [] == Above(s);
  }

  /** The style wanted before the first put makes no difference. */
  lemma {:induction false} WantedFirst(cfg: Config, s: State, st: Style, puts: seq<Put>)
    ensures PutAll(cfg, s.(cur := st), puts) == if puts == [] then s.(cur := st) else PutAll(cfg, s, puts)
  {
    hide PutByte;
    if puts != [] {
      WantedFirst(cfg, s, st, puts[..|puts| - 1]);
    }
  }

  // ----- documents -----

  /** The rows a block takes alone. */
  function Own(width: nat, plain: bool, b: MdDoc.Block): seq<seq<byte>>
    requires b.Sound()
  {
    Rendered(width, plain, IDLE, b).rows
  }

  /** Rows stacked block by block, and whether a blank row is due: gaps before the first
      block or behind the last show nothing, and several are as one. */
  function Stacked(width: nat, plain: bool, blocks: seq<MdDoc.Block>): (seq<seq<byte>>, bool)
    requires AllSound(blocks)
  {
    if blocks == [] then ([], false)
    else
      assert forall b :: b in blocks[..|blocks| - 1] ==> b in blocks;
      assert blocks[|blocks| - 1] in blocks;
      var (rows, due) := Stacked(width, plain, blocks[..|blocks| - 1]);
      var b := blocks[|blocks| - 1];
      if b.Gap? then (rows, due || rows != [])
      else (rows + (if due then [[]] else []) + Own(width, plain, b), false)
  }

  lemma RenderedBelow(width: nat, plain: bool, s: State, b: MdDoc.Block)
    requires b.Sound() && !b.Gap? && s.anyOut == (s.rows != [])
    ensures Rendered(width, plain, s, b).rows == Above(s) + Own(width, plain, b) && Own(width, plain, b) != []
    ensures Rendered(width, plain, s, b).anyOut && !Rendered(width, plain, s, b).needBlank
  {
    hide MdContent.Block, Render, CodePuts, Coloured;
    match b
    case Text(_, _, _, text) => BlockBelow(TextConfig(width, plain, b), s, Render(text));
    case Code(line) => BlockBelow(CodeConfig(width, plain), s, CodePuts(line, 0));
    case _ => AloneBelow(width, plain, s, b);
  }

  lemma AloneBelow(width: nat, plain: bool, s: State, b: MdDoc.Block)
    requires b.Rule? || b.EmptyQuote?
    ensures Rendered(width, plain, s, b).rows == Above(s) + Own(width, plain, b) && Own(width, plain, b) != []
    ensures Rendered(width, plain, s, b).anyOut && !Rendered(width, plain, s, b).needBlank
  {
    hide Coloured;
  }

  /** A document's rows are those of its blocks, one below the other, a single blank row
      where a gap separates two. */
  lemma {:induction false} DocumentIsStacked(width: nat, plain: bool, blocks: seq<MdDoc.Block>)
    requires AllSound(blocks)
    ensures var d, r := Document(width, plain, IDLE, blocks), Stacked(width, plain, blocks);
            d.rows == r.0 && d.anyOut == (d.rows != []) && (d.needBlank && d.anyOut) == r.1
  {
    hide Rendered, Own;
    if blocks != [] {
      var m := |blocks| - 1;
      assert forall b :: b in blocks[..m] ==> b in blocks;
      assert blocks[m] in blocks;
      DocumentIsStacked(width, plain, blocks[..m]);
      var s, b := Document(width, plain, IDLE, blocks[..m]), blocks[m];
      if b.Gap? {
        GapWaits(width, plain, s, b);
      } else {
        RenderedBelow(width, plain, s, b);
      }
    }
  }

  lemma GapWaits(width: nat, plain: bool, s: State, b: MdDoc.Block)
    requires b.Gap?
    ensures Rendered(width, plain, s, b) == s.(needBlank := s.needBlank || s.anyOut)
  {
  }

  /** And so are the rows of a file. */
  lemma FileIsStacked(data: seq<byte>, width: nat, plain: bool)
    ensures AllSound(Blocks(data)) && Rows(data, width, plain) == Stacked(width, plain, Blocks(data)).0
  {
    hide Blocks;
    BlocksSound(data);
    DocumentIsStacked(width, plain, Blocks(data));
  }
}
