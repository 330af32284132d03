/** Nothing of a file is lost: the rows of the document show the text of its blocks, and
    in a well-formed file none of them starts inside a character. */
module MdText {
  import opened Bytes
  import opened MdTerminal
  import opened MdWrap
  import opened MdContent
  import opened MdUtf8
  import opened MdBreak
  import opened MdInline
  import opened MdRender
  import opened MdDoc
  import opened MdSource
  import BatchLines

  // ----- well-formed stretches -----

  lemma Utf8Cat(a: seq<byte>, b: seq<byte>)
    requires Utf8(a) && Utf8(b)
    ensures Utf8(a + b)
  {
    forall i | 0 <= i < |a + b| && Continues((a + b)[i]) ensures i > 0 && (a + b)[i - 1] >= 0x80 {
      if i >= |a| {
        assert Continues(b[i - |a|]) && i > |a| && b[i - |a| - 1] >= 0x80;
      }
    }
  }

  lemma Utf8From(s: seq<byte>, a: nat)
    requires Utf8(s) && a <= |s| && (a > 0 ==> s[a - 1] < 0x80)
    ensures Utf8(s[a..])
  {
    if a > 0 {
      SliceUtf8(s, a, |s|);
    } else {
      assert s[0..] == s;
    }
  }

  lemma Utf8Upto(s: seq<byte>, b: nat)
    requires Utf8(s) && b <= |s|
    ensures Utf8(s[..b])
  {
  }

  lemma {:induction false} CleanedUtf8(line: seq<byte>)
    requires Utf8(line)
    ensures Utf8(Cleaned(line))
    ensures line != [] && line[|line| - 1] >= 0x80 ==>
              Cleaned(line) != [] && Cleaned(line)[|Cleaned(line)| - 1] == line[|line| - 1]
  {
    if line != [] {
      var m := |line| - 1;
      Utf8Upto(line, m);
      CleanedUtf8(line[..m]);
      if Continues(line[m]) {
        assert line[..m][m - 1] >= 0x80;
      }
    }
  }

  lemma {:induction false} SplitUtf8(data: seq<byte>)
    requires Utf8(data)
    ensures forall l :: l in SplitLines(data) ==> Utf8(l)
    decreases |data|
  {
    hide Utf8;
    var i := BatchLines.FirstLf(data);
    if i < |data| {
      Utf8Upto(data, i);
      Utf8From(data, i + 1);
      SplitUtf8(data[i + 1..]);
    }
  }

  // ----- blocks of well-formed lines -----

  predicate Whole8(b: Block) {
    match b
    case Text(_, _, _, text) => Utf8(text)
    case Code(line) => Utf8(line)
    case _ => true
  }

  predicate AllWhole8(blocks: seq<Block>) {
    forall b :: b in blocks ==> Whole8(b)
  }

  lemma GatheredWhole(d: Parse)
    requires Utf8(d.blk)
    ensures AllWhole8(Gathered(d)) && Utf8(Closed(d).blk)
  {
    Utf8Cat(d.blk, [0]);
    hide Utf8;
    EmptyUtf8();
  }

  lemma EmptyUtf8()
    ensures Utf8([]) && Utf8([SPACE])
  {
  }

  lemma HeadingUtf8(s: seq<byte>, k: nat)
    requires Utf8(s) && k <= |s| && (k > 0 ==> s[k - 1] < 0x80)
    ensures Utf8(HeadingText(s, k))
  {
    hide Utf8, MarksStart, TextEnd;
    EmptyUtf8();
    var a, b := WhiteEnd(s, k), TextEnd(s, |s|);
    if a < b {
      Utf8From(s, a);
      Utf8Upto(s[a..], b - a);
      assert s[a..][..b - a] == s[a..b];
    }
    var c := if a < b then s[a..b] else [];
    Utf8Upto(c, TextEnd(c, MarksStart(c, |c|)));
  }

  lemma LeadingWhole(d: Parse, ind: nat, s: seq<byte>)
    requires Utf8(d.blk) && Utf8(s) && s != []
    ensures Leading(d, ind, s).Some? ==> Utf8(Leading(d, ind, s).value.0.blk) && AllWhole8(Leading(d, ind, s).value.1)
  {
    hide Utf8, RunEnd, TextEnd, Occurrences, Gathered, HeadingText;
    GatheredWhole(d);
    GatheredWhole(d.(kind := Head, level := if s[0] == EQUAL then 1 else 2));
    var k := RunEnd(s, 0, HASH);
    HeadingUtf8(s, k);
    GatheredWhole(Opened(d, Head, HeadingText(s, k)).(level := k));
  }

  lemma FollowingWhole(d: Parse, ind: nat, s: seq<byte>, line: seq<byte>)
    requires Utf8(d.blk) && Utf8(s) && Utf8(line) && s != []
    ensures Utf8(Following(d, ind, s, line).0.blk) && AllWhole8(Following(d, ind, s, line).1)
  {
    hide Utf8, Gathered, Marker, WhiteEnd, QuoteEnd, CodeFrom, QuoteStep, TextStep;
    GatheredWhole(d);
    EmptyUtf8();
    if Marker(s, ind).Some? {
      Utf8From(s, WhiteEnd(s, Marker(s, ind).value.1));
    }
    QuoteWhole(d, s);
    TextWhole(d, ind, s);
    GatheredWhole(Opened(d, Table, s));
    Utf8From(line, CodeFrom(line, 0, 0));
  }

  lemma QuoteWhole(d: Parse, s: seq<byte>)
    requires Utf8(d.blk) && Utf8(s)
    ensures Utf8(QuoteStep(d, s).0.blk) && AllWhole8(QuoteStep(d, s).1)
  {
    hide Utf8, Gathered, WhiteEnd, QuoteEnd;
    GatheredWhole(d);
    EmptyUtf8();
    var q := WhiteEnd(s, QuoteEnd(s, 0));
    Utf8From(s, q);
    Utf8Cat(d.blk, [SPACE]);
    Utf8Cat(d.blk + [SPACE], s[q..]);
  }

  lemma TextWhole(d: Parse, ind: nat, s: seq<byte>)
    requires Utf8(d.blk) && Utf8(s)
    ensures Utf8(TextStep(d, ind, s).0.blk) && AllWhole8(TextStep(d, ind, s).1)
  {
    hide Utf8, Gathered;
    GatheredWhole(d);
    EmptyUtf8();
    var gap := if d.blk != [] then [SPACE] else [];
    Utf8Cat(d.blk, gap);
    Utf8Cat(d.blk + gap, s);
  }

  lemma FenceWhole(d: Parse, ind: nat, s: seq<byte>, line: seq<byte>)
    requires Utf8(d.blk) && Utf8(line)
    ensures Utf8(FenceStep(d, ind, s, line).0.blk) && AllWhole8(FenceStep(d, ind, s, line).1)
  {
    hide Utf8, IndentCut, ClosesFence;
    CutIsAscii(line, d.fenceIndent, 0);
    Utf8From(line, IndentCut(line, d.fenceIndent, 0));
  }

  lemma LineWhole(d: Parse, line: seq<byte>)
    requires Utf8(d.blk) && Utf8(line)
    ensures Utf8(LineStep(d, line).0.blk) && AllWhole8(LineStep(d, line).1)
  {
    hide Utf8, Gathered, Leading, Following, Indent, FenceStep, Closed;
    var (ind, p) := Indent(line, 0, 0);
    Utf8From(line, p);
    GatheredWhole(d);
    FenceWhole(d, ind, line[p..], line);
    if line[p..] != [] {
      LeadingWhole(d, ind, line[p..]);
      FollowingWhole(d, ind, line[p..], line);
    }
  }

  lemma {:induction false} CutIsAscii(line: seq<byte>, limit: nat, q: nat)
    requires q <= |line| && q <= limit
    ensures var r := IndentCut(line, limit, q); r > q ==> line[r - 1] < 0x80
    decreases |line| - q
  {
    if q < limit && q < |line| && line[q] == SPACE {
      CutIsAscii(line, limit, q + 1);
    }
  }

  lemma {:induction false} ParsedWhole(lines: seq<seq<byte>>)
    requires forall l :: l in lines ==> Utf8(l)
    ensures Utf8(Parsed(lines).0.blk) && AllWhole8(Parsed(lines).1)
  {
    hide Utf8, LineStep, Cleaned;
    EmptyUtf8();
    if lines != [] {
      var m := |lines| - 1;
      assert forall l :: l in lines[..m] ==> l in lines;
      ParsedWhole(lines[..m]);
      CleanedUtf8(lines[m]);
      LineWhole(Parsed(lines[..m]).0, Cleaned(lines[m]));
    }
  }

  /** A well-formed file has only well-formed blocks. */
  lemma BlocksWhole(data: seq<byte>)
    requires Utf8(data)
    ensures AllWhole8(Blocks(data))
  {
    hide Utf8, Parsed, SplitLines, Gathered;
    SplitUtf8(data);
    ParsedWhole(SplitLines(data));
    GatheredWhole(Parsed(SplitLines(data)).0);
  }

  // ----- the rows of a document -----

  lemma RenderedKeepsRows(width: nat, plain: bool, s: State, b: Block)
    requires b.Sound()
    ensures s.rows <= Rendered(width, plain, s, b).rows
  {
    hide Render, CodePuts, Coloured, PutAll, Prefix.Bytes, Prefix.Cols;
    match b
    case Text(_, _, _, text) =>
      StartKeepsRows(TextConfig(width, plain, b), s);
      EarlierRowsStay(TextConfig(width, plain, b), Start(TextConfig(width, plain, b), s, true), Render(text));
    case Code(line) =>
      StartKeepsRows(CodeConfig(width, plain), s);
      EarlierRowsStay(CodeConfig(width, plain), Start(CodeConfig(width, plain), s, true), CodePuts(line, 0));
    case _ =>
  }

  lemma {:induction false} DocumentKeepsRows(width: nat, plain: bool, s: State, blocks: seq<Block>, i: nat)
    requires i <= |blocks| && AllSound(blocks)
    ensures AllSound(blocks[..i]) && Document(width, plain, s, blocks[..i]).rows <= Document(width, plain, s, blocks).rows
    decreases |blocks|
  {
    hide Rendered;
    if i < |blocks| {
      var m := |blocks| - 1;
      assert blocks[..m][..i] == blocks[..i];
      DocumentKeepsRows(width, plain, s, blocks[..m], i);
      RenderedKeepsRows(width, plain, Document(width, plain, s, blocks[..m]), blocks[m]);
    } else {
      assert blocks[..i] == blocks;
    }
  }

  /** Where the rows of block i begin among those of the document. */
  function FirstRow(width: nat, plain: bool, blocks: seq<Block>, i: nat): nat
    requires i < |blocks| && AllSound(blocks)
  {
    var s, b := Document(width, plain, IDLE, blocks[..i]), blocks[i];
    match b
    case Text(_, _, _, _) => |Start(TextConfig(width, plain, b), s, true).rows|
    case Code(_) => |Start(CodeConfig(width, plain), s, true).rows|
    case _ => |s.rows|
  }

  /** Where they end. */
  function LastRow(width: nat, plain: bool, blocks: seq<Block>, i: nat): nat
    requires i < |blocks| && AllSound(blocks)
  {
    |Document(width, plain, IDLE, blocks[..i + 1]).rows|
  }

  /** Among the rows of any file, those of each wrapped block show every non-space byte
      of its rendered text once and in order, and those of each code line show the whole
      line; in their styles too, exactly when continuation bytes find them. In a
      well-formed file they always do, and no such row starts inside a character. */
  lemma FileTextKept(data: seq<byte>, width: nat, plain: bool, i: nat)
    requires width >= 20 && i < |Blocks(data)|
    ensures AllSound(Blocks(data))
    ensures var bs, rows := Blocks(data), Rows(data, width, plain);
            var a, z, s := FirstRow(width, plain, bs, i), LastRow(width, plain, bs, i), Document(width, plain, IDLE, bs[..i]);
            match bs[i] {
              case Text(_, _, _, text) =>
                var cfg := TextConfig(width, plain, bs[i]);
                a <= z <= |rows| && Terminated(text)
                && var styled := Styled(cfg, Start(cfg, s, true), Render(text));
                   && Shows(Ink(RowsShown(cfg, rows[a..z])), Ink(MdContent.Text(cfg, Render(text))), styled)
                   && (plain || Utf8(data) ==> styled)
                   && (Utf8(data) ==> HeadsOk(cfg, rows[a..z]))
              case Code(line) =>
                var cfg := CodeConfig(width, plain);
                a <= z <= |rows|
                && Shows(RowsShown(cfg, rows[a..z]), MdContent.Text(cfg, CodePuts(line, 0)), plain || StartsWhole(line))
                && (HeadsOk(cfg, rows[a..z]) <==> StartsWhole(line))
                && (Utf8(data) ==> StartsWhole(line))
              case _ => true
            }
  {
    hide Utf8, Blocks, Rendered, Render, CodePuts, RowsShown, Ink, MdContent.Text, Start, Styled, Shows, HeadsOk, StartsWhole;
    var bs := Blocks(data);
    BlocksSound(data);
    if Utf8(data) {
      BlocksWhole(data);
    }
    assert bs[i] in bs && bs[..i + 1][..i] == bs[..i];
    DocumentKeepsRows(width, plain, IDLE, bs, i + 1);
    var s, rows := Document(width, plain, IDLE, bs[..i]), Rows(data, width, plain);
    var t := Document(width, plain, IDLE, bs[..i + 1]);
    assert t == Rendered(width, plain, s, bs[i]);
    assert forall from: nat :: from <= |t.rows| ==> rows[from..|t.rows|] == t.rows[from..];
    match bs[i]
    case Text(_, _, _, _) => TextBlockKept(width, plain, s, bs[i]);
    case Code(line) => CodeLineKept(width, plain, s, line);
    case _ =>
  }

  /** The rows of any wrapped block or code line of any file are broken as they should be:
      inside a word only when it fills its row, else as late as the next word allows. In
      well-formed text, putting the spaces dropped at the breaks back gives the text. */
  lemma FileBroken(data: seq<byte>, width: nat, plain: bool, i: nat) returns (gaps: seq<seq<byte>>)
    requires width >= 20 && i < |Blocks(data)|
    ensures AllSound(Blocks(data))
    ensures var bs, rows := Blocks(data), Rows(data, width, plain);
            var a, z := FirstRow(width, plain, bs, i), LastRow(width, plain, bs, i);
            match bs[i] {
              case Text(_, _, _, text) =>
                var cfg := TextConfig(width, plain, bs[i]);
                a <= z <= |rows| && Terminated(text) && Broken(cfg, rows[a..z], gaps)
                && (Utf8(data) ==> Woven(cfg, rows[a..z], gaps) == Chars(MdContent.Text(cfg, Render(text))))
              case Code(line) =>
                var cfg := CodeConfig(width, plain);
                a <= z <= |rows| && Broken(cfg, rows[a..z], gaps)
                && (Utf8(data) ==> Woven(cfg, rows[a..z], gaps) == Chars(MdContent.Text(cfg, CodePuts(line, 0))))
              case _ => true
            }
  {
    hide Utf8, Blocks, Rendered, Render, CodePuts, MdContent.Text, Start, Broken, Woven, Attached;
    var bs := Blocks(data);
    BlocksSound(data);
    if Utf8(data) {
      BlocksWhole(data);
    }
    assert bs[i] in bs && bs[..i + 1][..i] == bs[..i];
    DocumentKeepsRows(width, plain, IDLE, bs, i + 1);
    var s, rows := Document(width, plain, IDLE, bs[..i]), Rows(data, width, plain);
    var t := Document(width, plain, IDLE, bs[..i + 1]);
    assert t == Rendered(width, plain, s, bs[i]);
    assert forall from: nat :: from <= |t.rows| ==> rows[from..|t.rows|] == t.rows[from..];
    match bs[i]
    case Text(_, _, _, _) => gaps := TextBroken(width, plain, s, bs[i]);
    case Code(line) => gaps := CodeBroken(width, plain, s, line);
    case _ => gaps := [];
  }

  lemma TextBroken(width: nat, plain: bool, s: State, b: Block) returns (gaps: seq<seq<byte>>)
    requires width >= 20 && b.Text? && b.Sound()
    ensures var cfg := TextConfig(width, plain, b);
            var from, t := |Start(cfg, s, true).rows|, Rendered(width, plain, s, b);
            && from <= |t.rows| && Broken(cfg, t.rows[from..], gaps)
            && (Utf8(b.text) ==> Woven(cfg, t.rows[from..], gaps) == Chars(MdContent.Text(cfg, Render(b.text))))
  {
    hide Render, PutAll, MdContent.Block, Start, Utf8, Attached, OneStyle, Broken, Woven;
    var cfg := TextConfig(width, plain, b);
    gaps := BlockBroken(cfg, s, Render(b.text));
    if Utf8(b.text) {
      RenderKeepsCharacters(b.text);
      GroupedIsAttached(cfg, Render(b.text));
    }
  }

  lemma CodeBroken(width: nat, plain: bool, s: State, line: seq<byte>) returns (gaps: seq<seq<byte>>)
    requires width >= 20
    ensures var cfg := CodeConfig(width, plain);
            var from, t := |Start(cfg, s, true).rows|, Rendered(width, plain, s, Code(line));
            && from <= |t.rows| && Broken(cfg, t.rows[from..], gaps)
            && (Utf8(line) ==> Woven(cfg, t.rows[from..], gaps) == Chars(MdContent.Text(cfg, CodePuts(line, 0))))
  {
    hide CodePuts, PutAll, MdContent.Block, Start, Utf8, StartsWhole, Broken, Woven;
    var cfg := CodeConfig(width, plain);
    gaps := BlockBroken(cfg, s, CodePuts(line, 0));
    CodePutsCount(cfg, line, 0);
    if Utf8(line) {
      Utf8StartsWhole(line);
    }
  }
}
