/** The Markdown reader as the program runs it: one object that takes a file line by
    line and hands each block it completes to the row builder. */
module MdReader {
  import opened Bytes
  import opened MdWrap
  import opened MdBuilder
  import opened MdInline
  import opened MdRender
  import opened MdDoc
  import opened MdSource
  import MdContent

  // ----- the same rows from any builder state in between -----

  /** The same rows and the same blank row pending. */
  predicate Alike(a: State, b: State) {
    a.rows == b.rows && a.anyOut == b.anyOut && a.needBlank == b.needBlank
  }

  lemma BlockAlike(cfg: Config, a: State, b: State, puts: seq<Put>)
    requires Alike(a, b)
    ensures Alike(MdContent.Block(cfg, a, puts), MdContent.Block(cfg, b, puts))
  {
    hide PutAll, Prefix.Bytes, Prefix.Cols;
    var s, t := Start(cfg, a, true), Start(cfg, b, true);
    assert s.(cur := NO_STYLE) == t.(cur := NO_STYLE);
    if puts != [] {
      PutAllSetsStyle(cfg, s, NO_STYLE, puts);
      PutAllSetsStyle(cfg, t, NO_STYLE, puts);
    } else {
      PutNothing(cfg, s);
      PutNothing(cfg, t);
      FinishForgetsStyle(cfg, s, NO_STYLE);
      FinishForgetsStyle(cfg, t, NO_STYLE);
    }
  }

  lemma PutNothing(cfg: Config, s: State)
    ensures PutAll(cfg, s, []) == s
  {
  }

  /** A block's rows depend only on what is on the output. */
  lemma RenderedAlike(width: nat, plain: bool, a: State, b: State, block: Block)
    requires Alike(a, b) && block.Sound()
    ensures Alike(Rendered(width, plain, a, block), Rendered(width, plain, b, block))
  {
    hide Render, CodePuts, MdContent.Block, Coloured;
    match block
    case Text(_, _, _, text) => BlockAlike(TextConfig(width, plain, block), a, b, Render(text));
    case Code(line) => BlockAlike(CodeConfig(width, plain), a, b, CodePuts(line, 0));
    case Rule =>
    case EmptyQuote =>
    case Gap =>
  }

  lemma DocumentGrows(width: nat, plain: bool, blocks: seq<Block>, b: Block)
    requires AllSound(blocks) && b.Sound()
    ensures AllSound(blocks + [b])
    ensures Document(width, plain, IDLE, blocks + [b]) == Rendered(width, plain, Document(width, plain, IDLE, blocks), b)
  {
    assert (blocks + [b])[..|blocks|] == blocks;
  }

  lemma FenceRun(s: seq<byte>)
    requires |s| >= 3 && s[1] == s[0] && s[2] == s[0]
    ensures RunEnd(s, 0, s[0]) >= 3
  {
  }

  lemma ItemStepIs(d: Parse, ind: nat, s: seq<byte>, m: seq<byte>, q: nat)
    requires q <= |s|
    ensures var c, margin := Closed(d), if ind < 8 then ind else 8;
            ItemStep(d, ind, s, m, q) ==
              (Parse(ListItem, s[WhiteEnd(s, q)..], margin, m, margin + |m| + 1, c.level, true, margin + |m| + 1,
                     c.inFence, c.fenceCh, c.fenceLen, c.fenceIndent), Gathered(d))
  {
    hide WhiteEnd, Gathered;
  }

  lemma GatheredAnyList(d: Parse, inList: bool)
    ensures Gathered(d.(inList := inList)) == Gathered(d)
  {
  }

  // ----- scanning, as the loops it is -----

  method Measure(line: seq<byte>) returns (ind: nat, p: nat)
    ensures (ind, p) == Indent(line, 0, 0)
  {
    ind, p := 0, 0;
    while p < |line| && White(line[p])
      invariant p <= |line| && Indent(line, p, ind) == Indent(line, 0, 0)
    {
      ind, p := if line[p] == TAB then (ind + 4) / 4 * 4 else ind + 1, p + 1;
    }
  }

  method ScanRun(s: seq<byte>, c: byte) returns (k: nat)
    ensures k == RunEnd(s, 0, c)
  {
    k := 0;
    while k < |s| && s[k] == c
      invariant k <= |s| && RunEnd(s, k, c) == RunEnd(s, 0, c)
    {
      k := k + 1;
    }
  }

  method SkipWhite(s: seq<byte>, i: nat) returns (q: nat)
    requires i <= |s|
    ensures q == WhiteEnd(s, i)
  {
    q := i;
    while q < |s| && White(s[q])
      invariant i <= q <= |s| && WhiteEnd(s, q) == WhiteEnd(s, i)
    {
      q := q + 1;
    }
  }

  method TrimWhite(s: seq<byte>, end: nat) returns (e: nat)
    requires end <= |s|
    ensures e == TextEnd(s, end)
  {
    e := end;
    while e > 0 && White(s[e - 1])
      invariant e <= end && TextEnd(s, e) == TextEnd(s, end)
    {
      e := e - 1;
    }
  }

  method CutIndent(line: seq<byte>, limit: nat) returns (q: nat)
    ensures q == IndentCut(line, limit, 0)
  {
    q := 0;
    while q < limit && q < |line| && line[q] == SPACE
      invariant q <= |line| && q <= limit && IndentCut(line, limit, q) == IndentCut(line, limit, 0)
      decreases |line| - q
    {
      q := q + 1;
    }
  }

  method FindCode(line: seq<byte>) returns (q: nat)
    ensures q == CodeFrom(line, 0, 0)
  {
    var col: nat := 0;
    q := 0;
    while q < |line| && col < 4 && White(line[q])
      invariant q <= |line| && CodeFrom(line, q, col) == CodeFrom(line, 0, 0)
      decreases |line| - q
    {
      q, col := q + 1, if line[q] == TAB then (col + 4) / 4 * 4 else col + 1;
    }
  }

  /** A thematic break: at least three of one mark, and blanks. */
  method ScanRule(ind: nat, s: seq<byte>) returns (rule: bool)
    requires s != []
    ensures rule == MdSource.IsRule(ind, s)
  {
    if ind >= 4 || s[0] !in {DASH, STAR as byte, UNDERSCORE as byte} {
      return false;
    }
    var n := 0;
    for i := 0 to |s|
      invariant n == Occurrences(s[..i], s[0])
      invariant forall x :: x in s[..i] ==> x == s[0] || White(x)
    {
      assert s[..i + 1][..i] == s[..i] && s[..i + 1] == s[..i] + [s[i]];
      if s[i] == s[0] {
        n := n + 1;
      } else if !White(s[i]) {
        assert s[i] in s;
        return false;
      }
    }
    assert s[..|s|] == s;
    rule := n >= 3;
  }

  method ScanHeading(s: seq<byte>, k: nat) returns (text: seq<byte>)
    requires k <= |s|
    ensures text == HeadingText(s, k)
  {
    hide WhiteEnd, TextEnd;
    var a := SkipWhite(s, k);
    var b := TrimWhite(s, |s|);
    var c := if a < b then s[a..b] else [];
    var e: nat := |c|;
    while e > 0 && c[e - 1] == HASH
      invariant e <= |c| && MarksStart(c, e) == MarksStart(c, |c|)
    {
      e := e - 1;
    }
    if e == 0 || White(c[e - 1]) {
      var f := TrimWhite(c, e);
      return c[..f];
    }
    return c;
  }

  method FindMarker(s: seq<byte>, ind: nat) returns (m: Option<(seq<byte>, nat)>)
    requires s != []
    ensures m == Marker(s, ind)
  {
    if s[0] in {DASH, STAR as byte, PLUS} && (|s| == 1 || White(s[1])) {
      return Some(([if ind == 0 then STAR else DASH], 1));
    }
    var q := 0;
    while q < |s| && q < 9 && 48 <= s[q] <= 57
      invariant q <= |s| && q <= 9 && DigitsEnd(s, q) == DigitsEnd(s, 0)
    {
      q := q + 1;
    }
    if 0 < q < |s| && s[q] in {DOT, RPAREN as byte} && (q + 1 == |s| || White(s[q + 1])) {
      return Some((s[..q + 1], q + 1));
    }
    return None;
  }

  method PassQuotes(s: seq<byte>) returns (q: nat)
    ensures q == QuoteEnd(s, 0)
  {
    q := 0;
    while q < |s| && s[q] == QUOTE_MARK
      invariant q <= |s| && QuoteEnd(s, q) == QuoteEnd(s, 0)
    {
      q := q + 1;
      if q < |s| && s[q] == SPACE {
        q := q + 1;
      }
    }
  }

  // ----- the reader -----

  class Reader {
    const o: Output
    var kind: Kind
    var blk: seq<byte>
    var margin: nat
    var marker: seq<byte>
    var cont: nat
    var level: nat
    var inList: bool
    var listCont: nat
    var inFence: bool
    var fenceCh: byte
    var fenceLen: nat
    var fenceIndent: nat
    ghost var done: seq<Block>

    constructor (width: nat, plain: bool)
      ensures Valid() && Value() == FRESH_PARSE && done == [] && fresh(o) && o.width == width && o.plain == plain
    {
      o := new Output(width, plain);
      kind, blk, margin, marker, cont, level := NoBlock, [], 0, [], 0, 0;
      inList, listCont, inFence, fenceCh, fenceLen, fenceIndent := false, 0, false, 0, 0, 0;
      done := [];
    }

    function Value(): Parse
      reads this
    {
      Parse(kind, blk, margin, marker, cont, level, inList, listCont, inFence, fenceCh, fenceLen, fenceIndent)
    }

    /** The output has the rows of the blocks done so far. */
    ghost predicate Valid()
      reads this, o
    {
      && ParseOk(Value())
      && AllSound(done)
      && Alike(Between(o), Document(o.width, o.plain, IDLE, done))
    }

    /** One block more on the output. */
    ghost predicate Adds(was: State, b: Block)
      requires b.Sound()
      reads this, o
    {
      Alike(Between(o), Rendered(o.width, o.plain, was, b))
    }

    /** Records that the rows of block b have been added. */
    ghost method Record(was: State, b: Block)
      requires AllSound(done) && b.Sound() && ParseOk(Value())
      requires Alike(was, Document(o.width, o.plain, IDLE, done)) && Adds(was, b)
      modifies this`done
      ensures done == old(done) + [b] && Valid()
    {
      hide Rendered, Document, ParseOk;
      DocumentGrows(o.width, o.plain, done, b);
      RenderedAlike(o.width, o.plain, was, Document(o.width, o.plain, IDLE, done), b);
      done := done + [b];
    }

    /** Hands the block gathered so far to the row builder. */
    method Flush()
      requires Valid()
      modifies this`kind, this`blk, this`done, o
      ensures Valid() && Value() == Closed(old(Value())) && done == old(done) + Gathered(old(Value()))
    {
      hide Rendered, Document;
      GatheredSound(Value());
      if kind.NoBlock? {
        assert done + [] == done;
        return;
      }
      ghost var was := Between(o);
      var block := Gathered(Value())[0];
      FlushText(o, block);
      kind, blk := NoBlock, [];
      Record(was, block);
    }

    method PutRule()
      requires Valid()
      modifies this`done, o
      ensures Valid() && done == old(done) + [Rule]
    {
      hide Document, Coloured, Dashes;
      ghost var was := Between(o);
      PutAlone(Coloured(o.plain, [51, 54], Dashes(o.width)));
      Record(was, Rule);
    }

    method QuoteBlank()
      requires Valid()
      modifies this`done, o
      ensures Valid() && done == old(done) + [EmptyQuote]
    {
      hide Document, Coloured;
      ghost var was := Between(o);
      PutAlone(Coloured(o.plain, [51, 50], [124]));
      Record(was, EmptyQuote);
    }

    /** A row of its own, after the blank row that may be due. */
    method PutAlone(row: seq<byte>)
      modifies o
      ensures Alike(Between(o), Alone(old(Between(o)), row))
    {
      if o.needBlank && o.anyOut {
        o.Row([]);
      }
      o.needBlank := false;
      o.Row(row);
    }

    method PutCode(line: seq<byte>)
      requires Valid()
      modifies this`done, o
      ensures Valid() && done == old(done) + [Code(line)]
    {
      hide Rendered, Document;
      ghost var was := Between(o);
      CodeRow(o, line);
      Record(was, Code(line));
    }

    method Blank()
      requires Valid()
      modifies this`done, o
      ensures Valid() && done == old(done) + [Gap]
    {
      hide Document;
      ghost var was := Between(o);
      if o.anyOut {
        o.needBlank := true;
      }
      Record(was, Gap);
    }

    /** Closes the block before and begins another, which is not a paragraph or item. */
    method StartBlock(k: Kind, content: seq<byte>)
      requires Valid() && k in {Head, Table, Quote} && 0 !in content
      modifies this`kind, this`blk, this`done, o
      ensures Valid() && Value() == Opened(old(Value()), k, content) && done == old(done) + Gathered(old(Value()))
    {
      hide Gathered, Document;
      Flush();
      kind, blk := k, content;
    }

    /** A line inside a fence. */
    method TakeFenced(ind: nat, s: seq<byte>, line: seq<byte>)
      requires Valid() && inFence
      modifies this`inFence, this`done, o
      ensures Valid()
      ensures (Value(), done) == (FenceStep(old(Value()), ind, s, line).0, old(done) + FenceStep(old(Value()), ind, s, line).1)
    {
      hide Document, RunEnd, WhiteEnd, IndentCut;
      if ind < 4 && |s| >= fenceLen && s[0] == fenceCh {
        var k := ScanRun(s, fenceCh);
        var q := SkipWhite(s, k);
        if k >= fenceLen && q == |s| {
          inFence := false;
          assert done + [] == done;
          return;
        }
      }
      var cut := CutIndent(line, fenceIndent);
      PutCode(line[cut..]);
    }

    method TakeHeading(s: seq<byte>, k: nat)
      requires Valid() && 0 !in s && k == RunEnd(s, 0, HASH)
      modifies this`kind, this`blk, this`level, this`inList, this`done, o
      ensures Valid()
      ensures Value() == HeadingStep(old(Value()), s).0 && done == old(done) + HeadingStep(old(Value()), s).1
    {
      hide Document, RunEnd, HeadingText, Gathered;
      var text := ScanHeading(s, k);
      NoNulHeading(s, k);
      StartBlock(Head, text);
      level := k;
      Flush();
      inList := false;
    }

    method TakeItem(ind: nat, s: seq<byte>, m: seq<byte>, after: nat)
      requires Valid() && 0 !in s && s != [] && Marker(s, ind) == Some((m, after))
      modifies this`kind, this`blk, this`margin, this`marker, this`cont, this`inList, this`listCont, this`done, o
      ensures Valid()
      ensures Value() == ItemStep(old(Value()), ind, s, m, after).0 && done == old(done) + ItemStep(old(Value()), ind, s, m, after).1
    {
      hide Document, Marker, WhiteEnd, Gathered, Alike, Between, AllSound, ParseOk, Closed, ItemStep;
      ItemStepIs(Value(), ind, s, m, after);
      var q := SkipWhite(s, after);
      NoNul(s, q, |s|);
      StartItem(s[q..], m, if ind < 8 then ind else 8);
    }

    method StartItem(content: seq<byte>, m: seq<byte>, col: nat)
      requires Valid() && 0 !in content && col <= 8 && |m| <= 10 && forall c :: c in m ==> 33 <= c < 127
      modifies this`kind, this`blk, this`margin, this`marker, this`cont, this`inList, this`listCont, this`done, o
      ensures Valid() && done == old(done) + Gathered(old(Value()))
      ensures Value() == Closed(old(Value())).(kind := ListItem, blk := content, margin := col, marker := m,
                                               cont := col + |m| + 1, inList := true, listCont := col + |m| + 1)
    {
      hide Document, Gathered, Alike, Between, AllSound;
      Flush();
      kind, blk := ListItem, content;
      margin, marker, cont, inList := col, m, col + |m| + 1, true;
      listCont := cont;
    }

    method TakeQuote(s: seq<byte>)
      requires Valid() && 0 !in s
      modifies this`kind, this`blk, this`inList, this`done, o
      ensures Valid()
      ensures Value() == QuoteStep(old(Value()), s).0 && done == old(done) + QuoteStep(old(Value()), s).1
    {
      hide Document, QuoteEnd, WhiteEnd, Gathered;
      ghost var was := Value();
      QuoteSound(was, s);
      var q := PassQuotes(s);
      q := SkipWhite(s, q);
      var c := s[q..];
      NoNul(s, q, |s|);
      if c == [] {
        Flush();
        QuoteBlank();
        return;
      }
      if kind.Quote? {
        blk := blk + [SPACE] + c;
        assert done + [] == done;
      } else {
        StartBlock(Quote, c);
      }
      inList := false;
    }

    method TakeTable(s: seq<byte>)
      requires Valid() && 0 !in s
      modifies this`kind, this`blk, this`inList, this`done, o
      ensures Valid()
      ensures Value() == TableStep(old(Value()), s).0 && done == old(done) + TableStep(old(Value()), s).1
    {
      hide Document, Gathered;
      StartBlock(Table, s);
      Flush();
      inList := false;
    }

    method TakeText(ind: nat, s: seq<byte>)
      requires Valid() && 0 !in s
      modifies this`kind, this`blk, this`inList, this`margin, this`done, o
      ensures Valid()
      ensures Value() == TextStep(old(Value()), ind, s).0 && done == old(done) + TextStep(old(Value()), ind, s).1
    {
      hide Document, Gathered;
      ghost var was := Value();
      TextSound(was, ind, s);
      if kind in {Para, ListItem, Quote} {
        if blk != [] {
          blk := blk + [SPACE];
        }
        blk := blk + s;
        assert done + [] == done;
        return;
      }
      if ind == 0 {
        inList := false;
      }
      GatheredAnyList(was, inList);
      Flush();
      kind, blk := Para, s;
      margin := if inList then listCont else 0;
    }

    method TakeFence(ind: nat, s: seq<byte>) returns (taken: bool)
      requires Valid() && 0 !in s && s != []
      modifies this, o
      ensures Valid() && taken == OpensFence(ind, s)
      ensures Value() == if taken then Closed(old(Value())).(inFence := true, fenceCh := s[0], fenceLen := RunEnd(s, 0, s[0]),
                                                             fenceIndent := ind, inList := false)
                         else old(Value())
      ensures done == if taken then old(done) + Gathered(old(Value())) else old(done)
    {
      hide Document, Gathered, Alike, Between, RunEnd, AllSound;
      taken := false;
      if ind < 4 && |s| >= 3 && s[0] in {BACKTICK as byte, TILDE} && s[1] == s[0] && s[2] == s[0] {
        FenceRun(s);
        var k := ScanRun(s, s[0]);
        if !(s[0] == BACKTICK && BACKTICK in s[k..]) {
          Flush();
          inFence := true;
          fenceCh, fenceLen, fenceIndent := s[0], k, ind;
          inList := false;
          taken := true;
        }
      }
    }

    method TakeUnderline(ind: nat, s: seq<byte>) returns (taken: bool)
      requires Valid() && 0 !in s && s != []
      modifies this, o
      ensures Valid() && taken == IsUnderline(old(Value()), ind, s)
      ensures var h := old(Value()).(kind := Head, level := if s[0] == EQUAL then 1 else 2);
              if taken then Value() == Closed(h).(inList := false) && done == old(done) + Gathered(h)
              else Value() == old(Value()) && done == old(done)
    {
      hide Document, Gathered, Alike, Between, RunEnd, TextEnd, AllSound;
      taken := false;
      if ind < 4 && kind.Para? && s[0] in {EQUAL, DASH} {
        var k := ScanRun(s, s[0]);
        var e := TrimWhite(s, |s|);
        if k >= e {
          kind := Head;
          level := if s[0] == EQUAL then 1 else 2;
          Flush();
          inList := false;
          taken := true;
        }
      }
    }

    /** An opening fence, an underline, a break or a heading. */
    method TakeLeading(ind: nat, s: seq<byte>) returns (taken: bool)
      requires Valid() && 0 !in s && s != []
      modifies this, o
      ensures Valid() && taken == Leading(old(Value()), ind, s).Some?
      ensures if taken then Value() == Leading(old(Value()), ind, s).value.0
                            && done == old(done) + Leading(old(Value()), ind, s).value.1
              else Value() == old(Value()) && done == old(done)
    {
      hide Document, Gathered, HeadingStep, Alike, Between, RunEnd, MdSource.IsRule, OpensFence, IsUnderline, AllSound, ParseOk;
      taken := TakeFence(ind, s);
      if taken {
        return;
      }
      taken := TakeUnderline(ind, s);
      if taken {
        return;
      }
      taken := ScanRule(ind, s);
      if taken {
        TakeBreak();
        return;
      }
      if ind < 4 && s[0] == HASH {
        var k := ScanRun(s, HASH);
        if k <= 6 && (k == |s| || White(s[k])) {
          TakeHeading(s, k);
          taken := true;
        }
      }
    }

    method TakeBreak()
      requires Valid()
      modifies this, o
      ensures Valid() && Value() == Closed(old(Value())).(inList := false)
      ensures done == old(done) + (Gathered(old(Value())) + [Rule])
    {
      hide Document, Gathered, Alike, Between, AllSound;
      Flush();
      PutRule();
      inList := false;
    }

    /** An item, a quote, a table row, indented code or text. */
    method TakeFollowing(ind: nat, s: seq<byte>, line: seq<byte>)
      requires Valid() && 0 !in s && s != []
      modifies this, o
      ensures Valid()
      ensures Value() == Following(old(Value()), ind, s, line).0 && done == old(done) + Following(old(Value()), ind, s, line).1
    {
      hide Document, ItemStep, QuoteStep, TableStep, TextStep, Alike, Between, Marker, CodeFrom, AllSound, ParseOk;
      if ind < (if inList then 64 else 4) {
        var m := FindMarker(s, ind);
        if m.Some? {
          TakeItem(ind, s, m.value.0, m.value.1);
          return;
        }
      }
      if ind < 4 && s[0] == QUOTE_MARK {
        TakeQuote(s);
        return;
      }
      if ind < 4 && s[0] == PIPE {
        TakeTable(s);
        return;
      }
      if ind >= 4 && !inList && kind.NoBlock? {
        var q := FindCode(line);
        PutCode(line[q..]);
        return;
      }
      TakeText(ind, s);
    }

    /** One line of the file. */
    method Line(line: seq<byte>)
      requires Valid() && 0 !in line
      modifies this, o
      ensures Valid()
      ensures Value() == LineStep(old(Value()), line).0 && done == old(done) + LineStep(old(Value()), line).1
    {
      hide Document, Gathered, FenceStep, Leading, Following, Alike, Between, Indent, AllSound, ParseOk;
      var ind, p := Measure(line);
      var s := line[p..];
      NoNul(line, p, |line|);
      if inFence {
        TakeFenced(ind, s, line);
        return;
      }
      if s == [] {
        Flush();
        Blank();
        return;
      }
      var taken := TakeLeading(ind, s);
      if !taken {
        TakeFollowing(ind, s, line);
      }
    }
  }

  // ----- a file -----

  /** The bytes of a line that count. */
  method Clean(line: seq<byte>) returns (r: seq<byte>)
    ensures r == Cleaned(line)
  {
    r := [];
    for i := 0 to |line|
      invariant r == Cleaned(line[..i])
    {
      assert line[..i + 1][..i] == line[..i];
      if line[i] !in {0, 13} {
        r := r + [line[i]];
      }
    }
    assert line[..|line|] == line;
  }

  /** The whole file, from its first line to the flush at its end. */
  method RenderFile(data: seq<byte>, width: nat, plain: bool) returns (rows: seq<seq<byte>>)
    ensures rows == Rows(data, width, plain)
  {
    hide Document, LineStep, SplitLines, Cleaned, Gathered;
    var r := new Reader(width, plain);
    var lines := SplitLines(data);
    for i := 0 to |lines|
      invariant r.Valid() && r.o.width == width && r.o.plain == plain && fresh(r) && fresh(r.o)
      invariant r.Value() == Parsed(lines[..i]).0 && r.done == Parsed(lines[..i]).1
    {
      assert lines[..i + 1][..i] == lines[..i];
      var line := Clean(lines[i]);
      r.Line(line);
    }
    assert lines[..|lines|] == lines;
    r.Flush();
    rows := r.o.rows;
  }
}
