/** Whatever a file is made of, its text goes into its blocks: the letters of the blocks are
    those of the file, in their order, but for what stands behind an opening fence. */
module MdKept {
  import opened Bytes
  import opened MdWrap
  import opened MdInline
  import opened MdDoc
  import opened MdSource
  import BatchLines

  function Letters(u: seq<byte>): seq<byte> {
    if u == [] then [] else Letters(u[..|u| - 1]) + if Letter(u[|u| - 1]) then [u[|u| - 1]] else []
  }

  lemma {:induction false} LettersCat(a: seq<byte>, b: seq<byte>)
    ensures Letters(a + b) == Letters(a) + Letters(b)
  {
    if b == [] {
      assert a + b == a;
    } else {
      assert (a + b)[..|a + b| - 1] == a + b[..|b| - 1];
      LettersCat(a, b[..|b| - 1]);
    }
  }

  lemma {:induction false} NoLetters(u: seq<byte>)
    requires forall i :: 0 <= i < |u| ==> !Letter(u[i])
    ensures Letters(u) == []
  {
    if u != [] {
      NoLetters(u[..|u| - 1]);
    }
  }

  /** Cutting what has no letters off the front or the end. */
  lemma CutFront(u: seq<byte>, a: nat)
    requires a <= |u| && forall i :: 0 <= i < a ==> !Letter(u[i])
    ensures Letters(u[a..]) == Letters(u)
  {
    hide Letters;
    var x, y := u[..a], u[a..];
    assert u == x + y;
    LettersCat(x, y);
    NoLetters(x);
  }

  lemma CutEnd(u: seq<byte>, b: nat)
    requires b <= |u| && forall i :: b <= i < |u| ==> !Letter(u[i])
    ensures Letters(u[..b]) == Letters(u)
  {
    hide Letters, Letter;
    var x, y := u[..b], u[b..];
    assert u == x + y;
    LettersCat(x, y);
    forall i | 0 <= i < |y| ensures !Letter(y[i]) {
      assert y[i] == u[b + i];
    }
    NoLetters(y);
  }

  // ----- blocks -----

  function BlockLetters(b: Block): seq<byte> {
    match b
    case Text(_, _, _, text) => Letters(text)
    case Code(line) => Letters(line)
    case _ => []
  }

  function AllLetters(blocks: seq<Block>): seq<byte> {
    if blocks == [] then [] else AllLetters(blocks[..|blocks| - 1]) + BlockLetters(blocks[|blocks| - 1])
  }

  lemma {:induction false} AllLettersCat(a: seq<Block>, b: seq<Block>)
    ensures AllLetters(a + b) == AllLetters(a) + AllLetters(b)
  {
    hide BlockLetters;
    if b == [] {
      assert a + b == a;
    } else {
      assert (a + b)[..|a + b| - 1] == a + b[..|b| - 1];
      AllLettersCat(a, b[..|b| - 1]);
    }
  }

  lemma AllLettersOne(b: Block)
    ensures AllLetters([b]) == BlockLetters(b)
  {
    assert [b][..0] == [];
  }

  /** The block gathered so far has its letters when it is handed over. */
  lemma GatheredKept(d: Parse)
    requires ParseOk(d)
    ensures AllLetters(Gathered(d)) == Letters(d.blk)
  {
    LettersCat(d.blk, [0]);
    NoLetters([0]);
    assert forall b: Block :: AllLetters([b]) == BlockLetters(b) by {
      forall b: Block ensures AllLetters([b]) == BlockLetters(b) {
        AllLettersOne(b);
      }
    }
  }

  // ----- a line -----

  /** What a step has to keep: the letters of what was gathered and of what is added. */
  ghost predicate Keeps(d: Parse, r: (Parse, seq<Block>), more: seq<byte>) {
    AllLetters(r.1) + Letters(r.0.blk) == Letters(d.blk) + more
  }

  lemma KeepsClosed(d: Parse, r: (Parse, seq<Block>), extra: seq<Block>, more: seq<byte>)
    requires ParseOk(d) && r.1 == Gathered(d) + extra && AllLetters(extra) + Letters(r.0.blk) == more
    ensures Keeps(d, r, more)
  {
    hide Gathered, Letters, AllLetters;
    GatheredKept(d);
    AllLettersCat(Gathered(d), extra);
  }

  lemma {:induction false} CutIsWhite(line: seq<byte>, limit: nat, q: nat)
    requires q <= |line| && q <= limit
    ensures var r := IndentCut(line, limit, q); forall i :: q <= i < r ==> line[i] == SPACE
    decreases |line| - q
  {
    if q < limit && q < |line| && line[q] == SPACE {
      CutIsWhite(line, limit, q + 1);
    }
  }

  lemma {:induction false} IndentIsWhite(line: seq<byte>, p: nat, ind: nat)
    requires p <= |line|
    ensures var r := Indent(line, p, ind).1; forall i :: p <= i < r ==> White(line[i])
    decreases |line| - p
  {
    if p < |line| && White(line[p]) {
      IndentIsWhite(line, p + 1, if line[p] == TAB then (ind + 4) / 4 * 4 else ind + 1);
    }
  }

  lemma {:induction false} CodeFromIsWhite(line: seq<byte>, q: nat, col: nat)
    requires q <= |line|
    ensures var r := CodeFrom(line, q, col); forall i :: q <= i < r ==> White(line[i])
    decreases |line| - q
  {
    if q < |line| && col < 4 && White(line[q]) {
      CodeFromIsWhite(line, q + 1, if line[q] == TAB then (col + 4) / 4 * 4 else col + 1);
    }
  }

  lemma {:induction false} QuoteEndIsMarks(s: seq<byte>, q: nat)
    requires q <= |s|
    ensures var r := QuoteEnd(s, q); forall i :: q <= i < r ==> s[i] == QUOTE_MARK || s[i] == SPACE
    decreases |s| - q
  {
    if q < |s| && s[q] == QUOTE_MARK {
      QuoteEndIsMarks(s, if q + 1 < |s| && s[q + 1] == SPACE then q + 2 else q + 1);
    }
  }

  lemma {:induction false} MarksStartIsMarks(c: seq<byte>, e: nat)
    requires e <= |c|
    ensures forall i :: MarksStart(c, e) <= i < e ==> c[i] == HASH
  {
    if e > 0 && c[e - 1] == HASH {
      MarksStartIsMarks(c, e - 1);
    }
  }

  lemma MarkerIsNoText(s: seq<byte>, ind: nat)
    requires s != [] && Marker(s, ind).Some?
    ensures forall i :: 0 <= i < Marker(s, ind).value.1 ==> !Letter(s[i])
  {
  }

  lemma HeadingKept(s: seq<byte>, k: nat)
    requires k <= |s| && forall i :: 0 <= i < k ==> s[i] == HASH
    ensures Letters(HeadingText(s, k)) == Letters(s)
  {
    hide Letters, WhiteEnd, TextEnd, MarksStart;
    var a, b := WhiteEnd(s, k), TextEnd(s, |s|);
    HeadingMiddle(s, k, a, b);
    var c := if a < b then s[a..b] else [];
    var e := MarksStart(c, |c|);
    MarksStartIsMarks(c, |c|);
    CutEnd(c, TextEnd(c, e));
  }

  lemma HeadingMiddle(s: seq<byte>, k: nat, a: nat, b: nat)
    requires k <= a <= |s| && b <= |s| && (forall i :: 0 <= i < k ==> s[i] == HASH)
    requires (forall i :: k <= i < a ==> White(s[i])) && forall i :: b <= i < |s| ==> White(s[i])
    ensures Letters(if a < b then s[a..b] else []) == Letters(s)
  {
    hide Letters;
    if a < b {
      CutEnd(s, b);
      CutFront(s[..b], a);
      assert s[..b][a..] == s[a..b];
    } else {
      NoLetters(s);
      NoLetters([]);
    }
  }

  /** Inside a fence, which is made of backticks or tildes, nothing else is gathered. */
  predicate FenceOk(d: Parse) {
    d.inFence ==> (d.fenceCh == BACKTICK || d.fenceCh == TILDE) && d.kind.NoBlock?
  }

  lemma NoneKept()
    ensures AllLetters([]) == [] && Letters([]) == []
  {
  }

  lemma FenceKept(d: Parse, ind: nat, s: seq<byte>, line: seq<byte>)
    requires ParseOk(d) && FenceOk(d) && d.inFence && Letters(s) == Letters(line)
    ensures Keeps(d, FenceStep(d, ind, s, line), Letters(line))
  {
    hide Letters, AllLetters;
    NoneKept();
    var q := IndentCut(line, d.fenceIndent, 0);
    CutIsWhite(line, d.fenceIndent, 0);
    CutFront(line, q);
    AllLettersOne(Code(line[q..]));
    if ClosesFence(d, ind, s) {
      NoLetters(s);
    }
  }

  lemma RuleHasNone(ind: nat, s: seq<byte>)
    requires s != [] && IsRule(ind, s)
    ensures Letters(s) == []
  {
    assert forall i :: 0 <= i < |s| ==> s[i] in s;
    NoLetters(s);
  }

  lemma UnderlineHasNone(d: Parse, ind: nat, s: seq<byte>)
    requires s != [] && IsUnderline(d, ind, s)
    ensures Letters(s) == []
  {
    NoLetters(s);
  }

  /** A block that is closed behind the one before it. */
  lemma TwoKept(d: Parse, h: Parse, r: (Parse, seq<Block>))
    requires ParseOk(d) && ParseOk(h) && r.1 == Gathered(d) + Gathered(h) && r.0.blk == []
    ensures Keeps(d, r, Letters(h.blk))
  {
    hide Gathered, Letters, AllLetters;
    NoneKept();
    GatheredKept(h);
    KeepsClosed(d, r, Gathered(h), Letters(h.blk));
  }

  lemma AloneKept(d: Parse, r: (Parse, seq<Block>), b: Block)
    requires ParseOk(d) && r.1 == Gathered(d) + [b] && r.0.blk == [] && BlockLetters(b) == []
    ensures Keeps(d, r, [])
  {
    hide Gathered, Letters, AllLetters;
    NoneKept();
    AllLettersOne(b);
    KeepsClosed(d, r, [b], []);
  }

  lemma StartedKept(d: Parse, r: (Parse, seq<Block>))
    requires ParseOk(d) && r.1 == Gathered(d)
    ensures Keeps(d, r, Letters(r.0.blk))
  {
    hide Gathered, Letters, AllLetters;
    NoneKept();
    assert Gathered(d) + [] == Gathered(d);
    KeepsClosed(d, r, [], Letters(r.0.blk));
  }

  /** Lines that end a block keep their letters; only an opening fence has more. */
  lemma LeadingKept(d: Parse, ind: nat, s: seq<byte>)
    requires ParseOk(d) && FenceOk(d) && s != [] && 0 !in s && Leading(d, ind, s).Some?
    ensures Keeps(d, Leading(d, ind, s).value, if OpensFence(ind, s) then [] else Letters(s))
    ensures FenceOk(Leading(d, ind, s).value.0)
  {
    hide Letters, AllLetters, Gathered, HeadingText, TextEnd, Occurrences, Keeps;
    NoneKept();
    var r := Leading(d, ind, s).value;
    if OpensFence(ind, s) {
      StartedKept(d, r);
    } else if IsUnderline(d, ind, s) {
      var h := d.(kind := Head, level := if s[0] == EQUAL then 1 else 2);
      UnderlineHasNone(d, ind, s);
      UnderlineKept(d, h, r);
    } else if IsRule(ind, s) {
      RuleHasNone(ind, s);
      AloneKept(d, r, Rule);
    } else {
      var k := RunEnd(s, 0, HASH);
      var h := Opened(d, Head, HeadingText(s, k)).(level := k);
      NoNulHeading(s, k);
      OpenedOk(d, Head, HeadingText(s, k));
      HeadingKept(s, k);
      TwoKept(d, h, r);
    }
  }

  lemma UnderlineKept(d: Parse, h: Parse, r: (Parse, seq<Block>))
    requires ParseOk(h) && r.1 == Gathered(h) && h.blk == d.blk && r.0.blk == []
    ensures Keeps(d, r, [])
  {
    hide Gathered, Letters, AllLetters;
    NoneKept();
    GatheredKept(h);
  }

  lemma QuoteKept(d: Parse, s: seq<byte>)
    requires ParseOk(d)
    ensures Keeps(d, QuoteStep(d, s), Letters(s))
  {
    hide Letters, AllLetters, Gathered, WhiteEnd, QuoteEnd, Keeps;
    NoneKept();
    var q := WhiteEnd(s, QuoteEnd(s, 0));
    QuoteEndIsMarks(s, 0);
    CutFront(s, q);
    if s[q..] == [] {
      AloneKept(d, QuoteStep(d, s), EmptyQuote);
    } else if d.kind.Quote? {
      JoinedKept(d, QuoteStep(d, s), [SPACE], s[q..]);
    } else {
      StartedKept(d, QuoteStep(d, s));
    }
  }

  /** A line added to the block at hand. */
  lemma JoinedKept(d: Parse, r: (Parse, seq<Block>), gap: seq<byte>, c: seq<byte>)
    requires r.1 == [] && r.0.blk == d.blk + gap + c && forall i :: 0 <= i < |gap| ==> !Letter(gap[i])
    ensures Keeps(d, r, Letters(c))
  {
    hide Letters;
    NoneKept();
    NoLetters(gap);
    LettersCat(d.blk + gap, c);
    LettersCat(d.blk, gap);
  }

  lemma FollowingKept(d: Parse, ind: nat, s: seq<byte>, line: seq<byte>)
    requires ParseOk(d) && FenceOk(d) && !d.inFence && s != [] && 0 !in s && Letters(s) == Letters(line)
    ensures Keeps(d, Following(d, ind, s, line), Letters(s)) && FenceOk(Following(d, ind, s, line).0)
  {
    hide Letters, AllLetters, Gathered, Marker, WhiteEnd, QuoteEnd, CodeFrom, Keeps;
    NoneKept();
    var r := Following(d, ind, s, line);
    if ind < (if d.inList then 64 else 4) && Marker(s, ind).Some? {
      var q := WhiteEnd(s, Marker(s, ind).value.1);
      MarkerIsNoText(s, ind);
      CutFront(s, q);
      StartedKept(d, r);
    } else if ind < 4 && s[0] == QUOTE_MARK {
      QuoteKept(d, s);
    } else if ind < 4 && s[0] == PIPE {
      OpenedOk(d, Table, s);
      TwoKept(d, Opened(d, Table, s), r);
    } else if ind >= 4 && !d.inList && d.kind.NoBlock? {
      CodeFromIsWhite(line, 0, 0);
      CutFront(line, CodeFrom(line, 0, 0));
      IndentedKept(d, r, Code(line[CodeFrom(line, 0, 0)..]));
    } else if d.kind in {Para, ListItem, Quote} {
      JoinedKept(d, r, if d.blk != [] then [SPACE] else [], s);
    } else {
      StartedKept(d, r);
    }
  }

  lemma IndentedKept(d: Parse, r: (Parse, seq<Block>), b: Block)
    requires ParseOk(d) && d.kind.NoBlock? && r == (d, [b])
    ensures Keeps(d, r, BlockLetters(b))
  {
    hide Letters, AllLetters;
    NoneKept();
    AllLettersOne(b);
  }

  /** Whether a line opens a fence in this state: what stands behind the fence is not
      text. */
  predicate Opens(d: Parse, line: seq<byte>) {
    var (ind, p) := Indent(line, 0, 0);
    !d.inFence && line[p..] != [] && OpensFence(ind, line[p..])
  }

  lemma LineKept(d: Parse, line: seq<byte>)
    requires ParseOk(d) && FenceOk(d) && 0 !in line
    ensures Keeps(d, LineStep(d, line), if Opens(d, line) then [] else Letters(line)) && FenceOk(LineStep(d, line).0)
  {
    hide Letters, AllLetters, Gathered, Leading, Following, Keeps, Indent;
    NoneKept();
    var (ind, p) := Indent(line, 0, 0);
    var s := line[p..];
    IndentIsWhite(line, 0, 0);
    CutFront(line, p);
    NoNul(line, p, |line|);
    if d.inFence {
      FenceKept(d, ind, s, line);
    } else if s == [] {
      AloneKept(d, LineStep(d, line), Gap);
    } else if Leading(d, ind, s).Some? {
      LeadingKept(d, ind, s);
    } else {
      NoFence(d, ind, s);
      FollowingKept(d, ind, s, line);
    }
  }

  lemma NoFence(d: Parse, ind: nat, s: seq<byte>)
    requires s != [] && Leading(d, ind, s).None?
    ensures !OpensFence(ind, s)
  {
  }

  // ----- files -----

  /** The letters of the lines, but for those behind an opening fence. */
  function LineLetters(lines: seq<seq<byte>>): seq<byte> {
    if lines == [] then []
    else
      var d, line := Parsed(lines[..|lines| - 1]).0, Cleaned(lines[|lines| - 1]);
      LineLetters(lines[..|lines| - 1]) + if Opens(d, line) then [] else Letters(line)
  }

  lemma {:induction false} ParsedKept(lines: seq<seq<byte>>)
    ensures FenceOk(Parsed(lines).0)
    ensures AllLetters(Parsed(lines).1) + Letters(Parsed(lines).0.blk) == LineLetters(lines)
  {
    hide LineStep, Opens, Letters, AllLetters, Keeps, Cleaned;
    NoneKept();
    if lines != [] {
      var m := |lines| - 1;
      ParsedKept(lines[..m]);
      ParsedSound(lines[..m]);
      var (d, blocks) := Parsed(lines[..m]);
      var r := LineStep(d, Cleaned(lines[m]));
      LineKept(d, Cleaned(lines[m]));
      KeepMore(blocks, d, r, if Opens(d, Cleaned(lines[m])) then [] else Letters(Cleaned(lines[m])));
    }
  }

  lemma KeepMore(blocks: seq<Block>, d: Parse, r: (Parse, seq<Block>), more: seq<byte>)
    requires Keeps(d, r, more)
    ensures AllLetters(blocks + r.1) + Letters(r.0.blk) == AllLetters(blocks) + Letters(d.blk) + more
  {
    hide Letters, AllLetters;
    AllLettersCat(blocks, r.1);
    Regroup(AllLetters(blocks), AllLetters(r.1), Letters(r.0.blk));
    Regroup(AllLetters(blocks), Letters(d.blk), more);
  }

  lemma Regroup(a: seq<byte>, b: seq<byte>, c: seq<byte>)
    ensures a + (b + c) == a + b + c
  {
  }

  /** The letters of a file's blocks are those of its lines, in their order. */
  lemma FileKept(data: seq<byte>)
    ensures AllLetters(Blocks(data)) == LineLetters(SplitLines(data))
  {
    hide Gathered, Parsed;
    var lines := SplitLines(data);
    ParsedKept(lines);
    ParsedSound(lines);
    GatheredKept(Parsed(lines).0);
    AllLettersCat(Parsed(lines).1, Gathered(Parsed(lines).0));
  }

  // ----- and of the bytes of a file without fences -----

  /** Three backticks or tildes stand together. */
  predicate HasFence(line: seq<byte>) {
    exists i :: 0 <= i < |line| - 2 && (line[i] == BACKTICK || line[i] == TILDE) && line[i + 1] == line[i] && line[i + 2] == line[i]
  }

  predicate Fenceless(data: seq<byte>) {
    forall line :: line in SplitLines(data) ==> !HasFence(Cleaned(line))
  }

  lemma OpensHasFence(d: Parse, line: seq<byte>)
    requires Opens(d, line)
    ensures HasFence(line)
  {
    hide Indent, RunEnd;
    var (ind, p) := Indent(line, 0, 0);
    assert line[p..][0] == line[p] && line[p..][1] == line[p + 1] && line[p..][2] == line[p + 2];
  }

  lemma LettersOne(c: byte)
    ensures Letters([c]) == if Letter(c) then [c] else []
  {
    assert [c][..0] == [];
  }

  lemma {:induction false} CleanedLetters(line: seq<byte>)
    ensures Letters(Cleaned(line)) == Letters(line)
  {
    if line != [] {
      var m := |line| - 1;
      CleanedLetters(line[..m]);
      CleanedLast(line);
      hide Letters, Cleaned;
      LettersAppend(Cleaned(line[..m]), line[..m], line[m], if line[m] in {0, 13} then [] else [line[m]]);
      assert line == line[..m] + [line[m]];
    }
  }

  lemma LettersAppend(a: seq<byte>, b: seq<byte>, c: byte, kept: seq<byte>)
    requires Letters(a) == Letters(b) && (kept == [c] || (kept == [] && !Letter(c)))
    ensures Letters(a + kept) == Letters(b + [c])
  {
    LettersOne(c);
    LettersCat(a, kept);
    LettersCat(b, [c]);
    hide Letters;
    NoneKept();
  }

  lemma CleanedLast(line: seq<byte>)
    requires line != []
    ensures var m := |line| - 1; Cleaned(line) == Cleaned(line[..m]) + if line[m] in {0, 13} then [] else [line[m]]
  {
  }

  function Concat(lines: seq<seq<byte>>): seq<byte> {
    if lines == [] then [] else Concat(lines[..|lines| - 1]) + lines[|lines| - 1]
  }

  lemma {:induction false} ConcatFront(line: seq<byte>, lines: seq<seq<byte>>)
    ensures Concat([line] + lines) == line + Concat(lines)
  {
    var all := [line] + lines;
    if lines == [] {
      assert all[..0] == [];
    } else {
      assert all[..|all| - 1] == [line] + lines[..|lines| - 1];
      ConcatFront(line, lines[..|lines| - 1]);
    }
  }

  lemma {:induction false} SplitLetters(data: seq<byte>)
    ensures Letters(Concat(SplitLines(data))) == Letters(data)
    decreases |data|
  {
    hide BatchLines.FirstLf, Letters, Concat;
    var i := BatchLines.FirstLf(data);
    if i < |data| {
      var rest := data[i + 1..];
      SplitLetters(rest);
      ConcatFront(data[..i], SplitLines(rest));
      LettersCat(data[..i], Concat(SplitLines(rest)));
      CutFront(data[i..], 1);
      assert data[i..][1..] == rest;
      LettersCat(data[..i], data[i..]);
      assert data == data[..i] + data[i..];
    } else {
      ConcatOne(data);
    }
  }

  lemma ConcatOne(line: seq<byte>)
    ensures Concat([line]) == line && Concat([]) == []
  {
    assert [line][..0] == [];
  }

  lemma {:induction false} NoneOpens(lines: seq<seq<byte>>)
    requires forall line :: line in lines ==> !HasFence(Cleaned(line))
    ensures LineLetters(lines) == Letters(Concat(lines))
  {
    hide Opens, Cleaned, HasFence;
    NoneKept();
    if lines != [] {
      var m := |lines| - 1;
      assert lines[m] in lines && forall line :: line in lines[..m] ==> line in lines;
      NoneOpens(lines[..m]);
      var d := Parsed(lines[..m]).0;
      if Opens(d, Cleaned(lines[m])) {
        OpensHasFence(d, Cleaned(lines[m]));
      }
      CleanedLetters(lines[m]);
      LettersCat(Concat(lines[..m]), lines[m]);
    }
  }

  /** Without a fence, the letters of a file's blocks are the letters of the file. */
  lemma FencelessKept(data: seq<byte>)
    requires Fenceless(data)
    ensures AllLetters(Blocks(data)) == Letters(data)
  {
    hide Blocks;
    FileKept(data);
    NoneOpens(SplitLines(data));
    SplitLetters(data);
  }
}
