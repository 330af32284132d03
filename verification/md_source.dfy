/** How the lines of a Markdown file are gathered into blocks. What is formed depends
    neither on the screen width nor on colour. */
module MdSource {
  import opened Bytes
  import opened MdWrap
  import opened MdInline
  import opened MdDoc
  import MdColour
  import BatchLines

  const HASH: byte := 35
  const DASH: byte := 45
  const PLUS: byte := 43
  const DOT: byte := 46
  const EQUAL: byte := 61
  const QUOTE_MARK: byte := 62
  const TILDE: byte := 126
  const PIPE: byte := 124

  datatype Kind = NoBlock | Para | ListItem | Quote | Head | Table

  /** The block being gathered, and what is remembered from one line to the next. */
  datatype Parse = Parse(kind: Kind, blk: seq<byte>, margin: nat, marker: seq<byte>, cont: nat, level: nat,
                         inList: bool, listCont: nat, inFence: bool, fenceCh: byte, fenceLen: nat, fenceIndent: nat)

  const FRESH_PARSE := Parse(NoBlock, [], 0, [], 0, 0, false, 0, false, 0, 0, 0)

  /** A letter, or a byte of a character beyond ASCII: no markup is made of these. */
  predicate Letter(c: byte) {
    0x41 <= c <= 0x5A || 0x61 <= c <= 0x7A || c >= 0x80
  }

  // ----- scanning a line -----

  predicate White(c: byte) {
    c == SPACE || c == TAB
  }

  /** The columns of indentation and the place of the first other byte. */
  function Indent(line: seq<byte>, p: nat, ind: nat): (r: (nat, nat))
    requires p <= |line|
    ensures p <= r.1 <= |line| && (r.1 < |line| ==> !White(line[r.1]))
    ensures r.1 == p || White(line[r.1 - 1])
    decreases |line| - p
  {
    if p < |line| && White(line[p]) then Indent(line, p + 1, if line[p] == TAB then (ind + 4) / 4 * 4 else ind + 1)
    else (ind, p)
  }

  /** The end of the run of c from i on. */
  function RunEnd(s: seq<byte>, i: nat, c: byte): (r: nat)
    requires i <= |s|
    ensures i <= r <= |s| && (r < |s| ==> s[r] != c)
    ensures forall k :: i <= k < r ==> s[k] == c
    decreases |s| - i
  {
    if i < |s| && s[i] == c then RunEnd(s, i + 1, c) else i
  }

  function WhiteEnd(s: seq<byte>, i: nat): (r: nat)
    requires i <= |s|
    ensures i <= r <= |s| && (r < |s| ==> !White(s[r]))
    ensures forall k :: i <= k < r ==> White(s[k])
    decreases |s| - i
  {
    if i < |s| && White(s[i]) then WhiteEnd(s, i + 1) else i
  }

  /** The end of s[..e] without the blanks at its end. */
  function TextEnd(s: seq<byte>, e: nat): (r: nat)
    requires e <= |s|
    ensures r <= e && (r > 0 ==> !White(s[r - 1])) && forall k :: r <= k < e ==> White(s[k])
  {
    if e > 0 && White(s[e - 1]) then TextEnd(s, e - 1) else e
  }

  function Occurrences(s: seq<byte>, c: byte): nat {
    if s == [] then 0 else Occurrences(s[..|s| - 1], c) + if s[|s| - 1] == c then 1 else 0
  }

  function DigitsEnd(s: seq<byte>, q: nat): (r: nat)
    requires q <= |s| && q <= 9
    ensures q <= r <= |s| && r <= 9 && forall k :: q <= k < r ==> 48 <= s[k] <= 57
    decreases |s| - q
  {
    if q < |s| && q < 9 && 48 <= s[q] <= 57 then DigitsEnd(s, q + 1) else q
  }

  /** A list marker and where it ends: a bullet is shown as a star or a dash. */
  function Marker(s: seq<byte>, ind: nat): (m: Option<(seq<byte>, nat)>)
    requires s != []
    ensures m.Some? ==> 1 <= |m.value.0| <= 10 && (forall c :: c in m.value.0 ==> 33 <= c < 127)
                        && 1 <= m.value.1 <= |s| && s[m.value.1 - 1] < 0x80
  {
    if s[0] in {DASH, STAR as byte, PLUS} && (|s| == 1 || White(s[1])) then
      Some(([if ind == 0 then STAR else DASH], 1))
    else
      var q := DigitsEnd(s, 0);
      if 0 < q < |s| && s[q] in {DOT, RPAREN as byte} && (q + 1 == |s| || White(s[q + 1])) then Some((s[..q + 1], q + 1))
      else None
  }

  /** Past the marks of a block quote, each with the one space that may follow it. */
  function QuoteEnd(s: seq<byte>, q: nat): (r: nat)
    requires q <= |s|
    ensures q <= r <= |s| && (r > q ==> s[r - 1] < 0x80) && (q < |s| && s[q] == QUOTE_MARK ==> r > q)
    decreases |s| - q
  {
    if q < |s| && s[q] == QUOTE_MARK then
      if q + 1 < |s| && s[q + 1] == SPACE then QuoteEnd(s, q + 2) else QuoteEnd(s, q + 1)
    else q
  }

  /** The text of a heading: blanks around it go, and the closing marks if they stand
      apart. */
  function HeadingText(s: seq<byte>, k: nat): seq<byte>
    requires k <= |s|
  {
    var a, b := WhiteEnd(s, k), TextEnd(s, |s|);
    var c := if a < b then s[a..b] else [];
    var e := MarksStart(c, |c|);
    if e == 0 || White(c[e - 1]) then c[..TextEnd(c, e)] else c
  }

  /** Where the marks at the end of c[..e] begin. */
  function MarksStart(c: seq<byte>, e: nat): (r: nat)
    requires e <= |c|
    ensures r <= e
  {
    if e > 0 && c[e - 1] == HASH then MarksStart(c, e - 1) else e
  }

  // ----- blocks -----

  function HeadingParams(level: nat): seq<byte> {
    match level
    case 1 => [59, 49, 59, 52, 59, 51, 54]
    case 2 => [59, 49, 59, 51, 54]
    case 3 => [59, 49, 59, 51, 53]
    case _ => [59, 49]
  }

  /** The block gathered so far, as it is handed to the row builder. */
  function Gathered(d: Parse): seq<Block> {
    var text := d.blk + [0];
    match d.kind
    case NoBlock => []
    case Para => [Text(Margin(d.margin), Margin(d.margin), [], text)]
    case ListItem => [Text(Item(d.margin, d.marker), Margin(d.cont), [], text)]
    case Quote => [Text(Bar, Bar, [], text)]
    case Head => [Text(Margin(0), Margin(0), HeadingParams(d.level), text)]
    case Table => [Text(Margin(0), Margin(0), [], text)]
  }

  function Closed(d: Parse): Parse {
    if d.kind.NoBlock? then d else d.(kind := NoBlock, blk := [])
  }

  function Opened(d: Parse, kind: Kind, content: seq<byte>): Parse {
    Closed(d).(kind := kind, blk := content)
  }

  // ----- one line -----

  predicate ClosesFence(d: Parse, ind: nat, s: seq<byte>) {
    && ind < 4 && 0 < |s| && d.fenceLen <= |s| && s[0] == d.fenceCh
    && d.fenceLen <= RunEnd(s, 0, d.fenceCh) && WhiteEnd(s, RunEnd(s, 0, d.fenceCh)) == |s|
  }

  function FenceStep(d: Parse, ind: nat, s: seq<byte>, line: seq<byte>): (Parse, seq<Block>) {
    if ClosesFence(d, ind, s) then (d.(inFence := false), [])
    else (d, [Code(line[IndentCut(line, d.fenceIndent, 0)..])])
  }

  /** How many of the fence's own indent the line has. */
  function IndentCut(line: seq<byte>, limit: nat, q: nat): (r: nat)
    requires q <= |line| && q <= limit
    ensures q <= r <= |line|
    decreases |line| - q
  {
    if q < limit && q < |line| && line[q] == SPACE then IndentCut(line, limit, q + 1) else q
  }

  predicate OpensFence(ind: nat, s: seq<byte>) {
    && ind < 4 && |s| >= 3 && s[0] in {BACKTICK as byte, TILDE} && s[1] == s[0] && s[2] == s[0]
    && !(s[0] == BACKTICK && BACKTICK in s[RunEnd(s, 0, s[0])..])
  }

  predicate IsUnderline(d: Parse, ind: nat, s: seq<byte>)
    requires s != []
  {
    ind < 4 && d.kind.Para? && s[0] in {EQUAL, DASH} && RunEnd(s, 0, s[0]) >= TextEnd(s, |s|)
  }

  predicate IsRule(ind: nat, s: seq<byte>)
    requires s != []
  {
    && ind < 4 && s[0] in {DASH, STAR as byte, UNDERSCORE as byte}
    && (forall x :: x in s ==> x == s[0] || White(x)) && Occurrences(s, s[0]) >= 3
  }

  predicate IsHeading(ind: nat, s: seq<byte>)
    requires s != []
  {
    var k := RunEnd(s, 0, HASH);
    ind < 4 && s[0] == HASH && k <= 6 && (k == |s| || White(s[k]))
  }

  function HeadingStep(d: Parse, s: seq<byte>): (Parse, seq<Block>) {
    var k := RunEnd(s, 0, HASH);
    var h := Opened(d, Head, HeadingText(s, k)).(level := k);
    (Closed(h).(inList := false), Gathered(d) + Gathered(h))
  }

  function ItemStep(d: Parse, ind: nat, s: seq<byte>, m: seq<byte>, q: nat): (Parse, seq<Block>)
    requires q <= |s|
  {
    var margin := if ind < 8 then ind else 8;
    var cont := margin + |m| + 1;
    (Opened(d, ListItem, s[WhiteEnd(s, q)..]).(margin := margin, marker := m, cont := cont, inList := true, listCont := cont),
     Gathered(d))
  }

  function QuoteStep(d: Parse, s: seq<byte>): (Parse, seq<Block>) {
    var c := s[WhiteEnd(s, QuoteEnd(s, 0))..];
    if c == [] then (Closed(d), Gathered(d) + [EmptyQuote])
    else if d.kind.Quote? then (d.(blk := d.blk + [SPACE] + c, inList := false), [])
    else (Opened(d, Quote, c).(inList := false), Gathered(d))
  }

  function TableStep(d: Parse, s: seq<byte>): (Parse, seq<Block>) {
    var t := Opened(d, Table, s);
    (Closed(t).(inList := false), Gathered(d) + Gathered(t))
  }

  /** Where a line's code begins: four columns in. */
  function CodeFrom(line: seq<byte>, q: nat, col: nat): (r: nat)
    requires q <= |line|
    ensures q <= r <= |line| && (r > q ==> line[r - 1] < 0x80)
    decreases |line| - q
  {
    if q < |line| && col < 4 && White(line[q]) then CodeFrom(line, q + 1, if line[q] == TAB then (col + 4) / 4 * 4 else col + 1)
    else q
  }

  function TextStep(d: Parse, ind: nat, s: seq<byte>): (Parse, seq<Block>) {
    if d.kind in {Para, ListItem, Quote} then (d.(blk := d.blk + (if d.blk != [] then [SPACE] else []) + s), [])
    else
      var inList := d.inList && ind != 0;
      (Opened(d, Para, s).(inList := inList, margin := if inList then d.listCont else 0), Gathered(d))
  }

  /** The lines that end a block before any other is looked at: an opening fence, the
      underline of a heading, a thematic break, a heading. */
  function Leading(d: Parse, ind: nat, s: seq<byte>): Option<(Parse, seq<Block>)>
    requires s != []
  {
    if OpensFence(ind, s) then
      Some((Closed(d).(inFence := true, fenceCh := s[0], fenceLen := RunEnd(s, 0, s[0]), fenceIndent := ind, inList := false),
            Gathered(d)))
    else if IsUnderline(d, ind, s) then
      var h := d.(kind := Head, level := if s[0] == EQUAL then 1 else 2);
      Some((Closed(h).(inList := false), Gathered(h)))
    else if IsRule(ind, s) then Some((Closed(d).(inList := false), Gathered(d) + [Rule]))
    else if IsHeading(ind, s) then Some(HeadingStep(d, s))
    else None
  }

  /** All other lines with text. */
  function Following(d: Parse, ind: nat, s: seq<byte>, line: seq<byte>): (Parse, seq<Block>)
    requires s != []
  {
    if ind < (if d.inList then 64 else 4) && Marker(s, ind).Some? then
      ItemStep(d, ind, s, Marker(s, ind).value.0, Marker(s, ind).value.1)
    else if ind < 4 && s[0] == QUOTE_MARK then QuoteStep(d, s)
    else if ind < 4 && s[0] == PIPE then TableStep(d, s)
    else if ind >= 4 && !d.inList && d.kind.NoBlock? then (d, [Code(line[CodeFrom(line, 0, 0)..])])
    else TextStep(d, ind, s)
  }

  /** The parse after a line, and the blocks it completes. */
  function LineStep(d: Parse, line: seq<byte>): (Parse, seq<Block>) {
    var (ind, p) := Indent(line, 0, 0);
    var s := line[p..];
    if d.inFence then FenceStep(d, ind, s, line)
    else if s == [] then (Closed(d), Gathered(d) + [Gap])
    else
      match Leading(d, ind, s)
      case Some(r) => r
      case None => Following(d, ind, s, line)
  }

  // ----- a file -----

  /** The lines of a file, a last empty one left out. */
  function SplitLines(data: seq<byte>): seq<seq<byte>>
    decreases |data|
  {
    var i := BatchLines.FirstLf(data);
    if i < |data| then [data[..i]] + SplitLines(data[i + 1..]) else if data == [] then [] else [data]
  }

  /** A line without CRs and NULs. */
  function Cleaned(line: seq<byte>): (r: seq<byte>)
    ensures 0 !in r
  {
    if line == [] then [] else Cleaned(line[..|line| - 1]) + if line[|line| - 1] in {0, 13} then [] else [line[|line| - 1]]
  }

  function Parsed(lines: seq<seq<byte>>): (Parse, seq<Block>) {
    if lines == [] then (FRESH_PARSE, [])
    else
      var (d, blocks) := Parsed(lines[..|lines| - 1]);
      var (d', more) := LineStep(d, Cleaned(lines[|lines| - 1]));
      (d', blocks + more)
  }

  /** The blocks of a file. */
  function Blocks(data: seq<byte>): seq<Block> {
    var (d, blocks) := Parsed(SplitLines(data));
    blocks + Gathered(d)
  }

  // ----- every block formed is sound -----

  /** Margins, markers and texts stay within what the row builder can take. */
  predicate ParseOk(d: Parse) {
    && 0 !in d.blk && d.listCont <= 19
    && (d.kind.NoBlock? ==> d.blk == [])
    && (d.kind.Para? ==> d.margin <= 19)
    && (d.kind.ListItem? ==>
          d.margin + |d.marker| + 1 <= 19 && d.cont == d.margin + |d.marker| + 1
          && forall c :: c in d.marker ==> 33 <= c < 127)
    && (d.inFence ==> d.fenceLen >= 3)
  }

  ghost predicate AllSound(blocks: seq<Block>) {
    forall b :: b in blocks ==> b.Sound()
  }

  lemma GatheredSound(d: Parse)
    requires ParseOk(d)
    ensures AllSound(Gathered(d)) && ParseOk(Closed(d))
  {
    var text := d.blk + [0];
    assert forall i :: 0 <= i < |d.blk| ==> text[i] in d.blk;
    assert Terminated(text);
  }

  lemma NoNul(s: seq<byte>, a: nat, b: nat)
    requires 0 !in s && a <= b <= |s|
    ensures 0 !in s[a..b]
  {
  }

  lemma NoNulHeading(s: seq<byte>, k: nat)
    requires 0 !in s && k <= |s|
    ensures 0 !in HeadingText(s, k)
  {
  }

  /** Opening a block closes the one before. */
  lemma OpenedOk(d: Parse, kind: Kind, content: seq<byte>)
    requires ParseOk(d) && 0 !in content && kind in {Head, Table, Quote}
    ensures ParseOk(Opened(d, kind, content)) && AllSound(Gathered(d))
    ensures ParseOk(Closed(d)) && ParseOk(Closed(d).(inList := false))
  {
    hide Gathered;
    GatheredSound(d);
  }

  lemma HeadingSound(d: Parse, s: seq<byte>)
    requires ParseOk(d) && 0 !in s
    ensures ParseOk(HeadingStep(d, s).0) && AllSound(HeadingStep(d, s).1)
  {
    hide RunEnd, HeadingText, Gathered;
    var k := RunEnd(s, 0, HASH);
    NoNulHeading(s, k);
    OpenedOk(d, Head, HeadingText(s, k));
    GatheredSound(Opened(d, Head, HeadingText(s, k)).(level := k));
  }

  lemma ItemSound(d: Parse, ind: nat, s: seq<byte>)
    requires ParseOk(d) && 0 !in s && s != [] && Marker(s, ind).Some?
    ensures var m := Marker(s, ind).value;
            ParseOk(ItemStep(d, ind, s, m.0, m.1).0) && AllSound(ItemStep(d, ind, s, m.0, m.1).1)
  {
    hide Marker, WhiteEnd, Gathered;
    var q := WhiteEnd(s, Marker(s, ind).value.1);
    NoNul(s, q, |s|);
    GatheredSound(d);
  }

  lemma QuoteSound(d: Parse, s: seq<byte>)
    requires ParseOk(d) && 0 !in s
    ensures ParseOk(QuoteStep(d, s).0) && AllSound(QuoteStep(d, s).1)
  {
    hide WhiteEnd, QuoteEnd, Gathered;
    var q := WhiteEnd(s, QuoteEnd(s, 0));
    NoNul(s, q, |s|);
    OpenedOk(d, Quote, s[q..]);
  }

  lemma TableSound(d: Parse, s: seq<byte>)
    requires ParseOk(d) && 0 !in s
    ensures ParseOk(TableStep(d, s).0) && AllSound(TableStep(d, s).1)
  {
    hide Gathered;
    OpenedOk(d, Table, s);
    GatheredSound(Opened(d, Table, s));
  }

  lemma TextSound(d: Parse, ind: nat, s: seq<byte>)
    requires ParseOk(d) && 0 !in s
    ensures ParseOk(TextStep(d, ind, s).0) && AllSound(TextStep(d, ind, s).1)
  {
    hide Gathered;
    GatheredSound(d);
  }

  lemma UnderlineSound(d: Parse, level: nat)
    requires ParseOk(d) && d.kind.Para?
    ensures ParseOk(Closed(d.(kind := Head, level := level)).(inList := false))
    ensures AllSound(Gathered(d.(kind := Head, level := level)))
  {
    hide Gathered;
    GatheredSound(d.(kind := Head, level := level));
  }

  lemma LeadingSound(d: Parse, ind: nat, s: seq<byte>)
    requires ParseOk(d) && 0 !in s && s != []
    ensures Leading(d, ind, s).Some? ==>
              ParseOk(Leading(d, ind, s).value.0) && AllSound(Leading(d, ind, s).value.1)
  {
    hide RunEnd, TextEnd, Occurrences, Gathered, HeadingStep;
    GatheredSound(d);
    HeadingSound(d, s);
    if d.kind.Para? {
      UnderlineSound(d, if s[0] == EQUAL then 1 else 2);
    }
  }

  lemma FollowingSound(d: Parse, ind: nat, s: seq<byte>, line: seq<byte>)
    requires ParseOk(d) && 0 !in s && s != []
    ensures ParseOk(Following(d, ind, s, line).0) && AllSound(Following(d, ind, s, line).1)
  {
    hide Marker, CodeFrom, ItemStep, QuoteStep, TableStep, TextStep;
    if Marker(s, ind).Some? {
      ItemSound(d, ind, s);
    }
    QuoteSound(d, s);
    TableSound(d, s);
    TextSound(d, ind, s);
  }

  /** One line keeps the parse in order and completes only sound blocks. */
  lemma LineSound(d: Parse, line: seq<byte>)
    requires ParseOk(d) && 0 !in line
    ensures ParseOk(LineStep(d, line).0) && AllSound(LineStep(d, line).1)
  {
    hide Indent, RunEnd, WhiteEnd, IndentCut, Gathered, Leading, Following;
    var (ind, p) := Indent(line, 0, 0);
    var s := line[p..];
    NoNul(line, p, |line|);
    GatheredSound(d);
    if s != [] {
      LeadingSound(d, ind, s);
      FollowingSound(d, ind, s, line);
    }
  }

  lemma {:induction false} ParsedSound(lines: seq<seq<byte>>)
    ensures ParseOk(Parsed(lines).0) && AllSound(Parsed(lines).1)
  {
    hide LineStep;
    if lines != [] {
      ParsedSound(lines[..|lines| - 1]);
      LineSound(Parsed(lines[..|lines| - 1]).0, Cleaned(lines[|lines| - 1]));
    }
  }

  /** Whatever the file, its blocks are sound: prefixes of at most 19 columns, texts
      that end at their NUL. */
  lemma BlocksSound(data: seq<byte>)
    ensures AllSound(Blocks(data))
  {
    hide Parsed;
    ParsedSound(SplitLines(data));
    GatheredSound(Parsed(SplitLines(data)).0);
  }

  /** The rows of a file. */
  function Rows(data: seq<byte>, width: nat, plain: bool): seq<seq<byte>> {
    BlocksSound(data);
    Document(width, plain, IDLE, Blocks(data)).rows
  }

  /** For every file and every width of at least 20, no row is wider than the screen
      and every row leaves the terminal reset. */
  lemma RowsFit(data: seq<byte>, width: nat, plain: bool)
    requires width >= 20
    ensures AllFit(width, Rows(data, width, plain))
  {
    BlocksSound(data);
    DocumentFits(width, plain, IDLE, Blocks(data));
  }

  /** No row of the coloured file reaches the length cutoff. */
  ghost predicate FileUncut(data: seq<byte>, width: nat) {
    BlocksSound(data);
    Uncut(width, IDLE, Blocks(data))
  }

  /** For every file, the coloured rows strip to the plain ones, unless a row reaches
      the length cutoff. */
  lemma ColourStrips(data: seq<byte>, width: nat)
    requires width >= 20 && FileUncut(data, width)
    ensures var c, p := Rows(data, width, false), Rows(data, width, true);
            |c| == |p| && forall k :: 0 <= k < |c| ==> MdColour.Strip(c[k]) == p[k]
  {
    BlocksSound(data);
    ColouredDocumentStrips(width, Blocks(data));
  }
}
