/** What block markup means: a file written piece by piece, with a blank line behind each,
    is gathered into the blocks it was written from. */
module MdShapes {
  import opened Bytes
  import opened MdWrap
  import opened MdInline
  import opened MdDoc
  import opened MdSource
  import MdKept
  import BatchLines

  /** A piece of a file: a paragraph, one underlined as a heading, a heading, a list item by
      a bullet or a number, a paragraph of the list at hand, a quote, code in a fence or
      indented, a thematic break, a table row, and a line of marks that is text. */
  datatype Piece =
    | Paragraph(first: seq<byte>, more: seq<seq<byte>>)
    | Underlined(first: seq<byte>, more: seq<seq<byte>>, mark: byte, n: nat)
    | Heading(level: nat, u: seq<byte>, closing: nat)
    | Bullet(ind: nat, mark: byte, first: seq<byte>, more: seq<seq<byte>>)
    | Numbered(ind: nat, digits: seq<byte>, mark: byte, first: seq<byte>, more: seq<seq<byte>>)
    | InItem(ind: nat, first: seq<byte>, more: seq<seq<byte>>)
    | Quoted(first: seq<byte>, marked: bool, more: seq<seq<byte>>)
    | Fenced(ind: nat, mark: byte, n: nat, info: seq<byte>, code: seq<seq<byte>>)
    | Indented(u: seq<byte>)
    | Dashed(mark: byte, u: seq<byte>)
    | TableRow(u: seq<byte>)
    | Odd(mark: byte, n: nat, w: seq<byte>)
  {
    /** The lines it is written in. */
    function Lines(): seq<seq<byte>> {
      match this
      case Paragraph(u, more) => [u] + more
      case Underlined(u, more, mark, n) => [u] + more + [Repeat(mark, n)]
      case Heading(k, u, closing) => [Repeat(HASH, k) + [SPACE] + (u + Closing(closing))]
      case Bullet(ind, mark, u, more) => [Repeat(SPACE, ind) + ([mark, SPACE] + u)] + more
      case Numbered(ind, digits, mark, u, more) => [Repeat(SPACE, ind) + (digits + [mark, SPACE] + u)] + more
      case InItem(ind, u, more) => [Repeat(SPACE, ind) + u] + more
      case Quoted(u, marked, more) => [[QUOTE_MARK, SPACE] + u] + if marked then Marked(more) else more
      case Fenced(ind, mark, n, info, code) =>
        [Repeat(SPACE, ind) + (Repeat(mark, n) + info)] + Shifted(ind, code) + [Repeat(SPACE, ind) + Repeat(mark, n)]
      case Indented(u) => [Repeat(SPACE, 4) + u]
      case Dashed(_, u) => [u]
      case TableRow(u) => [[PIPE] + u]
      case Odd(mark, n, w) => [Repeat(mark, n) + w]
    }

    /** The block it is, in a list whose text begins at column listCont. */
    function Formed(listCont: nat): seq<Block> {
      match this
      case Paragraph(u, more) => [Text(Margin(0), Margin(0), [], Joined(u, more) + [0])]
      case Underlined(u, more, mark, _) =>
        [Text(Margin(0), Margin(0), HeadingParams(if mark == EQUAL then 1 else 2), Joined(u, more) + [0])]
      case Heading(k, u, _) => [Text(Margin(0), Margin(0), HeadingParams(k), u + [0])]
      case Bullet(ind, _, u, more) =>
        [Text(Item(AtMost8(ind), [if ind == 0 then STAR else DASH]), Margin(AtMost8(ind) + 2), [], Joined(u, more) + [0])]
      case Numbered(ind, digits, mark, u, more) =>
        [Text(Item(AtMost8(ind), digits + [mark]), Margin(AtMost8(ind) + |digits| + 2), [], Joined(u, more) + [0])]
      case InItem(_, u, more) => [Text(Margin(listCont), Margin(listCont), [], Joined(u, more) + [0])]
      case Quoted(u, _, more) => [Text(Bar, Bar, [], Joined(u, more) + [0])]
      case Fenced(_, _, _, _, code) => Codes(code)
      case Indented(u) => [Code(u)]
      case Dashed(_, _) => [Rule]
      case TableRow(u) => [Text(Margin(0), Margin(0), [], [PIPE] + u + [0])]
      case Odd(mark, n, w) => [Text(Margin(0), Margin(0), [], Repeat(mark, n) + w + [0])]
    }

    /** Text lines begin in a letter or a byte above ASCII; inside a list an item may be
        followed by its own paragraphs, but not by indented code. */
    predicate Ok(inList: bool) {
      match this
      case Paragraph(u, more) => Plain(u) && AllPlain(more)
      case Underlined(u, more, mark, n) => Plain(u) && AllPlain(more) && (mark == EQUAL || mark == DASH) && n >= 1
      case Heading(k, u, _) => 1 <= k <= 6 && Plain(u) && !White(u[|u| - 1]) && u[|u| - 1] != HASH
      case Bullet(ind, mark, u, more) =>
        && ind < (if inList then 64 else 4)
        && (mark == DASH || mark == STAR || mark == PLUS) && Plain(u) && AllPlain(more)
      case Numbered(ind, digits, mark, u, more) =>
        && ind < (if inList then 64 else 4) && 1 <= |digits| <= 9 && (forall i :: 0 <= i < |digits| ==> 48 <= digits[i] <= 57)
        && (mark == DOT || mark == RPAREN) && Plain(u) && AllPlain(more)
      case InItem(ind, u, more) => inList && 0 < ind < 64 && Plain(u) && AllPlain(more)
      case Quoted(u, _, more) => Plain(u) && AllPlain(more)
      case Fenced(ind, mark, n, info, code) =>
        && ind < 4 && (mark == BACKTICK || mark == TILDE) && n >= 3 && (info == [] || (Plain(info) && BACKTICK !in info))
        && forall l :: l in code ==> NotFence(l, mark)
      case Indented(u) => !inList && Plain(u)
      case Dashed(mark, u) =>
        (mark == DASH || mark == STAR || mark == UNDERSCORE) && 0 !in u && ThreeMarks(u, mark)
      case TableRow(u) => 0 !in u
      case Odd(mark, n, w) => n >= 1 && (w == [] || Plain(w)) && OnlyText(mark, n, w)
    }

    predicate KeepsList() {
      Bullet? || Numbered? || InItem?
    }

    function Cont(listCont: nat): nat {
      match this
      case Bullet(ind, _, _, _) => AtMost8(ind) + 2
      case Numbered(ind, digits, _, _, _) => AtMost8(ind) + |digits| + 2
      case _ => listCont
    }
  }

  /** Marks that may close a heading, behind a space. */
  function Closing(n: nat): seq<byte> {
    if n == 0 then [] else [SPACE] + Repeat(HASH, n)
  }

  /** Nothing but this mark and blanks, the mark first and at least three times. */
  predicate ThreeMarks(u: seq<byte>, mark: byte) {
    && u != [] && u[0] == mark && (forall i :: 0 <= i < |u| ==> u[i] == mark || White(u[i]))
    && exists i, j :: 0 < i < j < |u| && u[i] == mark && u[j] == mark
  }

  /** Marks that are text after all: too many or too few of them, or a word at once. */
  predicate OnlyText(mark: byte, n: nat, w: seq<byte>) {
    if mark == HASH then w != [] || n > 6
    else if mark == DASH || mark == STAR then w != [] || n == 2
    else if mark == UNDERSCORE then w != [] || n <= 2
    else if mark == PLUS then w != [] || n >= 2
    else if mark == BACKTICK || mark == TILDE then n <= 2
    else mark == EQUAL || 48 <= mark <= 57
  }

  /** Lines of a quote, each with its mark. */
  function Marked(lines: seq<seq<byte>>): seq<seq<byte>> {
    if lines == [] then [] else Marked(lines[..|lines| - 1]) + [[QUOTE_MARK, SPACE] + lines[|lines| - 1]]
  }

  function AtMost8(n: nat): nat {
    if n < 8 then n else 8
  }

  function Repeat(c: byte, n: nat): (r: seq<byte>)
    ensures |r| == n && forall i :: 0 <= i < n ==> r[i] == c
  {
    seq(n, i => c)
  }

  predicate Plain(u: seq<byte>) {
    u != [] && Letter(u[0]) && 0 !in u
  }

  predicate AllPlain(more: seq<seq<byte>>) {
    forall u :: u in more ==> Plain(u)
  }

  /** A line of code in a fence does not begin, behind its blanks, in the fence's mark. */
  predicate NotFence(l: seq<byte>, mark: byte) {
    0 !in l && forall i :: 0 <= i < |l| && l[i] == mark ==> exists k :: 0 <= k < i && !White(l[k])
  }

  /** Lines joined by spaces. */
  function Joined(u: seq<byte>, more: seq<seq<byte>>): seq<byte> {
    if more == [] then u else Joined(u, more[..|more| - 1]) + [SPACE] + more[|more| - 1]
  }

  /** Lines moved to the right. */
  function Shifted(ind: nat, code: seq<seq<byte>>): seq<seq<byte>> {
    if code == [] then [] else Shifted(ind, code[..|code| - 1]) + [Repeat(SPACE, ind) + code[|code| - 1]]
  }

  function Codes(code: seq<seq<byte>>): seq<Block> {
    if code == [] then [] else Codes(code[..|code| - 1]) + [Code(code[|code| - 1])]
  }

  // ----- lines one after the other -----

  function Steps(d: Parse, lines: seq<seq<byte>>): (Parse, seq<Block>) {
    if lines == [] then (d, [])
    else
      var (e, blocks) := Steps(d, lines[..|lines| - 1]);
      var (f, more) := LineStep(e, lines[|lines| - 1]);
      (f, blocks + more)
  }

  lemma StepsMore(d: Parse, lines: seq<seq<byte>>, line: seq<byte>)
    ensures var r := Steps(d, lines); var s := LineStep(r.0, line);
            Steps(d, lines + [line]) == (s.0, r.1 + s.1)
  {
    hide LineStep;
    assert (lines + [line])[..|lines|] == lines;
  }

  lemma StepsOne(d: Parse, line: seq<byte>)
    ensures Steps(d, [line]) == LineStep(d, line)
  {
    hide LineStep;
    StepsMore(d, [], line);
    assert [] + [line] == [line];
    NoBlocksBefore(LineStep(d, line).1);
  }

  lemma NoBlocksBefore(r: seq<Block>)
    ensures [] + r == r
  {
  }

  lemma {:induction false} StepsCat(d: Parse, a: seq<seq<byte>>, b: seq<seq<byte>>)
    ensures var r := Steps(d, a); var s := Steps(r.0, b);
            Steps(d, a + b) == (s.0, r.1 + s.1)
  {
    hide LineStep;
    if b == [] {
      assert a + b == a && Steps(d, a).1 + [] == Steps(d, a).1;
    } else {
      var m := |b| - 1;
      StepsCat(d, a, b[..m]);
      assert a + b == a + b[..m] + [b[m]];
      StepsMore(d, a + b[..m], b[m]);
      var r := Steps(d, a);
      Regroup(r.1, Steps(r.0, b[..m]).1, LineStep(Steps(r.0, b[..m]).0, b[m]).1);
    }
  }

  lemma Regroup(a: seq<Block>, b: seq<Block>, c: seq<Block>)
    ensures a + (b + c) == a + b + c
  {
  }

  /** Nothing is being gathered. */
  predicate Between(d: Parse) {
    d.kind.NoBlock? && d.blk == [] && !d.inFence
  }

  lemma BlankStep(d: Parse)
    requires !d.inFence
    ensures LineStep(d, []) == (Closed(d), Gathered(d) + [Gap])
  {
  }

  // ----- a line of text -----

  lemma {:induction false} IndentPast(n: nat, s: seq<byte>, p: nat)
    requires p <= n && (s != [] ==> !White(s[0]))
    ensures Indent(Repeat(SPACE, n) + s, p, p) == (n, n)
    decreases n - p
  {
    if p < n {
      IndentPast(n, s, p + 1);
    }
  }

  lemma IndentIs(n: nat, s: seq<byte>)
    requires s != [] ==> !White(s[0])
    ensures Indent(Repeat(SPACE, n) + s, 0, 0) == (n, n) && (Repeat(SPACE, n) + s)[n..] == s
  {
    IndentPast(n, s, 0);
  }

  /** A line that begins in a letter is text. */
  lemma TextIs(d: Parse, ind: nat, u: seq<byte>)
    requires Plain(u) && !d.inFence && (ind < 4 || d.inList || !d.kind.NoBlock?)
    ensures LineStep(d, Repeat(SPACE, ind) + u) == TextStep(d, ind, u)
  {
    hide Indent, RunEnd, TextEnd, Occurrences, Gathered, HeadingStep, WhiteEnd, DigitsEnd, TextStep;
    IndentIs(ind, u);
    NoDigits(u);
    assert Leading(d, ind, u).None?;
    assert Marker(u, ind).None?;
  }

  lemma NoDigits(u: seq<byte>)
    requires u != [] && !(48 <= u[0] <= 57)
    ensures DigitsEnd(u, 0) == 0
  {
  }

  lemma NoIndent(u: seq<byte>)
    ensures Repeat(SPACE, 0) + u == u
  {
  }

  /** Further lines are added to the block, a space between. */
  lemma {:induction false} MoreText(d: Parse, u: seq<byte>, more: seq<seq<byte>>)
    requires !d.inFence && d.kind in {Para, ListItem, Kind.Quote} && d.blk == u && u != [] && AllPlain(more)
    ensures Steps(d, more) == (d.(blk := Joined(u, more)), [])
  {
    hide LineStep;
    if more != [] {
      var m := |more| - 1;
      assert more[m] in more && forall l :: l in more[..m] ==> l in more;
      MoreText(d, u, more[..m]);
      JoinedSome(u, more[..m]);
      NoIndent(more[m]);
      var e := d.(blk := Joined(u, more[..m]));
      TextIs(e, 0, more[m]);
      assert LineStep(e, more[m]) == (d.(blk := Joined(u, more)), []);
      assert more == more[..m] + [more[m]];
      StepsMore(d, more[..m], more[m]);
      NoBlocksBefore([]);
    } else {
      assert d.(blk := u) == d;
    }
  }

  lemma {:induction false} JoinedSome(u: seq<byte>, more: seq<seq<byte>>)
    requires u != []
    ensures Joined(u, more) != []
  {
  }

  // ----- the pieces -----

  lemma StepsFirst(d: Parse, line: seq<byte>, more: seq<seq<byte>>)
    ensures var r := LineStep(d, line); var s := Steps(r.0, more);
            Steps(d, [line] + more) == (s.0, r.1 + s.1)
  {
    hide LineStep;
    StepsOne(d, line);
    StepsCat(d, [line], more);
  }

  /** A block opened by its first line and continued by text. */
  lemma TextPiece(d: Parse, line: seq<byte>, e: Parse, u: seq<byte>, more: seq<seq<byte>>)
    requires LineStep(d, line) == (e, []) && !e.inFence && e.kind in {Para, ListItem, Kind.Quote} && e.blk == u && u != [] && AllPlain(more)
    ensures Steps(d, [line] + more) == (e.(blk := Joined(u, more)), [])
  {
    hide LineStep, Steps;
    StepsFirst(d, line, more);
    MoreText(e, u, more);
    NoBlocksBefore([]);
  }

  lemma ParagraphOpens(d: Parse, u: seq<byte>)
    requires Between(d) && Plain(u)
    ensures LineStep(d, u) == (Opened(d, Para, u).(inList := false, margin := 0), [])
  {
    hide LineStep;
    NoIndent(u);
    TextIs(d, 0, u);
  }

  lemma InItemOpens(d: Parse, ind: nat, u: seq<byte>)
    requires Between(d) && d.inList && 0 < ind && Plain(u)
    ensures LineStep(d, Repeat(SPACE, ind) + u) == (Opened(d, Para, u).(margin := d.listCont), [])
  {
    hide LineStep;
    TextIs(d, ind, u);
  }

  lemma {:induction false} RunIs(s: seq<byte>, i: nat, c: byte, n: nat)
    requires i <= n <= |s| && (forall k :: i <= k < n ==> s[k] == c) && (n < |s| ==> s[n] != c)
    ensures RunEnd(s, i, c) == n
    decreases n - i
  {
    if i < n {
      RunIs(s, i + 1, c, n);
    }
  }

  lemma WhiteIs(s: seq<byte>, i: nat)
    requires i <= |s| && (i < |s| ==> !White(s[i]))
    ensures WhiteEnd(s, i) == i
  {
  }

  lemma WhiteOne(s: seq<byte>, i: nat)
    requires i + 1 < |s| && s[i] == SPACE && !White(s[i + 1])
    ensures WhiteEnd(s, i) == i + 1
  {
    WhiteIs(s, i + 1);
  }

  /** A list item's first line. */
  lemma ItemOpens(d: Parse, ind: nat, lead: seq<byte>, u: seq<byte>, m: seq<byte>)
    requires Between(d) && ind < (if d.inList then 64 else 4) && lead != [] && !White(lead[0]) && Plain(u)
    requires var s := lead + [SPACE] + u; Leading(d, ind, s).None? && Marker(s, ind) == Some((m, |lead|))
    ensures var cont := AtMost8(ind) + |m| + 1;
            LineStep(d, Repeat(SPACE, ind) + (lead + [SPACE] + u))
            == (Opened(d, ListItem, u).(margin := AtMost8(ind), marker := m, cont := cont, inList := true, listCont := cont), [])
  {
    hide Indent, Leading, Marker, Gathered, WhiteEnd, QuoteStep, TableStep, TextStep, CodeFrom, Repeat, ClosesFence;
    var s := lead + [SPACE] + u;
    IndentIs(ind, s);
    WhiteOne(s, |lead|);
    assert s[|lead| + 1..] == u;
    NothingGathered(d);
  }

  lemma NothingGathered(d: Parse)
    requires d.kind.NoBlock?
    ensures Gathered(d) == []
  {
  }

  lemma BulletMarks(d: Parse, ind: nat, mark: byte, u: seq<byte>)
    requires (mark == DASH || mark == STAR || mark == PLUS) && Plain(u) && d.kind.NoBlock?
    ensures var s := [mark] + [SPACE] + u;
            Leading(d, ind, s).None? && Marker(s, ind) == Some(([if ind == 0 then STAR else DASH], 1))
  {
    hide RunEnd, TextEnd, Occurrences, Gathered, HeadingStep;
    var s := [mark] + [SPACE] + u;
    assert s[2] == u[0] && s[2] in s;
    assert !OpensFence(ind, s) && !IsRule(ind, s) && !IsHeading(ind, s) && !IsUnderline(d, ind, s);
  }

  lemma {:induction false} DigitsAre(s: seq<byte>, q: nat, n: nat)
    requires q <= n <= |s| && n <= 9 && (forall i :: q <= i < n ==> 48 <= s[i] <= 57) && (n < |s| && n < 9 ==> !(48 <= s[n] <= 57))
    ensures DigitsEnd(s, q) == n
    decreases n - q
  {
    if q < n {
      DigitsAre(s, q + 1, n);
    }
  }

  lemma NumberMarks(d: Parse, ind: nat, digits: seq<byte>, mark: byte, u: seq<byte>, more: seq<seq<byte>>)
    requires Numbered(ind, digits, mark, u, more).Ok(true) && d.kind.NoBlock?
    ensures var s := digits + [mark] + [SPACE] + u;
            Leading(d, ind, s).None? && Marker(s, ind) == Some((digits + [mark], |digits| + 1))
  {
    hide RunEnd, TextEnd, Occurrences, Gathered, HeadingStep, DigitsEnd;
    var s, n := digits + [mark] + [SPACE] + u, |digits|;
    assert s[0] == digits[0] && s[n] == mark && s[n + 1] == SPACE;
    DigitsAre(s, 0, n);
    assert s[..n + 1] == digits + [mark];
    assert !OpensFence(ind, s) && !IsRule(ind, s) && !IsHeading(ind, s) && !IsUnderline(d, ind, s);
  }

  lemma QuoteOpens(d: Parse, u: seq<byte>)
    requires Between(d) && Plain(u)
    ensures LineStep(d, [QUOTE_MARK, SPACE] + u) == (Opened(d, Kind.Quote, u).(inList := false), [])
  {
    hide LineStep, WhiteEnd, QuoteEnd, Gathered;
    QuoteStepIs(d, u);
    PlainIsSome(u);
    NothingGathered(d);
  }

  lemma TableStands(d: Parse, u: seq<byte>)
    requires Between(d)
    ensures LineStep(d, [PIPE] + u) == (d.(inList := false), [Text(Margin(0), Margin(0), [], [PIPE] + u + [0])])
  {
    hide Indent, RunEnd, TextEnd, Occurrences, HeadingStep, DigitsEnd, WhiteEnd;
    var s := [PIPE] + u;
    NoIndent(s);
    IndentIs(0, s);
    NoDigits(s);
    assert !OpensFence(0, s) && !IsRule(0, s) && !IsHeading(0, s) && !IsUnderline(d, 0, s);
    assert Marker(s, 0).None?;
    NothingGathered(d);
    NoBlocksBefore(Gathered(Opened(d, Table, s)));
  }

  lemma IndentedStands(d: Parse, u: seq<byte>)
    requires Between(d) && !d.inList && Plain(u)
    ensures LineStep(d, Repeat(SPACE, 4) + u) == (d, [Code(u)])
  {
    hide Indent, RunEnd, TextEnd, Occurrences, HeadingStep, DigitsEnd, WhiteEnd, Gathered;
    var line := Repeat(SPACE, 4) + u;
    IndentIs(4, u);
    NoDigits(u);
    assert Leading(d, 4, u).None? && Marker(u, 4).None?;
    assert CodeFrom(line, 4, 4) == 4 && CodeFrom(line, 3, 3) == 4 && CodeFrom(line, 2, 2) == 4 && CodeFrom(line, 1, 1) == 4;
    assert line[4..] == u;
  }

  lemma {:induction false} OccursMore(s: seq<byte>, c: byte, n: nat)
    requires n < |s| && s[n] == c
    ensures Occurrences(s, c) >= Occurrences(s[..n], c) + 1
    decreases |s|
  {
    var m := |s| - 1;
    if n < m {
      assert s[..m][..n] == s[..n];
      OccursMore(s[..m], c, n);
    }
  }

  lemma ThreeOccur(u: seq<byte>, mark: byte)
    requires ThreeMarks(u, mark)
    ensures Occurrences(u, mark) >= 3
  {
    hide Occurrences;
    var i, j :| 0 < i < j < |u| && u[i] == mark && u[j] == mark;
    OccursMore(u, mark, j);
    OccursMore(u[..j], mark, i);
    assert u[..j][..i] == u[..i];
    OccursMore(u[..i], mark, 0);
  }

  lemma DashedStands(d: Parse, mark: byte, u: seq<byte>)
    requires Between(d) && Dashed(mark, u).Ok(true)
    ensures LineStep(d, u) == (d.(inList := false), [Rule])
  {
    hide Indent, RunEnd, TextEnd, Occurrences, HeadingStep;
    NoIndent(u);
    IndentIs(0, u);
    ThreeOccur(u, mark);
    NothingGathered(d);
    assert !OpensFence(0, u) && !IsUnderline(d, 0, u) && IsRule(0, u);
    NoBlocksBefore([Rule]);
  }

  lemma {:induction false} TextEndIs(s: seq<byte>, e: nat)
    requires 0 < e <= |s| && !White(s[e - 1])
    ensures TextEnd(s, e) == e
  {
  }

  lemma HeadingStands(d: Parse, k: nat, u: seq<byte>, closing: nat)
    requires Between(d) && Heading(k, u, closing).Ok(true)
    ensures LineStep(d, Repeat(HASH, k) + [SPACE] + (u + Closing(closing)))
            == (d.(inList := false, level := k), [Text(Margin(0), Margin(0), HeadingParams(k), u + [0])])
  {
    hide Indent, RunEnd, TextEnd, Occurrences, WhiteEnd, HeadingText, Closing;
    var s := Repeat(HASH, k) + [SPACE] + (u + Closing(closing));
    NoIndent(s);
    IndentIs(0, s);
    RunIs(s, 0, HASH, k);
    HeadingTextIs(s, k, u, closing);
    NothingGathered(d);
    assert !OpensFence(0, s) && !IsUnderline(d, 0, s) && !IsRule(0, s) && IsHeading(0, s);
    NoBlocksBefore(Gathered(Opened(d, Head, u).(level := k)));
  }

  /** A heading's closing marks, if they stand apart. */
  function WithoutMarks(c: seq<byte>): seq<byte> {
    var e := MarksStart(c, |c|);
    if e == 0 || White(c[e - 1]) then c[..TextEnd(c, e)] else c
  }

  lemma HeadingTextIs(s: seq<byte>, k: nat, u: seq<byte>, closing: nat)
    requires s == Repeat(HASH, k) + [SPACE] + (u + Closing(closing)) && Heading(k, u, closing).Ok(true)
    ensures HeadingText(s, k) == u
  {
    var c := u + Closing(closing);
    ClosedEnd(u, closing);
    MarksGone(u, closing);
    hide WhiteEnd, TextEnd, MarksStart, Closing;
    WhiteOne(s, k);
    assert s[|s| - 1] == c[|c| - 1];
    TextEndIs(s, |s|);
    assert s[k + 1..|s|] == c;
    assert HeadingText(s, k) == WithoutMarks(c);
  }

  lemma ClosedEnd(u: seq<byte>, closing: nat)
    requires u != [] && !White(u[|u| - 1]) && !White(u[0])
    ensures var c := u + Closing(closing); !White(c[|c| - 1]) && c[0] == u[0]
  {
  }

  lemma MarksGone(u: seq<byte>, closing: nat)
    requires u != [] && u[|u| - 1] != HASH && !White(u[|u| - 1])
    ensures WithoutMarks(u + Closing(closing)) == u
  {
    hide TextEnd, MarksStart;
    var c, n := u + Closing(closing), |u|;
    if closing == 0 {
      assert c == u;
      NoMarks(u);
    } else {
      MarksAre(c, n + 1, |c|);
      BlankBefore(c, n);
      assert c[..n] == u;
    }
  }

  lemma {:induction false} MarksAre(c: seq<byte>, from: nat, e: nat)
    requires 0 < from <= e <= |c| && c[from - 1] != HASH && forall i :: from <= i < e ==> c[i] == HASH
    ensures MarksStart(c, e) == from
  {
    if e > from {
      MarksAre(c, from, e - 1);
    }
  }

  /** The text ends before the one blank in front of its closing marks. */
  lemma BlankBefore(c: seq<byte>, n: nat)
    requires 0 < n < |c| && c[n] == SPACE && !White(c[n - 1])
    ensures TextEnd(c, n + 1) == n
  {
    TextEndIs(c, n);
  }

  lemma NoMarks(u: seq<byte>)
    requires u != [] && u[|u| - 1] != HASH && !White(u[|u| - 1])
    ensures MarksStart(u, |u|) == |u|
  {
  }

  lemma UnderlineStands(d: Parse, mark: byte, n: nat)
    requires d.kind.Para? && !d.inFence && (mark == EQUAL || mark == DASH) && n >= 1
    ensures var h := d.(kind := Head, level := if mark == EQUAL then 1 else 2);
            LineStep(d, Repeat(mark, n)) == (Closed(h).(inList := false), Gathered(h))
  {
    hide Indent, RunEnd, TextEnd, Occurrences, Gathered;
    var s := Repeat(mark, n);
    NoIndent(s);
    IndentIs(0, s);
    RunIs(s, 0, mark, n);
    assert IsUnderline(d, 0, s) && !OpensFence(0, s);
  }

  // ----- fences -----

  /** In a fence of these marks, moved to the right. */
  predicate InFence(d: Parse, ind: nat, mark: byte, n: nat) {
    d.inFence && d.fenceIndent == ind && d.fenceCh == mark && d.fenceLen == n
  }

  lemma FenceOpens(d: Parse, ind: nat, mark: byte, n: nat, info: seq<byte>)
    requires Between(d) && Fenced(ind, mark, n, info, []).Ok(true)
    ensures LineStep(d, Repeat(SPACE, ind) + (Repeat(mark, n) + info))
            == (d.(inFence := true, fenceCh := mark, fenceLen := n, fenceIndent := ind, inList := false), [])
  {
    hide Indent, RunEnd;
    var s := Repeat(mark, n) + info;
    IndentIs(ind, s);
    RunIs(s, 0, mark, n);
    NothingGathered(d);
    assert s[n..] == info;
  }

  lemma {:induction false} CutSpaces(l: seq<byte>, ind: nat, q: nat)
    requires q <= ind
    ensures IndentCut(Repeat(SPACE, ind) + l, ind, q) == ind
    decreases ind - q
  {
    if q < ind {
      CutSpaces(l, ind, q + 1);
    }
  }

  lemma CodeStands(d: Parse, ind: nat, mark: byte, n: nat, l: seq<byte>)
    requires InFence(d, ind, mark, n) && mark != SPACE && NotFence(l, mark)
    ensures LineStep(d, Repeat(SPACE, ind) + l) == (d, [Code(l)])
  {
    hide Indent, RunEnd, IndentCut, WhiteEnd;
    var line := Repeat(SPACE, ind) + l;
    CutSpaces(l, ind, 0);
    assert line[ind..] == l;
    FirstIsNoMark(line, ind, l, mark);
  }

  /** The first byte behind the blanks of such a line. */
  lemma FirstIsNoMark(line: seq<byte>, ind: nat, l: seq<byte>, mark: byte)
    requires line == Repeat(SPACE, ind) + l && mark != SPACE && NotFence(l, mark)
    ensures var p := Indent(line, 0, 0).1; p < |line| ==> line[p] != mark
  {
    var p := Indent(line, 0, 0).1;
    MdKept.IndentIsWhite(line, 0, 0);
    assert forall k :: 0 <= k < |l| ==> l[k] == line[ind + k];
    assert p < |line| && p >= ind ==> line[p] == l[p - ind];
  }

  lemma {:induction false} CodesStand(d: Parse, ind: nat, mark: byte, n: nat, code: seq<seq<byte>>)
    requires InFence(d, ind, mark, n) && mark != SPACE && forall l :: l in code ==> NotFence(l, mark)
    ensures Steps(d, Shifted(ind, code)) == (d, Codes(code))
  {
    hide LineStep, NotFence;
    if code != [] {
      var m := |code| - 1;
      assert code[m] in code && forall l :: l in code[..m] ==> l in code;
      CodesStand(d, ind, mark, n, code[..m]);
      CodeStands(d, ind, mark, n, code[m]);
      StepsMore(d, Shifted(ind, code[..m]), Repeat(SPACE, ind) + code[m]);
    }
  }

  lemma FenceCloses(d: Parse, ind: nat, mark: byte, n: nat)
    requires InFence(d, ind, mark, n) && n >= 3 && ind < 4 && (mark == BACKTICK || mark == TILDE)
    ensures LineStep(d, Repeat(SPACE, ind) + Repeat(mark, n)) == (d.(inFence := false), [])
  {
    hide Indent, RunEnd, WhiteEnd;
    var s := Repeat(mark, n);
    IndentIs(ind, s);
    RunIs(s, 0, mark, n);
    WhiteIs(s, n);
  }

  // ----- a piece and the blank line behind it -----

  /** Between pieces again, the list remembered as the piece says. */
  predicate Behind(d: Parse, p: Piece, r: Parse) {
    Between(r) && r.inList == p.KeepsList() && (p.KeepsList() ==> r.listCont == p.Cont(d.listCont))
  }

  /** A block still open is completed by the blank line. */
  lemma OpenPiece(d: Parse, p: Piece, e: Parse)
    requires Steps(d, p.Lines()) == (e, []) && !e.inFence && !e.kind.NoBlock? && Gathered(e) == p.Formed(d.listCont)
    requires e.inList == p.KeepsList() && (p.KeepsList() ==> e.listCont == p.Cont(d.listCont))
    ensures var r := Steps(d, p.Lines() + [[]]); Behind(d, p, r.0) && r.1 == p.Formed(d.listCont) + [Gap]
  {
    hide Steps, Gathered, LineStep, Piece.Lines, Piece.Formed;
    StepsMore(d, p.Lines(), []);
    BlankStep(e);
    NoBlocksBefore(Gathered(e) + [Gap]);
  }

  /** Behind one that is complete it only makes a gap. */
  lemma DonePiece(d: Parse, p: Piece, e: Parse)
    requires Steps(d, p.Lines()) == (e, p.Formed(d.listCont)) && Between(e) && !e.inList && !p.KeepsList()
    ensures var r := Steps(d, p.Lines() + [[]]); Behind(d, p, r.0) && r.1 == p.Formed(d.listCont) + [Gap]
  {
    hide Steps, Gathered, LineStep, Piece.Lines, Piece.Formed;
    StepsMore(d, p.Lines(), []);
    BlankStep(e);
    NothingGathered(e);
    NoBlocksBefore([Gap]);
  }

  lemma ItemPiece(d: Parse, p: Piece)
    requires Between(d) && (p.Bullet? || p.Numbered?) && p.Ok(d.inList)
    ensures var r := Steps(d, p.Lines() + [[]]); Behind(d, p, r.0) && r.1 == p.Formed(d.listCont) + [Gap]
  {
    hide Steps, LineStep, Leading, Marker, AllPlain, Plain, Joined;
    var ind, u, more := p.ind, p.first, p.more;
    var lead, m: seq<byte> := [], [];
    if p.Bullet? {
      lead, m := [p.mark], [if ind == 0 then STAR else DASH];
      BulletMarks(d, ind, p.mark, u);
      assert [p.mark, SPACE] + u == lead + [SPACE] + u;
    } else {
      lead, m := p.digits + [p.mark], p.digits + [p.mark];
      NumberMarks(d, ind, p.digits, p.mark, u, more);
      assert p.digits + [p.mark, SPACE] + u == lead + [SPACE] + u;
    }
    LeadIsNoBlank(p, lead);
    ItemOpens(d, ind, lead, u, m);
    var cont := AtMost8(ind) + |m| + 1;
    var e := Opened(d, ListItem, u).(margin := AtMost8(ind), marker := m, cont := cont, inList := true, listCont := cont);
    PlainIsSome(u);
    TextPiece(d, Repeat(SPACE, ind) + (lead + [SPACE] + u), e, u, more);
    OpenPiece(d, p, e.(blk := Joined(u, more)));
  }

  lemma LeadIsNoBlank(p: Piece, lead: seq<byte>)
    requires p.Ok(true) && (p.Bullet? || p.Numbered?) && lead == if p.Bullet? then [p.mark] else p.digits + [p.mark]
    ensures lead != [] && !White(lead[0])
  {
  }

  lemma PlainIsSome(u: seq<byte>)
    requires Plain(u)
    ensures u != []
  {
  }

  lemma UnderlinedPiece(d: Parse, u: seq<byte>, more: seq<seq<byte>>, mark: byte, n: nat)
    requires Between(d) && Underlined(u, more, mark, n).Ok(d.inList)
    ensures var p := Underlined(u, more, mark, n); var r := Steps(d, p.Lines() + [[]]);
            Behind(d, p, r.0) && r.1 == p.Formed(d.listCont) + [Gap]
  {
    hide Steps, LineStep, AllPlain, Plain, Joined;
    var p := Underlined(u, more, mark, n);
    ParagraphOpens(d, u);
    PlainIsSome(u);
    var e := Opened(d, Para, u).(inList := false, margin := 0);
    TextPiece(d, u, e, u, more);
    var f := e.(blk := Joined(u, more));
    UnderlineStands(f, mark, n);
    StepsMore(d, [u] + more, Repeat(mark, n));
    var h := f.(kind := Head, level := if mark == EQUAL then 1 else 2);
    NoBlocksBefore(Gathered(h));
    DonePiece(d, p, Closed(h).(inList := false));
  }

  lemma FencedPiece(d: Parse, ind: nat, mark: byte, n: nat, info: seq<byte>, code: seq<seq<byte>>)
    requires Between(d) && Fenced(ind, mark, n, info, code).Ok(d.inList)
    ensures var p := Fenced(ind, mark, n, info, code); var r := Steps(d, p.Lines() + [[]]);
            Behind(d, p, r.0) && r.1 == p.Formed(d.listCont) + [Gap]
  {
    hide Steps, LineStep, NotFence;
    var p := Fenced(ind, mark, n, info, code);
    var first, last := Repeat(SPACE, ind) + (Repeat(mark, n) + info), Repeat(SPACE, ind) + Repeat(mark, n);
    var e := d.(inFence := true, fenceCh := mark, fenceLen := n, fenceIndent := ind, inList := false);
    FenceOpens(d, ind, mark, n, info);
    CodesStand(e, ind, mark, n, code);
    StepsFirst(d, first, Shifted(ind, code));
    NoBlocksBefore(Codes(code));
    FenceCloses(e, ind, mark, n);
    StepsMore(d, [first] + Shifted(ind, code), last);
    assert Codes(code) + [] == Codes(code);
    DonePiece(d, p, e.(inFence := false));
  }

  lemma QuoteStepIs(d: Parse, u: seq<byte>)
    requires Plain(u) && !d.inFence && !d.kind.Para?
    ensures LineStep(d, [QUOTE_MARK, SPACE] + u) == QuoteStep(d, [QUOTE_MARK, SPACE] + u) && [QUOTE_MARK, SPACE] + u != []
    ensures var s := [QUOTE_MARK, SPACE] + u; s[WhiteEnd(s, QuoteEnd(s, 0))..] == u
  {
    hide Indent, Gathered, WhiteEnd, RunEnd, TextEnd, Occurrences, HeadingStep, DigitsEnd, QuoteStep;
    var s := [QUOTE_MARK, SPACE] + u;
    NoIndent(s);
    IndentIs(0, s);
    NoDigits(s);
    assert s[2] == u[0];
    assert QuoteEnd(s, 2) == 2 && QuoteEnd(s, 0) == 2;
    WhiteIs(s, 2);
    assert s[2..] == u;
    assert !OpensFence(0, s) && !IsRule(0, s) && !IsHeading(0, s) && !IsUnderline(d, 0, s);
    assert Marker(s, 0).None?;
  }

  /** Further lines of a quote, each with its mark. */
  lemma {:induction false} MoreQuote(d: Parse, u: seq<byte>, more: seq<seq<byte>>)
    requires !d.inFence && !d.inList && d.kind == Kind.Quote && d.blk == u && AllPlain(more)
    ensures Steps(d, Marked(more)) == (d.(blk := Joined(u, more)), [])
  {
    hide LineStep, WhiteEnd, QuoteEnd;
    if more != [] {
      var m := |more| - 1;
      assert more[m] in more && forall l :: l in more[..m] ==> l in more;
      MoreQuote(d, u, more[..m]);
      var e := d.(blk := Joined(u, more[..m]));
      QuoteStepIs(e, more[m]);
      StepsMore(d, Marked(more[..m]), [QUOTE_MARK, SPACE] + more[m]);
      NoBlocksBefore([]);
    } else {
      assert d.(blk := u) == d;
    }
  }

  lemma QuotedPiece(d: Parse, u: seq<byte>, marked: bool, more: seq<seq<byte>>)
    requires Between(d) && Quoted(u, marked, more).Ok(d.inList)
    ensures var p := Quoted(u, marked, more); var r := Steps(d, p.Lines() + [[]]);
            Behind(d, p, r.0) && r.1 == p.Formed(d.listCont) + [Gap]
  {
    hide Steps, LineStep, AllPlain, Plain, Joined;
    var p := Quoted(u, marked, more);
    QuoteOpens(d, u);
    PlainIsSome(u);
    var e := Opened(d, Kind.Quote, u).(inList := false);
    if marked {
      StepsFirst(d, [QUOTE_MARK, SPACE] + u, Marked(more));
      MoreQuote(e, u, more);
      NoBlocksBefore([]);
    } else {
      TextPiece(d, [QUOTE_MARK, SPACE] + u, e, u, more);
    }
    OpenPiece(d, p, e.(blk := Joined(u, more)));
  }

  // ----- marks that are text -----

  lemma OddLeads(d: Parse, mark: byte, n: nat, w: seq<byte>)
    requires d.kind.NoBlock? && n >= 1 && (w == [] || Plain(w)) && OnlyText(mark, n, w)
    ensures var s := Repeat(mark, n) + w; s != [] && !White(s[0]) && Leading(d, 0, s).None?
  {
    hide TextEnd, Occurrences, Gathered, HeadingStep, RunEnd;
    var s := Repeat(mark, n) + w;
    RunIs(s, 0, mark, n);
    assert w != [] ==> s[n] == w[0] && s[n] in s;
    assert n >= 2 ==> s[1] == mark;
    assert n >= 3 ==> s[2] == mark;
    assert s[0] == mark;
    assert w == [] && n <= 2 ==> Occurrences(s, mark) <= 2 by {
      OccurrencesBound(s, mark);
    }
    assert !OpensFence(0, s) && !IsUnderline(d, 0, s) && !IsRule(0, s) && !IsHeading(0, s);
  }

  lemma {:induction false} OccurrencesBound(s: seq<byte>, c: byte)
    ensures Occurrences(s, c) <= |s|
  {
    if s != [] {
      OccurrencesBound(s[..|s| - 1], c);
    }
  }

  lemma OddFollows(mark: byte, n: nat, w: seq<byte>)
    requires n >= 1 && (w == [] || Plain(w)) && OnlyText(mark, n, w)
    ensures var s := Repeat(mark, n) + w; s != [] && Marker(s, 0).None? && s[0] != QUOTE_MARK && s[0] != PIPE
  {
    hide DigitsEnd;
    var s := Repeat(mark, n) + w;
    assert s[0] == mark && (n >= 2 ==> s[1] == mark) && (n == 1 && w != [] ==> s[1] == w[0]);
    if 48 <= mark <= 57 {
      assert forall i :: 0 <= i < |s| ==> 48 <= s[i] <= 57 || i >= n;
      DigitsAre(s, 0, if n < 9 then n else 9);
      assert n < |s| ==> s[n] == w[0];
    } else {
      NoDigits(s);
    }
  }

  lemma OddPiece(d: Parse, mark: byte, n: nat, w: seq<byte>)
    requires Between(d) && Odd(mark, n, w).Ok(d.inList)
    ensures var p := Odd(mark, n, w); var r := Steps(d, p.Lines() + [[]]);
            Behind(d, p, r.0) && r.1 == p.Formed(d.listCont) + [Gap]
  {
    hide Steps, LineStep, OnlyText, Plain;
    var p, s := Odd(mark, n, w), Repeat(mark, n) + w;
    OddLeads(d, mark, n, w);
    OddFollows(mark, n, w);
    OddStep(d, s);
    StepsOne(d, s);
    OpenPiece(d, p, Opened(d, Para, s).(inList := false, margin := 0));
  }

  lemma OddStep(d: Parse, s: seq<byte>)
    requires Between(d) && s != [] && !White(s[0]) && Leading(d, 0, s).None? && Marker(s, 0).None? && s[0] != QUOTE_MARK && s[0] != PIPE
    ensures LineStep(d, s) == (Opened(d, Para, s).(inList := false, margin := 0), [])
  {
    hide Indent, Leading, Marker, Gathered, WhiteEnd, QuoteStep, TableStep, CodeFrom, ClosesFence;
    NoIndent(s);
    IndentIs(0, s);
    NothingGathered(d);
  }

  /** Every piece is gathered into its block, and the blank line leaves a gap. */
  lemma PieceStands(d: Parse, p: Piece)
    requires Between(d) && p.Ok(d.inList)
    ensures var r := Steps(d, p.Lines() + [[]]); Behind(d, p, r.0) && r.1 == p.Formed(d.listCont) + [Gap]
  {
    hide Steps, LineStep, AllPlain, Plain, Joined;
    match p
    case Paragraph(u, more) =>
      ParagraphOpens(d, u);
      PlainIsSome(u);
      var e := Opened(d, Para, u).(inList := false, margin := 0);
      TextPiece(d, u, e, u, more);
      OpenPiece(d, p, e.(blk := Joined(u, more)));
    case Underlined(u, more, mark, n) => UnderlinedPiece(d, u, more, mark, n);
    case Heading(k, u, closing) =>
      HeadingStands(d, k, u, closing);
      StepsOne(d, Repeat(HASH, k) + [SPACE] + (u + Closing(closing)));
      DonePiece(d, p, d.(inList := false, level := k));
    case Bullet(_, _, _, _) => ItemPiece(d, p);
    case Numbered(_, _, _, _, _) => ItemPiece(d, p);
    case InItem(ind, u, more) =>
      InItemOpens(d, ind, u);
      PlainIsSome(u);
      var e := Opened(d, Para, u).(margin := d.listCont);
      TextPiece(d, Repeat(SPACE, ind) + u, e, u, more);
      OpenPiece(d, p, e.(blk := Joined(u, more)));
    case Quoted(u, marked, more) => QuotedPiece(d, u, marked, more);
    case Fenced(ind, mark, n, info, code) => FencedPiece(d, ind, mark, n, info, code);
    case Indented(u) =>
      IndentedStands(d, u);
      StepsOne(d, Repeat(SPACE, 4) + u);
      DonePiece(d, p, d);
    case Dashed(mark, u) =>
      DashedStands(d, mark, u);
      StepsOne(d, u);
      DonePiece(d, p, d.(inList := false));
    case TableRow(u) =>
      TableStands(d, u);
      StepsOne(d, [PIPE] + u);
      DonePiece(d, p, d.(inList := false));
    case Odd(mark, n, w) => OddPiece(d, mark, n, w);
  }

  // ----- files -----

  /** The pieces stand one after the other; what belongs into a list is behind its item. */
  predicate Fits(pieces: seq<Piece>, inList: bool)
    decreases |pieces|
  {
    pieces == [] || (pieces[0].Ok(inList) && Fits(pieces[1..], pieces[0].KeepsList()))
  }

  function FileLines(pieces: seq<Piece>): seq<seq<byte>> {
    if pieces == [] then [] else pieces[0].Lines() + [[]] + FileLines(pieces[1..])
  }

  function FileBlocks(pieces: seq<Piece>, listCont: nat): seq<Block> {
    if pieces == [] then []
    else pieces[0].Formed(listCont) + [Gap] + FileBlocks(pieces[1..], pieces[0].Cont(listCont))
  }

  lemma {:induction false} PiecesStand(d: Parse, pieces: seq<Piece>)
    requires Between(d) && Fits(pieces, d.inList)
    ensures var r := Steps(d, FileLines(pieces)); Between(r.0) && r.1 == FileBlocks(pieces, d.listCont)
    decreases |pieces|
  {
    hide Steps, Piece.Ok, Piece.Lines, Piece.Formed, Piece.Cont;
    if pieces == [] {
      StepsNone(d);
    } else {
      PieceStands(d, pieces[0]);
      var r := Steps(d, pieces[0].Lines() + [[]]).0;
      PiecesStand(r, pieces[1..]);
      StepsCat(d, pieces[0].Lines() + [[]], FileLines(pieces[1..]));
      ListOrNot(pieces[1..], d.listCont, pieces[0], r.listCont);
    }
  }

  lemma StepsNone(d: Parse)
    ensures Steps(d, []) == (d, [])
  {
  }

  /** Where a list's text begins matters only inside a list. */
  lemma ListOrNot(pieces: seq<Piece>, listCont: nat, p: Piece, after: nat)
    requires Fits(pieces, p.KeepsList()) && (p.KeepsList() ==> after == p.Cont(listCont))
    ensures FileBlocks(pieces, after) == FileBlocks(pieces, p.Cont(listCont))
  {
    hide Piece.Ok, Piece.Formed, Piece.Cont;
    if !p.KeepsList() {
      NoListNeeded(pieces, after, p.Cont(listCont));
    }
  }

  lemma {:induction false} NoListNeeded(pieces: seq<Piece>, a: nat, b: nat)
    requires Fits(pieces, false)
    ensures FileBlocks(pieces, a) == FileBlocks(pieces, b)
    decreases |pieces|
  {
    if pieces != [] {
      var p := pieces[0];
      assert p.Formed(a) == p.Formed(b);
      if !p.KeepsList() {
        NoListNeeded(pieces[1..], p.Cont(a), p.Cont(b));
      }
    }
  }

  // ----- the bytes of a file -----

  /** Lines, each ended by a line feed. */
  function FileOf(lines: seq<seq<byte>>): seq<byte> {
    if lines == [] then [] else lines[0] + [10] + FileOf(lines[1..])
  }

  predicate OneLine(l: seq<byte>) {
    0 !in l && 10 !in l && 13 !in l
  }

  lemma {:induction false} FeedFound(l: seq<byte>, rest: seq<byte>)
    requires 10 !in l
    ensures BatchLines.FirstLf(l + [10] + rest) == |l|
    decreases |l|
  {
    var s := l + [10] + rest;
    if l != [] {
      assert s[1..] == l[1..] + [10] + rest && l[0] in l && forall c :: c in l[1..] ==> c in l;
      FeedFound(l[1..], rest);
    }
  }

  lemma SplitOne(l: seq<byte>, rest: seq<byte>)
    requires OneLine(l)
    ensures SplitLines(l + [10] + rest) == [l] + SplitLines(rest)
  {
    hide BatchLines.FirstLf;
    var data := l + [10] + rest;
    FeedFound(l, rest);
    assert data[..|l|] == l && data[|l| + 1..] == rest;
  }

  lemma {:induction false} SplitIs(lines: seq<seq<byte>>)
    requires forall l :: l in lines ==> OneLine(l)
    ensures SplitLines(FileOf(lines)) == lines
  {
    hide SplitLines, OneLine;
    if lines == [] {
      NoLines();
    } else {
      assert lines[0] in lines && forall l :: l in lines[1..] ==> l in lines;
      SplitIs(lines[1..]);
      SplitOne(lines[0], FileOf(lines[1..]));
      assert lines == [lines[0]] + lines[1..];
    }
  }

  lemma NoLines()
    ensures SplitLines([]) == []
  {
  }

  lemma {:induction false} CleanedIs(l: seq<byte>)
    requires OneLine(l)
    ensures Cleaned(l) == l
  {
    if l != [] {
      assert l[|l| - 1] in l && forall c :: c in l[..|l| - 1] ==> c in l;
      CleanedIs(l[..|l| - 1]);
    }
  }

  lemma {:induction false} ParsedIs(lines: seq<seq<byte>>)
    requires forall l :: l in lines ==> OneLine(l)
    ensures Parsed(lines) == Steps(FRESH_PARSE, lines)
  {
    hide LineStep, OneLine, Cleaned;
    if lines != [] {
      var m := |lines| - 1;
      assert lines[m] in lines && forall l :: l in lines[..m] ==> l in lines;
      ParsedIs(lines[..m]);
      CleanedIs(lines[m]);
    }
  }

  /** Gathering undoes writing: a file of such pieces has exactly their blocks, with a gap
      behind each. */
  lemma PiecesGathered(pieces: seq<Piece>)
    requires Fits(pieces, false) && forall l :: l in FileLines(pieces) ==> OneLine(l)
    ensures MdSource.Blocks(FileOf(FileLines(pieces))) == FileBlocks(pieces, 0)
  {
    hide Steps, Fits, FileLines, FileBlocks, OneLine, Parsed, SplitLines, Gathered;
    SplitIs(FileLines(pieces));
    ParsedIs(FileLines(pieces));
    PiecesStand(FRESH_PARSE, pieces);
    NothingGathered(Steps(FRESH_PARSE, FileLines(pieces)).0);
    assert FileBlocks(pieces, 0) + [] == FileBlocks(pieces, 0);
  }
}
