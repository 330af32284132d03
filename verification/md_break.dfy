/** Where rows are broken: at a space of the text whenever the row has one, as late as the
    width allows; inside a word only when the word alone fills the row. */
module MdBreak {
  import opened Bytes
  import opened MdTerminal
  import opened MdWrap
  import opened MdContent
  import opened MdUtf8

  // ----- the first word of a row -----

  /** Byte i of b is shown, as a space. */
  predicate SpaceAt(b: seq<byte>, i: nat) {
    i < |b| && b[i] == SPACE && After(FRESH, b[..i]).mode.Ground?
  }

  /** The bytes in front of the first space shown. */
  function WordLen(b: seq<byte>): (n: nat)
    ensures n <= |b|
  {
    if b == [] then 0
    else
      var m := |b| - 1;
      if WordLen(b[..m]) < m || SpaceAt(b, m) then WordLen(b[..m]) else |b|
  }

  /** The columns they take. */
  function WordCols(b: seq<byte>): nat {
    Width(Cells(FRESH, b[..WordLen(b)]))
  }

  lemma {:induction false} WordOfPrefix(b: seq<byte>, i: nat)
    requires i <= |b|
    ensures WordLen(b[..i]) == if WordLen(b) < i then WordLen(b) else i
    decreases |b|
  {
    if i < |b| {
      var m := |b| - 1;
      assert b[..m][..i] == b[..i];
      WordOfPrefix(b[..m], i);
    } else {
      assert b[..i] == b;
    }
  }

  lemma WordGrows(a: seq<byte>, b: seq<byte>)
    requires a <= b
    ensures WordLen(a) <= WordLen(b) && WordCols(a) <= WordCols(b)
  {
    hide WordLen, Cells, Width, After;
    WordOfPrefix(b, |a|);
    assert b[..|a|] == a;
    var x, y := a[..WordLen(a)], b[..WordLen(b)];
    var more := y[|x|..];
    assert y == x + more;
    ShowCat(FRESH, x, more);
    WidthCat(Cells(FRESH, x), Cells(After(FRESH, x), more));
  }

  /** Cutting at a space keeps the first word. */
  lemma WordStays(pre: seq<byte>, rest: seq<byte>)
    requires After(FRESH, pre).mode.Ground?
    ensures var b := pre + [SPACE] + rest; WordLen(b) == WordLen(pre) && WordCols(b) == WordCols(pre)
  {
    var b, n := pre + [SPACE] + rest, |pre|;
    WordOfPrefix(b, n);
    WordOfPrefix(b, n + 1);
    assert b[..n] == pre && b[..n + 1][..n] == pre && b[..n + 1] == pre + [SPACE];
    assert SpaceAt(b[..n + 1], n);
    assert b[..WordLen(pre)] == pre[..WordLen(pre)];
  }

  /** No space among these cells. */
  predicate NoSpace(cells: seq<Cell>) {
    forall i :: 0 <= i < |cells| ==> cells[i].ch != SPACE
  }

  lemma {:induction false} AllOneWord(b: seq<byte>)
    requires NoSpace(Cells(FRESH, b))
    ensures WordLen(b) == |b| && WordCols(b) == Width(Cells(FRESH, b))
  {
    if b != [] {
      var m := |b| - 1;
      var last := Shown(After(FRESH, b[..m]), b[m]);
      NoSpaceCat(Cells(FRESH, b[..m]), last);
      assert last != [] ==> last[0].ch != SPACE;
      AllOneWord(b[..m]);
    }
    assert b[..|b|] == b;
  }

  lemma NoSpaceCat(a: seq<Cell>, b: seq<Cell>)
    ensures NoSpace(a + b) <==> NoSpace(a) && NoSpace(b)
  {
    assert forall i :: 0 <= i < |a| ==> (a + b)[i] == a[i];
    assert forall i :: 0 <= i < |b| ==> (a + b)[|a| + i] == b[i];
  }

  // ----- rows and the gaps between them -----

  predicate AllSpaces(gap: seq<byte>) {
    forall i :: 0 <= i < |gap| ==> gap[i] == SPACE
  }

  /** Row k ends and `next` follows, `gap` being what the text has in between. Without a
      gap the break is inside a word: then the row is full, and in words it shows no
      space it could have been broken at. With one, the first word of the next row would
      not have fitted behind another space, unless the row was too long in bytes; and only
      behind a full row can there be more than one space. */
  ghost predicate BreakFits(cfg: Config, k: nat, row: seq<byte>, next: seq<byte>, gap: seq<byte>) {
    var b, c, cols := Body(cfg, k, row), Body(cfg, k + 1, next), Width(Cells(FRESH, row));
    if gap == [] then
      (cfg.words ==> NoSpace(Cells(FRESH, b))) && (cols >= cfg.width || |row| > CUTOFF)
    else
      && cfg.words && AllSpaces(gap)
      && (cols + 1 + WordCols(c) > cfg.width || |row| + WordLen(c) > CUTOFF)
      && (|gap| > 1 ==> cols >= cfg.width)
  }

  ghost predicate Broken(cfg: Config, rows: seq<seq<byte>>, gaps: seq<seq<byte>>) {
    && |gaps| == |rows|
    && (rows != [] ==> AllSpaces(gaps[0]) && (cfg.words || gaps[0] == []))
    && forall k :: 0 < k < |rows| ==> BreakFits(cfg, k - 1, rows[k - 1], rows[k], gaps[k])
  }

  /** The bytes the bodies show, with the gaps put back in front of each. */
  function Woven(cfg: Config, rows: seq<seq<byte>>, gaps: seq<seq<byte>>): seq<byte>
    requires |gaps| == |rows|
  {
    if rows == [] then []
    else
      var m := |rows| - 1;
      Woven(cfg, rows[..m], gaps[..m]) + gaps[m] + Chars(Cells(FRESH, Body(cfg, m, rows[m])))
  }

  lemma WovenStep(cfg: Config, rows: seq<seq<byte>>, gaps: seq<seq<byte>>, row: seq<byte>, gap: seq<byte>)
    requires |gaps| == |rows|
    ensures Woven(cfg, rows + [row], gaps + [gap]) == Woven(cfg, rows, gaps) + gap + Chars(Cells(FRESH, Body(cfg, |rows|, row)))
  {
    assert (rows + [row])[..|rows|] == rows && (gaps + [gap])[..|rows|] == gaps;
  }

  lemma BrokenStep(cfg: Config, rows: seq<seq<byte>>, gaps: seq<seq<byte>>, row: seq<byte>, gap: seq<byte>)
    requires Broken(cfg, rows, gaps) && rows != []
    requires BreakFits(cfg, |rows| - 1, rows[|rows| - 1], row, gap)
    ensures Broken(cfg, rows + [row], gaps + [gap])
  {
    hide BreakFits;
  }

  /** The last row may grow, or be cut behind its first word. */
  lemma LastGrows(cfg: Config, rows: seq<seq<byte>>, gaps: seq<seq<byte>>, a: seq<byte>, b: seq<byte>)
    requires |gaps| == |rows| + 1 && Broken(cfg, rows + [a], gaps)
    requires var x, y := Body(cfg, |rows|, a), Body(cfg, |rows|, b); WordLen(x) <= WordLen(y) && WordCols(x) <= WordCols(y)
    ensures Broken(cfg, rows + [b], gaps)
  {
    hide Cells, Width, Body, WordLen, WordCols;
    forall k | 0 < k < |rows + [b]| ensures BreakFits(cfg, k - 1, (rows + [b])[k - 1], (rows + [b])[k], gaps[k]) {
      assert BreakFits(cfg, k - 1, (rows + [a])[k - 1], (rows + [a])[k], gaps[k]);
    }
  }

  // ----- the builder's state -----

  /** The rows emitted since `from`, and the open one. */
  function AllRows(from: nat, s: State): seq<seq<byte>>
    requires from <= |s.rows|
  {
    s.rows[from..] + [s.rb]
  }

  /** In words the open row shows no space behind its break. */
  ghost predicate OneWordOpen(cfg: Config, from: nat, s: State)
    requires from <= |s.rows|
  {
    cfg.words ==> (s.brk.None? ==> NoSpace(Open(cfg, from, s))) && (s.brk.Some? ==> NoSpace(Moved(cfg, s)))
  }

  /** At the start of a row spaces are dropped, which is behind a full row. */
  ghost predicate DropsBehindFull(cfg: Config, from: nat, s: State, gaps: seq<seq<byte>>)
    requires from <= |s.rows|
  {
    s.col == s.pcol && from < |s.rows| ==>
      |gaps| > 0 && gaps[|gaps| - 1] != [] && Width(Cells(FRESH, s.rows[|s.rows| - 1])) >= cfg.width
  }

  ghost predicate Laid(cfg: Config, from: nat, s: State, gaps: seq<seq<byte>>) {
    && Inv(cfg, from, s) && s.started
    && Broken(cfg, AllRows(from, s), gaps)
    && OneWordOpen(cfg, from, s)
    && DropsBehindFull(cfg, from, s, gaps)
  }

  /** The text as laid out so far. */
  function SoFar(cfg: Config, from: nat, s: State, gaps: seq<seq<byte>>): seq<byte>
    requires from <= |s.rows| && |gaps| == |s.rows| - from + 1
  {
    Woven(cfg, AllRows(from, s), gaps)
  }

  lemma SoFarIs(cfg: Config, from: nat, s: State, gaps: seq<seq<byte>>)
    requires from <= |s.rows| && |gaps| == |s.rows| - from + 1
    ensures var n := |s.rows| - from;
            SoFar(cfg, from, s, gaps) == Woven(cfg, s.rows[from..], gaps[..n]) + gaps[n] + Chars(Open(cfg, from, s))
  {
    var n := |s.rows| - from;
    assert gaps == gaps[..n] + [gaps[n]];
    WovenStep(cfg, s.rows[from..], gaps[..n], s.rb, gaps[n]);
  }

  /** The open row grows at its end. */
  lemma GrowLaid(cfg: Config, from: nat, s: State, t: State, gaps: seq<seq<byte>>, more: seq<Cell>)
    requires Laid(cfg, from, s, gaps) && Inv(cfg, from, t) && t.started && t.rows == s.rows && s.rb <= t.rb
    requires OneWordOpen(cfg, from, t) && (t.col == t.pcol ==> s.col == s.pcol)
    requires Open(cfg, from, t) == Open(cfg, from, s) + more
    ensures Laid(cfg, from, t, gaps) && SoFar(cfg, from, t, gaps) == SoFar(cfg, from, s, gaps) + Chars(more)
  {
    hide After, Cells, Width, Emitted, AllEmitted, BreakFits, Broken, WordLen, WordCols, RowOk, BreakOk, Woven;
    var n := |s.rows| - from;
    BrokenSize(cfg, AllRows(from, s), gaps);
    BodyPrefix(cfg, from, s, t);
    WordGrows(Body(cfg, n, s.rb), Body(cfg, n, t.rb));
    LastGrows(cfg, s.rows[from..], gaps, s.rb, t.rb);
    SoFarIs(cfg, from, s, gaps);
    SoFarIs(cfg, from, t, gaps);
    CharsAppend(Woven(cfg, s.rows[from..], gaps[..n]) + gaps[n], Open(cfg, from, s), more);
  }

  lemma BrokenSize(cfg: Config, rows: seq<seq<byte>>, gaps: seq<seq<byte>>)
    requires Broken(cfg, rows, gaps)
    ensures |gaps| == |rows|
  {
  }

  lemma BodyPrefix(cfg: Config, from: nat, s: State, t: State)
    requires Inv(cfg, from, s) && s.started && t.rows == s.rows && s.rb <= t.rb
    ensures var n := |s.rows| - from; Body(cfg, n, s.rb) <= Body(cfg, n, t.rb)
  {
    hide After, Cells, Width, Config.LeadBytes;
  }

  lemma CharsAppend(r: seq<byte>, a: seq<Cell>, b: seq<Cell>)
    ensures r + Chars(a + b) == r + Chars(a) + Chars(b)
  {
    assert Chars(a + b) == Chars(a) + Chars(b);
  }

  /** A space at the start of a row is dropped into the gap in front of it. */
  lemma DropLaid(cfg: Config, from: nat, s: State, gaps: seq<seq<byte>>) returns (gaps': seq<seq<byte>>)
    requires Laid(cfg, from, s, gaps) && s.col == s.pcol && cfg.words
    ensures Laid(cfg, from, s, gaps')
    ensures |gaps'| == |gaps| == |s.rows| - from + 1
    ensures Open(cfg, from, s) == [] ==> SoFar(cfg, from, s, gaps') == SoFar(cfg, from, s, gaps) + [SPACE]
  {
    LaidSizes(cfg, from, s, gaps);
    var n, rows := |s.rows| - from, AllRows(from, s);
    assert n > 0 ==> rows[n - 1] == s.rows[|s.rows| - 1];
    gaps' := gaps[n := gaps[n] + [SPACE]];
    hide Width, Cells, Woven, Body, Broken, Inv, OneWordOpen, AllRows, Open, SoFar;
    LongerGap(cfg, rows, gaps, n);
    SoFarIs(cfg, from, s, gaps);
    SoFarIs(cfg, from, s, gaps');
    assert gaps'[..n] == gaps[..n];
    if Open(cfg, from, s) == [] {
      GapAppend(Woven(cfg, s.rows[from..], gaps[..n]), gaps[n]);
    }
  }

  lemma LaidSizes(cfg: Config, from: nat, s: State, gaps: seq<seq<byte>>)
    requires Laid(cfg, from, s, gaps)
    ensures from <= |s.rows| && |gaps| == |AllRows(from, s)| == |s.rows| - from + 1
  {
    BrokenSize(cfg, AllRows(from, s), gaps);
  }

  lemma GapAppend(r: seq<byte>, gap: seq<byte>)
    ensures r + (gap + [SPACE]) + Chars([]) == r + gap + Chars([]) + [SPACE]
  {
    assert Chars([]) == [];
  }

  /** The last gap may get another space when it has one already, behind a full row. */
  lemma LongerGap(cfg: Config, rows: seq<seq<byte>>, gaps: seq<seq<byte>>, n: nat)
    requires Broken(cfg, rows, gaps) && cfg.words && |rows| == n + 1
    requires n > 0 ==> gaps[n] != [] && Width(Cells(FRESH, rows[n - 1])) >= cfg.width
    ensures Broken(cfg, rows, gaps[n := gaps[n] + [SPACE]])
  {
    hide Cells, Width, Body, WordLen, WordCols;
    var gaps' := gaps[n := gaps[n] + [SPACE]];
    forall k | 0 < k < |rows| ensures BreakFits(cfg, k - 1, rows[k - 1], rows[k], gaps'[k]) {
      assert BreakFits(cfg, k - 1, rows[k - 1], rows[k], gaps[k]);
    }
  }

  /** The row is ended, as it is or cut; what follows begins the next one. */
  lemma BreakLaid(cfg: Config, from: nat, s: State, x: seq<byte>, t: State, gaps: seq<seq<byte>>, gap: seq<byte>)
    requires Laid(cfg, from, s, gaps) && Inv(cfg, from, t) && t.started && |t.rows| == |s.rows| + 1 && t.rows[..|s.rows|] == s.rows
    requires var n, e := |s.rows| - from, t.rows[|s.rows|];
             && WordLen(Body(cfg, n, s.rb)) <= WordLen(Body(cfg, n, e)) && WordCols(Body(cfg, n, s.rb)) <= WordCols(Body(cfg, n, e))
             && Cells(FRESH, Body(cfg, n, e)) == Cells(FRESH, x)
             && BreakFits(cfg, n, e, t.rb, gap)
    requires OneWordOpen(cfg, from, t)
    requires t.col == t.pcol ==> gap != [] && Width(Cells(FRESH, t.rows[|s.rows|])) >= cfg.width
    ensures Laid(cfg, from, t, gaps + [gap]) && |gaps| == |s.rows| - from + 1
    ensures var n := |s.rows| - from;
            SoFar(cfg, from, t, gaps + [gap])
            == Woven(cfg, s.rows[from..], gaps[..n]) + gaps[n] + Chars(Cells(FRESH, x)) + gap + Chars(Open(cfg, from, t))
  {
    hide After, Cells, Width, Emitted, AllEmitted, WordLen, WordCols, RowOk, BreakOk, Woven, Body, BreakFits, Broken;
    var n, e := |s.rows| - from, t.rows[|s.rows|];
    var R := s.rows[from..];
    BrokenSize(cfg, AllRows(from, s), gaps);
    LastGrows(cfg, R, gaps, s.rb, e);
    BrokenStep(cfg, R + [e], gaps, t.rb, gap);
    assert t.rows[from..] == R + [e] && AllRows(from, t) == R + [e] + [t.rb];
    SoFarIs(cfg, from, t, gaps + [gap]);
    assert (gaps + [gap])[..n + 1] == gaps && gaps == gaps[..n] + [gaps[n]];
    WovenStep(cfg, R, gaps[..n], e, gaps[n]);
  }

  // ----- one put -----

  function Added(s: State, c: byte): State {
    s.(rb := s.rb + [c], col := if Continues(c) then s.col else s.col + 1)
  }

  lemma AddedOk(cfg: Config, from: nat, s: State, c: byte)
    requires Inv(cfg, from, s) && s.started && c >= 32 && (Continues(c) || s.col < cfg.width)
    ensures Inv(cfg, from, Added(s, c)) && Open(cfg, from, Added(s, c)) == Open(cfg, from, s) + [Cell(c, cfg.Effect(s.rstyle))]
    ensures s.brk.Some? ==> Moved(cfg, Added(s, c)) == Moved(cfg, s) + [Cell(c, cfg.Effect(s.rstyle))]
    ensures s.pcol <= s.col
  {
    hide After, Cells, Width, Config.LeadBytes, Config.Look, Config.Effect, Body, Emitted, AllEmitted, BreakOk, Moved;
    AppendOk(cfg, |s.rows| - from, s, c);
    ShowOne(cfg.Effect(s.rstyle), c);
    if s.brk.Some? {
      MovedGrows(cfg, |s.rows| - from, s, [c]);
      MovedIgnoresCol(cfg, s.(rb := s.rb + [c]), Added(s, c).col);
    }
  }

  /** A byte added to the open row, where there is room for it. */
  lemma AppendLaid(cfg: Config, from: nat, s: State, c: byte, gaps: seq<seq<byte>>)
    requires Laid(cfg, from, s, gaps) && c >= 32 && (cfg.words ==> c != SPACE) && (Continues(c) || s.col < cfg.width)
    ensures var t := Added(s, c);
            Laid(cfg, from, t, gaps) && |gaps| == |s.rows| - from + 1 && SoFar(cfg, from, t, gaps) == SoFar(cfg, from, s, gaps) + [c]
  {
    LaidSizes(cfg, from, s, gaps);
    AddedOk(cfg, from, s, c);
    hide Inv, Open, Moved, Broken, SoFar, Config.Effect;
    var cell := Cell(c, cfg.Effect(s.rstyle));
    NoSpaceCat(Open(cfg, from, s), [cell]);
    NoSpaceCat(Moved(cfg, s), [cell]);
    GrowLaid(cfg, from, s, Added(s, c), gaps, [cell]);
    assert Chars([cell]) == [c];
  }

  lemma AppliedOk(cfg: Config, from: nat, s: State)
    requires Inv(cfg, from, s) && s.started
    ensures var a := Apply(cfg, s);
            && Inv(cfg, from, a) && a.started && a.rows == s.rows && s.rb <= a.rb && a.col == s.col && a.pcol == s.pcol && a.brk == s.brk
            && Open(cfg, from, a) == Open(cfg, from, s) && (s.brk.Some? ==> Moved(cfg, a) == Moved(cfg, s))
  {
    hide After, Cells, Width, Config.LeadBytes, Config.Look, Config.Effect, Body, Emitted, AllEmitted, RowOk, BreakOk, Moved, Apply;
    ApplyOk(cfg, |s.rows| - from, s);
    ApplyOnly(cfg, s);
    if s.brk.Some? {
      ApplyKeepsMoved(cfg, |s.rows| - from, s);
    }
  }

  lemma ApplyLaid(cfg: Config, from: nat, s: State, gaps: seq<seq<byte>>)
    requires Laid(cfg, from, s, gaps)
    ensures Laid(cfg, from, Apply(cfg, s), gaps) && |gaps| == |s.rows| - from + 1
    ensures SoFar(cfg, from, Apply(cfg, s), gaps) == SoFar(cfg, from, s, gaps)
  {
    LaidSizes(cfg, from, s, gaps);
    AppliedOk(cfg, from, s);
    hide Inv, Open, Moved, Broken, SoFar, Apply;
    assert Open(cfg, from, s) + [] == Open(cfg, from, s);
    GrowLaid(cfg, from, s, Apply(cfg, s), gaps, []);
    assert SoFar(cfg, from, s, gaps) + Chars([]) == SoFar(cfg, from, s, gaps);
  }

  /** A space of the open row is a place to break, with nothing behind it yet. */
  lemma SpaceLaid(cfg: Config, from: nat, s: State, gaps: seq<seq<byte>>)
    requires Laid(cfg, from, s, gaps) && cfg.words && s.pcol < s.col < cfg.width
    ensures var t := PutSpace(cfg, s);
            Laid(cfg, from, t, gaps) && |gaps| == |s.rows| - from + 1 && SoFar(cfg, from, t, gaps) == SoFar(cfg, from, s, gaps) + [SPACE]
  {
    LaidSizes(cfg, from, s, gaps);
    ApplyLaid(cfg, from, s, gaps);
    SpaceAdded(cfg, from, s);
    SpaceInv(cfg, from, s);
    assert NoSpace([]);
    hide NoSpace, Inv, Open, Moved, Broken, SoFar, Apply, PutSpace, Laid, Config.Effect, Content, Ink;
    var a, t := Apply(cfg, s), PutSpace(cfg, s);
    var cell := Cell(SPACE, cfg.Effect(a.rstyle));
    GrowLaid(cfg, from, a, t, gaps, [cell]);
    assert Chars([cell]) == [SPACE];
  }

  lemma SpaceInv(cfg: Config, from: nat, s: State)
    requires Inv(cfg, from, s) && s.started && cfg.words
    ensures Inv(cfg, from, PutSpace(cfg, s)) && PutSpace(cfg, s).started
  {
    hide Inv, PutSpace;
    PutSpaceOk(cfg, from, s);
  }

  lemma SpaceAdded(cfg: Config, from: nat, s: State)
    requires Inv(cfg, from, s) && s.started && s.pcol < s.col < cfg.width && cfg.words
    ensures var a, t := Apply(cfg, s), PutSpace(cfg, s);
            && t.rows == a.rows == s.rows && a.rb <= t.rb && t.col == s.col + 1 && t.pcol == s.pcol
            && Open(cfg, from, t) == Open(cfg, from, a) + [Cell(SPACE, cfg.Effect(a.rstyle))]
            && t.brk.Some? && Moved(cfg, t) == []
  {
    AppliedOk(cfg, from, s);
    NothingMoved(cfg, s);
    hide Inv, Open, Moved, Apply, Cells, Config.Effect;
    AddedOk(cfg, from, Apply(cfg, s), SPACE);
    OpenIs(cfg, from, Added(Apply(cfg, s), SPACE));
    OpenIs(cfg, from, PutSpace(cfg, s));
  }

  lemma NothingMoved(cfg: Config, s: State)
    requires s.pcol < s.col < cfg.width
    ensures Moved(cfg, PutSpace(cfg, s)) == []
  {
    hide Apply;
    ShowNothing();
    assert Rest(PutSpace(cfg, s)) == [];
  }

  /** The row as it is ended: its columns, its first word, and what it shows. */
  lemma EndedRow(cfg: Config, from: nat, s: State)
    requires Inv(cfg, from, s) && s.started
    ensures var n, e := |s.rows| - from, EndRow(cfg, s).rows[|s.rows|];
            && Width(Cells(FRESH, e)) == s.col && s.rb <= e
            && Cells(FRESH, Body(cfg, n, e)) == Open(cfg, from, s)
            && WordLen(Body(cfg, n, s.rb)) <= WordLen(Body(cfg, n, e)) && WordCols(Body(cfg, n, s.rb)) <= WordCols(Body(cfg, n, e))
  {
    hide After, Cells, Width, Config.LeadBytes, Config.Look, Config.Effect, Emitted, AllEmitted, BreakOk, WordLen, WordCols, Sgr;
    var n, e := |s.rows| - from, EndRow(cfg, s).rows[|s.rows|];
    ResetOk(cfg, n, s);
    RowShows(cfg, n, s.rb);
    RowShows(cfg, n, e);
    assert Body(cfg, n, s.rb) <= Body(cfg, n, e);
    WordGrows(Body(cfg, n, s.rb), Body(cfg, n, e));
  }

  /** A space behind a full row is the gap to the next one. */
  lemma FullLaid(cfg: Config, from: nat, s: State, gaps: seq<seq<byte>>)
    requires Laid(cfg, from, s, gaps) && cfg.words && s.col >= cfg.width
    ensures var t := NewRow(cfg, s);
            && Laid(cfg, from, t, gaps + [[SPACE]]) && |gaps| == |s.rows| - from + 1 && |t.rows| == |s.rows| + 1
            && SoFar(cfg, from, t, gaps + [[SPACE]]) == SoFar(cfg, from, s, gaps) + [SPACE]
  {
    LaidSizes(cfg, from, s, gaps);
    var t, n := NewRow(cfg, s), |s.rows| - from;
    NewRowOk(cfg, from, s);
    EndedRow(cfg, from, s);
    NewRowRows(cfg, s);
    EmptyBody(cfg, n + 1, t);
    SpaceFits(cfg, n, t.rows[|s.rows|], t.rb);
    hide Cells, Width, Config.LeadBytes, Inv, WordLen, WordCols, Body, Woven, EndRow, NewRow, SoFar, Laid, BreakFits, Content;
    BreakLaid(cfg, from, s, Body(cfg, n, s.rb), t, gaps, [SPACE]);
    SoFarIs(cfg, from, s, gaps);
    NothingMore(Woven(cfg, s.rows[from..], gaps[..n]) + gaps[n] + Chars(Open(cfg, from, s)));
  }

  lemma SpaceFits(cfg: Config, k: nat, row: seq<byte>, next: seq<byte>)
    requires cfg.words && Width(Cells(FRESH, row)) >= cfg.width
    ensures BreakFits(cfg, k, row, next, [SPACE])
  {
    hide Cells, Width, Body, WordCols, WordLen;
  }

  lemma NewRowRows(cfg: Config, s: State)
    requires !s.needBlank
    ensures NewRow(cfg, s).rows == EndRow(cfg, s).rows && |EndRow(cfg, s).rows| == |s.rows| + 1
    ensures EndRow(cfg, s).rows[..|s.rows|] == s.rows
  {
  }

  lemma NothingMore(r: seq<byte>)
    ensures r + [SPACE] + Chars([]) == r + [SPACE]
  {
    assert Chars([]) == [];
  }

  // ----- a glyph that needs a new row -----

  /** A glyph put on a row without a break. */
  lemma GlyphOn(cfg: Config, from: nat, r: State, c: byte)
    requires Inv(cfg, from, r) && r.started && r.brk.None? && r.col < cfg.width && c >= 32 && !Continues(c)
    ensures var t := Append(Apply(cfg, r), c);
            && Inv(cfg, from, t) && t.started && t.brk.None? && t.rows == r.rows && r.rb <= t.rb && |r.rb| < |t.rb|
            && t.pcol < t.col && t.cur == r.cur
            && exists cell: Cell :: cell.ch == c && Open(cfg, from, t) == Open(cfg, from, r) + [cell]
  {
    AppliedOk(cfg, from, r);
    ApplyOnly(cfg, r);
    hide Inv, Open, Moved, Apply;
    AddedOk(cfg, from, Apply(cfg, r), c);
    assert Added(Apply(cfg, r), c) == Append(Apply(cfg, r), c);
  }

  lemma HardFits(cfg: Config, k: nat, row: seq<byte>, next: seq<byte>)
    requires (cfg.words ==> NoSpace(Cells(FRESH, Body(cfg, k, row)))) && (Width(Cells(FRESH, row)) >= cfg.width || |row| > CUTOFF)
    ensures BreakFits(cfg, k, row, next, [])
  {
    hide Cells, Width, Body, WordCols, WordLen;
  }

  lemma LaidIs(cfg: Config, from: nat, s: State, gaps: seq<seq<byte>>)
    requires Laid(cfg, from, s, gaps)
    ensures Inv(cfg, from, s) && s.started && OneWordOpen(cfg, from, s)
  {
  }

  lemma InvParts(cfg: Config, from: nat, s: State)
    requires Inv(cfg, from, s) && s.started
    ensures from <= |s.rows|
    ensures var n := |s.rows| - from; cfg.Sound() && RowOk(cfg, n, s) && BreakOk(cfg, n, s) && !s.needBlank
    ensures s.brk.Some? ==> s.brk.value.idx < |s.rb|
  {
  }

  /** What a glyph on a new row leaves. */
  ghost predicate FreshGlyph(cfg: Config, from: nat, s: State, t: State, open: seq<Cell>, c: byte) {
    && Inv(cfg, from, t) && t.started && t.brk.None? && t.pcol < t.col
    && from <= |s.rows| && |t.rows| == |s.rows| + 1 && t.rows[..|s.rows|] == s.rows
    && exists cell: Cell :: cell.ch == c && Open(cfg, from, t) == open + [cell]
  }

  lemma HardRows(cfg: Config, from: nat, s: State, c: byte)
    requires Inv(cfg, from, s) && s.started && c >= 32 && !Continues(c)
    ensures var t := Append(Apply(cfg, NewRow(cfg, s)), c);
            && FreshGlyph(cfg, from, s, t, [], c)
            && t.rows[|s.rows|] == EndRow(cfg, s).rows[|s.rows|]
  {
    var r, n := NewRow(cfg, s), |s.rows| - from;
    NewRowOk(cfg, from, s);
    NewRowRows(cfg, s);
    EmptyBody(cfg, n + 1, r);
    assert Open(cfg, from, r) == [];
    hide Cells, Width, Config.LeadBytes, Inv, Body, EndRow, NewRow, Content, Apply, Open;
    GlyphOn(cfg, from, r, c);
  }

  /** A full row without a space is broken where it is. */
  lemma HardLaid(cfg: Config, from: nat, s: State, t: State, c: byte, gaps: seq<seq<byte>>)
    requires Laid(cfg, from, s, gaps) && (s.col >= cfg.width || |s.rb| > CUTOFF) && (cfg.words ==> s.brk.None? && c != SPACE)
    requires FreshGlyph(cfg, from, s, t, [], c) && t.rows[|s.rows|] == EndRow(cfg, s).rows[|s.rows|]
    ensures Laid(cfg, from, t, gaps + [[]]) && |gaps| == |s.rows| - from + 1
    ensures SoFar(cfg, from, t, gaps + [[]]) == SoFar(cfg, from, s, gaps) + [c]
  {
    hide Cells, Width, Config.LeadBytes, Inv, WordLen, WordCols, Body, Woven, EndRow, SoFar, Laid, BreakFits, Open, OneWordOpen;
    LaidIs(cfg, from, s, gaps);
    LaidSizes(cfg, from, s, gaps);
    EndedRow(cfg, from, s);
    var n, e := |s.rows| - from, t.rows[|s.rows|];
    var cell: Cell :| cell.ch == c && Open(cfg, from, t) == [] + [cell];
    HardOpen(cfg, from, s, t, [cell], gaps);
    HardFits(cfg, n, e, t.rb);
    OpenIs(cfg, from, s);
    BreakLaid(cfg, from, s, Body(cfg, n, s.rb), t, gaps, []);
    SoFarIs(cfg, from, s, gaps);
    assert [] + [cell] == [cell] && Chars([cell]) == [c];
    NoGap(Woven(cfg, s.rows[from..], gaps[..n]) + gaps[n] + Chars(Open(cfg, from, s)), c);
  }

  lemma OpenIs(cfg: Config, from: nat, s: State)
    requires from <= |s.rows|
    ensures Open(cfg, from, s) == Cells(FRESH, Body(cfg, |s.rows| - from, s.rb))
  {
  }

  lemma NoGap(r: seq<byte>, c: byte)
    ensures r + [] + [c] == r + [c]
  {
  }

  /** One glyph is one word, and a row without a break shows no space. */
  lemma HardOpen(cfg: Config, from: nat, s: State, t: State, cells: seq<Cell>, gaps: seq<seq<byte>>)
    requires Laid(cfg, from, s, gaps) && from <= |t.rows| && t.brk.None? && Open(cfg, from, t) == [] + cells
    requires cfg.words ==> s.brk.None? && NoSpace(cells)
    ensures OneWordOpen(cfg, from, t) && (cfg.words ==> NoSpace(Open(cfg, from, s)))
  {
    hide Inv, Open, Moved, Broken;
    assert [] + cells == cells;
  }

  // ----- backing up to the last space -----

  /** The row cut at its last space. */
  function CutState(cfg: Config, from: nat, s: State): State
    requires from <= |s.rows| && s.brk.Some? && s.brk.value.idx < |s.rb|
  {
    Cut(s, s.brk.value, s.pcol + Width(Cells(FRESH, Before(cfg, |s.rows| - from, s))))
  }

  lemma CutIs(cfg: Config, from: nat, s: State)
    requires Inv(cfg, from, s) && s.started && s.brk.Some?
    ensures s.brk.value.idx < |s.rb|
    ensures var u := CutState(cfg, from, s);
            && Inv(cfg, from, u) && u.started && u.rows == s.rows && u.col == s.pcol + Width(Cells(FRESH, Before(cfg, |s.rows| - from, s)))
            && |u.rb| == s.brk.value.idx && Body(cfg, |s.rows| - from, u.rb) == Before(cfg, |s.rows| - from, s)
    ensures BackUp(cfg, s, s.brk.value).rows == NewRow(cfg, CutState(cfg, from, s)).rows
  {
    hide Cells, Width, NewRow, BackUp, Config.LeadBytes, Content, Inv, RowOk, BreakOk, Before, Body, RowsShown;
    InvParts(cfg, from, s);
    CutOk(cfg, from, s);
    BodySplits(cfg, |s.rows| - from, s);
    BackUpIs(cfg, s, s.brk.value, s.pcol + Width(Cells(FRESH, Before(cfg, |s.rows| - from, s))));
  }

  /** It is ended, and the next one begins. */
  lemma CarriedRows(cfg: Config, from: nat, s: State)
    requires Inv(cfg, from, s) && s.started && s.brk.Some?
    ensures var b, r, n := s.brk.value, BackUp(cfg, s, s.brk.value), |s.rows| - from;
            && |r.rows| == |s.rows| + 1 && r.rows[..|s.rows|] == s.rows
            && var e := r.rows[|s.rows|];
               && Width(Cells(FRESH, e)) == s.pcol + Width(Cells(FRESH, Before(cfg, n, s))) && b.idx <= |e|
               && Cells(FRESH, Body(cfg, n, e)) == Cells(FRESH, Before(cfg, n, s))
               && WordLen(Before(cfg, n, s)) <= WordLen(Body(cfg, n, e)) && WordCols(Before(cfg, n, s)) <= WordCols(Body(cfg, n, e))
  {
    CutIs(cfg, from, s);
    hide After, Cells, Width, Config.LeadBytes, WordLen, WordCols, EndRow, NewRow, BackUp, CutState, Before, Body;
    var u := CutState(cfg, from, s);
    EndedRow(cfg, from, u);
    OpenIs(cfg, from, u);
    NewRowRows(cfg, u);
  }

  lemma CarriedOpen(cfg: Config, from: nat, s: State)
    requires Inv(cfg, from, s) && s.started && s.brk.Some?
    ensures var r := BackUp(cfg, s, s.brk.value);
            && |r.rows| == |s.rows| + 1
            && Open(cfg, from, r) == Moved(cfg, s) && |Rest(s)| <= |Body(cfg, |r.rows| - from, r.rb)|
  {
    CutIs(cfg, from, s);
    var b, u := s.brk.value, CutState(cfg, from, s);
    NewRowOk(cfg, from, u);
    NewRowRows(cfg, u);
    BackUpIs(cfg, s, b, u.col);
    hide After, Cells, Width, Config.LeadBytes, EndRow, NewRow, BackUp, Content, RowsShown, StyleBytes, Rest, Inv;
    var m := NewRow(cfg, u);
    ResumeOk(cfg, |m.rows| - from, m, b.style, Rest(s));
    ResumedBody(cfg, |m.rows| - from, m, if b.style.Some? then StyleBytes(cfg, b.style.value) else [], Rest(s));
  }

  lemma ResumedBody(cfg: Config, k: nat, m: State, style: seq<byte>, rest: seq<byte>)
    requires m.rb == cfg.LeadBytes(k)
    ensures |rest| <= |Body(cfg, k, m.rb + style + rest)|
  {
    hide Config.LeadBytes;
    assert m.rb + style + rest == m.rb + (style + rest);
    BodyGrows(cfg, k, m.rb, style + rest);
  }

  /** The first word of the open row is not changed by the cut. */
  lemma CutKeepsWord(cfg: Config, from: nat, s: State)
    requires Inv(cfg, from, s) && s.started && s.brk.Some?
    ensures var n := |s.rows| - from;
            WordLen(Body(cfg, n, s.rb)) == WordLen(Before(cfg, n, s)) && WordCols(Body(cfg, n, s.rb)) == WordCols(Before(cfg, n, s))
  {
    hide Cells, Width, WordLen, WordCols, Config.LeadBytes, Rest, Config.Effect;
    var n := |s.rows| - from;
    BodySplits(cfg, n, s);
    BreakSplits(cfg, n, s);
    WordStays(Before(cfg, n, s), Rest(s));
  }

  lemma CarryFits(cfg: Config, k: nat, row: seq<byte>, next: seq<byte>)
    requires cfg.words && NoSpace(Cells(FRESH, Body(cfg, k + 1, next)))
    requires Width(Cells(FRESH, row)) + 1 + Width(Cells(FRESH, Body(cfg, k + 1, next))) > cfg.width
             || |row| + |Body(cfg, k + 1, next)| > CUTOFF
    ensures BreakFits(cfg, k, row, next, [SPACE])
  {
    hide Cells, Width, Body, WordLen, WordCols;
    AllOneWord(Body(cfg, k + 1, next));
  }

  lemma CarryRows(cfg: Config, from: nat, s: State, c: byte)
    requires Inv(cfg, from, s) && s.started && s.brk.Some? && c >= 32 && !Continues(c)
    ensures var r := BackUp(cfg, s, s.brk.value);
            var t := Append(Apply(cfg, r), c);
            FreshGlyph(cfg, from, s, t, Moved(cfg, s), c) && t.rows == r.rows && |Rest(s)| < |Body(cfg, |t.rows| - from, t.rb)|
  {
    hide Cells, Width, Config.LeadBytes, Inv, Body, BackUp, Content, Apply, Open, Rest, Moved, Ink;
    InvParts(cfg, from, s);
    var r := BackUp(cfg, s, s.brk.value);
    CarriedRows(cfg, from, s);
    CarriedOpen(cfg, from, s);
    BackUpOk(cfg, from, s);
    BackUpUnbroken(cfg, s, s.brk.value);
    GlyphOn(cfg, from, r, c);
    LongerBody(cfg, from, r, Append(Apply(cfg, r), c));
  }

  lemma BackUpUnbroken(cfg: Config, s: State, b: Break)
    requires b.idx < |s.rb|
    ensures BackUp(cfg, s, b).brk.None?
  {
    hide Cells, Width, EndRow, StyleBytes;
  }

  lemma LongerBody(cfg: Config, from: nat, r: State, t: State)
    requires Inv(cfg, from, r) && r.started && t.rows == r.rows && r.rb <= t.rb && |r.rb| < |t.rb|
    ensures var k := |r.rows| - from; |Body(cfg, k, r.rb)| < |Body(cfg, k, t.rb)|
  {
    hide Cells, Width, After, Config.LeadBytes;
  }

  /** A full row with a space is broken at its last one. */
  lemma CarryLaid(cfg: Config, from: nat, s: State, t: State, c: byte, gaps: seq<seq<byte>>)
    requires Laid(cfg, from, s, gaps) && (s.col >= cfg.width || |s.rb| > CUTOFF) && cfg.words && s.brk.Some? && c != SPACE && !Continues(c)
    requires FreshGlyph(cfg, from, s, t, Moved(cfg, s), c) && t.rows == BackUp(cfg, s, s.brk.value).rows
    requires |Rest(s)| < |Body(cfg, |t.rows| - from, t.rb)|
    ensures Laid(cfg, from, t, gaps + [[SPACE]]) && |gaps| == |s.rows| - from + 1
    ensures SoFar(cfg, from, t, gaps + [[SPACE]]) == SoFar(cfg, from, s, gaps) + [c]
  {
    hide Cells, Width, Config.LeadBytes, Inv, WordLen, WordCols, Body, Woven, BackUp, SoFar, Laid, BreakFits, Open, Moved, OneWordOpen, Before, Rest, RowOk, BreakOk;
    LaidIs(cfg, from, s, gaps);
    LaidSizes(cfg, from, s, gaps);
    InvParts(cfg, from, s);
    var n := |s.rows| - from;
    CarriedRows(cfg, from, s);
    CutKeepsWord(cfg, from, s);
    var cell: Cell :| cell.ch == c && Open(cfg, from, t) == Moved(cfg, s) + [cell];
    CarryOpen(cfg, from, s, t, cell);
    CarryGreedy(cfg, from, s, t, cell);
    BreakLaid(cfg, from, s, Before(cfg, n, s), t, gaps, [SPACE]);
    SoFarIs(cfg, from, s, gaps);
    OpenSplits(cfg, from, s);
    CarriedText(Woven(cfg, s.rows[from..], gaps[..n]) + gaps[n], Cells(FRESH, Before(cfg, n, s)), BreakPen(cfg, s).style, Moved(cfg, s), cell);
  }

  lemma CarryOpen(cfg: Config, from: nat, s: State, t: State, cell: Cell)
    requires from <= |s.rows| && from <= |t.rows| && cfg.words && s.brk.Some? && t.brk.None? && OneWordOpen(cfg, from, s) && cell.ch != SPACE
    requires Open(cfg, from, t) == Moved(cfg, s) + [cell]
    ensures OneWordOpen(cfg, from, t) && NoSpace(Open(cfg, from, t))
  {
    hide Open, Moved;
    NoSpaceCat(Moved(cfg, s), [cell]);
  }

  lemma OpenSplits(cfg: Config, from: nat, s: State)
    requires Inv(cfg, from, s) && s.started && s.brk.Some?
    ensures var n := |s.rows| - from;
            Open(cfg, from, s) == Cells(FRESH, Before(cfg, n, s)) + [Cell(SPACE, BreakPen(cfg, s).style)] + Moved(cfg, s)
  {
    hide Cells, Width, Config.LeadBytes, Before, Rest, RowOk, BreakOk;
    InvParts(cfg, from, s);
    BreakSplits(cfg, |s.rows| - from, s);
  }

  lemma CarriedText(r: seq<byte>, pre: seq<Cell>, style: seq<byte>, rest: seq<Cell>, cell: Cell)
    ensures r + Chars(pre) + [SPACE] + Chars(rest + [cell]) == r + Chars(pre + [Cell(SPACE, style)] + rest) + [cell.ch]
  {
    assert Chars(rest + [cell]) == Chars(rest) + [cell.ch];
    assert Chars(pre + [Cell(SPACE, style)] + rest) == Chars(pre) + [SPACE] + Chars(rest);
  }

  /** The word carried over, with the glyph it is carried for, had no room. */
  lemma CarryGreedy(cfg: Config, from: nat, s: State, t: State, cell: Cell)
    requires Inv(cfg, from, s) && s.started && cfg.words && s.brk.Some? && (s.col >= cfg.width || |s.rb| > CUTOFF)
    requires from <= |t.rows| && |t.rows| == |s.rows| + 1 && t.rows == BackUp(cfg, s, s.brk.value).rows
    requires Open(cfg, from, t) == Moved(cfg, s) + [cell] && NoSpace(Open(cfg, from, t)) && !Continues(cell.ch)
    requires |Rest(s)| < |Body(cfg, |t.rows| - from, t.rb)|
    ensures BreakFits(cfg, |s.rows| - from, t.rows[|s.rows|], t.rb, [SPACE])
  {
    hide Cells, Width, Config.LeadBytes, WordLen, WordCols, Body, BackUp, BreakFits, Before, RowOk, BreakOk;
    var n := |s.rows| - from;
    InvParts(cfg, from, s);
    CarriedRows(cfg, from, s);
    BreakSplits(cfg, n, s);
    OpenIs(cfg, from, t);
    WidthOne(cell);
    WidthCat(Moved(cfg, s), [cell]);
    CarryFits(cfg, n, t.rows[|s.rows|], t.rb);
  }

  // ----- any put -----

  /** Where the text put so far ends up: `text` is what came before. */
  ghost predicate Placed(cfg: Config, from: nat, s: State, t: State, gaps: seq<seq<byte>>, gaps': seq<seq<byte>>, more: seq<byte>)
    requires from <= |s.rows| && |gaps| == |s.rows| - from + 1
  {
    && Laid(cfg, from, t, gaps') && from <= |t.rows| && |gaps'| == |t.rows| - from + 1
    && (HeadOk(Open(cfg, from, s)) ==> SoFar(cfg, from, t, gaps') == SoFar(cfg, from, s, gaps) + more)
  }

  lemma GlyphPlaced(cfg: Config, from: nat, s: State, c: byte, gaps: seq<seq<byte>>) returns (gaps': seq<seq<byte>>)
    requires Laid(cfg, from, s, gaps) && c >= 32 && !Continues(c) && (cfg.words ==> c != SPACE)
    ensures from <= |s.rows| && |gaps| == |s.rows| - from + 1
    ensures Placed(cfg, from, s, PutGlyph(cfg, s, c), gaps, gaps', [c])
  {
    hide Inv, WordLen, WordCols, Body, BackUp, SoFar, Laid, Open, Moved, OneWordOpen, Apply, NewRow;
    LaidIs(cfg, from, s, gaps);
    LaidSizes(cfg, from, s, gaps);
    InvParts(cfg, from, s);
    var t := PutGlyph(cfg, s, c);
    if s.col >= cfg.width || |s.rb| > CUTOFF {
      if cfg.words && s.brk.Some? {
        CarryRows(cfg, from, s, c);
        CarryLaid(cfg, from, s, t, c, gaps);
        gaps' := gaps + [[SPACE]];
      } else {
        HardRows(cfg, from, s, c);
        HardLaid(cfg, from, s, t, c, gaps);
        gaps' := gaps + [[]];
      }
    } else {
      AppliedOk(cfg, from, s);
      ApplyLaid(cfg, from, s, gaps);
      AppendLaid(cfg, from, Apply(cfg, s), c, gaps);
      assert t == Added(Apply(cfg, s), c);
      gaps' := gaps;
    }
    LaidSizes(cfg, from, t, gaps');
  }

  /** Nothing on a row but continuation bytes is nothing, if it begins with no such byte. */
  lemma NothingShownAtStart(cfg: Config, from: nat, s: State)
    requires Inv(cfg, from, s) && s.started && s.col == s.pcol && HeadOk(Open(cfg, from, s))
    ensures Open(cfg, from, s) == []
  {
    hide Cells, Config.LeadBytes;
    var cells := Open(cfg, from, s);
    if cells != [] {
      NoWidth(cells);
    }
  }

  lemma {:induction false} NoWidth(cells: seq<Cell>)
    requires cells != [] && !Continues(cells[0].ch)
    ensures Width(cells) > 0
  {
    if |cells| > 1 {
      NoWidth(cells[..|cells| - 1]);
    }
  }

  lemma ColumnsCount(cfg: Config, from: nat, s: State)
    requires Inv(cfg, from, s) && s.started
    ensures s.pcol <= s.col
  {
  }

  lemma SpacePlaced(cfg: Config, from: nat, s: State, gaps: seq<seq<byte>>) returns (gaps': seq<seq<byte>>)
    requires Laid(cfg, from, s, gaps) && cfg.words
    ensures from <= |s.rows| && |gaps| == |s.rows| - from + 1
    ensures Placed(cfg, from, s, PutSpace(cfg, s), gaps, gaps', [SPACE])
  {
    hide Inv, WordLen, WordCols, Body, SoFar, Laid, Open, Moved, OneWordOpen, Apply, NewRow;
    LaidIs(cfg, from, s, gaps);
    LaidSizes(cfg, from, s, gaps);
    ColumnsCount(cfg, from, s);
    if s.col == s.pcol {
      gaps' := DropLaid(cfg, from, s, gaps);
      if HeadOk(Open(cfg, from, s)) {
        NothingShownAtStart(cfg, from, s);
      }
    } else if s.col >= cfg.width {
      FullLaid(cfg, from, s, gaps);
      gaps' := gaps + [[SPACE]];
    } else {
      SpaceLaid(cfg, from, s, gaps);
      gaps' := gaps;
    }
    LaidSizes(cfg, from, PutSpace(cfg, s), gaps');
  }

  lemma PutPlaced(cfg: Config, from: nat, s: State, c: byte, gaps: seq<seq<byte>>) returns (gaps': seq<seq<byte>>)
    requires Laid(cfg, from, s, gaps)
    ensures from <= |s.rows| && |gaps| == |s.rows| - from + 1
    ensures Placed(cfg, from, s, PutByte(cfg, s, c), gaps, gaps', if Filtered(c).Some? then [Filtered(c).value] else [])
  {
    hide Inv, SoFar, Laid, Open, Moved, OneWordOpen, PutSpace, PutGlyph;
    LaidIs(cfg, from, s, gaps);
    LaidSizes(cfg, from, s, gaps);
    match Filtered(c)
    case None =>
      gaps' := gaps;
      assert SoFar(cfg, from, s, gaps) + [] == SoFar(cfg, from, s, gaps);
    case Some(d) =>
      if Continues(d) {
        AppendLaid(cfg, from, s, d, gaps);
        gaps' := gaps;
        assert PutByte(cfg, s, c) == Added(s, d);
      } else if d == SPACE && cfg.words {
        gaps' := SpacePlaced(cfg, from, s, gaps);
      } else {
        gaps' := GlyphPlaced(cfg, from, s, d, gaps);
      }
  }

  // ----- whole blocks -----

  lemma StyleLaid(cfg: Config, from: nat, s: State, st: Style, gaps: seq<seq<byte>>)
    requires Laid(cfg, from, s, gaps)
    ensures var t := s.(cur := st);
            && Laid(cfg, from, t, gaps) && from <= |s.rows| && |gaps| == |s.rows| - from + 1
            && SoFar(cfg, from, t, gaps) == SoFar(cfg, from, s, gaps) && Open(cfg, from, t) == Open(cfg, from, s)
  {
    LaidSizes(cfg, from, s, gaps);
    SetStyle(cfg, from, s, st);
    hide Inv, Cells, Width, Body, Broken;
    MovedIgnoresWanted(cfg, s, st);
  }

  lemma MovedIgnoresWanted(cfg: Config, s: State, st: Style)
    ensures Moved(cfg, s.(cur := st)) == Moved(cfg, s)
  {
    hide After, Cells;
  }

  /** A block just opened. */
  predicate JustOpened(cfg: Config, from: nat, s: State) {
    s.started && from == |s.rows| && Open(cfg, from, s) == [] && s.brk.None?
  }

  lemma OpenedLaid(cfg: Config, from: nat, s: State)
    requires Inv(cfg, from, s) && JustOpened(cfg, from, s)
    ensures Laid(cfg, from, s, [[]]) && SoFar(cfg, from, s, [[]]) == []
  {
    hide Inv, Cells, Body;
    assert s.rows[from..] == [] && AllRows(from, s) == [s.rb];
    SoFarIs(cfg, from, s, [[]]);
    assert Woven(cfg, [], []) == [] && Chars([]) == [];
  }

  lemma {:induction false} AllLaid(cfg: Config, from: nat, s: State, puts: seq<Put>) returns (gaps: seq<seq<byte>>)
    requires Inv(cfg, from, s) && JustOpened(cfg, from, s)
    ensures var t := PutAll(cfg, s, puts);
            && Laid(cfg, from, t, gaps) && from <= |t.rows| && |gaps| == |t.rows| - from + 1
            && (Attached(cfg, puts) ==> SoFar(cfg, from, t, gaps) == Chars(MdContent.Text(cfg, puts)))
  {
    hide Inv, SoFar, Laid, Open, PutByte, Whole;
    if puts == [] {
      OpenedLaid(cfg, from, s);
      gaps := [[]];
    } else {
      var m := |puts| - 1;
      var head, p := puts[..m], puts[m];
      var before := AllLaid(cfg, from, s, head);
      var u := PutAll(cfg, s, head);
      StyleLaid(cfg, from, u, p.style, before);
      gaps := PutPlaced(cfg, from, u.(cur := p.style), p.ch, before);
      if Attached(cfg, puts) {
        assert Attached(cfg, head);
        NoBreakInsideCharacter(cfg, from, s, head);
        WholeHead(cfg, from, u);
        PutsText(cfg, puts);
      }
    }
  }

  lemma WholeHead(cfg: Config, from: nat, s: State)
    requires Whole(cfg, from, s)
    ensures from <= |s.rows| && HeadOk(Open(cfg, from, s))
  {
  }

  lemma PutsText(cfg: Config, puts: seq<Put>)
    requires puts != []
    ensures var m := |puts| - 1; var c := Filtered(puts[m].ch);
            Chars(MdContent.Text(cfg, puts)) == Chars(MdContent.Text(cfg, puts[..m])) + if c.Some? then [c.value] else []
  {
    hide Config.Look;
    var m := |puts| - 1;
    var head := MdContent.Text(cfg, puts[..m]);
    assert Chars(head + []) == Chars(head);
    assert forall x: Cell :: Chars(head + [x]) == Chars(head) + [x.ch];
  }

  lemma LaidEnded(cfg: Config, from: nat, s: State, gaps: seq<seq<byte>>)
    requires Laid(cfg, from, s, gaps)
    ensures var rows := EndRow(cfg, s).rows;
            && from <= |s.rows| && |rows| == |s.rows| + 1 && |gaps| == |s.rows| - from + 1
            && Broken(cfg, rows[from..], gaps) && Woven(cfg, rows[from..], gaps) == SoFar(cfg, from, s, gaps)
  {
    hide Cells, Width, Config.LeadBytes, WordLen, WordCols, Body, Broken, Woven, Inv, EndRow;
    LaidIs(cfg, from, s, gaps);
    LaidSizes(cfg, from, s, gaps);
    EndedRow(cfg, from, s);
    EndRowRows(cfg, s);
    var n, e := |s.rows| - from, EndRow(cfg, s).rows[|s.rows|];
    var R := s.rows[from..];
    assert EndRow(cfg, s).rows[from..] == R + [e] && gaps == gaps[..n] + [gaps[n]];
    LastGrows(cfg, R, gaps, s.rb, e);
    WovenStep(cfg, R, gaps[..n], s.rb, gaps[n]);
    WovenStep(cfg, R, gaps[..n], e, gaps[n]);
    OpenIs(cfg, from, s);
  }

  lemma EndRowRows(cfg: Config, s: State)
    ensures |EndRow(cfg, s).rows| == |s.rows| + 1 && EndRow(cfg, s).rows[..|s.rows|] == s.rows
  {
  }

  /** Where a block's rows are broken, whatever is put: there are gaps such that every break
      is inside a word that fills the row, or at spaces behind which the next word would
      not have fitted. With the gaps put back, the rows are the text, byte for byte, when
      continuation bytes follow their characters. */
  lemma BlockBroken(cfg: Config, s: State, puts: seq<Put>) returns (gaps: seq<seq<byte>>)
    requires cfg.Sound()
    ensures var from, t := |Start(cfg, s, true).rows|, Block(cfg, s, puts);
            && from <= |t.rows| && Broken(cfg, t.rows[from..], gaps)
            && (Attached(cfg, puts) ==> Woven(cfg, t.rows[from..], gaps) == Chars(MdContent.Text(cfg, puts)))
  {
    hide Inv, SoFar, PutAll, Start, Content, Broken, Woven, EndRow, Open, Laid;
    var o := Start(cfg, s, true);
    OpenOk(cfg, s);
    OpenIsEmpty(cfg, s);
    gaps := AllLaid(cfg, |o.rows|, o, puts);
    LaidIs(cfg, |o.rows|, PutAll(cfg, o, puts), gaps);
    LaidEnded(cfg, |o.rows|, PutAll(cfg, o, puts), gaps);
  }
}
