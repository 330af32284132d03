/** Inline markup: how a block's text, a NUL-terminated buffer, becomes styled
    bytes for the row builder. Every index used lies in the buffer and every step
    moves forward, which is what makes these functions well defined. */
module MdInline {
  import opened Bytes
  import opened MdWrap

  const STAR := 42
  const UNDERSCORE := 95
  const BACKTICK := 96
  const BACKSLASH := 92
  const BANG := 33
  const LBRACKET := 91
  const RBRACKET := 93
  const LPAREN := 40
  const RPAREN := 41
  const LESS := 60
  const GREATER := 62
  const COLON := 58
  const AT := 64

  predicate Punct(c: byte) {
    33 <= c <= 47 || 58 <= c <= 64 || 91 <= c <= 96 || 123 <= c <= 126
  }

  predicate Blank(c: byte) {
    c == 0 || c == SPACE || c == TAB
  }

  /** One NUL, at the end. */
  predicate Terminated(t: seq<byte>) {
    |t| > 0 && t[|t| - 1] == 0 && forall i :: 0 <= i < |t| - 1 ==> t[i] != 0
  }

  // ----- scanners -----

  function RunLen(t: seq<byte>, i: nat, ch: byte): (k: nat)
    requires Terminated(t) && i < |t| && ch != 0
    ensures i + k < |t| && (k > 0 <==> t[i] == ch)
    ensures forall j :: i <= j < i + k ==> t[j] == ch
    decreases |t| - i
  {
    if t[i] == ch then 1 + RunLen(t, i + 1, ch) else 0
  }

  /** The first run of exactly k backticks at or after j, or -1. */
  function CodeClose(t: seq<byte>, j: nat, k: nat): (r: int)
    requires Terminated(t) && j < |t|
    ensures r == -1 || (j <= r && r + k < |t| && RunLen(t, r, BACKTICK) == k && t[r] == BACKTICK)
    decreases |t| - j
  {
    if t[j] == 0 then -1
    else if t[j] == BACKTICK then
      var m := RunLen(t, j, BACKTICK);
      if m == k then j else CodeClose(t, j + m, k)
    else CodeClose(t, j + 1, k)
  }

  datatype Flanking = Flanking(left: bool, right: bool, afterPunct: bool, beforePunct: bool)

  function Flank(t: seq<byte>, i: nat, k: nat): Flanking
    requires i + k < |t|
  {
    var prev, next := if i > 0 then t[i - 1] else SPACE, t[i + k];
    var pw, nw, pp, np := Blank(prev), Blank(next), Punct(prev), Punct(next);
    Flanking(!nw && (!np || pw || pp), !pw && (!pp || nw || np), pp, np)
  }

  predicate CanOpen(t: seq<byte>, i: nat, k: nat, ch: byte)
    requires i + k < |t|
  {
    var f := Flank(t, i, k);
    if ch == STAR then f.left else f.left && (!f.right || f.afterPunct)
  }

  predicate CanClose(t: seq<byte>, i: nat, k: nat, ch: byte)
    requires i + k < |t|
  {
    var f := Flank(t, i, k);
    if ch == STAR then f.right else f.right && (!f.left || f.beforePunct)
  }

  /** The closing run for emphasis, skipping escapes and code, or -1: a run of exactly
      k that can close. */
  function EmphClose(t: seq<byte>, j: nat, k: nat, ch: byte): (r: int)
    requires Terminated(t) && j < |t| && ch != 0
    ensures r == -1 || (j <= r && r + k < |t| && t[r] == ch && RunLen(t, r, ch) == k && CanClose(t, r, k, ch))
    decreases |t| - j
  {
    var c := t[j];
    if c == 0 then -1
    else if c == BACKSLASH && t[j + 1] != 0 then EmphClose(t, j + 2, k, ch)
    else if c == BACKTICK then
      var m := RunLen(t, j, BACKTICK);
      var e := CodeClose(t, j + m, m);
      EmphClose(t, if e >= 0 then e + m else j + m, k, ch)
    else if c == ch then
      var m := RunLen(t, j, ch);
      if m == k && CanClose(t, j, k, ch) then j else EmphClose(t, j + m, k, ch)
    else EmphClose(t, j + 1, k, ch)
  }

  lemma EmphCloseStep(t: seq<byte>, j: nat, k: nat, ch: byte)
    requires Terminated(t) && j < |t| && ch != 0 && t[j] != 0
    ensures EmphClose(t, j, k, ch) ==
              if t[j] == BACKSLASH && t[j + 1] != 0 then EmphClose(t, j + 2, k, ch)
              else if t[j] == BACKTICK then
                var m := RunLen(t, j, BACKTICK);
                var e := CodeClose(t, j + m, m);
                EmphClose(t, if e >= 0 then e + m else j + m, k, ch)
              else if t[j] == ch then
                var m := RunLen(t, j, ch);
                if m == k && CanClose(t, j, k, ch) then j else EmphClose(t, j + m, k, ch)
              else EmphClose(t, j + 1, k, ch)
  {
    hide RunLen, CodeClose, CanClose;
  }

  /** The delimiter that closes the open one at nesting `depth`, or -1. */
  function Matching(t: seq<byte>, j: nat, depth: nat, open: byte, close: byte): (r: int)
    requires Terminated(t) && j < |t| && close != 0
    ensures r == -1 || (j <= r < |t| - 1 && t[r] == close)
    decreases |t| - j
  {
    var c := t[j];
    if c == 0 then -1
    else if c == BACKSLASH && t[j + 1] != 0 then Matching(t, j + 2, depth, open, close)
    else if c == open then Matching(t, j + 1, depth + 1, open, close)
    else if c == close then if depth <= 1 then j else Matching(t, j + 1, depth - 1, open, close)
    else Matching(t, j + 1, depth, open, close)
  }

  /** The next unit after j: an escaped pair counts as one. */
  function NextUnit(t: seq<byte>, j: nat): (n: nat)
    requires Terminated(t) && j < |t| && t[j] != 0
    ensures j < n < |t|
  {
    if t[j] == BACKSLASH && t[j + 1] != 0 then j + 2 else j + 1
  }

  /** Whether reading unit by unit from j comes to m. */
  predicate Reaches(t: seq<byte>, j: nat, m: nat)
    requires Terminated(t) && j < |t|
    decreases |t| - j
  {
    j == m || (j < m && t[j] != 0 && Reaches(t, NextUnit(t, j), m))
  }

  /** Openings less closings among the units from j up to m. */
  function Net(t: seq<byte>, j: nat, m: nat, open: byte, close: byte): int
    requires Terminated(t) && j < |t|
    decreases |t| - j
  {
    if j >= m || t[j] == 0 then 0
    else
      (if t[j] == BACKSLASH && t[j + 1] != 0 then 0 else if t[j] == open then 1 else if t[j] == close then -1 else 0)
      + Net(t, NextUnit(t, j), m, open, close)
  }

  /** The closing delimiter found balances the openings before it, and it is the first
      unit that does; if none is found, no unit of the text does. */
  lemma {:induction false} MatchingBalances(t: seq<byte>, j: nat, depth: nat, open: byte, close: byte)
    requires Terminated(t) && j < |t| && close != 0 && open != close && depth >= 1
    requires open != BACKSLASH && close != BACKSLASH
    ensures var r := Matching(t, j, depth, open, close);
            && (r >= 0 ==> Reaches(t, j, r) && t[r] == close && depth + Net(t, j, r, open, close) == 1)
            && forall m: nat :: j <= m < (if r >= 0 then r else |t| - 1) && Reaches(t, j, m) && t[m] == close
                 ==> depth + Net(t, j, m, open, close) > 1
    decreases |t| - j
  {
    var c := t[j];
    if c != 0 {
      var escaped := c == BACKSLASH && t[j + 1] != 0;
      if escaped || c != close || depth > 1 {
        var depth' := if escaped then depth else if c == open then depth + 1 else if c == close then depth - 1 else depth;
        MatchingBalances(t, NextUnit(t, j), depth', open, close);
      }
    }
  }

  /** The end of a URL: the first blank, or the closing parenthesis. */
  function UrlEnd(t: seq<byte>, i: nat, e: nat): (r: nat)
    requires i <= e < |t|
    ensures i <= r <= e
    decreases e - i
  {
    if i < e && t[i] != SPACE && t[i] != TAB then UrlEnd(t, i + 1, e) else i
  }

  /** The end of what could be an autolink. */
  function AutoEnd(t: seq<byte>, j: nat): (r: nat)
    requires Terminated(t) && j < |t|
    ensures j <= r < |t|
    decreases |t| - j
  {
    if t[j] > SPACE && t[j] != LESS && t[j] != GREATER then AutoEnd(t, j + 1) else j
  }

  // ----- one step of rendering -----

  datatype Inline = Inline(i: nat, cur: Style, itCh: int, boCh: int, linkEnd: int, linkAfter: nat, url: Option<seq<byte>>)

  ghost predicate InRange(t: seq<byte>, s: Inline) {
    s.i < |t| && (s.linkEnd == -1 || 0 <= s.linkEnd < s.linkAfter < |t|)
  }

  function Same(b: seq<byte>, st: Style): seq<Put> {
    seq(|b|, i requires 0 <= i < |b| => Put(b[i], st))
  }

  function Move(s: Inline, i: nat): Inline {
    s.(i := i)
  }

  /** At the end of a link's text: its URL, if that is worth showing. */
  function LinkDone(s: Inline): (Inline, seq<Put>) {
    var cur := s.cur.(link := false);
    if s.url.Some? then
      (s.(i := s.linkAfter, linkEnd := -1, cur := cur.(url := false)),
       Same([SPACE, LPAREN] + s.url.value + [RPAREN], cur.(url := true)))
    else (s.(i := s.linkAfter, linkEnd := -1, cur := cur), [])
  }

  /** A code span without the one space that may pad it on each side. */
  function CodeText(t: seq<byte>, s: nat, f: nat): seq<byte>
    requires s <= f <= |t|
  {
    if f - s >= 2 && t[s] == SPACE && t[f - 1] == SPACE && exists x :: s <= x < f && t[x] != SPACE then t[s + 1..f - 1] else t[s..f]
  }

  function CodeStep(t: seq<byte>, s: Inline): (r: (Inline, seq<Put>))
    requires Terminated(t) && InRange(t, s) && t[s.i] == BACKTICK
    ensures s.i < r.0.i && InRange(t, r.0)
  {
    var k := RunLen(t, s.i, BACKTICK);
    var e := CodeClose(t, s.i + k, k);
    if e < 0 then (Move(s, s.i + k), Same(t[s.i..s.i + k], s.cur))
    else (s.(i := e + k, cur := s.cur.(code := false)), Same(CodeText(t, s.i + k, e), s.cur.(code := true)))
  }

  function EmphStep(t: seq<byte>, s: Inline): (r: (Inline, seq<Put>))
    requires Terminated(t) && InRange(t, s) && (t[s.i] == STAR || t[s.i] == UNDERSCORE)
    ensures s.i < r.0.i && InRange(t, r.0)
  {
    var c := t[s.i];
    var k := RunLen(t, s.i, c);
    var it, bo := k % 2 == 1, k / 2 % 2 == 1;
    var allOn := (it ==> s.cur.italic) && (bo ==> s.cur.bold);
    var allOff := (it ==> !s.cur.italic) && (bo ==> !s.cur.bold);
    var charsOk := (it ==> s.itCh == c) && (bo ==> s.boCh == c);
    var next := Move(s, s.i + k);
    if k <= 3 && allOn && charsOk && CanClose(t, s.i, k, c) then
      (next.(cur := s.cur.(italic := s.cur.italic && !it, bold := s.cur.bold && !bo)), [])
    else if k <= 3 && allOff && CanOpen(t, s.i, k, c) && EmphClose(t, s.i + k, k, c) >= 0 then
      (next.(cur := s.cur.(italic := s.cur.italic || it, bold := s.cur.bold || bo),
             itCh := if it then c else s.itCh, boCh := if bo then c else s.boCh), [])
    else (next, Same(t[s.i..s.i + k], s.cur))
  }

  function Plainly(t: seq<byte>, s: Inline): (Inline, seq<Put>)
    requires s.i < |t|
  {
    (Move(s, s.i + 1), [Put(t[s.i], s.cur)])
  }

  function BangStep(t: seq<byte>, s: Inline): (r: (Inline, seq<Put>))
    requires Terminated(t) && InRange(t, s) && t[s.i] == BANG && t[s.i + 1] == LBRACKET
    ensures s.i < r.0.i && InRange(t, r.0)
  {
    var j := Matching(t, s.i + 2, 1, LBRACKET, RBRACKET);
    if j >= 0 && (t[j + 1] == LPAREN || t[j + 1] == LBRACKET) then (Move(s, s.i + 1), []) else Plainly(t, s)
  }

  function LinkStep(t: seq<byte>, s: Inline): (r: (Inline, seq<Put>))
    requires Terminated(t) && InRange(t, s) && t[s.i] == LBRACKET
    ensures s.i < r.0.i && InRange(t, r.0)
  {
    var j := Matching(t, s.i + 1, 1, LBRACKET, RBRACKET);
    if j < 0 then Plainly(t, s)
    else
      var e := if t[j + 1] == LPAREN then Matching(t, j + 2, 1, LPAREN, RPAREN)
               else if t[j + 1] == LBRACKET then Matching(t, j + 2, 1, LBRACKET, RBRACKET)
               else -1;
      if e < 0 then Plainly(t, s)
      else
        var u := t[j + 2..UrlEnd(t, j + 2, e)];
        (s.(i := s.i + 1, cur := s.cur.(link := true), linkEnd := j, linkAfter := e + 1,
            url := if t[j + 1] == LPAREN && u != [] && u != t[s.i + 1..j] then Some(u) else None), [])
  }

  function AutoStep(t: seq<byte>, s: Inline): (r: (Inline, seq<Put>))
    requires Terminated(t) && InRange(t, s) && t[s.i] == LESS
    ensures s.i < r.0.i && InRange(t, r.0)
  {
    var j := AutoEnd(t, s.i + 1);
    if t[j] == GREATER && j > s.i + 1 && (COLON in t[s.i + 1..j] || AT in t[s.i + 1..j]) then
      (s.(i := j + 1, cur := s.cur.(link := false)), Same(t[s.i + 1..j], s.cur.(link := true)))
    else Plainly(t, s)
  }

  /** One turn of the rendering loop: it always moves forward and never past the NUL. */
  function Step(t: seq<byte>, s: Inline): (r: (Inline, seq<Put>))
    requires Terminated(t) && InRange(t, s) && t[s.i] != 0
    ensures s.i < r.0.i && InRange(t, r.0)
  {
    var c := t[s.i];
    if s.i == s.linkEnd then LinkDone(s)
    else if c == BACKSLASH then
      if Punct(t[s.i + 1]) then (Move(s, s.i + 2), [Put(t[s.i + 1], s.cur)]) else Plainly(t, s)
    else if c == BACKTICK then CodeStep(t, s)
    else if c == STAR || c == UNDERSCORE then EmphStep(t, s)
    else if c == BANG && t[s.i + 1] == LBRACKET && !s.cur.link then BangStep(t, s)
    else if c == LBRACKET && !s.cur.link then LinkStep(t, s)
    else if c == LESS then AutoStep(t, s)
    else Plainly(t, s)
  }

  function RenderFrom(t: seq<byte>, s: Inline): seq<Put>
    requires Terminated(t) && InRange(t, s)
    decreases |t| - s.i
  {
    if t[s.i] == 0 then [] else Step(t, s).1 + RenderFrom(t, Step(t, s).0)
  }

  const AT_START := Inline(0, NO_STYLE, 0, 0, -1, 0, None)

  function Render(t: seq<byte>): seq<Put>
    requires Terminated(t)
  {
    RenderFrom(t, AT_START)
  }
}
