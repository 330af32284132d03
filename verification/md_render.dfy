/** Rendering a block: the loop over its text, and why well-formed UTF-8 text
    reaches the row builder with its characters intact. */
module MdRender {
  import opened Bytes
  import opened MdTerminal
  import opened MdWrap
  import opened MdContent
  import opened MdBuilder
  import opened MdInline

  // ----- the scanners, as the loops they are -----

  method RunLength(t: seq<byte>, i: nat, ch: byte) returns (k: nat)
    requires Terminated(t) && i < |t| && ch != 0
    ensures k == RunLen(t, i, ch)
  {
    k := 0;
    while t[i + k] == ch
      invariant i + k < |t| && k + RunLen(t, i + k, ch) == RunLen(t, i, ch)
      decreases |t| - k
    {
      k := k + 1;
    }
  }

  method FindCodeClose(t: seq<byte>, i: nat, k: nat) returns (r: int)
    requires Terminated(t) && i + k < |t|
    ensures r == CodeClose(t, i + k, k)
  {
    var j := i + k;
    while t[j] != 0
      invariant j < |t| && CodeClose(t, j, k) == CodeClose(t, i + k, k)
      decreases |t| - j
    {
      if t[j] == BACKTICK {
        var m := RunLength(t, j, BACKTICK);
        if m == k {
          return j;
        }
        j := j + m;
      } else {
        j := j + 1;
      }
    }
    return -1;
  }

  method FindEmphClose(t: seq<byte>, i: nat, k: nat, ch: byte) returns (r: int)
    requires Terminated(t) && i + k < |t| && ch != 0
    ensures r == EmphClose(t, i + k, k, ch)
  {
    hide CanClose, CodeClose, RunLen, EmphClose;
    var j := i + k;
    ghost var goal := EmphClose(t, j, k, ch);
    while t[j] != 0
      invariant j < |t| && EmphClose(t, j, k, ch) == goal
      decreases |t| - j
    {
      EmphCloseStep(t, j, k, ch);
      var c := t[j];
      if c == BACKSLASH && t[j + 1] != 0 {
        j := j + 2;
      } else if c == BACKTICK {
        var m := RunLength(t, j, BACKTICK);
        var e := FindCodeClose(t, j, m);
        j := if e >= 0 then e + m else j + m;
      } else if c == ch {
        var m := RunLength(t, j, ch);
        if m == k && CanClose(t, j, k, ch) {
          return j;
        }
        j := j + m;
      } else {
        j := j + 1;
      }
    }
    EmphCloseAtEnd(t, j, k, ch);
    return -1;
  }

  lemma EmphCloseAtEnd(t: seq<byte>, j: nat, k: nat, ch: byte)
    requires Terminated(t) && j < |t| && ch != 0 && t[j] == 0
    ensures EmphClose(t, j, k, ch) == -1
  {
  }

  /** find_bracket and find_paren: `i` is the opening delimiter. */
  method FindMatching(t: seq<byte>, i: nat, open: byte, close: byte) returns (r: int)
    requires Terminated(t) && i < |t| - 1 && close != 0 && open != close
    ensures r == Matching(t, i + 1, 1, open, close)
  {
    var j, depth := i + 1, 1;
    while t[j] != 0
      invariant j < |t| && depth >= 1 && Matching(t, j, depth, open, close) == Matching(t, i + 1, 1, open, close)
      decreases |t| - j
    {
      var c := t[j];
      if c == BACKSLASH && t[j + 1] != 0 {
        j := j + 2;
        continue;
      }
      if c == open {
        depth := depth + 1;
      } else if c == close {
        depth := depth - 1;
        if depth == 0 {
          return j;
        }
      }
      j := j + 1;
    }
    return -1;
  }

  /** The end of a URL, up to e. */
  method FindUrlEnd(t: seq<byte>, i: nat, e: nat) returns (r: nat)
    requires i <= e < |t|
    ensures r == UrlEnd(t, i, e)
  {
    r := i;
    while r < e && t[r] != SPACE && t[r] != TAB
      invariant i <= r <= e && UrlEnd(t, r, e) == UrlEnd(t, i, e)
    {
      r := r + 1;
    }
  }

  /** What may be an autolink, and whether it has a character that makes it one. */
  method ScanAutolink(t: seq<byte>, i: nat) returns (j: nat, special: bool)
    requires Terminated(t) && i < |t|
    ensures j == AutoEnd(t, i) && special == (COLON in t[i..j] || AT in t[i..j])
  {
    j, special := i, false;
    while t[j] > SPACE && t[j] != LESS && t[j] != GREATER
      invariant i <= j < |t| && AutoEnd(t, j) == AutoEnd(t, i)
      invariant special == (COLON in t[i..j] || AT in t[i..j])
      decreases |t| - j
    {
      assert t[i..j + 1] == t[i..j] + [t[j]];
      if t[j] == COLON || t[j] == AT {
        special := true;
      }
      j := j + 1;
    }
  }

  method TakeCode(t: seq<byte>, s: Inline) returns (next: Inline, more: seq<Put>)
    requires Terminated(t) && InRange(t, s) && t[s.i] == BACKTICK
    ensures (next, more) == CodeStep(t, s)
  {
    hide RunLen, CodeClose, CodeText;
    var k := RunLength(t, s.i, BACKTICK);
    var e := FindCodeClose(t, s.i, k);
    if e < 0 {
      return Move(s, s.i + k), Same(t[s.i..s.i + k], s.cur);
    }
    next := s.(i := e + k, cur := s.cur.(code := false));
    more := Same(CodeText(t, s.i + k, e), s.cur.(code := true));
  }

  method TakeEmph(t: seq<byte>, s: Inline) returns (next: Inline, more: seq<Put>)
    requires Terminated(t) && InRange(t, s) && (t[s.i] == STAR || t[s.i] == UNDERSCORE)
    ensures (next, more) == EmphStep(t, s)
  {
    hide EmphClose, CanOpen, CanClose, RunLen;
    var c := t[s.i];
    var k := RunLength(t, s.i, c);
    next, more := Move(s, s.i + k), Same(t[s.i..s.i + k], s.cur);
    if 1 <= k <= 3 {
      var it, bo := k % 2 == 1, k / 2 % 2 == 1;
      var on := (it ==> s.cur.italic) && (bo ==> s.cur.bold);
      var off := (it ==> !s.cur.italic) && (bo ==> !s.cur.bold);
      var charsOk := (it ==> s.itCh == c) && (bo ==> s.boCh == c);
      if on && charsOk && CanClose(t, s.i, k, c) {
        next := next.(cur := s.cur.(italic := s.cur.italic && !it, bold := s.cur.bold && !bo));
        more := [];
      } else if off && CanOpen(t, s.i, k, c) {
        var e := FindEmphClose(t, s.i, k, c);
        if e >= 0 {
          next := next.(cur := s.cur.(italic := s.cur.italic || it, bold := s.cur.bold || bo),
                        itCh := if it then c else s.itCh, boCh := if bo then c else s.boCh);
          more := [];
        }
      }
    }
  }

  method TakeBang(t: seq<byte>, s: Inline) returns (next: Inline, more: seq<Put>)
    requires Terminated(t) && InRange(t, s) && t[s.i] == BANG && t[s.i + 1] == LBRACKET
    ensures (next, more) == BangStep(t, s)
  {
    var j := FindMatching(t, s.i + 1, LBRACKET, RBRACKET);
    if j >= 0 && (t[j + 1] == LPAREN || t[j + 1] == LBRACKET) {
      return Move(s, s.i + 1), [];
    }
    return Move(s, s.i + 1), [Put(t[s.i], s.cur)];
  }

  method TakeLink(t: seq<byte>, s: Inline) returns (next: Inline, more: seq<Put>)
    requires Terminated(t) && InRange(t, s) && t[s.i] == LBRACKET
    ensures (next, more) == LinkStep(t, s)
  {
    hide Matching, UrlEnd;
    next, more := Move(s, s.i + 1), [];
    var j := FindMatching(t, s.i, LBRACKET, RBRACKET);
    if j >= 0 && t[j + 1] == LPAREN {
      var e := FindMatching(t, j + 1, LPAREN, RPAREN);
      if e >= 0 {
        var end := FindUrlEnd(t, j + 2, e);
        var u := t[j + 2..end];
        next := next.(cur := s.cur.(link := true), linkEnd := j, linkAfter := e + 1,
                      url := if u != [] && u != t[s.i + 1..j] then Some(u) else None);
        return;
      }
    }
    if j >= 0 && t[j + 1] == LBRACKET {
      var e := FindMatching(t, j + 1, LBRACKET, RBRACKET);
      if e >= 0 {
        next := next.(cur := s.cur.(link := true), linkEnd := j, linkAfter := e + 1, url := None);
        return;
      }
    }
    more := [Put(t[s.i], s.cur)];
  }

  method TakeAuto(t: seq<byte>, s: Inline) returns (next: Inline, more: seq<Put>)
    requires Terminated(t) && InRange(t, s) && t[s.i] == LESS
    ensures (next, more) == AutoStep(t, s)
  {
    var j, special := ScanAutolink(t, s.i + 1);
    if t[j] == GREATER && j > s.i + 1 && special {
      return s.(i := j + 1, cur := s.cur.(link := false)), Same(t[s.i + 1..j], s.cur.(link := true));
    }
    return Move(s, s.i + 1), [Put(t[s.i], s.cur)];
  }

  /** One turn of the loop, with its scanners. */
  method TakeStep(t: seq<byte>, s: Inline) returns (next: Inline, more: seq<Put>)
    requires Terminated(t) && InRange(t, s) && t[s.i] != 0
    ensures (next, more) == Step(t, s)
  {
    hide CodeStep, EmphStep, BangStep, LinkStep, AutoStep, LinkDone;
    var c := t[s.i];
    if s.i == s.linkEnd {
      var (n, m) := LinkDone(s);
      next, more := n, m;
    } else if c == BACKSLASH {
      if Punct(t[s.i + 1]) {
        next, more := Move(s, s.i + 2), [Put(t[s.i + 1], s.cur)];
      } else {
        next, more := Move(s, s.i + 1), [Put(c, s.cur)];
      }
    } else if c == BACKTICK {
      next, more := TakeCode(t, s);
    } else if c == STAR || c == UNDERSCORE {
      next, more := TakeEmph(t, s);
    } else if c == BANG && t[s.i + 1] == LBRACKET && !s.cur.link {
      next, more := TakeBang(t, s);
    } else if c == LBRACKET && !s.cur.link {
      next, more := TakeLink(t, s);
    } else if c == LESS {
      next, more := TakeAuto(t, s);
    } else {
      next, more := Move(s, s.i + 1), [Put(c, s.cur)];
    }
  }

  // ----- the rendering loop -----

  lemma {:induction false} PutAllCat(cfg: Config, s: State, a: seq<Put>, b: seq<Put>)
    ensures PutAll(cfg, s, a + b) == PutAll(cfg, PutAll(cfg, s, a), b)
  {
    if b == [] {
      assert a + b == a;
    } else {
      assert (a + b)[..|a + b| - 1] == a + b[..|b| - 1];
      PutAllCat(cfg, s, a, b[..|b| - 1]);
    }
  }

  /** The style wanted before a put sets its own does not matter. */
  lemma {:induction false} PutAllSetsStyle(cfg: Config, s: State, st: Style, puts: seq<Put>)
    requires puts != []
    ensures PutAll(cfg, s.(cur := st), puts) == PutAll(cfg, s, puts)
  {
    if |puts| == 1 {
      assert puts[..0] == [];
    } else {
      PutAllSetsStyle(cfg, s, st, puts[..|puts| - 1]);
    }
  }

  /** Hand bytes to the builder one by one, each in its style. */
  method AddAll(w: Builder, puts: seq<Put>)
    requires w.Valid()
    modifies w, w.o
    ensures w.Valid() && w.Snap() == PutAll(w.cfg, old(w.Snap()), puts)
  {
    hide PutByte;
    for i := 0 to |puts|
      invariant w.Valid() && w.Snap() == PutAll(w.cfg, old(w.Snap()), puts[..i])
    {
      assert puts[..i + 1][..i] == puts[..i];
      w.cur := puts[i].style;
      w.Add(puts[i].ch);
    }
    assert puts[..|puts|] == puts;
  }

  /** Render a block's text: the builder receives exactly the bytes `Render` lists,
      whatever the width and whether or not colour is wanted. */
  method RenderInline(w: Builder, t: seq<byte>)
    requires w.Valid() && Terminated(t)
    modifies w, w.o
    ensures w.Valid() && w.Snap() == PutAll(w.cfg, old(w.Snap()), Render(t)).(cur := NO_STYLE)
  {
    hide PutByte, Step;
    ghost var before := w.Snap();
    var s, puts := AT_START, [];
    while t[s.i] != 0
      invariant InRange(t, s) && w.Valid()
      invariant w.Snap() == PutAll(w.cfg, before, puts)
      invariant puts + RenderFrom(t, s) == Render(t)
      decreases |t| - s.i
    {
      hide PutAll;
      var next, more := TakeStep(t, s);
      AddAll(w, more);
      PutAllCat(w.cfg, before, puts, more);
      s, puts := next, puts + more;
    }
    assert puts + [] == puts;
    w.cur := NO_STYLE;
  }

  // ----- characters stay whole -----

  /** Well-formed enough: a continuation byte follows a byte of the upper half. */
  predicate Utf8(t: seq<byte>) {
    forall i :: 0 <= i < |t| && Continues(t[i]) ==> i > 0 && t[i - 1] >= 0x80
  }

  predicate Follows(prev: Option<Put>, p: Put) {
    Continues(p.ch) ==> prev.Some? && prev.value.ch >= 0x80 && prev.value.style == p.style
  }

  function Prev(last: Option<Put>, puts: seq<Put>, i: nat): Option<Put>
    requires i < |puts|
  {
    if i > 0 then Some(puts[i - 1]) else last
  }

  /** Continuation bytes follow, in the same style, the byte put before them. */
  predicate GroupedAfter(last: Option<Put>, puts: seq<Put>) {
    forall i :: 0 <= i < |puts| ==> Follows(Prev(last, puts, i), puts[i])
  }

  function LastOf(last: Option<Put>, puts: seq<Put>): Option<Put> {
    if puts == [] then last else Some(puts[|puts| - 1])
  }

  lemma NothingGrouped(last: Option<Put>)
    ensures GroupedAfter(last, [])
  {
  }

  lemma OneGrouped(last: Option<Put>, p: Put)
    requires !Continues(p.ch)
    ensures GroupedAfter(last, [p])
  {
  }

  lemma GroupedCat(last: Option<Put>, a: seq<Put>, b: seq<Put>)
    requires GroupedAfter(last, a) && GroupedAfter(LastOf(last, a), b)
    ensures GroupedAfter(last, a + b)
  {
    forall i | 0 <= i < |a + b| ensures Follows(Prev(last, a + b, i), (a + b)[i]) {
      if i < |a| {
        assert Prev(last, a + b, i) == Prev(last, a, i);
      } else {
        assert Prev(last, a + b, i) == Prev(LastOf(last, a), b, i - |a|);
      }
    }
  }

  /** A continuation byte next in line continues the byte just put. */
  ghost predicate InStep(t: seq<byte>, s: Inline, last: Option<Put>)
    requires s.i < |t|
  {
    && (Continues(t[s.i]) ==> s.i > 0 && last == Some(Put(t[s.i - 1], s.cur)))
    && (s.linkEnd >= 0 ==> s.linkEnd < |t| && t[s.linkEnd] == RBRACKET)
    && (s.linkEnd >= 0 ==> 0 < s.linkAfter <= |t| && t[s.linkAfter - 1] < 0x80)
    && (s.url.Some? ==> Utf8(s.url.value))
  }

  /** A stretch of the text that starts after an ASCII byte is well formed. */
  lemma SliceUtf8(t: seq<byte>, a: nat, b: nat)
    requires Utf8(t) && 0 < a <= b <= |t| && t[a - 1] < 0x80
    ensures Utf8(t[a..b])
  {
    forall i | 0 <= i < b - a && Continues(t[a..b][i]) ensures i > 0 && t[a..b][i - 1] >= 0x80 {
      assert t[a..b][i] == t[a + i];
    }
  }

  lemma SameGrouped(last: Option<Put>, b: seq<byte>, st: Style)
    requires Utf8(b)
    ensures GroupedAfter(last, Same(b, st))
  {
  }

  /** After an ASCII byte no continuation byte can follow. */
  lemma AfterAscii(t: seq<byte>, i: nat)
    requires Utf8(t) && 0 < i < |t| && t[i - 1] < 0x80
    ensures !Continues(t[i])
  {
  }

  lemma UrlUtf8(url: seq<byte>)
    requires Utf8(url)
    ensures Utf8([SPACE, LPAREN] + url + [RPAREN])
  {
    var u := [SPACE, LPAREN] + url + [RPAREN];
    forall i | 0 <= i < |u| && Continues(u[i]) ensures i > 0 && u[i - 1] >= 0x80 {
      assert u[i] == url[i - 2];
    }
  }

  lemma StepGrouped(t: seq<byte>, s: Inline, last: Option<Put>)
    requires Terminated(t) && Utf8(t) && InRange(t, s) && InStep(t, s, last) && t[s.i] != 0
    ensures GroupedAfter(last, Step(t, s).1) && InStep(t, Step(t, s).0, LastOf(last, Step(t, s).1))
  {
    hide EmphStep, CodeStep, LinkStep, AutoStep, BangStep, LinkDone;
    var c := t[s.i];
    if s.i == s.linkEnd {
      LinkDoneGrouped(t, s, last);
    } else if c == BACKSLASH {
      EscapeGrouped(t, s, last);
    } else if c == BACKTICK {
      CodeGrouped(t, s, last);
    } else if c == STAR || c == UNDERSCORE {
      EmphGrouped(t, s, last);
    } else if c < 0x80 {
      AfterAscii(t, s.i + 1);
      if c == BANG && t[s.i + 1] == LBRACKET && !s.cur.link {
        BangGrouped(t, s, last);
      } else if c == LBRACKET && !s.cur.link {
        LinkGrouped(t, s, last);
      } else if c == LESS {
        AutoGrouped(t, s, last);
      }
    }
  }

  lemma EscapeGrouped(t: seq<byte>, s: Inline, last: Option<Put>)
    requires Terminated(t) && Utf8(t) && InRange(t, s) && InStep(t, s, last) && s.i != s.linkEnd && t[s.i] == BACKSLASH
    ensures GroupedAfter(last, Step(t, s).1) && InStep(t, Step(t, s).0, LastOf(last, Step(t, s).1))
  {
    if Punct(t[s.i + 1]) {
      AfterAscii(t, s.i + 2);
    } else {
      AfterAscii(t, s.i + 1);
    }
  }

  lemma LinkDoneGrouped(t: seq<byte>, s: Inline, last: Option<Put>)
    requires Terminated(t) && Utf8(t) && InRange(t, s) && InStep(t, s, last) && s.i == s.linkEnd
    ensures GroupedAfter(last, LinkDone(s).1) && InStep(t, LinkDone(s).0, LastOf(last, LinkDone(s).1))
  {
    AfterAscii(t, s.linkAfter);
    if s.url.Some? {
      UrlUtf8(s.url.value);
      SameGrouped(last, [SPACE, LPAREN] + s.url.value + [RPAREN], s.cur.(link := false, url := true));
    }
  }

  lemma RunIsAscii(t: seq<byte>, i: nat, ch: byte, st: Style, last: Option<Put>)
    requires Terminated(t) && Utf8(t) && i < |t| && ch != 0 && ch < 0x80 && t[i] == ch
    ensures GroupedAfter(last, Same(t[i..i + RunLen(t, i, ch)], st))
    ensures !Continues(t[i + RunLen(t, i, ch)])
  {
    AfterAscii(t, i + RunLen(t, i, ch));
  }

  lemma CodeGrouped(t: seq<byte>, s: Inline, last: Option<Put>)
    requires Terminated(t) && Utf8(t) && InRange(t, s) && InStep(t, s, last) && t[s.i] == BACKTICK
    ensures GroupedAfter(last, CodeStep(t, s).1) && InStep(t, CodeStep(t, s).0, LastOf(last, CodeStep(t, s).1))
  {
    hide RunLen, CodeText, GroupedAfter;
    var k := RunLen(t, s.i, BACKTICK);
    var e := CodeClose(t, s.i + k, k);
    RunIsAscii(t, s.i, BACKTICK, s.cur, last);
    if e >= 0 {
      RunIsAscii(t, e, BACKTICK, s.cur, last);
      CodeTextUtf8(t, s.i + k, e);
      SameGrouped(last, CodeText(t, s.i + k, e), s.cur.(code := true));
    }
  }

  lemma CodeTextUtf8(t: seq<byte>, a: nat, b: nat)
    requires Utf8(t) && 0 < a <= b <= |t| && t[a - 1] < 0x80
    ensures Utf8(CodeText(t, a, b))
  {
    SliceUtf8(t, a, b);
    if b - a >= 2 && t[a] == SPACE {
      SliceUtf8(t, a + 1, b - 1);
    }
  }

  lemma EmphGrouped(t: seq<byte>, s: Inline, last: Option<Put>)
    requires Terminated(t) && Utf8(t) && InRange(t, s) && InStep(t, s, last) && (t[s.i] == STAR || t[s.i] == UNDERSCORE)
    ensures GroupedAfter(last, EmphStep(t, s).1) && InStep(t, EmphStep(t, s).0, LastOf(last, EmphStep(t, s).1))
  {
    hide RunLen, CanOpen, CanClose, EmphClose, GroupedAfter, Utf8, Same;
    NothingGrouped(last);
    RunIsAscii(t, s.i, t[s.i], s.cur, last);
  }

  lemma BangGrouped(t: seq<byte>, s: Inline, last: Option<Put>)
    requires Terminated(t) && Utf8(t) && InRange(t, s) && InStep(t, s, last) && t[s.i] == BANG && t[s.i + 1] == LBRACKET
    ensures GroupedAfter(last, BangStep(t, s).1) && InStep(t, BangStep(t, s).0, LastOf(last, BangStep(t, s).1))
  {
  }

  lemma LinkGrouped(t: seq<byte>, s: Inline, last: Option<Put>)
    requires Terminated(t) && Utf8(t) && InRange(t, s) && InStep(t, s, last) && t[s.i] == LBRACKET
    ensures GroupedAfter(last, LinkStep(t, s).1) && InStep(t, LinkStep(t, s).0, LastOf(last, LinkStep(t, s).1))
  {
    hide Matching, UrlEnd, GroupedAfter, InStep;
    NothingGrouped(last);
    OneGrouped(last, Put(t[s.i], s.cur));
    PlainInStep(t, s, last);
    LinkInStep(t, s, last);
  }

  /** An opening bracket that is shown as it is. */
  lemma PlainInStep(t: seq<byte>, s: Inline, last: Option<Put>)
    requires Terminated(t) && Utf8(t) && InRange(t, s) && InStep(t, s, last) && t[s.i] == LBRACKET
    ensures InStep(t, Plainly(t, s).0, LastOf(last, Plainly(t, s).1))
  {
    AfterAscii(t, s.i + 1);
  }

  /** An opening bracket that begins a link's text. */
  lemma LinkInStep(t: seq<byte>, s: Inline, last: Option<Put>)
    requires Terminated(t) && Utf8(t) && InRange(t, s) && InStep(t, s, last) && t[s.i] == LBRACKET
    ensures LinkStep(t, s).1 == [] ==> InStep(t, LinkStep(t, s).0, last)
  {
    hide Matching, UrlEnd;
    AfterAscii(t, s.i + 1);
    var j := Matching(t, s.i + 1, 1, LBRACKET, RBRACKET);
    if j >= 0 && t[j + 1] == LPAREN {
      var e := Matching(t, j + 2, 1, LPAREN, RPAREN);
      if e >= 0 {
        SliceUtf8(t, j + 2, UrlEnd(t, j + 2, e));
      }
    }
  }

  lemma AutoGrouped(t: seq<byte>, s: Inline, last: Option<Put>)
    requires Terminated(t) && Utf8(t) && InRange(t, s) && InStep(t, s, last) && t[s.i] == LESS
    ensures GroupedAfter(last, AutoStep(t, s).1) && InStep(t, AutoStep(t, s).0, LastOf(last, AutoStep(t, s).1))
  {
    hide AutoEnd, GroupedAfter, Utf8, Same;
    OneGrouped(last, Put(t[s.i], s.cur));
    AfterAscii(t, s.i + 1);
    var j := AutoEnd(t, s.i + 1);
    if t[j] == GREATER {
      AfterAscii(t, j + 1);
      SliceUtf8(t, s.i + 1, j);
      SameGrouped(last, t[s.i + 1..j], s.cur.(link := true));
    }
  }

  lemma {:induction false} RenderGrouped(t: seq<byte>, s: Inline, last: Option<Put>)
    requires Terminated(t) && Utf8(t) && InRange(t, s) && InStep(t, s, last)
    ensures GroupedAfter(last, RenderFrom(t, s))
    decreases |t| - s.i
  {
    hide Step;
    if t[s.i] != 0 {
      var (next, more) := Step(t, s);
      StepGrouped(t, s, last);
      RenderGrouped(t, next, LastOf(last, more));
      GroupedCat(last, more, RenderFrom(t, next));
    }
  }

  /** Rendering well-formed text keeps every character in one piece and style, so
      wrapping it loses nothing and breaks inside none. */
  lemma RenderKeepsCharacters(t: seq<byte>)
    requires Terminated(t) && Utf8(t)
    ensures Grouped(Render(t))
  {
    RenderGrouped(t, AT_START, None);
    var puts := Render(t);
    forall i | 0 <= i < |puts| && Continues(puts[i].ch)
      ensures i > 0 && Glyph(puts[i - 1].ch) && puts[i - 1].style == puts[i].style
    {
      assert Follows(Prev(None, puts, i), puts[i]);
    }
  }
}
