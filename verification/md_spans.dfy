/** What inline markup means: a text written from spans of every kind is rendered as the
    spans it was written from. */
module MdSpans {
  import opened Bytes
  import opened MdWrap
  import opened MdInline

  /** A stretch of text: plain words, text emphasised by k marks, code between k backticks,
      links with a URL, images, reference links, autolinks, an escaped byte, underscores
      inside a word, and marks between spaces. */
  datatype Span =
    | Words(u: seq<byte>)
    | Emph(ch: byte, k: nat, inner: Prose)
    | CodeSpan(k: nat, u: seq<byte>)
    | Link(u: seq<byte>, v: seq<byte>)
    | Image(u: seq<byte>, v: seq<byte>)
    | Ref(u: seq<byte>, v: seq<byte>)
    | Auto(u: seq<byte>)
    | Escaped(c: byte)
    | Snake(a: seq<byte>, k: nat, b: seq<byte>)
    | Loose(ch: byte, k: nat)
  {
    /** How it is written. */
    function Source(): seq<byte> {
      match this
      case Words(u) => u
      case Emph(ch, k, inner) => Marks(ch, k) + (inner.Source() + Marks(ch, k))
      case CodeSpan(k, u) => Marks(BACKTICK, k) + (u + Marks(BACKTICK, k))
      case Link(u, v) => [LBRACKET] + (u + ([RBRACKET, LPAREN] + (v + [RPAREN])))
      case Image(u, v) => [BANG] + ([LBRACKET] + (u + ([RBRACKET, LPAREN] + (v + [RPAREN]))))
      case Ref(u, v) => [LBRACKET] + (u + ([RBRACKET, LBRACKET] + (v + [RBRACKET])))
      case Auto(u) => [LESS] + (u + [GREATER])
      case Escaped(c) => [BACKSLASH, c]
      case Snake(a, k, b) => a + (Marks(UNDERSCORE, k) + b)
      case Loose(ch, k) => [SPACE] + (Marks(ch, k) + [SPACE])
    }

    /** What it shows in text of this style; of a link its text and, if that says more,
        its URL in parentheses. */
    function Meaning(st: Style): seq<Put> {
      match this
      case Words(u) => Same(u, st)
      case Emph(_, k, inner) => inner.Meaning(Emphasis(st, k))
      case CodeSpan(_, u) => Same(Unpadded(u), st.(code := true))
      case Link(u, v) => LinkMeaning(u, v, st)
      case Image(u, v) => LinkMeaning(u, v, st)
      case Ref(u, _) => Same(u, st.(link := true))
      case Auto(u) => Same(u, st.(link := true))
      case Escaped(c) => [Put(c, st)]
      case Snake(_, _, _) => Same(Source(), st)
      case Loose(_, _) => Same(Source(), st)
    }

    /** The parts it may have in text of this style: emphasis adds what is not there, and
        begins and ends in letters, digits or bytes above ASCII. */
    predicate Ok(st: Style) {
      match this
      case Words(u) => u != [] && AllQuiet(u)
      case Emph(ch, k, inner) =>
        && IsMark(ch) && 1 <= k <= 3 && Adds(st, k) && inner.Muted() && inner.Separate(ch, ch, Emphasis(st, k))
        && var u := inner.Source(); u != [] && Solid(u[0]) && Solid(u[|u| - 1])
      case CodeSpan(k, u) => k >= 1 && u != [] && forall i :: 0 <= i < |u| ==> u[i] != 0 && u[i] != BACKTICK
      case Link(u, v) => LinkText(u) && Target(v)
      case Image(u, v) => LinkText(u) && Target(v)
      case Ref(u, v) => LinkText(u) && forall i :: 0 <= i < |v| ==> v[i] != 0 && v[i] != BACKSLASH && v[i] != LBRACKET && v[i] != RBRACKET
      case Auto(u) =>
        u != [] && (COLON in u || AT in u) && forall i :: 0 <= i < |u| ==> u[i] > SPACE && u[i] != LESS && u[i] != GREATER
      case Escaped(c) => Punct(c)
      case Snake(a, k, b) => Inner(a) && Inner(b) && k >= 1
      case Loose(ch, k) => IsMark(ch) && k >= 1
    }

    /** What may stand next to it: no mark that would join its own, and for underscores
        only blanks and punctuation; words do not end in "!" before a bracket. */
    predicate Clear(prev: byte, next: byte) {
      match this
      case Words(u) => u != [] && !(u[|u| - 1] == BANG && next == LBRACKET)
      case Emph(ch, _, _) =>
        next != ch && (ch == UNDERSCORE ==> (Blank(prev) || Punct(prev)) && (Blank(next) || Punct(next)))
      case CodeSpan(_, _) => next != BACKTICK
      case Snake(_, _, b) => b != [] && !(b[|b| - 1] == BANG && next == LBRACKET)
      case _ => true
    }

    /** Where it is not read as text, it has no mark, backtick or backslash: the search for
        the end of an emphasis looks there too. */
    predicate Mute() {
      match this
      case Link(_, v) => Silenced(v)
      case Image(_, v) => Silenced(v)
      case Ref(_, v) => Silenced(v)
      case Auto(u) => Silenced(u)
      case _ => true
    }
  }

  /** Spans one after the other. */
  datatype Prose = Nil | Cons(head: Span, tail: Prose) {
    function Source(): seq<byte> {
      match this
      case Nil => []
      case Cons(sp, rest) => sp.Source() + rest.Source()
    }

    function Meaning(st: Style): seq<Put> {
      match this
      case Nil => []
      case Cons(sp, rest) => sp.Meaning(st) + rest.Meaning(st)
    }

    /** Every span can be told from its neighbours and from what stands around. */
    predicate Separate(prev: byte, next: byte, st: Style) {
      match this
      case Nil => true
      case Cons(sp, rest) =>
        && sp.Ok(st) && sp.Clear(prev, FirstOf(rest.Source(), next))
        && rest.Separate(LastOf(sp.Source(), prev), next, st)
    }

    predicate Muted() {
      match this
      case Nil => true
      case Cons(sp, rest) => sp.Mute() && rest.Muted()
    }
  }

  function FirstOf(u: seq<byte>, otherwise: byte): byte {
    if u == [] then otherwise else u[0]
  }

  function LastOf(u: seq<byte>, otherwise: byte): byte {
    if u == [] then otherwise else u[|u| - 1]
  }

  /** One mark is italic, two are bold, three both. */
  function Emphasis(st: Style, k: nat): Style {
    st.(italic := st.italic || k == 1 || k == 3, bold := st.bold || k == 2 || k == 3)
  }

  predicate Adds(st: Style, k: nat) {
    (k == 1 || k == 3 ==> !st.italic) && (k == 2 || k == 3 ==> !st.bold)
  }

  function Marks(ch: byte, k: nat): (m: seq<byte>)
    ensures |m| == k && forall i :: 0 <= i < k ==> m[i] == ch
  {
    seq(k, i => ch)
  }

  predicate IsMark(c: byte) {
    c == STAR || c == UNDERSCORE
  }

  /** A byte without a meaning of its own. */
  predicate Quiet(c: byte) {
    c != 0 && !IsMark(c) && c != BACKTICK && c != BACKSLASH && c != LBRACKET && c != LESS
  }

  predicate AllQuiet(u: seq<byte>) {
    forall i :: 0 <= i < |u| ==> Quiet(u[i])
  }

  predicate Solid(c: byte) {
    !Blank(c) && !Punct(c)
  }

  /** Quiet text that begins and ends in letters, digits or bytes above ASCII. */
  predicate Inner(u: seq<byte>) {
    u != [] && AllQuiet(u) && Solid(u[0]) && Solid(u[|u| - 1])
  }

  predicate LinkText(u: seq<byte>) {
    forall i :: 0 <= i < |u| ==> Quiet(u[i]) && u[i] != RBRACKET
  }

  predicate Target(v: seq<byte>) {
    forall i :: 0 <= i < |v| ==>
      v[i] != 0 && v[i] != SPACE && v[i] != TAB && v[i] != BACKSLASH && v[i] != LPAREN && v[i] != RPAREN
  }

  predicate Silenced(v: seq<byte>) {
    forall i :: 0 <= i < |v| ==> Unsearched(v[i])
  }

  predicate Unsearched(c: byte) {
    c != 0 && !IsMark(c) && c != BACKTICK && c != BACKSLASH
  }

  function LinkMeaning(u: seq<byte>, v: seq<byte>, st: Style): seq<Put> {
    Same(u, st.(link := true)) + if v == [] || v == u then [] else Same([SPACE, LPAREN] + v + [RPAREN], st.(url := true))
  }

  /** Code without the one space that pads it on both sides, unless it is all spaces. */
  function Unpadded(u: seq<byte>): seq<byte> {
    if |u| >= 2 && u[0] == SPACE && u[|u| - 1] == SPACE && exists c :: c in u && c != SPACE then u[1..|u| - 1] else u
  }

  // ----- places in a text -----

  /** x stands in t from i on. */
  predicate Stands(t: seq<byte>, i: nat, x: seq<byte>) {
    i + |x| <= |t| && t[i..i + |x|] == x
  }

  lemma StandsCat(t: seq<byte>, i: nat, x: seq<byte>, y: seq<byte>)
    requires Stands(t, i, x + y)
    ensures Stands(t, i, x) && Stands(t, i + |x|, y)
  {
    assert t[i..i + |x + y|][..|x|] == x && t[i..i + |x + y|][|x|..] == y;
  }

  lemma StandsAt(t: seq<byte>, i: nat, x: seq<byte>)
    requires Stands(t, i, x)
    ensures i + |x| <= |t| && forall k :: 0 <= k < |x| ==> t[i + k] == x[k]
  {
    forall k | 0 <= k < |x| ensures t[i + k] == x[k] {
      assert t[i..i + |x|][k] == x[k];
    }
  }

  lemma StandsBack(t: seq<byte>, i: nat, x: seq<byte>)
    requires Stands(t, i, x)
    ensures i + |x| <= |t| && forall j :: i <= j < i + |x| ==> t[j] == x[j - i]
  {
    forall j | i <= j < i + |x| ensures t[j] == x[j - i] {
      assert t[i..i + |x|][j - i] == t[j];
    }
  }

  /** The first and the last byte of what stands there. */
  lemma StandsEnds(t: seq<byte>, i: nat, x: seq<byte>)
    requires Stands(t, i, x) && x != []
    ensures i + |x| <= |t| && t[i] == x[0] && t[i + |x| - 1] == x[|x| - 1]
  {
    assert t[i..i + |x|][0] == t[i] && t[i..i + |x|][|x| - 1] == t[i + |x| - 1];
  }

  // ----- the scanners on such places -----

  lemma {:induction false} RunIs(t: seq<byte>, i: nat, ch: byte, k: nat)
    requires Terminated(t) && ch != 0 && Stands(t, i, Marks(ch, k)) && i + k < |t| && t[i + k] != ch
    ensures RunLen(t, i, ch) == k
    decreases k
  {
    if k > 0 {
      StandsEnds(t, i, Marks(ch, k));
      assert Marks(ch, k) == [ch] + Marks(ch, k - 1);
      StandsCat(t, i, [ch], Marks(ch, k - 1));
      RunIs(t, i + 1, ch, k - 1);
    }
  }

  lemma {:induction false} EmphClosePast(t: seq<byte>, j: nat, e: nat, k: nat, ch: byte)
    requires Terminated(t) && j <= e < |t| && IsMark(ch)
    requires forall i :: j <= i < e ==> t[i] != 0 && t[i] != ch && t[i] != BACKTICK && t[i] != BACKSLASH
    ensures EmphClose(t, j, k, ch) == EmphClose(t, e, k, ch)
    decreases e - j
  {
    if j < e {
      EmphCloseStep(t, j, k, ch);
      EmphClosePast(t, j + 1, e, k, ch);
    }
  }

  lemma {:induction false} CodeClosePast(t: seq<byte>, j: nat, e: nat, k: nat)
    requires Terminated(t) && j <= e < |t| && forall i :: j <= i < e ==> t[i] != BACKTICK
    ensures CodeClose(t, j, k) == CodeClose(t, e, k)
    decreases e - j
  {
    if j < e {
      CodeClosePast(t, j + 1, e, k);
    }
  }

  lemma {:induction false} MatchingPast(t: seq<byte>, j: nat, e: nat, open: byte, close: byte)
    requires Terminated(t) && j <= e < |t| && close != 0 && t[e] == close && close != BACKSLASH && close != open
    requires forall i :: j <= i < e ==> t[i] != BACKSLASH && t[i] != open && t[i] != close
    ensures Matching(t, j, 1, open, close) == e
    decreases e - j
  {
    if j < e {
      MatchingPast(t, j + 1, e, open, close);
    }
  }

  lemma {:induction false} UrlEndPast(t: seq<byte>, i: nat, e: nat)
    requires i <= e < |t| && forall k :: i <= k < e ==> t[k] != SPACE && t[k] != TAB
    ensures UrlEnd(t, i, e) == e
    decreases e - i
  {
    if i < e {
      UrlEndPast(t, i + 1, e);
    }
  }

  lemma {:induction false} AutoEndPast(t: seq<byte>, j: nat, e: nat)
    requires Terminated(t) && j <= e < |t| && t[e] == GREATER
    requires forall k :: j <= k < e ==> t[k] > SPACE && t[k] != LESS && t[k] != GREATER
    ensures AutoEnd(t, j) == e
    decreases e - j
  {
    if j < e {
      AutoEndPast(t, j + 1, e);
    }
  }

  // ----- one span after the other -----

  /** Between spans: no link is open. */
  predicate AtRest(s: Inline) {
    s.linkEnd == -1 && !s.cur.link && !s.cur.code && !s.cur.url
  }

  /** At rest again, in the same style by the same marks. */
  predicate Kept(s: Inline, r: Inline) {
    AtRest(r) && r.cur == s.cur && (s.cur.italic ==> r.itCh == s.itCh) && (s.cur.bold ==> r.boCh == s.boCh)
  }

  lemma SameCat(a: seq<byte>, b: seq<byte>, st: Style)
    ensures Same(a + b, st) == Same(a, st) + Same(b, st)
  {
  }

  lemma RenderStep(t: seq<byte>, s: Inline)
    requires Terminated(t) && InRange(t, s) && t[s.i] != 0
    ensures RenderFrom(t, s) == Step(t, s).1 + RenderFrom(t, Step(t, s).0)
  {
    hide Step;
  }

  lemma QuietStep(t: seq<byte>, s: Inline)
    requires Terminated(t) && InRange(t, s) && Quiet(t[s.i]) && s.i != s.linkEnd
    requires t[s.i] == BANG && !s.cur.link ==> t[s.i + 1] != LBRACKET
    ensures RenderFrom(t, s) == [Put(t[s.i], s.cur)] + RenderFrom(t, Move(s, s.i + 1))
  {
    hide RenderFrom, CodeStep, EmphStep, BangStep, LinkStep, AutoStep, LinkDone;
    assert Step(t, s) == Plainly(t, s);
    RenderStep(t, s);
  }

  /** Quiet bytes are shown as they are, in the style in effect. */
  lemma {:induction false} QuietRun(t: seq<byte>, s: Inline, u: seq<byte>)
    requires Terminated(t) && InRange(t, s) && Stands(t, s.i, u) && s.i + |u| < |t| && AllQuiet(u)
    requires s.linkEnd == -1 || s.linkEnd >= s.i + |u|
    requires u != [] && u[|u| - 1] == BANG && !s.cur.link ==> t[s.i + |u|] != LBRACKET
    ensures InRange(t, Move(s, s.i + |u|))
    ensures RenderFrom(t, s) == Same(u, s.cur) + RenderFrom(t, Move(s, s.i + |u|))
    decreases |u|
  {
    hide RenderFrom, Terminated, Stands, AllQuiet, Quiet, Same, InRange;
    if u == [] {
      SameNone(s.cur);
    } else {
      QuietHead(t, s, u);
      QuietStep(t, s);
      QuietRun(t, Move(s, s.i + 1), u[1..]);
      SameOne(u, s.cur, RenderFrom(t, Move(s, s.i + |u|)));
    }
  }

  lemma QuietHead(t: seq<byte>, s: Inline, u: seq<byte>)
    requires Terminated(t) && InRange(t, s) && Stands(t, s.i, u) && s.i + |u| < |t| && AllQuiet(u) && u != []
    requires u[|u| - 1] == BANG && !s.cur.link ==> t[s.i + |u|] != LBRACKET
    ensures t[s.i] == u[0] && Quiet(u[0]) && (u[0] == BANG && !s.cur.link ==> t[s.i + 1] != LBRACKET)
    ensures Stands(t, s.i + 1, u[1..]) && AllQuiet(u[1..]) && InRange(t, Move(s, s.i + 1))
  {
    hide Terminated, Stands, AllQuiet, Quiet;
    assert u == [u[0]] + u[1..];
    StandsEnds(t, s.i, u);
    StandsCat(t, s.i, [u[0]], u[1..]);
    QuietTail(u);
  }

  lemma QuietTail(u: seq<byte>)
    requires AllQuiet(u) && u != []
    ensures Quiet(u[0]) && AllQuiet(u[1..]) && (|u| > 1 ==> u[1] != LBRACKET)
  {
  }

  lemma SameNone(st: Style)
    ensures Same([], st) == []
  {
  }

  lemma SameOne(u: seq<byte>, st: Style, r: seq<Put>)
    requires u != []
    ensures [Put(u[0], st)] + (Same(u[1..], st) + r) == Same(u, st) + r
  {
    assert Same(u, st) == [Put(u[0], st)] + Same(u[1..], st);
  }

  // ----- emphasis -----

  /** The byte before a place. */
  function Prev(t: seq<byte>, i: nat): byte
    requires i <= |t|
  {
    if i > 0 then t[i - 1] else SPACE
  }

  /** When marks can open or close, by the bytes p before and n behind them: a star opens
      before anything but a blank, before punctuation only behind a blank or punctuation; it
      closes the other way round. An underscore may then not also do the opposite, unless
      punctuation stands on its outer side. */
  lemma MarksMay(t: seq<byte>, i: nat, k: nat)
    requires i + k < |t|
    ensures var p, n := Prev(t, i), t[i + k];
            var opens := !Blank(n) && (Punct(n) ==> Blank(p) || Punct(p));
            var closes := !Blank(p) && (Punct(p) ==> Blank(n) || Punct(n));
            && (CanOpen(t, i, k, STAR) <==> opens) && (CanClose(t, i, k, STAR) <==> closes)
            && (CanOpen(t, i, k, UNDERSCORE) <==> opens && (closes ==> Punct(p)))
            && (CanClose(t, i, k, UNDERSCORE) <==> closes && (opens ==> Punct(n)))
  {
  }

  /** Marks before a solid byte can open, marks behind one can close; underscores only next
      to blanks and punctuation. */
  lemma OpensBefore(t: seq<byte>, i: nat, k: nat, ch: byte)
    requires IsMark(ch) && i + k < |t| && Solid(t[i + k])
    requires ch == UNDERSCORE ==> Blank(Prev(t, i)) || Punct(Prev(t, i))
    ensures CanOpen(t, i, k, ch)
  {
  }

  lemma ClosesBehind(t: seq<byte>, i: nat, k: nat, ch: byte)
    requires IsMark(ch) && 0 < i && i + k < |t| && Solid(t[i - 1])
    requires ch == UNDERSCORE ==> Blank(t[i + k]) || Punct(t[i + k])
    ensures CanClose(t, i, k, ch)
  {
  }

  /** Closing marks are found where they stand. */
  lemma CloseHere(t: seq<byte>, e: nat, k: nat, ch: byte)
    requires Terminated(t) && IsMark(ch) && k >= 1 && Stands(t, e, Marks(ch, k)) && e + k < |t| && t[e + k] != ch
    requires CanClose(t, e, k, ch)
    ensures EmphClose(t, e, k, ch) == e
  {
    hide CanClose, Stands;
    RunIs(t, e, ch, k);
    StandsEnds(t, e, Marks(ch, k));
    EmphCloseStep(t, e, k, ch);
  }

  function Opened(s: Inline, ch: byte, k: nat): Inline {
    s.(i := s.i + k, cur := Emphasis(s.cur, k),
       itCh := if k == 1 || k == 3 then ch else s.itCh, boCh := if k == 2 || k == 3 then ch else s.boCh)
  }

  lemma EmphOpens(t: seq<byte>, s: Inline, ch: byte, k: nat)
    requires Terminated(t) && InRange(t, s) && AtRest(s) && IsMark(ch) && 1 <= k <= 3 && s.i + k < |t| && Adds(s.cur, k)
    requires RunLen(t, s.i, ch) == k && CanOpen(t, s.i, k, ch) && EmphClose(t, s.i + k, k, ch) >= 0
    ensures var next := Opened(s, ch, k);
            InRange(t, next) && AtRest(next) && RenderFrom(t, s) == RenderFrom(t, next)
  {
    hide RunLen, CanOpen, CanClose, EmphClose, CodeStep, BangStep, LinkStep, AutoStep, LinkDone, RenderFrom;
    assert t[s.i] == ch;
    assert Step(t, s) == (Opened(s, ch, k), []);
    Silent(t, s, Opened(s, ch, k));
  }

  /** The marks that end what s opened, r being behind the text between. */
  lemma EmphEnds(t: seq<byte>, s: Inline, r: Inline, ch: byte, k: nat)
    requires Terminated(t) && InRange(t, r) && AtRest(s) && IsMark(ch) && 1 <= k <= 3 && r.i + k < |t| && Adds(s.cur, k)
    requires RunLen(t, r.i, ch) == k && CanClose(t, r.i, k, ch) && Kept(Opened(s, ch, k), r)
    ensures var next := r.(i := r.i + k, cur := s.cur);
            InRange(t, next) && Kept(s, next) && RenderFrom(t, r) == RenderFrom(t, next)
  {
    hide RunLen, CanOpen, CanClose, EmphClose, CodeStep, BangStep, LinkStep, AutoStep, LinkDone, RenderFrom;
    assert t[r.i] == ch;
    assert Step(t, r) == (r.(i := r.i + k, cur := s.cur), []);
    Silent(t, r, r.(i := r.i + k, cur := s.cur));
  }

  /** A turn that shows nothing. */
  lemma Silent(t: seq<byte>, s: Inline, next: Inline)
    requires Terminated(t) && InRange(t, s) && t[s.i] != 0 && Step(t, s) == (next, [])
    ensures InRange(t, next) && RenderFrom(t, s) == RenderFrom(t, next)
  {
    hide Step, RenderFrom;
    RenderStep(t, s);
    NothingBefore(RenderFrom(t, next));
  }

  lemma MarkIsPunct(ch: byte)
    requires IsMark(ch)
    ensures Punct(ch) && ch != 0 && ch != BANG && ch != LBRACKET && ch != BACKTICK && ch != BACKSLASH
  {
  }

  lemma NothingBefore(r: seq<Put>)
    ensures [] + r == r
  {
  }

  /** Where the parts of written emphasis stand. */
  lemma EmphParts(t: seq<byte>, i: nat, ch: byte, k: nat, u: seq<byte>)
    requires u != [] && Solid(u[0]) && Solid(u[|u| - 1]) && k >= 1
    requires Stands(t, i, Marks(ch, k) + (u + Marks(ch, k))) && i + 2 * k + |u| < |t|
    ensures var n, e := i + k, i + k + |u|;
            && Stands(t, i, Marks(ch, k)) && Stands(t, n, u) && Stands(t, e, Marks(ch, k))
            && t[i] == ch && t[e] == ch && Solid(t[n]) && Solid(t[e - 1])
  {
    hide Solid, Stands, Marks;
    var n, e := i + k, i + k + |u|;
    StandsCat(t, i, Marks(ch, k), u + Marks(ch, k));
    StandsCat(t, n, u, Marks(ch, k));
    StandsEnds(t, i, Marks(ch, k));
    StandsEnds(t, n, u);
    StandsEnds(t, e, Marks(ch, k));
  }

  /** What the scanners find at its two ends. */
  lemma EmphPlaces(t: seq<byte>, i: nat, ch: byte, k: nat, u: seq<byte>)
    requires Terminated(t) && IsMark(ch) && 1 <= k && u != [] && Solid(u[0]) && Solid(u[|u| - 1])
    requires Stands(t, i, Marks(ch, k) + (u + Marks(ch, k))) && i + 2 * k + |u| < |t|
    requires Emph(ch, k, Nil).Clear(Prev(t, i), t[i + 2 * k + |u|])
    ensures var n, e := i + k, i + k + |u|;
            && RunLen(t, i, ch) == k && CanOpen(t, i, k, ch) && Stands(t, n, u) && Prev(t, n) == ch
            && RunLen(t, e, ch) == k && CanClose(t, e, k, ch) && EmphClose(t, e, k, ch) == e && t[e] == ch
  {
    hide Terminated, CanOpen, CanClose, Stands, Punct, Blank, RunLen, EmphClose, Quiet;
    var n, e := i + k, i + k + |u|;
    EmphParts(t, i, ch, k, u);
    StandsEnds(t, i, Marks(ch, k));
    MarkIsPunct(ch);
    SolidIsNoMark(t[n], ch);
    RunIs(t, i, ch, k);
    RunIs(t, e, ch, k);
    OpensBefore(t, i, k, ch);
    ClosesBehind(t, e, k, ch);
    CloseHere(t, e, k, ch);
  }

  lemma SolidIsNoMark(c: byte, ch: byte)
    requires Solid(c) && IsMark(ch)
    ensures c != ch
  {
  }

  // ----- marks that mean nothing -----

  /** Marks that cannot open are shown as they are. */
  lemma MarksShow(t: seq<byte>, s: Inline, ch: byte, k: nat)
    requires Terminated(t) && InRange(t, s) && AtRest(s) && IsMark(ch) && k >= 1 && Stands(t, s.i, Marks(ch, k)) && s.i + k < |t|
    requires RunLen(t, s.i, ch) == k && !CanOpen(t, s.i, k, ch) && !CanClose(t, s.i, k, ch)
    ensures InRange(t, Move(s, s.i + k)) && AtRest(Move(s, s.i + k))
    ensures RenderFrom(t, s) == Same(Marks(ch, k), s.cur) + RenderFrom(t, Move(s, s.i + k))
  {
    StandsIs(t, s.i, Marks(ch, k));
    StandsEnds(t, s.i, Marks(ch, k));
    hide RunLen, CanOpen, CanClose, EmphClose, Marks, Stands, CodeStep, BangStep, LinkStep, AutoStep, LinkDone, RenderFrom, Same;
    assert Step(t, s) == (Move(s, s.i + k), Same(Marks(ch, k), s.cur));
    RenderStep(t, s);
  }

  lemma InsideWord(t: seq<byte>, i: nat, k: nat)
    requires 0 < i && i + k < |t| && Solid(t[i - 1]) && Solid(t[i + k])
    ensures !CanOpen(t, i, k, UNDERSCORE) && !CanClose(t, i, k, UNDERSCORE)
  {
  }

  lemma BetweenBlanks(t: seq<byte>, i: nat, k: nat, ch: byte)
    requires 0 < i && i + k < |t| && Blank(t[i - 1]) && Blank(t[i + k])
    ensures !CanOpen(t, i, k, ch) && !CanClose(t, i, k, ch)
  {
  }

  lemma ThreeParts(a: seq<byte>, m: seq<byte>, b: seq<byte>, st: Style, r: seq<Put>)
    ensures Same(a, st) + (Same(m, st) + (Same(b, st) + r)) == Same(a + (m + b), st) + r
  {
    SameCat(m, b, st);
    SameCat(a, m + b, st);
  }

  /** Text, marks that cannot open, and text. */
  lemma PartsShow(t: seq<byte>, s: Inline, a: seq<byte>, ch: byte, k: nat, b: seq<byte>) returns (r: Inline)
    requires Terminated(t) && InRange(t, s) && AtRest(s) && IsMark(ch) && k >= 1 && AllQuiet(a) && AllQuiet(b) && b != []
    requires Stands(t, s.i, a + (Marks(ch, k) + b)) && s.i + |a| + k + |b| < |t|
    requires !(b[|b| - 1] == BANG && t[s.i + |a| + k + |b|] == LBRACKET)
    requires !CanOpen(t, s.i + |a|, k, ch) && !CanClose(t, s.i + |a|, k, ch)
    ensures InRange(t, r) && Kept(s, r) && r.i == s.i + |a| + k + |b|
    ensures RenderFrom(t, s) == Same(a + (Marks(ch, k) + b), s.cur) + RenderFrom(t, r)
  {
    hide RenderFrom, Terminated, CanOpen, CanClose, AllQuiet, Stands, RunLen, Quiet, Same, InRange, Marks;
    var n := s.i + |a|;
    StandsCat(t, s.i, a, Marks(ch, k) + b);
    StandsCat(t, n, Marks(ch, k), b);
    StandsEnds(t, n, Marks(ch, k));
    StandsEnds(t, n + k, b);
    MarkIsPunct(ch);
    QuietNoMark(b, ch);
    RunIs(t, n, ch, k);
    QuietRun(t, s, a);
    MarksShow(t, Move(s, n), ch, k);
    QuietRun(t, Move(s, n + k), b);
    r := Move(s, n + k + |b|);
    ThreeParts(a, Marks(ch, k), b, s.cur, RenderFrom(t, r));
  }

  lemma QuietNoMark(b: seq<byte>, ch: byte)
    requires AllQuiet(b) && b != [] && IsMark(ch)
    ensures b[0] != ch
  {
  }

  lemma SnakePlaces(t: seq<byte>, i: nat, a: seq<byte>, k: nat, b: seq<byte>)
    requires Inner(a) && Inner(b) && Stands(t, i, a + (Marks(UNDERSCORE, k) + b))
    ensures i + |a| + k < |t| && Solid(t[i + |a| - 1]) && Solid(t[i + |a| + k])
  {
    hide Stands, Solid, Marks;
    StandsCat(t, i, a, Marks(UNDERSCORE, k) + b);
    StandsCat(t, i + |a|, Marks(UNDERSCORE, k), b);
    StandsEnds(t, i, a);
    StandsEnds(t, i + |a| + k, b);
  }

  lemma LoosePlaces(t: seq<byte>, i: nat, ch: byte, k: nat)
    requires Stands(t, i, [SPACE] + (Marks(ch, k) + [SPACE]))
    ensures i + 1 + k < |t| && Blank(t[i]) && Blank(t[i + 1 + k])
  {
    hide Stands, Marks;
    StandsCat(t, i, [SPACE], Marks(ch, k) + [SPACE]);
    StandsCat(t, i + 1, Marks(ch, k), [SPACE]);
    StandsEnds(t, i, [SPACE]);
    StandsEnds(t, i + 1 + k, [SPACE]);
  }

  lemma SnakeShows(t: seq<byte>, s: Inline, a: seq<byte>, k: nat, b: seq<byte>) returns (r: Inline)
    requires Terminated(t) && InRange(t, s) && AtRest(s) && Snake(a, k, b).Ok(s.cur)
    requires Stands(t, s.i, Snake(a, k, b).Source()) && s.i + |a| + k + |b| < |t|
    requires Snake(a, k, b).Clear(SPACE, t[s.i + |a| + k + |b|])
    ensures InRange(t, r) && Kept(s, r) && r.i == s.i + |a| + k + |b|
    ensures RenderFrom(t, s) == Snake(a, k, b).Meaning(s.cur) + RenderFrom(t, r)
  {
    hide RenderFrom, Terminated, CanOpen, CanClose, AllQuiet, Stands, RunLen, Quiet, Same, InRange, Marks, Solid;
    SnakePlaces(t, s.i, a, k, b);
    InsideWord(t, s.i + |a|, k);
    r := PartsShow(t, s, a, UNDERSCORE, k, b);
  }

  lemma LooseShows(t: seq<byte>, s: Inline, ch: byte, k: nat) returns (r: Inline)
    requires Terminated(t) && InRange(t, s) && AtRest(s) && Loose(ch, k).Ok(s.cur)
    requires Stands(t, s.i, Loose(ch, k).Source()) && s.i + k + 2 < |t|
    ensures InRange(t, r) && Kept(s, r) && r.i == s.i + k + 2
    ensures RenderFrom(t, s) == Loose(ch, k).Meaning(s.cur) + RenderFrom(t, r)
  {
    hide RenderFrom, Terminated, CanOpen, CanClose, Stands, RunLen, Same, InRange, Marks;
    LoosePlaces(t, s.i, ch, k);
    SpaceQuiet();
    BetweenBlanks(t, s.i + 1, k, ch);
    r := PartsShow(t, s, [SPACE], ch, k, [SPACE]);
  }

  // ----- code, escapes, autolinks -----

  lemma CodeTextIs(t: seq<byte>, a: nat, u: seq<byte>)
    requires Stands(t, a, u)
    ensures CodeText(t, a, a + |u|) == Unpadded(u)
  {
    StandsAt(t, a, u);
    var f := a + |u|;
    assert (exists x :: a <= x < f && t[x] != SPACE) <==> (exists c :: c in u && c != SPACE) by {
      if x :| a <= x < f && t[x] != SPACE {
        assert t[x] in u;
      }
      if c :| c in u && c != SPACE {
        var k :| 0 <= k < |u| && u[k] == c;
        assert t[a + k] == c;
      }
    }
    if |u| >= 2 {
      assert t[a] == u[0] && t[a + (|u| - 1)] == u[|u| - 1];
      assert t[a..f][1..|u| - 1] == t[a + 1..f - 1];
    }
  }

  lemma CodeShows(t: seq<byte>, s: Inline, k: nat, u: seq<byte>) returns (r: Inline)
    requires Terminated(t) && InRange(t, s) && AtRest(s) && CodeSpan(k, u).Ok(s.cur)
    requires Stands(t, s.i, CodeSpan(k, u).Source()) && s.i + 2 * k + |u| < |t|
    requires t[s.i + 2 * k + |u|] != BACKTICK
    ensures InRange(t, r) && Kept(s, r) && r.i == s.i + 2 * k + |u|
    ensures RenderFrom(t, s) == CodeSpan(k, u).Meaning(s.cur) + RenderFrom(t, r)
  {
    hide RenderFrom, Terminated, Stands, RunLen, CodeClose, Same, Marks, CodeText, Unpadded, InRange;
    CodePlaces(t, s.i, k, u);
    CodeTextIs(t, s.i + k, u);
    r := s.(i := s.i + 2 * k + |u|);
    CodeStepIs(t, s, k, s.i + k + |u|, Unpadded(u));
  }

  lemma CodeCloseHere(t: seq<byte>, e: nat, k: nat)
    requires Terminated(t) && e < |t| && t[e] == BACKTICK && RunLen(t, e, BACKTICK) == k
    ensures CodeClose(t, e, k) == e
  {
  }

  lemma CodeStepIs(t: seq<byte>, s: Inline, k: nat, e: nat, text: seq<byte>)
    requires Terminated(t) && InRange(t, s) && AtRest(s) && t[s.i] == BACKTICK && RunLen(t, s.i, BACKTICK) == k
    requires s.i + k <= e && e + k < |t| && CodeClose(t, s.i + k, k) == e && CodeText(t, s.i + k, e) == text
    ensures InRange(t, s.(i := e + k))
    ensures RenderFrom(t, s) == Same(text, s.cur.(code := true)) + RenderFrom(t, s.(i := e + k))
  {
    hide RenderFrom, RunLen, CodeClose, CodeText, Same, EmphStep, BangStep, LinkStep, AutoStep, LinkDone;
    assert Step(t, s) == (s.(i := e + k), Same(text, s.cur.(code := true)));
    RenderStep(t, s);
  }

  lemma EscapedShows(t: seq<byte>, s: Inline, c: byte) returns (r: Inline)
    requires Terminated(t) && InRange(t, s) && AtRest(s) && Punct(c) && Stands(t, s.i, [BACKSLASH, c]) && s.i + 2 < |t|
    ensures InRange(t, r) && Kept(s, r) && r.i == s.i + 2
    ensures RenderFrom(t, s) == [Put(c, s.cur)] + RenderFrom(t, r)
  {
    StandsEnds(t, s.i, [BACKSLASH, c]);
    hide RenderFrom, CodeStep, EmphStep, BangStep, LinkStep, AutoStep, LinkDone;
    r := Move(s, s.i + 2);
    assert Step(t, s) == (r, [Put(c, s.cur)]);
    RenderStep(t, s);
  }

  lemma AutoShows(t: seq<byte>, s: Inline, u: seq<byte>) returns (r: Inline)
    requires Terminated(t) && InRange(t, s) && AtRest(s) && Auto(u).Ok(s.cur)
    requires Stands(t, s.i, Auto(u).Source()) && s.i + |u| + 2 < |t|
    ensures InRange(t, r) && Kept(s, r) && r.i == s.i + |u| + 2
    ensures RenderFrom(t, s) == Auto(u).Meaning(s.cur) + RenderFrom(t, r)
  {
    hide RenderFrom, Terminated, Stands, Same, AutoEnd;
    var e := s.i + 1 + |u|;
    StandsCat(t, s.i, [LESS], u + [GREATER]);
    StandsCat(t, s.i + 1, u, [GREATER]);
    StandsEnds(t, s.i, [LESS]);
    StandsBack(t, s.i + 1, u);
    StandsEnds(t, e, [GREATER]);
    StandsIs(t, s.i + 1, u);
    AutoEndPast(t, s.i + 1, e);
    r := s.(i := e + 1);
    hide CodeStep, EmphStep, BangStep, LinkStep, LinkDone;
    assert Step(t, s) == (r, Same(u, s.cur.(link := true)));
    RenderStep(t, s);
  }

  lemma StandsIs(t: seq<byte>, i: nat, x: seq<byte>)
    requires Stands(t, i, x)
    ensures i + |x| <= |t| && t[i..i + |x|] == x
  {
  }

  // ----- links -----

  /** Inside the text of a link that ends at e, with what is to be shown behind it. */
  function InLink(s: Inline, i: nat, e: nat, after: nat, url: Option<seq<byte>>): Inline {
    s.(i := i, cur := s.cur.(link := true), linkEnd := e, linkAfter := after, url := url)
  }

  function UrlMeaning(url: Option<seq<byte>>, st: Style): seq<Put> {
    match url
    case None => []
    case Some(v) => Same([SPACE, LPAREN] + v + [RPAREN], st.(url := true))
  }

  function BehindLink(s: Inline, e: nat, after: nat, url: Option<seq<byte>>): Inline {
    InLink(s, e, e, after, url).(i := after, linkEnd := -1, cur := s.cur)
  }

  /** At the closing bracket: the URL, if it is worth showing, and on behind the link. */
  lemma LinkEnds(t: seq<byte>, s: Inline, e: nat, after: nat, url: Option<seq<byte>>)
    requires Terminated(t) && InRange(t, InLink(s, e, e, after, url)) && e < |t| - 1 && AtRest(s)
    ensures var r := BehindLink(s, e, after, url);
            && InRange(t, r) && Kept(s, r)
            && RenderFrom(t, InLink(s, e, e, after, url)) == UrlMeaning(url, s.cur) + RenderFrom(t, r)
  {
    hide RenderFrom, CodeStep, EmphStep, BangStep, LinkStep, AutoStep, Same;
    assert Step(t, InLink(s, e, e, after, url)) == (BehindLink(s, e, after, url), UrlMeaning(url, s.cur));
    RenderStep(t, InLink(s, e, e, after, url));
  }

  lemma LinkRest(t: seq<byte>, s: Inline, u: seq<byte>, after: nat, url: Option<seq<byte>>) returns (r: Inline)
    requires Terminated(t) && AtRest(s) && Stands(t, s.i + 1, u) && AllQuiet(u) && s.i + 1 + |u| < |t| - 1
    requires InRange(t, InLink(s, s.i + 1, s.i + 1 + |u|, after, url))
    ensures InRange(t, r) && Kept(s, r) && r.i == after
    ensures RenderFrom(t, InLink(s, s.i + 1, s.i + 1 + |u|, after, url))
            == Same(u, s.cur.(link := true)) + UrlMeaning(url, s.cur) + RenderFrom(t, r)
  {
    hide RenderFrom, Terminated, Stands, AllQuiet, Same, UrlMeaning;
    var e := s.i + 1 + |u|;
    QuietRun(t, InLink(s, s.i + 1, e, after, url), u);
    LinkEnds(t, s, e, after, url);
    r := BehindLink(s, e, after, url);
    Regroup(Same(u, s.cur.(link := true)), UrlMeaning(url, s.cur), RenderFrom(t, r));
  }

  lemma Regroup(a: seq<Put>, b: seq<Put>, c: seq<Put>)
    ensures a + (b + c) == a + b + c
  {
  }

  lemma LinkTextQuiet(u: seq<byte>)
    requires LinkText(u)
    ensures AllQuiet(u)
  {
  }

  /** The brackets of a link: where its text stands, and where it is closed. */
  lemma BracketFound(t: seq<byte>, i: nat, u: seq<byte>)
    requires Terminated(t) && LinkText(u) && Stands(t, i, u) && i + |u| < |t| && t[i + |u|] == RBRACKET
    ensures Matching(t, i, 1, LBRACKET, RBRACKET) == i + |u|
  {
    hide Terminated, Stands, Matching;
    StandsBack(t, i, u);
    MatchingPast(t, i, i + |u|, LBRACKET, RBRACKET);
  }

  lemma ParenFound(t: seq<byte>, i: nat, v: seq<byte>)
    requires Terminated(t) && Target(v) && Stands(t, i, v) && i + |v| < |t| && t[i + |v|] == RPAREN
    ensures Matching(t, i, 1, LPAREN, RPAREN) == i + |v| && UrlEnd(t, i, i + |v|) == i + |v|
  {
    hide Terminated, Stands, Matching, UrlEnd;
    StandsBack(t, i, v);
    MatchingPast(t, i, i + |v|, LPAREN, RPAREN);
    UrlEndPast(t, i, i + |v|);
  }

  lemma RefFound(t: seq<byte>, i: nat, u: seq<byte>, v: seq<byte>)
    requires Terminated(t) && Ref(u, v).Ok(NO_STYLE) && Stands(t, i, v) && i + |v| < |t| && t[i + |v|] == RBRACKET
    ensures Matching(t, i, 1, LBRACKET, RBRACKET) == i + |v|
  {
    hide Terminated, Stands, Matching;
    StandsBack(t, i, v);
    MatchingPast(t, i, i + |v|, LBRACKET, RBRACKET);
  }

  /** The parts of "[u]" + x + v + y. */
  lemma LinkParts(t: seq<byte>, i: nat, u: seq<byte>, open: byte, v: seq<byte>, close: byte)
    requires Stands(t, i, [LBRACKET] + (u + ([RBRACKET, open] + (v + [close]))))
    ensures var j := i + 1 + |u|; var e := j + 2 + |v|;
            && e < |t| && t[i] == LBRACKET && t[j] == RBRACKET && t[j + 1] == open && t[e] == close
            && Stands(t, i + 1, u) && Stands(t, j + 2, v)
  {
    hide Stands;
    var j := i + 1 + |u|;
    StandsCat(t, i, [LBRACKET], u + ([RBRACKET, open] + (v + [close])));
    StandsCat(t, i + 1, u, [RBRACKET, open] + (v + [close]));
    StandsCat(t, j, [RBRACKET, open], v + [close]);
    StandsCat(t, j + 2, v, [close]);
    StandsEnds(t, i, [LBRACKET]);
    StandsEnds(t, j, [RBRACKET, open]);
    StandsEnds(t, j + 2 + |v|, [close]);
  }

  lemma LinkOpens(t: seq<byte>, s: Inline, j: nat, e: nat, url: Option<seq<byte>>)
    requires Terminated(t) && InRange(t, s) && AtRest(s) && t[s.i] == LBRACKET && s.i < j < e < |t| - 1
    requires Matching(t, s.i + 1, 1, LBRACKET, RBRACKET) == j && j + 1 < |t|
    requires t[j + 1] == LPAREN || t[j + 1] == LBRACKET
    requires t[j + 1] == LPAREN ==> j + 2 <= e && Matching(t, j + 2, 1, LPAREN, RPAREN) == e && UrlEnd(t, j + 2, e) == e
    requires t[j + 1] == LBRACKET ==> j + 2 <= e && Matching(t, j + 2, 1, LBRACKET, RBRACKET) == e
    requires url == if t[j + 1] == LPAREN && e > j + 2 && t[j + 2..e] != t[s.i + 1..j] then Some(t[j + 2..e]) else None
    ensures var next := InLink(s, s.i + 1, j, e + 1, url);
            InRange(t, next) && RenderFrom(t, s) == RenderFrom(t, next)
  {
    hide RenderFrom, Matching, CodeStep, EmphStep, BangStep, AutoStep, LinkDone, UrlEnd;
    var next := InLink(s, s.i + 1, j, e + 1, url);
    UrlToEnd(t, j + 2, e);
    assert Step(t, s) == (next, []);
    Silent(t, s, next);
  }

  lemma UrlToEnd(t: seq<byte>, i: nat, e: nat)
    requires i <= e < |t|
    ensures i <= UrlEnd(t, i, e) <= e && (t[i..e] == [] <==> i == e)
  {
  }

  lemma LinkShows(t: seq<byte>, s: Inline, u: seq<byte>, v: seq<byte>) returns (r: Inline)
    requires Terminated(t) && InRange(t, s) && AtRest(s) && Link(u, v).Ok(s.cur)
    requires Stands(t, s.i, Link(u, v).Source()) && s.i + |u| + |v| + 4 < |t|
    ensures InRange(t, r) && Kept(s, r) && r.i == s.i + |u| + |v| + 4
    ensures RenderFrom(t, s) == LinkMeaning(u, v, s.cur) + RenderFrom(t, r)
  {
    hide RenderFrom, Terminated, Stands, Matching, UrlEnd, Same, AllQuiet, LinkText, Target;
    var j, e := s.i + 1 + |u|, s.i + 3 + |u| + |v|;
    LinkParts(t, s.i, u, LPAREN, v, RPAREN);
    StandsIs(t, s.i + 1, u);
    StandsIs(t, j + 2, v);
    LinkTextQuiet(u);
    BracketFound(t, s.i + 1, u);
    ParenFound(t, j + 2, v);
    var url := if v != [] && v != u then Some(v) else None;
    LinkOpens(t, s, j, e, url);
    r := LinkRest(t, s, u, e + 1, url);
  }

  lemma RefShows(t: seq<byte>, s: Inline, u: seq<byte>, v: seq<byte>) returns (r: Inline)
    requires Terminated(t) && InRange(t, s) && AtRest(s) && Ref(u, v).Ok(s.cur)
    requires Stands(t, s.i, Ref(u, v).Source()) && s.i + |u| + |v| + 4 < |t|
    ensures InRange(t, r) && Kept(s, r) && r.i == s.i + |u| + |v| + 4
    ensures RenderFrom(t, s) == Ref(u, v).Meaning(s.cur) + RenderFrom(t, r)
  {
    hide RenderFrom, Terminated, Stands, Matching, UrlEnd, Same, AllQuiet, LinkText;
    var j, e := s.i + 1 + |u|, s.i + 3 + |u| + |v|;
    LinkParts(t, s.i, u, LBRACKET, v, RBRACKET);
    LinkTextQuiet(u);
    BracketFound(t, s.i + 1, u);
    RefFound(t, j + 2, u, v);
    LinkOpens(t, s, j, e, None);
    r := LinkRest(t, s, u, e + 1, None);
    Regroup(Same(u, s.cur.(link := true)), [], RenderFrom(t, r));
    NothingBefore(RenderFrom(t, r));
  }

  lemma ImageShows(t: seq<byte>, s: Inline, u: seq<byte>, v: seq<byte>) returns (r: Inline)
    requires Terminated(t) && InRange(t, s) && AtRest(s) && Image(u, v).Ok(s.cur)
    requires Stands(t, s.i, Image(u, v).Source()) && s.i + |u| + |v| + 5 < |t|
    ensures InRange(t, r) && Kept(s, r) && r.i == s.i + |u| + |v| + 5
    ensures RenderFrom(t, s) == LinkMeaning(u, v, s.cur) + RenderFrom(t, r)
  {
    hide RenderFrom, Terminated, Stands, LinkText, Target, LinkMeaning;
    StandsCat(t, s.i, [BANG], Link(u, v).Source());
    StandsEnds(t, s.i, [BANG]);
    LinkParts(t, s.i + 1, u, LPAREN, v, RPAREN);
    BracketFound(t, s.i + 2, u);
    BangDropped(t, s, s.i + 2 + |u|);
    r := LinkShows(t, Move(s, s.i + 1), u, v);
  }

  lemma BangDropped(t: seq<byte>, s: Inline, j: nat)
    requires Terminated(t) && InRange(t, s) && AtRest(s) && s.i + 2 <= j < |t| - 1 && t[s.i] == BANG && t[s.i + 1] == LBRACKET
    requires Matching(t, s.i + 2, 1, LBRACKET, RBRACKET) == j && t[j + 1] == LPAREN
    ensures InRange(t, Move(s, s.i + 1)) && RenderFrom(t, s) == RenderFrom(t, Move(s, s.i + 1))
  {
    hide RenderFrom, Matching, CodeStep, EmphStep, LinkStep, AutoStep, LinkDone;
    assert Step(t, s) == (Move(s, s.i + 1), []);
    Silent(t, s, Move(s, s.i + 1));
  }

  // ----- the search for closing marks -----

  /** No byte of this stretch stops the search. */
  lemma PastBytes(t: seq<byte>, j: nat, u: seq<byte>, k: nat, ch: byte)
    requires Terminated(t) && IsMark(ch) && Stands(t, j, u) && j + |u| < |t| && forall i :: 0 <= i < |u| ==> Skipped(u[i], ch)
    ensures EmphClose(t, j, k, ch) == EmphClose(t, j + |u|, k, ch)
  {
    hide Terminated, Stands, EmphClose;
    StandsBack(t, j, u);
    EmphClosePast(t, j, j + |u|, k, ch);
  }

  predicate Skipped(c: byte, ch: byte) {
    c != 0 && c != ch && c != BACKTICK && c != BACKSLASH
  }

  /** Marks are passed when they are others, of another number, or cannot close. */
  lemma PastMarks(t: seq<byte>, j: nat, ch': byte, k': nat, k: nat, ch: byte)
    requires Terminated(t) && IsMark(ch) && IsMark(ch') && k' >= 1
    requires Stands(t, j, Marks(ch', k')) && j + k' < |t| && t[j + k'] != ch'
    requires ch' == ch ==> k' != k || !CanClose(t, j, k, ch)
    ensures EmphClose(t, j, k, ch) == EmphClose(t, j + k', k, ch)
  {
    hide Terminated, Stands, EmphClose, CanClose;
    if ch' == ch {
      StandsEnds(t, j, Marks(ch, k'));
      RunIs(t, j, ch, k');
      EmphCloseStep(t, j, k, ch);
    } else {
      MarkIsPunct(ch');
      PastBytes(t, j, Marks(ch', k'), k, ch);
    }
  }

  lemma PastCode(t: seq<byte>, j: nat, m: nat, u: seq<byte>, k: nat, ch: byte)
    requires Terminated(t) && IsMark(ch) && CodeSpan(m, u).Ok(NO_STYLE)
    requires Stands(t, j, CodeSpan(m, u).Source()) && j + 2 * m + |u| < |t| && t[j + 2 * m + |u|] != BACKTICK
    ensures EmphClose(t, j, k, ch) == EmphClose(t, j + 2 * m + |u|, k, ch)
  {
    hide Terminated, Stands, EmphClose, CodeClose, RunLen, Marks;
    CodePlaces(t, j, m, u);
    EmphCloseStep(t, j, k, ch);
  }

  /** What the scanners find in a code span. */
  lemma CodePlaces(t: seq<byte>, i: nat, k: nat, u: seq<byte>)
    requires Terminated(t) && CodeSpan(k, u).Ok(NO_STYLE)
    requires Stands(t, i, CodeSpan(k, u).Source()) && i + 2 * k + |u| < |t| && t[i + 2 * k + |u|] != BACKTICK
    ensures t[i] == BACKTICK && RunLen(t, i, BACKTICK) == k && Stands(t, i + k, u)
    ensures CodeClose(t, i + k, k) == i + k + |u|
  {
    hide Terminated, Stands, RunLen, CodeClose, Marks;
    var n, e := i + k, i + k + |u|;
    StandsCat(t, i, Marks(BACKTICK, k), u + Marks(BACKTICK, k));
    StandsCat(t, n, u, Marks(BACKTICK, k));
    StandsEnds(t, i, Marks(BACKTICK, k));
    StandsEnds(t, n, u);
    StandsEnds(t, e, Marks(BACKTICK, k));
    StandsBack(t, n, u);
    RunIs(t, i, BACKTICK, k);
    RunIs(t, e, BACKTICK, k);
    CodeClosePast(t, n, e, k);
    CodeCloseHere(t, e, k);
  }

  /** Text, marks that cannot close, and text. */
  lemma PastParts(t: seq<byte>, j: nat, a: seq<byte>, m: byte, n: nat, b: seq<byte>, k: nat, ch: byte)
    requires Terminated(t) && IsMark(ch) && IsMark(m) && n >= 1 && AllQuiet(a) && AllQuiet(b) && b != []
    requires Stands(t, j, a + (Marks(m, n) + b)) && j + |a| + n + |b| < |t| && !CanClose(t, j + |a|, n, m)
    ensures EmphClose(t, j, k, ch) == EmphClose(t, j + |a| + n + |b|, k, ch)
  {
    hide Terminated, Stands, EmphClose, CanClose, Marks;
    StandsCat(t, j, a, Marks(m, n) + b);
    StandsCat(t, j + |a|, Marks(m, n), b);
    StandsEnds(t, j + |a| + n, b);
    QuietNoMark(b, m);
    QuietSkipped(a, ch);
    QuietSkipped(b, ch);
    PastBytes(t, j, a, k, ch);
    PastMarks(t, j + |a|, m, n, k, ch);
    PastBytes(t, j + |a| + n, b, k, ch);
  }

  lemma QuietSkipped(u: seq<byte>, ch: byte)
    requires AllQuiet(u) && IsMark(ch)
    ensures forall i :: 0 <= i < |u| ==> Skipped(u[i], ch)
  {
  }

  /** The bytes of a link are passed, wherever they are read. */
  lemma PastLink(t: seq<byte>, j: nat, u: seq<byte>, open: byte, v: seq<byte>, close: byte, k: nat, ch: byte)
    requires Terminated(t) && IsMark(ch) && LinkText(u) && Silenced(v) && Skipped(open, ch) && Skipped(close, ch)
    requires Stands(t, j, [LBRACKET] + (u + ([RBRACKET, open] + (v + [close])))) && j + |u| + |v| + 4 < |t|
    ensures EmphClose(t, j, k, ch) == EmphClose(t, j + |u| + |v| + 4, k, ch)
  {
    hide Terminated, Stands, EmphClose;
    var e := j + 3 + |u| + |v|;
    LinkParts(t, j, u, open, v, close);
    StandsBack(t, j + 1, u);
    StandsBack(t, j + 3 + |u|, v);
    EmphClosePast(t, j, j + 1, k, ch);
    EmphClosePast(t, j + 1, j + 1 + |u|, k, ch);
    EmphClosePast(t, j + 1 + |u|, j + 3 + |u|, k, ch);
    EmphClosePast(t, j + 3 + |u|, e, k, ch);
    EmphClosePast(t, e, e + 1, k, ch);
  }

  lemma PastAuto(t: seq<byte>, j: nat, u: seq<byte>, k: nat, ch: byte)
    requires Terminated(t) && IsMark(ch) && Silenced(u) && Stands(t, j, Auto(u).Source()) && j + |u| + 2 < |t|
    ensures EmphClose(t, j, k, ch) == EmphClose(t, j + |u| + 2, k, ch)
  {
    hide Terminated, Stands, EmphClose, Silenced;
    StandsCat(t, j, [LESS], u + [GREATER]);
    StandsCat(t, j + 1, u, [GREATER]);
    PastBytes(t, j, [LESS], k, ch);
    SilencedSkipped(u, ch);
    PastBytes(t, j + 1, u, k, ch);
    PastBytes(t, j + 1 + |u|, [GREATER], k, ch);
  }

  lemma PastImage(t: seq<byte>, j: nat, u: seq<byte>, v: seq<byte>, k: nat, ch: byte)
    requires Terminated(t) && IsMark(ch) && LinkText(u) && Silenced(v) && Stands(t, j, Image(u, v).Source()) && j + |u| + |v| + 5 < |t|
    ensures EmphClose(t, j, k, ch) == EmphClose(t, j + |u| + |v| + 5, k, ch)
  {
    hide Terminated, Stands, EmphClose, Silenced, LinkText;
    StandsCat(t, j, [BANG], Link(u, v).Source());
    PastBytes(t, j, [BANG], k, ch);
    PastLink(t, j + 1, u, LPAREN, v, RPAREN, k, ch);
  }

  lemma PastSnake(t: seq<byte>, j: nat, a: seq<byte>, m: nat, b: seq<byte>, k: nat, ch: byte)
    requires Terminated(t) && IsMark(ch) && Snake(a, m, b).Ok(NO_STYLE) && Stands(t, j, Snake(a, m, b).Source()) && j + |a| + m + |b| < |t|
    ensures EmphClose(t, j, k, ch) == EmphClose(t, j + |a| + m + |b|, k, ch)
  {
    hide Terminated, Stands, EmphClose, CanClose, CanOpen, AllQuiet, Marks, Solid;
    SnakePlaces(t, j, a, m, b);
    InsideWord(t, j + |a|, m);
    PastParts(t, j, a, UNDERSCORE, m, b, k, ch);
  }

  lemma PastLoose(t: seq<byte>, j: nat, ch': byte, m: nat, k: nat, ch: byte)
    requires Terminated(t) && IsMark(ch) && Loose(ch', m).Ok(NO_STYLE) && Stands(t, j, Loose(ch', m).Source()) && j + m + 2 < |t|
    ensures EmphClose(t, j, k, ch) == EmphClose(t, j + m + 2, k, ch)
  {
    hide Terminated, Stands, EmphClose, CanClose, CanOpen, AllQuiet, Marks, Blank;
    LoosePlaces(t, j, ch', m);
    BetweenBlanks(t, j + 1, m, ch');
    SpaceQuiet();
    PastParts(t, j, [SPACE], ch', m, [SPACE], k, ch);
  }

  lemma {:induction false} PastEmph(t: seq<byte>, j: nat, ch': byte, k': nat, inner: Prose, st: Style, k: nat, ch: byte)
    requires Terminated(t) && IsMark(ch) && 1 <= k <= 3 && Emph(ch', k', inner).Ok(st) && Has(st, k)
    requires Stands(t, j, Emph(ch', k', inner).Source()) && j + 2 * k' + |inner.Source()| < |t|
    requires Emph(ch', k', inner).Clear(Prev(t, j), t[j + 2 * k' + |inner.Source()|])
    ensures EmphClose(t, j, k, ch) == EmphClose(t, j + 2 * k' + |inner.Source()|, k, ch)
    decreases inner, 1
  {
    hide Terminated, Stands, EmphClose, CanClose, CanOpen, Marks, Prev, Solid, RunLen, Prose.Separate, Prose.Muted;
    var u := inner.Source();
    EmphPlaces(t, j, ch', k', u);
    EmphParts(t, j, ch', k', u);
    SolidIsNoMark(t[j + k'], ch');
    HasMore(st, k, k');
    PastMarks(t, j, ch', k', k, ch);
    PastProse(t, j + k', inner, ch', Emphasis(st, k'), k, ch);
    PastMarks(t, j + k' + |u|, ch', k', k, ch);
  }

  /** The search passes every span that is not emphasised by the same marks. */
  lemma {:induction false} PastSpan(t: seq<byte>, j: nat, sp: Span, st: Style, k: nat, ch: byte)
    requires Terminated(t) && IsMark(ch) && 1 <= k <= 3 && sp.Ok(st) && sp.Mute() && Has(st, k)
    requires Stands(t, j, sp.Source()) && j + |sp.Source()| < |t| && sp.Clear(Prev(t, j), t[j + |sp.Source()|])
    ensures EmphClose(t, j, k, ch) == EmphClose(t, j + |sp.Source()|, k, ch)
    decreases sp, 2
  {
    hide Terminated, Stands, EmphClose, AllQuiet, Inner, LinkText, Target, Silenced, Marks, Prev, Punct, Blank, Solid, Has;
    match sp
    case Words(u) =>
      QuietSkipped(u, ch);
      PastBytes(t, j, u, k, ch);
    case Emph(ch', k', inner) => PastEmph(t, j, ch', k', inner, st, k, ch);
    case CodeSpan(m, u) => PastCode(t, j, m, u, k, ch);
    case Link(u, v) => PastLink(t, j, u, LPAREN, v, RPAREN, k, ch);
    case Image(u, v) => PastImage(t, j, u, v, k, ch);
    case Ref(u, v) => PastLink(t, j, u, LBRACKET, v, RBRACKET, k, ch);
    case Auto(u) => PastAuto(t, j, u, k, ch);
    case Escaped(c) => PastEscape(t, j, c, k, ch);
    case Snake(a, m, b) => PastSnake(t, j, a, m, b, k, ch);
    case Loose(ch', m) => PastLoose(t, j, ch', m, k, ch);
  }

  lemma SpaceQuiet()
    ensures AllQuiet([SPACE])
  {
  }

  lemma SilencedSkipped(u: seq<byte>, ch: byte)
    requires Silenced(u) && IsMark(ch)
    ensures forall i :: 0 <= i < |u| ==> Skipped(u[i], ch)
  {
  }

  lemma PastEscape(t: seq<byte>, j: nat, c: byte, k: nat, ch: byte)
    requires Terminated(t) && IsMark(ch) && Punct(c) && Stands(t, j, [BACKSLASH, c]) && j + 2 < |t|
    ensures EmphClose(t, j, k, ch) == EmphClose(t, j + 2, k, ch)
  {
    hide EmphClose;
    StandsEnds(t, j, [BACKSLASH, c]);
    EmphCloseStep(t, j, k, ch);
  }

  /** The style of k marks is in effect. */
  predicate Has(st: Style, k: nat) {
    (k == 1 || k == 3 ==> st.italic) && (k == 2 || k == 3 ==> st.bold)
  }

  lemma HasMore(st: Style, k: nat, k': nat)
    requires Has(st, k) && Adds(st, k') && 1 <= k <= 3
    ensures Has(Emphasis(st, k'), k) && k != k'
  {
  }

  lemma {:induction false} PastProse(t: seq<byte>, j: nat, text: Prose, next: byte, st: Style, k: nat, ch: byte)
    requires Terminated(t) && IsMark(ch) && 1 <= k <= 3 && text.Muted() && Has(st, k)
    requires j <= |t| && text.Separate(Prev(t, j), next, st)
    requires Stands(t, j, text.Source()) && j + |text.Source()| < |t| && t[j + |text.Source()|] == next
    ensures EmphClose(t, j, k, ch) == EmphClose(t, j + |text.Source()|, k, ch)
    decreases text, 0
  {
    hide Terminated, Stands, EmphClose, Span.Source, Span.Ok, Span.Clear, Span.Mute;
    match text
    case Nil =>
    case Cons(sp, rest) =>
      SourceIsSome(sp, st);
      AfterSpan(t, j, sp.Source(), rest.Source(), next);
      PastSpan(t, j, sp, st, k, ch);
      PastProse(t, j + |sp.Source()|, rest, next, st, k, ch);
  }

  lemma SourceIsSome(sp: Span, st: Style)
    requires sp.Ok(st)
    ensures sp.Source() != []
  {
    hide Marks;
  }

  /** Where the rest stands, and what is next to the first part. */
  lemma AfterSpan(t: seq<byte>, j: nat, a: seq<byte>, b: seq<byte>, next: byte)
    requires Stands(t, j, a + b) && a != [] && j + |a| + |b| < |t| && t[j + |a| + |b|] == next
    ensures Stands(t, j, a) && Stands(t, j + |a|, b) && t[j + |a|] == FirstOf(b, next)
    ensures Prev(t, j + |a|) == a[|a| - 1]
  {
    hide Stands;
    StandsCat(t, j, a, b);
    StandsEnds(t, j, a);
    if b != [] {
      StandsEnds(t, j + |a|, b);
    }
  }

  // ----- all of them -----

  lemma {:induction false} EmphShows(t: seq<byte>, s: Inline, ch: byte, k: nat, inner: Prose) returns (r: Inline)
    requires Terminated(t) && InRange(t, s) && AtRest(s) && Emph(ch, k, inner).Ok(s.cur)
    requires Stands(t, s.i, Emph(ch, k, inner).Source()) && s.i + |Emph(ch, k, inner).Source()| < |t|
    requires Emph(ch, k, inner).Clear(Prev(t, s.i), t[s.i + |Emph(ch, k, inner).Source()|])
    ensures InRange(t, r) && Kept(s, r) && r.i == s.i + |Emph(ch, k, inner).Source()|
    ensures RenderFrom(t, s) == Emph(ch, k, inner).Meaning(s.cur) + RenderFrom(t, r)
    decreases inner, 2
  {
    hide RenderFrom, Terminated, CanOpen, CanClose, Stands, RunLen, EmphClose, Prev, Solid, InRange, Marks, Prose.Source, Prose.Separate, Prose.Meaning;
    var u, n := inner.Source(), s.i + k;
    EmphPlaces(t, s.i, ch, k, u);
    PastProse(t, n, inner, ch, Emphasis(s.cur, k), k, ch);
    EmphOpens(t, s, ch, k);
    var close := ProseShows(t, Opened(s, ch, k), inner, ch);
    EmphEnds(t, s, close, ch, k);
    r := close.(i := close.i + k, cur := s.cur);
  }

  lemma {:induction false} SpanShows(t: seq<byte>, s: Inline, sp: Span) returns (r: Inline)
    requires Terminated(t) && InRange(t, s) && AtRest(s) && sp.Ok(s.cur)
    requires Stands(t, s.i, sp.Source()) && s.i + |sp.Source()| < |t|
    requires sp.Clear(Prev(t, s.i), t[s.i + |sp.Source()|])
    ensures InRange(t, r) && Kept(s, r) && r.i == s.i + |sp.Source()|
    ensures RenderFrom(t, s) == sp.Meaning(s.cur) + RenderFrom(t, r)
    decreases sp, 1
  {
    hide RenderFrom, Terminated, Stands, AllQuiet, Inner, LinkText, Target, Same, InRange, Marks, Prev, Punct, Blank;
    match sp
    case Words(u) =>
      QuietRun(t, s, u);
      r := Move(s, s.i + |u|);
    case Emph(ch, k, inner) => r := EmphShows(t, s, ch, k, inner);
    case CodeSpan(k, u) => r := CodeShows(t, s, k, u);
    case Link(u, v) => r := LinkShows(t, s, u, v);
    case Image(u, v) => r := ImageShows(t, s, u, v);
    case Ref(u, v) => r := RefShows(t, s, u, v);
    case Auto(u) => r := AutoShows(t, s, u);
    case Escaped(c) => r := EscapedShows(t, s, c);
    case Snake(a, k, b) => r := SnakeShows(t, s, a, k, b);
    case Loose(ch, k) => r := LooseShows(t, s, ch, k);
  }

  lemma {:induction false} ProseShows(t: seq<byte>, s: Inline, text: Prose, next: byte) returns (r: Inline)
    requires Terminated(t) && InRange(t, s) && AtRest(s) && text.Separate(Prev(t, s.i), next, s.cur)
    requires Stands(t, s.i, text.Source()) && s.i + |text.Source()| < |t| && t[s.i + |text.Source()|] == next
    ensures InRange(t, r) && Kept(s, r) && r.i == s.i + |text.Source()|
    ensures RenderFrom(t, s) == text.Meaning(s.cur) + RenderFrom(t, r)
    decreases text, 0
  {
    hide Terminated, Stands, InRange, RenderFrom, Span.Source, Span.Ok, Span.Clear, Span.Meaning;
    match text
    case Nil =>
      r := s;
      NothingBefore(RenderFrom(t, s));
    case Cons(sp, rest) =>
      SourceIsSome(sp, s.cur);
      AfterSpan(t, s.i, sp.Source(), rest.Source(), next);
      var m := SpanShows(t, s, sp);
      r := ProseShows(t, m, rest, next);
      Regroup(sp.Meaning(s.cur), rest.Meaning(s.cur), RenderFrom(t, r));
  }

  predicate NoNul(u: seq<byte>) {
    forall i :: 0 <= i < |u| ==> u[i] != 0
  }

  lemma NoNulCat(a: seq<byte>, b: seq<byte>)
    requires NoNul(a) && NoNul(b)
    ensures NoNul(a + b)
  {
  }

  lemma NoNulLink(u: seq<byte>, open: byte, v: seq<byte>, close: byte)
    requires NoNul(u) && NoNul(v) && open != 0 && close != 0
    ensures NoNul([LBRACKET] + (u + ([RBRACKET, open] + (v + [close]))))
  {
    NoNulCat(v, [close]);
    NoNulCat([RBRACKET, open], v + [close]);
    NoNulCat(u, [RBRACKET, open] + (v + [close]));
    hide NoNul;
    NoNulOne(LBRACKET);
    NoNulCat([LBRACKET], u + ([RBRACKET, open] + (v + [close])));
  }

  lemma NoNulOne(c: byte)
    requires c != 0
    ensures NoNul([c])
  {
  }

  lemma NoNulThree(a: seq<byte>, m: seq<byte>, b: seq<byte>)
    requires NoNul(a) && NoNul(m) && NoNul(b)
    ensures NoNul(a + (m + b))
  {
    NoNulCat(m, b);
    NoNulCat(a, m + b);
  }

  lemma {:induction false} SourceIsText(sp: Span, st: Style)
    requires sp.Ok(st)
    ensures NoNul(sp.Source())
    decreases sp
  {
    hide Inner, AllQuiet, LinkText, Target;
    match sp
    case Words(u) => QuietIsText(u);
    case Emph(ch, k, inner) =>
      ProseIsText(inner, ch, ch, Emphasis(st, k));
      NoNulThree(Marks(ch, k), inner.Source(), Marks(ch, k));
    case CodeSpan(k, u) => NoNulThree(Marks(BACKTICK, k), u, Marks(BACKTICK, k));
    case Link(u, v) => LinkIsText(u, v); NoNulLink(u, LPAREN, v, RPAREN);
    case Image(u, v) => LinkIsText(u, v); NoNulLink(u, LPAREN, v, RPAREN); NoNulCat([BANG], Link(u, v).Source());
    case Ref(u, v) => LinkIsText(u, []); NoNulLink(u, LBRACKET, v, RBRACKET);
    case Auto(u) => NoNulThree([LESS], u, [GREATER]);
    case Escaped(c) =>
    case Snake(a, k, b) => InnerIsText(a); InnerIsText(b); NoNulThree(a, Marks(UNDERSCORE, k), b);
    case Loose(ch, k) => NoNulThree([SPACE], Marks(ch, k), [SPACE]);
  }

  lemma QuietIsText(u: seq<byte>)
    requires AllQuiet(u)
    ensures NoNul(u)
  {
  }

  lemma InnerIsText(u: seq<byte>)
    requires Inner(u)
    ensures NoNul(u)
  {
  }

  lemma LinkIsText(u: seq<byte>, v: seq<byte>)
    requires LinkText(u) && Target(v)
    ensures NoNul(u) && NoNul(v)
  {
  }

  lemma {:induction false} ProseIsText(text: Prose, prev: byte, next: byte, st: Style)
    requires text.Separate(prev, next, st)
    ensures NoNul(text.Source())
    decreases text
  {
    hide Span.Source, Span.Ok, Span.Clear, NoNul;
    match text
    case Nil => NoNulNone();
    case Cons(sp, rest) =>
      SourceIsText(sp, st);
      ProseIsText(rest, LastOf(sp.Source(), prev), next, st);
      NoNulCat(sp.Source(), rest.Source());
  }

  lemma NoNulNone()
    ensures NoNul([])
  {
  }

  lemma NulEnds(u: seq<byte>)
    requires NoNul(u)
    ensures Terminated(u + [0]) && Stands(u + [0], 0, u)
  {
    assert (u + [0])[0..|u|] == u;
  }

  lemma AtNul(t: seq<byte>, s: Inline)
    requires Terminated(t) && InRange(t, s) && s.i + 1 == |t|
    ensures RenderFrom(t, s) == []
  {
  }

  /** Rendering undoes writing: a text made of spans, nested ones included, each of which
      can be told from its neighbours, shows exactly what the spans mean. */
  lemma ProseRendered(text: Prose)
    requires text.Separate(SPACE, 0, NO_STYLE)
    ensures Terminated(text.Source() + [0]) && Render(text.Source() + [0]) == text.Meaning(NO_STYLE)
  {
    hide Prose.Source, Prose.Separate, Prose.Meaning, Terminated, RenderFrom, Stands, NoNul;
    var t := text.Source() + [0];
    ProseIsText(text, SPACE, 0, NO_STYLE);
    NulEnds(text.Source());
    var r := ProseShows(t, AT_START, text, 0);
    AtNul(t, r);
    assert text.Meaning(NO_STYLE) + [] == text.Meaning(NO_STYLE);
  }

  /** For instance "*x*" is an italic x. */
  lemma ItalicExample()
    ensures Terminated([STAR, 120, STAR, 0]) && Render([STAR, 120, STAR, 0]) == [Put(120, NO_STYLE.(italic := true))]
  {
    var text := Cons(Emph(STAR, 1, Cons(Words([120]), Nil)), Nil);
    assert Marks(STAR, 1) == [STAR];
    assert text.Source() + [0] == [STAR, 120, STAR, 0];
    ProseRendered(text);
    assert text.Meaning(NO_STYLE) == [Put(120, NO_STYLE.(italic := true))];
  }
}
