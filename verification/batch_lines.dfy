/** The lines of a batch script, and the lines its reader makes of it. */
module BatchLines {
  import opened Bytes

  const CR: byte := 13
  const LF: byte := 10
  const LIMIT := 126

  /** The place of the first LF, or the length. */
  function FirstLf(s: seq<byte>): (i: nat)
    ensures i <= |s| && (i < |s| ==> s[i] == LF)
    ensures forall k :: 0 <= k < i ==> s[k] != LF
  {
    if s == [] || s[0] == LF then 0 else 1 + FirstLf(s[1..])
  }

  function WithoutCr(s: seq<byte>): (r: seq<byte>)
    ensures |r| <= |s|
  {
    if s == [] then [] else (if s[0] == CR then [] else [s[0]]) + WithoutCr(s[1..])
  }

  /** The first line, and what comes after its LF. */
  function Head(s: seq<byte>): seq<byte> {
    WithoutCr(s[..FirstLf(s)])
  }

  function Tail(s: seq<byte>): (r: seq<byte>)
    requires FirstLf(s) < |s|
    ensures |r| < |s|
  {
    s[FirstLf(s) + 1..]
  }

  /** The LF-separated lines without their CRs; an unterminated last line counts if
      anything is left of it. */
  function Lines(s: seq<byte>): seq<seq<byte>>
    decreases |s|
  {
    if FirstLf(s) < |s| then [Head(s)] + Lines(Tail(s))
    else if Head(s) == [] then []
    else [Head(s)]
  }

  /** Every line fits the buffer: 125 bytes, or 126 when nothing ends it. */
  predicate Fits(s: seq<byte>)
    decreases |s|
  {
    if FirstLf(s) < |s| then |Head(s)| < LIMIT && Fits(Tail(s)) else |Head(s)| <= LIMIT
  }

  // ----- the reader's lines -----

  /** What one call reads when n bytes are in the buffer already. */
  datatype Piece = Piece(line: seq<byte>, rest: seq<byte>, eof: bool)

  function Read(s: seq<byte>, n: nat): (p: Piece)
    requires n <= LIMIT
    ensures |p.line| + |p.rest| <= |s| && n + |p.line| <= LIMIT
    ensures !p.eof && n == 0 ==> |p.rest| < |s|
    ensures n > 0 ==> !p.eof
    decreases |s|
  {
    if n == LIMIT then Piece([], s, false)
    else if s == [] then Piece([], [], n == 0)
    else if s[0] == CR then Read(s[1..], n)
    else if s[0] == LF then Piece([], s[1..], false)
    else
      var p := Read(s[1..], n + 1);
      Piece([s[0]] + p.line, p.rest, false)
  }

  /** All lines that successive calls return. */
  function Reads(s: seq<byte>): seq<seq<byte>>
    decreases |s|
  {
    var p := Read(s, 0);
    if p.eof then [] else [p.line] + Reads(p.rest)
  }

  lemma FirstLfStep(s: seq<byte>)
    requires s != [] && s[0] != LF
    ensures FirstLf(s) == 1 + FirstLf(s[1..])
    ensures Head(s) == (if s[0] == CR then [] else [s[0]]) + Head(s[1..])
    ensures FirstLf(s) < |s| ==> Tail(s) == Tail(s[1..])
  {
    assert s[..FirstLf(s)][1..] == s[1..][..FirstLf(s[1..])];
  }

  lemma HeadAtLf(s: seq<byte>)
    requires s != [] && s[0] == LF
    ensures FirstLf(s) == 0 && Head(s) == [] && Tail(s) == s[1..]
  {
    assert s[..0] == [];
  }

  /** How the rest after one call relates to the first line t: all of it was taken,
      or the first 126 bytes, and the rest still has the remainder to come. */
  lemma {:induction false} ReadIs(s: seq<byte>, n: nat)
    requires n <= LIMIT
    ensures var p, t := Read(s, n), Head(s);
            if n + |t| < LIMIT then
              && p.line == t
              && p.rest == (if FirstLf(s) < |s| then Tail(s) else [])
              && p.eof == (FirstLf(s) == |s| && n == 0 && t == [])
            else
              && n + |p.line| == LIMIT && !p.eof
              && p.line == t[..|p.line|] && Head(p.rest) == t[|p.line|..]
              && (FirstLf(p.rest) < |p.rest| <==> FirstLf(s) < |s|)
              && (FirstLf(s) < |s| ==> Tail(p.rest) == Tail(s))
    decreases |s|
  {
    hide FirstLf, Head, WithoutCr, Tail;
    if s == [] {
      EmptyHead();
    } else if s[0] == LF {
      HeadAtLf(s);
    } else {
      FirstLfStep(s);
      if n < LIMIT {
        ReadIs(s[1..], if s[0] == CR then n else n + 1);
      }
    }
  }

  lemma EmptyHead()
    ensures FirstLf([]) == 0 && Head([]) == []
  {
  }

  /** The reader never makes fewer lines of a file than it has. */
  lemma {:induction false} NeverFewer(s: seq<byte>)
    ensures |Reads(s)| >= |Lines(s)|
    decreases |s|
  {
    hide FirstLf, Head, WithoutCr, Tail, Read;
    ReadIs(s, 0);
    var p := Read(s, 0);
    if FirstLf(s) < |s| && |Head(s)| < LIMIT {
      NeverFewer(Tail(s));
    } else if |Head(s)| >= LIMIT {
      NeverFewer(p.rest);
    }
  }

  /** Successive calls give exactly the lines of the file if and only if each fits. */
  lemma {:induction false} ReadsAreLinesIff(s: seq<byte>)
    ensures Reads(s) == Lines(s) <==> Fits(s)
    decreases |s|
  {
    hide FirstLf, Head, WithoutCr, Tail, Read;
    ReadIs(s, 0);
    var p := Read(s, 0);
    if FirstLf(s) < |s| {
      if |Head(s)| < LIMIT {
        ReadsAreLinesIff(Tail(s));
        assert Reads(s)[1..] == Reads(Tail(s)) && Lines(s)[1..] == Lines(Tail(s));
      } else {
        TooLong(s);
      }
    } else if |Head(s)| < LIMIT {
      ReadIs([], 0);
      EmptyHead();
      assert Head(s) == [] || (p.rest == [] && Reads([]) == []);
    } else if |Head(s)| == LIMIT {
      ReadIs(p.rest, 0);
      assert Reads(p.rest) == [];
      assert Head(s)[..|p.line|] == Head(s);
    } else {
      assert Reads(s)[0] == p.line && Lines(s)[0] == Head(s);
    }
  }

  /** A terminated line of 126 bytes or more comes out as several. */
  lemma TooLong(s: seq<byte>)
    requires FirstLf(s) < |s| && |Head(s)| >= LIMIT
    ensures Reads(s) != Lines(s)
  {
    hide FirstLf, Head, WithoutCr, Tail, Read;
    ReadIs(s, 0);
    var p := Read(s, 0);
    if |Head(s)| > LIMIT {
      assert Reads(s)[0] == p.line && Lines(s)[0] == Head(s);
    } else {
      ReadIs(p.rest, 0);
      NeverFewer(Tail(s));
      assert |Reads(s)| == 2 + |Reads(Tail(s))|;
    }
  }

  function Ending(crlf: bool): seq<byte> {
    if crlf then [CR, LF] else [LF]
  }

  predicate IsLine(u: seq<byte>) {
    CR !in u && LF !in u
  }

  lemma {:induction false} EndedLine(u: seq<byte>, crlf: bool, rest: seq<byte>)
    requires IsLine(u)
    ensures var s := u + Ending(crlf) + rest;
            FirstLf(s) < |s| && Head(s) == u && Tail(s) == rest
    decreases |u|, crlf
  {
    var s := u + Ending(crlf) + rest;
    if u != [] {
      hide FirstLf, Head, Tail;
      assert s[1..] == u[1..] + Ending(crlf) + rest;
      EndedLine(u[1..], crlf, rest);
      FirstLfStep(s);
      assert u == [u[0]] + u[1..];
    } else if crlf {
      hide FirstLf, Head, Tail;
      assert s[1..] == [] + Ending(false) + rest;
      EndedLine([], false, rest);
      FirstLfStep(s);
    } else {
      HeadAtLf(s);
    }
  }

  /** Text made of lines, each with its ending, and what follows the last of them. */
  function Written(us: seq<seq<byte>>, crlf: bool, last: seq<byte>): seq<byte> {
    if us == [] then last else us[0] + Ending(crlf) + Written(us[1..], crlf, last)
  }

  /** The lines of such a text are those it was made of, with either ending, and an
      unterminated last one if there is one. */
  lemma {:induction false} LinesOfWritten(us: seq<seq<byte>>, crlf: bool, last: seq<byte>)
    requires IsLine(last) && forall u :: u in us ==> IsLine(u)
    ensures Lines(Written(us, crlf, last)) == us + if last == [] then [] else [last]
  {
    hide FirstLf, Head, Tail, IsLine;
    if us == [] {
      NoEnding(last);
    } else {
      var rest := us[1..];
      assert us[0] in us && forall u :: u in rest ==> u in us;
      EndedLine(us[0], crlf, Written(rest, crlf, last));
      LinesOfWritten(rest, crlf, last);
      assert us == [us[0]] + rest;
    }
  }

  lemma {:induction false} NoEnding(u: seq<byte>)
    requires IsLine(u)
    ensures FirstLf(u) == |u| && Head(u) == u
  {
    WithoutNone(u);
    assert u[..|u|] == u;
  }

  lemma {:induction false} WithoutNone(u: seq<byte>)
    requires CR !in u
    ensures WithoutCr(u) == u
  {
    if u != [] {
      assert u[0] in u && forall c :: c in u[1..] ==> c in u;
      WithoutNone(u[1..]);
    }
  }

  /** A line of 126 letters, ended by LF: one line of the file, but the reader gives
      an empty second one. */
  lemma LongLineExample()
    ensures var u := seq(126, i => 65 as byte);
            var s := u + [LF];
            !Fits(s) && Lines(s) == [u] && Reads(s) == [u, []]
  {
    hide FirstLf, Head, WithoutCr, Tail, Read;
    var u: seq<byte> := seq(126, i => 65 as byte);
    var s := u + [LF];
    EndedLine(u, false, []);
    assert u + Ending(false) + [] == s;
    ReadIs(s, 0);
    var p := Read(s, 0);
    assert u[..126] == u;
    ReadIs(p.rest, 0);
    EmptyHead();
    ReadIs([], 0);
    assert Reads(Tail(s)) == [] && Lines(Tail(s)) == [];
    assert Reads(p.rest) == [[]] + Reads(Tail(s));
  }
}
