/** The running batch script: reading its next line, and going to a label. */
module BatchScript {
  import opened Bytes
  import opened BatchLines

  const LINE_SIZE := 128
  const LABEL_SIZE := 32
  const COLON: byte := 0x3A

  /** Case is folded by clearing one bit, of letters and everything else. */
  function Fold(c: byte): byte {
    if c / 0x20 % 2 == 1 then c - 0x20 else c
  }

  function Trimmed(s: seq<byte>): (t: seq<byte>)
    ensures |t| <= |s|
  {
    if s != [] && s[0] == SPACE then Trimmed(s[1..]) else s
  }

  /** The text begins with the label, case folded, and a space or nothing after it. */
  predicate StartsWord(t: seq<byte>, name: seq<byte>) {
    var n := |name|;
    && n <= |t|
    && (forall k :: 0 <= k < n ==> Fold(t[k]) == Fold(name[k]))
    && (n == |t| || t[n] == 0 || t[n] == SPACE)
  }

  /** A line ":label", with spaces in front, and nothing or a space after the label. */
  predicate IsLabel(line: seq<byte>, name: seq<byte>) {
    var t := Trimmed(line);
    t != [] && t[0] == COLON && StartsWord(t[1..], name)
  }

  /** The label stands in memory at a place, case folded, and a NUL or space after it. */
  predicate StandsAt(mem: seq<byte>, at: nat, name: seq<byte>)
    requires at + |name| < |mem|
  {
    && (forall k :: 0 <= k < |name| ==> Fold(mem[at + k]) == Fold(name[k]))
    && mem[at + |name|] in {0, SPACE}
  }

  /** What the comparison comes to for a line in memory. */
  predicate LabelInMemory(mem: seq<byte>, text: seq<byte>, name: seq<byte>)
    requires |text| + 1 + |name| < |mem|
  {
    var t := Trimmed(text);
    t != [] && t[0] == COLON && StandsAt(mem, |text| - |t| + 1, name)
  }

  // ----- what makes a line a label -----

  predicate Alnum(c: byte) {
    0x30 <= c <= 0x39 || 0x41 <= c <= 0x5A || 0x61 <= c <= 0x7A
  }

  function Lower(c: byte): byte {
    if 0x41 <= c <= 0x5A then c + 0x20 else c
  }

  predicate SameIgnoringCase(a: seq<byte>, b: seq<byte>) {
    |a| == |b| && forall k :: 0 <= k < |a| ==> Lower(a[k]) == Lower(b[k])
  }

  predicate IsWord(w: seq<byte>) {
    forall c :: c in w ==> Alnum(c)
  }

  lemma FoldIsCase(a: byte, b: byte)
    requires Alnum(a) && Alnum(b)
    ensures Fold(a) == Fold(b) <==> Lower(a) == Lower(b)
  {
  }

  /** A line with a colon and a word behind n spaces, with nothing or a space after the
      word, is the label exactly when the word is the label's, ignoring case: a longer or
      a shorter word is not. */
  lemma {:induction false} WordIsLabel(n: nat, word: seq<byte>, rest: seq<byte>, name: seq<byte>)
    requires IsWord(word) && IsWord(name) && (rest == [] || rest[0] == SPACE)
    ensures IsLabel(seq(n, i => SPACE) + ([COLON] + word + rest), name) <==> SameIgnoringCase(word, name)
  {
    var line := seq(n, i => SPACE) + ([COLON] + word + rest);
    if n > 0 {
      assert line[1..] == seq(n - 1, i => SPACE) + ([COLON] + word + rest);
      WordIsLabel(n - 1, word, rest, name);
    } else {
      assert line == [COLON] + word + rest && line[1..] == word + rest;
      WordStarts(word, rest, name);
    }
  }

  lemma WordStarts(word: seq<byte>, rest: seq<byte>, name: seq<byte>)
    requires IsWord(word) && IsWord(name) && (rest == [] || rest[0] == SPACE)
    ensures StartsWord(word + rest, name) <==> SameIgnoringCase(word, name)
  {
    var t, n := word + rest, |name|;
    assert forall k :: 0 <= k < |word| ==> t[k] in word;
    assert forall k :: 0 <= k < n ==> name[k] in name;
    forall k | 0 <= k < n && k < |word| ensures Fold(t[k]) == Fold(name[k]) <==> Lower(word[k]) == Lower(name[k]) {
      FoldIsCase(word[k], name[k]);
    }
    if |word| < n {
      FoldIsNotSpace(name[|word|]);
    }
  }

  lemma FoldIsNotSpace(c: byte)
    requires Alnum(c)
    ensures Fold(c) != Fold(SPACE)
  {
  }

  /** A line that does not begin with a colon behind its spaces is no label. */
  lemma {:induction false} NoColonNoLabel(n: nat, line: seq<byte>, name: seq<byte>)
    requires line == [] || line[0] !in {SPACE, COLON as byte}
    ensures !IsLabel(seq(n, i => SPACE) + line, name)
  {
    var all := seq(n, i => SPACE) + line;
    if n > 0 {
      assert all[1..] == seq(n - 1, i => SPACE) + line;
      NoColonNoLabel(n - 1, line, name);
    } else {
      assert all == line;
    }
  }

  /** The lines after the first one that is the label. */
  function After(lines: seq<seq<byte>>, name: seq<byte>): Option<seq<seq<byte>>> {
    if lines == [] then None
    else if IsLabel(lines[0], name) then Some(lines[1..])
    else After(lines[1..], name)
  }

  /** A label some line of the script could carry. */
  predicate IsName(name: seq<byte>) {
    forall i :: 0 <= i < |name| ==> name[i] != 0 && name[i] != SPACE
  }

  function Shortened(name: seq<byte>): seq<byte> {
    if |name| < LABEL_SIZE then name else name[..LABEL_SIZE - 1]
  }

  /** The NUL-terminated text s lies in the buffer at a place. */
  predicate TextAt(buf: seq<byte>, at: nat, s: seq<byte>) {
    at + |s| < |buf| && buf[at..at + |s|] == s && buf[at + |s|] == 0
  }

  class Script {
    const file: seq<byte>
    const line: array<byte>
    const labelBuf: array<byte>
    var pos: nat
    var open: bool
    var count: nat

    ghost predicate Valid()
      reads this
    {
      line.Length == LINE_SIZE && labelBuf.Length == LABEL_SIZE && line != labelBuf && pos <= |file|
    }

    constructor (contents: seq<byte>, lineBuf: array<byte>)
      requires lineBuf.Length == LINE_SIZE
      ensures Valid() && open && pos == 0 && file == contents && line == lineBuf && fresh(labelBuf)
    {
      file, line, pos, open, count := contents, lineBuf, 0, true, 0;
      labelBuf := new byte[LABEL_SIZE];
    }

    /** What has not been read. */
    function Rest(): seq<byte>
      reads this
      requires pos <= |file|
    {
      file[pos..]
    }

    /** One byte of the file; none at its end. */
    method ReadByte() returns (b: Option<byte>)
      requires Valid() && open
      modifies this`pos
      ensures Valid()
      ensures b == if old(Rest()) == [] then None else Some(old(Rest())[0])
      ensures Rest() == if old(Rest()) == [] then [] else old(Rest())[1..]
    {
      if pos == |file| {
        return None;
      }
      b := Some(file[pos]);
      pos := pos + 1;
    }

    /** batch_readline. */
    method ReadLine() returns (found: bool)
      requires Valid()
      modifies this`pos, this`open, this`count, line
      ensures Valid()
      ensures found <==> old(open) && !Read(old(Rest()), 0).eof
      ensures found ==> var p := Read(old(Rest()), 0);
                        && open && Rest() == p.rest
                        && count == |p.line| && TextAt(line[..], 0, p.line)
      ensures !found ==> !open
    {
      hide Read, Onto;
      count := 0;
      if !open {
        return false;
      }
      ghost var target := Read(Rest(), 0);
      OntoNothing(target);
      while count < LIMIT
        invariant Valid() && open && count <= LIMIT
        invariant target == Onto(line[..count], Read(Rest(), count))
        decreases |Rest()|
      {
        OntoStep(line[..count], Rest(), count);
        var b := ReadByte();
        if b.None? {
          if count == 0 {
            open := false;
            return false;
          }
          break;
        }
        if b.value == CR {
          continue;
        }
        if b.value == LF {
          break;
        }
        Append(b.value);
      }
      OntoFull(line[..LIMIT], Rest());
      ghost var got := line[..count];
      line[count] := 0;
      assert line[..][0..count] == got;
      found := true;
    }

    method Append(b: byte)
      requires Valid() && count < LINE_SIZE
      modifies this`count, line
      ensures count == old(count) + 1 && line[..count] == old(line[..count]) + [b]
    {
      line[count] := b;
      count := count + 1;
    }

    /** Copies the label out of the caller's buffer, which may be the line buffer. */
    method CopyLabel(src: array<byte>, at: nat, ghost name: seq<byte>)
      requires Valid() && src != labelBuf && TextAt(src[..], at, name) && 0 !in name
      modifies labelBuf
      ensures TextAt(labelBuf[..], 0, Shortened(name))
    {
      var i := 0;
      assert src[at..at + |name|] == name;
      while i < LABEL_SIZE - 1
        invariant 0 <= i <= LABEL_SIZE - 1 && i <= |name|
        invariant labelBuf[..i] == name[..i]
        invariant src[..] == old(src[..])
      {
        assert i < |name| ==> src[at + i] == name[i];
        labelBuf[i] := src[at + i];
        if src[at + i] == 0 {
          assert i == |name|;
          assert labelBuf[..][0..i] == labelBuf[..i];
          return;
        }
        i := i + 1;
      }
      labelBuf[i] := 0;
      assert labelBuf[..][0..i] == labelBuf[..i];
    }

    /** Past the spaces in front of the line. */
    method SkipSpaces(ghost text: seq<byte>) returns (rf: nat)
      requires Valid() && TextAt(line[..], 0, text)
      ensures rf <= |text| && text[rf..] == Trimmed(text)
    {
      rf := 0;
      assert text[0..] == text;
      InBuffer(line[..], text);
      while line[rf] == SPACE
        invariant rf <= |text|
        invariant Trimmed(text) == Trimmed(text[rf..])
        decreases |text| - rf
      {
        assert text[rf..][1..] == text[rf + 1..];
        rf := rf + 1;
      }
    }

    /** Whether the label stands in memory from the line's place from on, case folded, as
        a whole word. A label with a space in it can run on behind the line's NUL, and
        behind the buffer. */
    method SameWord(from: nat, behind: seq<byte>, ghost name: seq<byte>) returns (same: bool)
      requires Valid() && from < LINE_SIZE && |behind| >= LABEL_SIZE && TextAt(labelBuf[..], 0, name) && 0 !in name
      ensures same <==> StandsAt(line[..] + behind, from, name)
    {
      hide Fold, TextAt;
      InBuffer(labelBuf[..], name);
      var mem := line[..] + behind;
      var rd, rf := 0, from;
      while labelBuf[rd] != 0
        invariant 0 <= rd <= |name| && rf == from + rd
        invariant forall k :: 0 <= k < rd ==> Fold(mem[from + k]) == Fold(name[k])
        decreases |name| - rd
      {
        if Fold(labelBuf[rd]) != Fold(mem[rf]) {
          return false;
        }
        rd, rf := rd + 1, rf + 1;
      }
      same := mem[rf] == 0 || mem[rf] == SPACE;
    }

    /** Whether the line in the buffer is the label, as memory has it; for a label without
        spaces that is what the line says. */
    method Compare(behind: seq<byte>, ghost text: seq<byte>, ghost name: seq<byte>) returns (same: bool)
      requires Valid() && |behind| >= LABEL_SIZE
      requires TextAt(line[..], 0, text) && TextAt(labelBuf[..], 0, name) && 0 !in name
      ensures same <==> LabelInMemory(line[..] + behind, text, name)
      ensures IsName(name) ==> (same <==> IsLabel(text, name))
    {
      hide Trimmed, StandsAt, StartsWord, TextAt, IsName;
      InBuffer(line[..], text);
      InBuffer(labelBuf[..], name);
      var rf := SkipSpaces(text);
      var mem := line[..] + behind;
      TextStays(line[..], behind, text);
      if line[rf] != COLON {
        return false;
      }
      same := SameWord(rf + 1, behind, name);
      assert text[rf..][1..] == text[rf + 1..];
      if IsName(name) {
        InMemory(mem, text, rf + 1, name);
      }
    }

    /** batch_goto. Found exactly when some line of the script is the label, wherever
        reading stands; the next line read is then the one after the first such line. */
    method Goto(src: array<byte>, at: nat, behind: seq<byte>, ghost name: seq<byte>) returns (found: bool)
      requires Valid() && src != labelBuf && TextAt(src[..], at, name) && IsName(name) && |behind| >= LABEL_SIZE
      modifies this`pos, this`open, this`count, line, labelBuf
      ensures Valid()
      ensures found <==> old(open) && After(Reads(file), Shortened(name)).Some?
      ensures found ==> open && Reads(Rest()) == After(Reads(file), Shortened(name)).value
    {
      hide Reads, Read, IsLabel, Fold;
      CopyLabel(src, at, name);
      if !open {
        return false;
      }
      pos := 0;
      assert Rest() == file;
      ghost var short := Shortened(name);
      while true
        invariant Valid() && open && TextAt(labelBuf[..], 0, short)
        invariant After(Reads(file), short) == After(Reads(Rest()), short)
        decreases |Rest()|
      {
        ghost var s := Rest();
        ReadsStep(s);
        var ok := ReadLine();
        if !ok {
          return false;
        }
        ghost var p := Read(s, 0);
        assert Reads(s)[1..] == Reads(p.rest);
        var same := Compare(behind, p.line, short);
        if same {
          return true;
        }
      }
      found := false;
    }
  }

  lemma InBuffer(buf: seq<byte>, text: seq<byte>)
    requires TextAt(buf, 0, text)
    ensures |text| < |buf| && buf[|text|] == 0
    ensures forall k :: 0 <= k < |text| ==> buf[k] == text[k]
  {
    assert forall k :: 0 <= k < |text| ==> buf[0..|text|][k] == buf[k];
  }

  lemma TextStays(buf: seq<byte>, behind: seq<byte>, text: seq<byte>)
    requires TextAt(buf, 0, text)
    ensures TextAt(buf + behind, 0, text)
  {
    InBuffer(buf, text);
    assert (buf + behind)[0..|text|] == buf[0..|text|];
  }

  /** A label without spaces stops at the NUL of the line, so what lies behind the line
      does not matter. */
  lemma InMemory(mem: seq<byte>, text: seq<byte>, from: nat, name: seq<byte>)
    requires IsName(name) && from <= |text| && from + |name| < |mem| && TextAt(mem, 0, text)
    ensures StandsAt(mem, from, name) <==> StartsWord(text[from..], name)
  {
    hide Fold, TextAt;
    InBuffer(mem, text);
    var t := text[from..];
    if StandsAt(mem, from, name) && |t| < |name| {
      FoldsToZero(name[|t|]);
    }
    assert forall k :: 0 <= k < |t| ==> t[k] == mem[from + k];
  }

  /** Only NUL and space fold to zero. */
  lemma FoldsToZero(a: byte)
    requires a != 0 && a != SPACE
    ensures Fold(a) != Fold(0)
  {
  }

  /** With a space in it, it need not stop there: the label "a b" is found on the line ":a"
      when a "b" is left behind its NUL. */
  lemma StaleLabelExample(behind: seq<byte>)
    requires |behind| >= LABEL_SIZE
    ensures var name, text := [0x61, SPACE, 0x62], [COLON, 0x61];
            var mem := text + [0, 0x62, 0] + behind;
            && TextAt(mem, 0, text) && LabelInMemory(mem, text, name) && !IsLabel(text, name)
  {
    var text, mem := [COLON, 0x61], [COLON, 0x61] + [0, 0x62, 0] + behind;
    assert mem[0..2] == text && Trimmed(text) == text && text[1..] == [0x61];
  }

  /** A piece with these bytes in front. */
  function Onto(got: seq<byte>, p: Piece): Piece {
    Piece(got + p.line, p.rest, p.eof)
  }

  lemma OntoNothing(p: Piece)
    ensures Onto([], p) == p
  {
    assert [] + p.line == p.line;
  }

  lemma OntoStep(got: seq<byte>, s: seq<byte>, n: nat)
    requires n < LIMIT
    ensures Onto(got, Read(s, n)) ==
              if s == [] then Piece(got, [], n == 0)
              else if s[0] == CR then Onto(got, Read(s[1..], n))
              else if s[0] == LF then Piece(got, s[1..], false)
              else Onto(got + [s[0]], Read(s[1..], n + 1))
  {
    assert got + [] == got;
    if s != [] && s[0] != CR && s[0] != LF {
      var p := Read(s[1..], n + 1);
      assert got + ([s[0]] + p.line) == got + [s[0]] + p.line;
    }
  }

  lemma OntoFull(got: seq<byte>, s: seq<byte>)
    ensures Onto(got, Read(s, LIMIT)) == Piece(got, s, false)
  {
    assert got + [] == got;
  }

  lemma ReadsStep(s: seq<byte>)
    ensures var p := Read(s, 0);
            Reads(s) == if p.eof then [] else [p.line] + Reads(p.rest)
  {
  }

  /** In a script whose lines fit, going to a label finds it exactly when some line
      is that label, and reading goes on with the lines that follow the first one. */
  lemma GotoInLines(file: seq<byte>, name: seq<byte>)
    requires Fits(file)
    ensures After(Reads(file), name) == After(Lines(file), name)
    ensures After(Lines(file), name).Some? <==> exists k :: 0 <= k < |Lines(file)| && IsLabel(Lines(file)[k], name)
  {
    hide IsLabel;
    ReadsAreLinesIff(file);
    AfterFindsFirst(Lines(file), name);
  }

  lemma {:induction false} AfterFindsFirst(lines: seq<seq<byte>>, name: seq<byte>)
    ensures After(lines, name).Some? <==> exists k :: 0 <= k < |lines| && IsLabel(lines[k], name)
    ensures After(lines, name).Some? ==>
              exists k :: 0 <= k < |lines| && IsLabel(lines[k], name) && After(lines, name).value == lines[k + 1..]
                          && forall j :: 0 <= j < k ==> !IsLabel(lines[j], name)
    decreases |lines|
  {
    hide IsLabel;
    if lines != [] {
      AfterFindsFirst(lines[1..], name);
      var rest := lines[1..];
      assert forall k :: 0 <= k < |rest| ==> rest[k] == lines[k + 1];
      if IsLabel(lines[0], name) {
        assert lines[0 + 1..] == rest;
      } else if After(rest, name).Some? {
        var k :| 0 <= k < |rest| && IsLabel(rest[k], name) && After(rest, name).value == rest[k + 1..]
                 && forall j :: 0 <= j < k ==> !IsLabel(rest[j], name);
        assert lines[k + 1] == rest[k] && lines[k + 1 + 1..] == rest[k + 1..];
        forall j | 0 <= j < k + 1 ensures !IsLabel(lines[j], name) {
          assert j > 0 ==> lines[j] == rest[j - 1];
        }
      }
    }
  }
}
