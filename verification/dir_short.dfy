/** 8.3 names: the padded upper-case field of a directory slot and the name shown
    for it. */
module ShortNames {
  import opened Bytes
  import opened LongNames

  const DOT: byte := 0x2E

  function FoldByte(fold: bool, b: byte): byte {
    if fold && 0x41 <= b < 0x41 + 26 then b + 0x20 else b
  }

  function Folded(fold: bool, s: seq<byte>): (r: seq<byte>)
    ensures |r| == |s|
  {
    seq(|s|, i requires 0 <= i < |s| => FoldByte(fold, s[i]))
  }

  function Trimmed(s: seq<byte>): (r: seq<byte>)
    ensures r <= s
    ensures forall i :: |r| <= i < |s| ==> s[i] == SPACE
    ensures r != [] ==> r[|r| - 1] != SPACE
  {
    if s == [] || s[|s| - 1] != SPACE then s else Trimmed(s[..|s| - 1])
  }

  predicate AllSpaces(s: seq<byte>) {
    forall i :: 0 <= i < |s| ==> s[i] == SPACE
  }

  predicate FoldBase(e: Slot) {
    e[12] / 0x08 % 2 == 1
  }

  predicate FoldExt(e: Slot) {
    e[12] / 0x10 % 2 == 1
  }

  function ShortName(e: Slot): seq<byte> {
    var base, ext := Folded(FoldBase(e), e[..8]), Folded(FoldExt(e), e[8..11]);
    Trimmed(base) + if AllSpaces(e[8..11]) then [] else [DOT] + Trimmed(ext)
  }

  /** Copies src to dst from place at on. */
  method Copy(src: seq<byte>, fold: bool, dst: array<byte>, at: nat)
    requires at + |src| <= dst.Length
    modifies dst
    ensures dst[..] == old(dst[..at]) + Folded(fold, src) + old(dst[at + |src|..])
  {
    ghost var before, all := dst[..], Folded(fold, src);
    var i := 0;
    while i < |src|
      invariant 0 <= i <= |src|
      invariant forall j :: 0 <= j < dst.Length ==> dst[j] == if at <= j < at + i then all[j - at] else before[j]
    {
      var b := src[i];
      if b < 0x41 || b >= 0x41 + 26 {
        dst[at + i] := b;
      } else {
        dst[at + i] := if fold then b + 0x20 else b;
      }
      i := i + 1;
    }
  }

  /** The byte in front of place at: in the buffer, or the one in memory before it. */
  function InFront(dst: seq<byte>, at: nat, front: byte): byte
    requires at <= |dst|
  {
    if at == 0 then front else dst[at - 1]
  }

  /** Steps back over the spaces at the end of the text in dst[at..end]. The byte in
      front of the text is looked at as well: if that is a space too, the step goes
      astray. */
  method TrimBack(dst: array<byte>, at: nat, all: seq<byte>, front: byte) returns (ok: bool, end: nat)
    requires at + |all| <= dst.Length && dst[at..at + |all|] == all
    ensures ok <==> !AllSpaces(all) || InFront(dst[..], at, front) != SPACE
    ensures ok ==> end == at + |Trimmed(all)|
  {
    hide Trimmed;
    var n := |all|;
    assert all[..n] == all;
    while (if n == 0 then InFront(dst[..], at, front) else dst[at + n - 1]) == SPACE
      invariant 0 <= n <= |all| && AllSpaces(all[n..])
      invariant Trimmed(all) == Trimmed(all[..n])
      decreases n
    {
      if n == 0 {
        assert all[0..] == all;
        return false, at;
      }
      TrimStep(all, n);
      assert dst[at + n - 1] == all[n - 1];
      n := n - 1;
    }
    assert n > 0 ==> all[n - 1] == dst[at + n - 1];
    TrimDone(all[..n]);
    ok, end := true, at + n;
  }

  lemma TrimDone(s: seq<byte>)
    requires s == [] || s[|s| - 1] != SPACE
    ensures Trimmed(s) == s
  {
  }

  lemma TrimStep(all: seq<byte>, n: nat)
    requires 0 < n <= |all|
    ensures all[n - 1] == SPACE ==> Trimmed(all[..n]) == Trimmed(all[..n - 1])
  {
    assert all[..n][..n - 1] == all[..n - 1];
  }

  method CopyTrimmed(src: seq<byte>, fold: bool, dst: array<byte>, at: nat, front: byte) returns (ok: bool, end: nat)
    requires at + |src| <= dst.Length
    modifies dst
    ensures ok <==> !AllSpaces(src) || InFront(old(dst[..]), at, front) != SPACE
    ensures ok ==> at <= end <= at + |src| && dst[..end] == old(dst[..at]) + Trimmed(Folded(fold, src))
    ensures forall i :: at + |src| <= i < dst.Length ==> dst[i] == old(dst[i])
  {
    hide Trimmed, Folded, AllSpaces;
    ghost var before := dst[..];
    Copy(src, fold, dst, at);
    FoldKeepsSpaces(fold, src);
    var all := Folded(fold, src);
    assert dst[at..at + |src|] == all;
    assert dst[..at] == before[..at];
    assert at > 0 ==> dst[at - 1] == dst[..at][at - 1] && before[at - 1] == before[..at][at - 1];
    ok, end := TrimBack(dst, at, all, front);
    assert ok ==> dst[..end] == before[..at] + Trimmed(all);
    assert dst[at + |src|..] == before[at + |src|..];
    forall i | at + |src| <= i < dst.Length ensures dst[i] == before[i] {
      assert dst[i] == dst[at + |src|..][i - (at + |src|)];
    }
  }

  lemma FoldKeepsSpaces(fold: bool, src: seq<byte>)
    ensures AllSpaces(Folded(fold, src)) <==> AllSpaces(src)
  {
    forall i | 0 <= i < |src| ensures Folded(fold, src)[i] == SPACE <==> src[i] == SPACE {
    }
  }

  /** Whether any of the bytes is not a space. */
  method AnyText(s: seq<byte>) returns (any: bool)
    ensures any == !AllSpaces(s)
  {
    var k := 0;
    while k < |s| && s[k] == SPACE
      invariant 0 <= k <= |s| && AllSpaces(s[..k])
    {
      k := k + 1;
    }
    any := k < |s|;
    assert !any ==> s[..k] == s;
  }

  /** The dot and the extension, unless the extension is blank. */
  method AddExt(ext: seq<byte>, fold: bool, dst: array<byte>, at: nat) returns (end: nat)
    requires at + 1 + |ext| <= dst.Length
    modifies dst
    ensures at <= end <= at + 1 + |ext|
    ensures dst[..end] == old(dst[..at]) + if AllSpaces(ext) then [] else [DOT] + Trimmed(Folded(fold, ext))
    ensures forall i :: at + 1 + |ext| <= i < dst.Length ==> dst[i] == old(dst[i])
  {
    hide Trimmed, Folded, AllSpaces;
    end := at;
    var any := AnyText(ext);
    if any {
      ghost var before := dst[..at];
      dst[at] := DOT;
      assert dst[..at + 1] == before + [DOT];
      var ok;
      ok, end := CopyTrimmed(ext, fold, dst, at + 1, DOT);
    }
  }

  /** The name shown for a short entry, NUL-terminated, in at most 13 bytes. For a base
      name of spaces only it goes astray exactly when the byte in front of the buffer is
      a space as well. */
  method Format(e: Slot, dst: array<byte>, front: byte) returns (ok: bool)
    requires dst.Length >= 13
    modifies dst
    ensures ok <==> !AllSpaces(e[..8]) || front != SPACE
    ensures |ShortName(e)| <= 12
    ensures ok ==> dst[..|ShortName(e)|] == ShortName(e) && dst[|ShortName(e)|] == 0
    ensures forall i :: 13 <= i < dst.Length ==> dst[i] == old(dst[i])
  {
    hide Trimmed, Folded, AllSpaces, FoldBase, FoldExt;
    var rd;
    ok, rd := CopyTrimmed(e[..8], FoldBase(e), dst, 0, front);
    if !ok {
      return;
    }
    rd := AddExt(e[8..11], FoldExt(e), dst, rd);
    assert dst[..rd] == ShortName(e);
    dst[rd] := 0;
  }

  // ----- names come back as they were given -----

  function Pad(s: seq<byte>, n: nat): (r: seq<byte>)
    requires |s| <= n
    ensures |r| == n
  {
    s + seq(n - |s|, i => SPACE)
  }

  predicate EndsInText(s: seq<byte>) {
    s != [] && s[|s| - 1] != SPACE
  }

  lemma {:induction false} TrimPad(s: seq<byte>, n: nat, fold: bool)
    requires |s| <= n && (s == [] || EndsInText(s))
    ensures Trimmed(Folded(fold, Pad(s, n))) == Folded(fold, s)
  {
    if n == |s| {
      assert Pad(s, n) == s;
    } else {
      TrimPad(s, n - 1, fold);
      assert Folded(fold, Pad(s, n))[..n - 1] == Folded(fold, Pad(s, n - 1));
    }
  }

  function Upper(s: seq<byte>): (r: seq<byte>)
    ensures |r| == |s|
  {
    seq(|s|, i requires 0 <= i < |s| => if 0x61 <= s[i] < 0x61 + 26 then s[i] - 0x20 else s[i])
  }

  /** A part of a name that needs no long entry: its letters have one case. */
  predicate OneCase(s: seq<byte>, lower: bool) {
    if lower then forall i :: 0 <= i < |s| ==> !(0x41 <= s[i] < 0x41 + 26)
    else Upper(s) == s
  }

  lemma FoldUndoesUpper(s: seq<byte>, lower: bool)
    requires OneCase(s, lower)
    ensures Folded(lower, Upper(s)) == s
  {
  }

  lemma UpperEndsInText(s: seq<byte>)
    requires EndsInText(s)
    ensures EndsInText(Upper(s))
  {
  }

  /** A name stored in upper case with its case hints is shown as it was given. */
  lemma ShortNameBack(e: Slot, base: seq<byte>, ext: seq<byte>)
    requires |base| <= 8 && |ext| <= 3 && EndsInText(base) && (ext == [] || EndsInText(ext))
    requires OneCase(base, FoldBase(e)) && OneCase(ext, FoldExt(e))
    requires e[..8] == Pad(Upper(base), 8) && e[8..11] == Pad(Upper(ext), 3)
    ensures !AllSpaces(e[..8])
    ensures ShortName(e) == base + if ext == [] then [] else [DOT] + ext
  {
    UpperEndsInText(base);
    TrimPad(Upper(base), 8, FoldBase(e));
    FoldUndoesUpper(base, FoldBase(e));
    assert e[..8][|base| - 1] != SPACE;
    if ext != [] {
      UpperEndsInText(ext);
      assert e[8..11][|ext| - 1] != SPACE;
    }
    TrimPad(Upper(ext), 3, FoldExt(e));
    FoldUndoesUpper(ext, FoldExt(e));
  }

  predicate Capitals(s: seq<byte>) {
    forall i :: 0 <= i < |s| ==> 0x41 <= s[i] <= 0x5A
  }

  function InCase(s: seq<byte>, small: bool): (r: seq<byte>)
    requires Capitals(s)
    ensures |r| == |s|
  {
    seq(|s|, i requires 0 <= i < |s| => if small then s[i] + 0x20 else s[i])
  }

  /** What a slot is shown as by the two case hints at offset 12: $08 puts the base name in
      small letters, $10 the extension, $18 both. */
  lemma CaseHints(e: Slot, base: seq<byte>, ext: seq<byte>)
    requires 1 <= |base| <= 8 && 1 <= |ext| <= 3 && Capitals(base) && Capitals(ext)
    requires e[..8] == Pad(base, 8) && e[8..11] == Pad(ext, 3) && e[12] in {0x00, 0x08, 0x10, 0x18}
    ensures ShortName(e) == InCase(base, e[12] in {0x08, 0x18}) + ([0x2E] + InCase(ext, e[12] in {0x10, 0x18}))
  {
    UpperOf(base, FoldBase(e));
    UpperOf(ext, FoldExt(e));
    HintBits(e);
    hide ShortName, Pad, Upper, OneCase, FoldBase, FoldExt, InCase;
    ShortNameBack(e, InCase(base, FoldBase(e)), InCase(ext, FoldExt(e)));
  }

  lemma HintBits(e: Slot)
    requires e[12] in {0x00, 0x08, 0x10, 0x18}
    ensures FoldBase(e) == (e[12] in {0x08, 0x18}) && FoldExt(e) == (e[12] in {0x10, 0x18})
  {
  }

  lemma UpperOf(s: seq<byte>, small: bool)
    requires Capitals(s) && s != []
    ensures var t := InCase(s, small); Upper(t) == s && OneCase(t, small) && EndsInText(t)
  {
  }
}
