/** Long file names: how the directory reader puts a name together from the slots
    in front of a short entry, and the layout it undoes. */
module LongNames {
  import opened Bytes

  const BUFFER := 128
  const PER_SLOT := 13
  const LONGEST := 117
  const LFN_ATTR := 0x0F

  type Slot = s: seq<byte> | |s| == 32 witness seq(32, i => 0)

  /** The name under construction: buffer, checksum of the short name it belongs
      to, and whether a sequence has begun. */
  datatype Lfn = Lfn(buf: seq<byte>, chk: byte, ok: bool) {
    /** A name being built ends in zero bytes that no slot can overwrite. */
    predicate Valid() {
      |buf| == BUFFER && (ok ==> forall i :: LONGEST <= i < BUFFER ==> buf[i] == 0)
    }
  }

  /** Where a slot keeps the low byte of its i-th character. */
  function CharOffset(i: nat): nat
    requires i < PER_SLOT
  {
    if i < 5 then 1 + 2 * i else if i < 11 then 4 + 2 * i else 6 + 2 * i
  }

  function Chars(e: Slot): (cs: seq<byte>)
    ensures |cs| == PER_SLOT
  {
    seq(PER_SLOT, i requires 0 <= i < PER_SLOT => e[CharOffset(i)])
  }

  /** The FAT specification's places of a slot's thirteen characters. */
  lemma CharsAre(e: Slot)
    ensures Chars(e) == [e[1], e[3], e[5], e[7], e[9], e[14], e[16], e[18], e[20], e[22], e[24], e[28], e[30]]
  {
  }

  predicate Ends(c: byte) {
    c == 0 || c == 0xFF
  }

  /** Characters copied from position pos on; the first terminator is stored as NUL
      and ends the copy. */
  function Fill(buf: seq<byte>, pos: nat, cs: seq<byte>): (r: seq<byte>)
    requires pos + |cs| <= |buf|
    ensures |r| == |buf|
    decreases |cs|
  {
    if cs == [] then buf
    else if Ends(cs[0]) then buf[pos := 0]
    else Fill(buf[pos := cs[0]], pos + 1, cs[1..])
  }

  predicate AnyEnds(cs: seq<byte>) {
    exists i :: 0 <= i < |cs| && Ends(cs[i])
  }

  function Zeros(): (z: seq<byte>)
    ensures |z| == BUFFER && forall i :: 0 <= i < BUFFER ==> z[i] == 0
  {
    seq(BUFFER, i => 0)
  }

  /** The state once the flag of a sequence's first slot has been looked at. */
  function Begun(st: Lfn, e: Slot): Lfn {
    if e[0] / 0x40 % 2 == 1 then Lfn(Zeros(), e[13], true) else st
  }

  function Processed(st: Lfn, e: Slot): Lfn
    requires |st.buf| == BUFFER
  {
    var now, index := Begun(st, e), e[0] % 0x40;
    if !now.ok then now
    else if index == 0 then now.(ok := false)
    else
      var pos := (index - 1) * PER_SLOT;
      if pos >= BUFFER - PER_SLOT then now
      else now.(buf := Fill(now.buf, pos, Chars(e)))
  }

  // ----- the code -----

  class Assembler {
    const lfn: array<byte>
    var chk: byte
    var ok: bool

    constructor ()
      ensures fresh(lfn) && lfn.Length == BUFFER && !ok
    {
      lfn := new byte[BUFFER];
      chk, ok := 0, false;
    }

    ghost function Value(): Lfn
      reads this, lfn
    {
      Lfn(lfn[..], chk, ok)
    }

    /** Copies n characters from every other byte of e, starting at from. */
    method Extract(e: Slot, from: nat, n: nat, rb: nat) returns (next: nat, ended: bool)
      requires lfn.Length == BUFFER && rb + n <= BUFFER
      requires n > 0 ==> from + 2 * (n - 1) < 32
      modifies lfn
      ensures var cs := seq(n, i requires 0 <= i < n => e[from + 2 * i]);
              && lfn[..] == Fill(old(lfn[..]), rb, cs)
              && ended == AnyEnds(cs)
              && (!ended ==> next == rb + n)
    {
      ghost var cs := seq(n, i requires 0 <= i < n => e[from + 2 * i]);
      ghost var was := lfn[..];
      var rf, rc := from, n;
      next := rb;
      while rc > 0
        invariant 0 <= rc <= n && rf == from + 2 * (n - rc) && next == rb + (n - rc)
        invariant Fill(was, rb, cs) == Fill(lfn[..], next, cs[n - rc..])
        invariant forall i :: 0 <= i < n - rc ==> !Ends(cs[i])
      {
        var d := e[rf];
        assert d == cs[n - rc];
        if d == 0 || d == 0xFF {
          lfn[next] := 0;
          return next, true;
        }
        lfn[next] := d;
        next, rf, rc := next + 1, rf + 2, rc - 1;
      }
      ended := false;
    }

    /** One long-name slot. */
    method Process(e: Slot)
      requires Value().Valid()
      modifies this, lfn
      ensures Value() == Processed(old(Value()), e)
      ensures Value().Valid()
    {
      hide Fill, AnyEnds;
      ghost var before := Value();
      ProcessedKeepsTail(before, e);
      if e[0] / 0x40 % 2 == 1 {
        chk, ok := e[13], true;
        forall i | 0 <= i < BUFFER {
          lfn[i] := 0;
        }
        assert lfn[..] == Zeros();
      } else if !ok {
        return;
      }
      var index := e[0] % 0x40;
      if index == 0 {
        ok := false;
        return;
      }
      var pos, left := 0, index - 1;
      while left > 0
        invariant 0 <= left < index && pos == (index - 1 - left) * PER_SLOT
      {
        pos, left := pos + PER_SLOT, left - 1;
      }
      if pos >= BUFFER - PER_SLOT {
        return;
      }
      CharsInFields(e, lfn[..], pos);
      var rb, ended := Extract(e, 1, 5, pos);
      if ended {
        return;
      }
      rb, ended := Extract(e, 14, 6, rb);
      if ended {
        return;
      }
      rb, ended := Extract(e, 28, 2, rb);
    }
  }

  function Field(e: Slot, from: nat, n: nat): seq<byte>
    requires n > 0 ==> from + 2 * (n - 1) < 32
  {
    seq(n, i requires 0 <= i < n => e[from + 2 * i])
  }

  /** Filling from the three fields in turn is filling from all thirteen characters. */
  lemma CharsInFields(e: Slot, buf: seq<byte>, pos: nat)
    requires pos + PER_SLOT <= |buf|
    ensures var a, b, c := Field(e, 1, 5), Field(e, 14, 6), Field(e, 28, 2);
            Fill(buf, pos, Chars(e)) ==
              if AnyEnds(a) then Fill(buf, pos, a)
              else if AnyEnds(b) then Fill(Fill(buf, pos, a), pos + 5, b)
              else Fill(Fill(Fill(buf, pos, a), pos + 5, b), pos + 11, c)
  {
    hide Fill, AnyEnds;
    var a, b, c := Field(e, 1, 5), Field(e, 14, 6), Field(e, 28, 2);
    assert Chars(e) == a + (b + c);
    FillSplit(buf, pos, a, b + c);
    FillSplit(Fill(buf, pos, a), pos + 5, b, c);
  }

  lemma {:induction false} FillSplit(buf: seq<byte>, pos: nat, a: seq<byte>, b: seq<byte>)
    requires pos + |a| + |b| <= |buf|
    ensures Fill(buf, pos, a + b) == if AnyEnds(a) then Fill(buf, pos, a) else Fill(Fill(buf, pos, a), pos + |a|, b)
    decreases |a|
  {
    if a == [] {
      assert a + b == b;
    } else {
      assert (a + b)[0] == a[0] && (a + b)[1..] == a[1..] + b;
      if !Ends(a[0]) {
        FillSplit(buf[pos := a[0]], pos + 1, a[1..], b);
        assert AnyEnds(a) <==> AnyEnds(a[1..]) by {
          if AnyEnds(a) {
            var i :| 0 <= i < |a| && Ends(a[i]);
            assert a[1..][i - 1] == a[i];
          }
          if AnyEnds(a[1..]) {
            var i :| 0 <= i < |a| - 1 && Ends(a[1..][i]);
            assert a[i + 1] == a[1..][i];
          }
        }
      }
    }
  }

  // ----- safety -----

  /** What a fill leaves at each place: n is the number of characters before the
      first terminator. */
  lemma {:induction false} FillAt(buf: seq<byte>, pos: nat, cs: seq<byte>, n: nat, i: nat)
    requires pos + |cs| <= |buf| && n <= |cs| && i < |buf|
    requires forall j :: 0 <= j < n ==> !Ends(cs[j])
    requires n < |cs| ==> Ends(cs[n])
    ensures Fill(buf, pos, cs)[i] ==
              if pos <= i < pos + n then cs[i - pos] else if i == pos + n && n < |cs| then 0 else buf[i]
    decreases |cs|
  {
    if n > 0 {
      FillAt(buf[pos := cs[0]], pos + 1, cs[1..], n - 1, i);
    }
  }

  lemma {:induction false} FillOutside(buf: seq<byte>, pos: nat, cs: seq<byte>, i: nat)
    requires pos + |cs| <= i < |buf|
    ensures Fill(buf, pos, cs)[i] == buf[i]
    decreases |cs|
  {
    if cs != [] && !Ends(cs[0]) {
      FillOutside(buf[pos := cs[0]], pos + 1, cs[1..], i);
    }
  }

  /** No slot, whatever its sequence byte, reaches past the buffer or touches the
      zero bytes that end the name. */
  lemma ProcessedKeepsTail(st: Lfn, e: Slot)
    requires st.Valid()
    ensures Processed(st, e).Valid()
  {
    hide Fill;
    var now, index := Begun(st, e), e[0] % 0x40;
    var pos := (index - 1) * PER_SLOT;
    if now.ok && 0 < index && pos < BUFFER - PER_SLOT {
      assert pos <= LONGEST - PER_SLOT;
      forall i | LONGEST <= i < BUFFER ensures Fill(now.buf, pos, Chars(e))[i] == 0 {
        FillOutside(now.buf, pos, Chars(e), i);
      }
    }
  }

  // ----- the layout of a long name -----

  function SlotCount(n: nat): nat {
    (n + PER_SLOT - 1) / PER_SLOT
  }

  /** Character i of a name as the layout pads it: NUL after the end, then $FF. */
  function Padded(name: seq<byte>, i: nat): byte {
    if i < |name| then name[i] else if i == |name| then 0 else 0xFF
  }

  /** Slot k of a name, counted from 1; the one with the last characters is flagged. */
  function NameSlot(name: seq<byte>, k: nat, chk: byte): (e: Slot)
    requires 1 <= k <= 63
  {
    var c := (i: nat) => Padded(name, (k - 1) * PER_SLOT + i);
    [if k == SlotCount(|name|) then 0x40 + k else k,
     c(0), 0, c(1), 0, c(2), 0, c(3), 0, c(4), 0,
     LFN_ATTR, 0, chk,
     c(5), 0, c(6), 0, c(7), 0, c(8), 0, c(9), 0, c(10), 0,
     0, 0,
     c(11), 0, c(12), 0]
  }

  /** Slots k, k - 1, ..., 1: the order they have on disk. */
  function NameSlots(name: seq<byte>, k: nat, chk: byte): (es: seq<Slot>)
    requires k <= 63
    ensures |es| == k
  {
    if k == 0 then [] else [NameSlot(name, k, chk)] + NameSlots(name, k - 1, chk)
  }

  function ProcessedAll(st: Lfn, es: seq<Slot>): Lfn
    requires |st.buf| == BUFFER
    decreases |es|
  {
    if es == [] then st else ProcessedAll(Processed(st, es[0]), es[1..])
  }

  predicate IsName(name: seq<byte>) {
    && 1 <= |name| <= 63 * PER_SLOT
    && forall i :: 0 <= i < |name| ==> !Ends(name[i])
  }

  /** What the buffer holds once the slots from k + 1 up have been taken in. */
  ghost predicate Holds(st: Lfn, name: seq<byte>, k: nat, chk: byte) {
    && st.ok && st.chk == chk && |st.buf| == BUFFER
    && forall i :: 0 <= i < BUFFER ==> st.buf[i] == if k * PER_SLOT <= i < |name| && i < LONGEST then name[i] else 0
  }

  lemma NameSlotFields(name: seq<byte>, k: nat, chk: byte)
    requires IsName(name) && 1 <= k <= SlotCount(|name|)
    ensures var e := NameSlot(name, k, chk);
            && e[0] % 0x40 == k && (e[0] / 0x40 % 2 == 1 <==> k == SlotCount(|name|)) && e[13] == chk
            && e[11] == LFN_ATTR && e[0] != 0 && e[0] != 0xE5
            && forall i :: 0 <= i < PER_SLOT ==> Chars(e)[i] == Padded(name, (k - 1) * PER_SLOT + i)
  {
  }

  /** One slot of the layout fills in its thirteen characters. */
  lemma SlotTakenIn(st: Lfn, name: seq<byte>, k: nat, chk: byte)
    requires IsName(name) && 1 <= k <= SlotCount(|name|)
    requires k < SlotCount(|name|) ==> Holds(st, name, k, chk)
    requires |st.buf| == BUFFER
    ensures Holds(Processed(st, NameSlot(name, k, chk)), name, k - 1, chk)
  {
    hide Fill, NameSlot, Chars, Zeros;
    var e := NameSlot(name, k, chk);
    NameSlotFields(name, k, chk);
    var now, pos := Begun(st, e), (k - 1) * PER_SLOT;
    assert Holds(now, name, k, chk);
    if pos < BUFFER - PER_SLOT {
      var n := if |name| - pos < PER_SLOT then |name| - pos else PER_SLOT;
      forall i | 0 <= i < BUFFER
        ensures Fill(now.buf, pos, Chars(e))[i] == if pos <= i < |name| && i < LONGEST then name[i] else 0
      {
        FillAt(now.buf, pos, Chars(e), n, i);
      }
    }
  }

  lemma {:induction false} NameTakenIn(st: Lfn, name: seq<byte>, k: nat, chk: byte)
    requires IsName(name) && 1 <= k <= SlotCount(|name|)
    requires k < SlotCount(|name|) ==> Holds(st, name, k, chk)
    requires |st.buf| == BUFFER
    ensures Holds(ProcessedAll(st, NameSlots(name, k, chk)), name, 0, chk)
    decreases k
  {
    hide Holds, Processed, NameSlot, Fill;
    SlotTakenIn(st, name, k, chk);
    var es, now := NameSlots(name, k, chk), Processed(st, NameSlot(name, k, chk));
    assert es[1..] == NameSlots(name, k - 1, chk);
    if k > 1 {
      HoldsFits(now, name, k - 1, chk);
      NameTakenIn(now, name, k - 1, chk);
    } else {
      assert ProcessedAll(st, es) == now;
    }
  }

  lemma HoldsFits(st: Lfn, name: seq<byte>, k: nat, chk: byte)
    requires Holds(st, name, k, chk)
    ensures |st.buf| == BUFFER
  {
  }

  /** The NUL-terminated text at the front of a buffer. */
  function CString(buf: seq<byte>): (s: seq<byte>)
    ensures |s| <= |buf|
    ensures forall i :: 0 <= i < |s| ==> s[i] == buf[i] && s[i] != 0
    ensures |s| < |buf| ==> buf[|s|] == 0
  {
    if buf == [] || buf[0] == 0 then [] else [buf[0]] + CString(buf[1..])
  }

  lemma CStringIs(buf: seq<byte>, s: seq<byte>)
    requires |s| < |buf| && buf[|s|] == 0
    requires forall i :: 0 <= i < |s| ==> s[i] == buf[i] && s[i] != 0
    ensures CString(buf) == s
  {
    var t := CString(buf);
    assert |t| == |s|;
  }

  /** Decoding undoes the layout: whatever came before, taking in the slots of a name
      gives the name back, cut at 117 characters, with its checksum. */
  lemma NameDecoded(st: Lfn, name: seq<byte>, chk: byte)
    requires IsName(name) && |st.buf| == BUFFER
    ensures var out := ProcessedAll(st, NameSlots(name, SlotCount(|name|), chk));
            && out.ok && out.chk == chk && |out.buf| == BUFFER
            && CString(out.buf) == if |name| <= LONGEST then name else name[..LONGEST]
  {
    hide ProcessedAll, NameSlots;
    NameTakenIn(st, name, SlotCount(|name|), chk);
    var out := ProcessedAll(st, NameSlots(name, SlotCount(|name|), chk));
    CStringIs(out.buf, if |name| <= LONGEST then name else name[..LONGEST]);
  }

  // ----- the checksum -----

  function Rotated(s: byte): byte {
    s / 2 + 128 * (s % 2)
  }

  function Checksum(name: seq<byte>): byte {
    if name == [] then 0 else (Rotated(Checksum(name[..|name| - 1])) + name[|name| - 1]) % 256
  }

  method ComputeChecksum(e: seq<byte>) returns (sum: byte)
    requires |e| >= 11
    ensures sum == Checksum(e[..11])
  {
    sum := 0;
    var i := 0;
    while i < 11
      invariant 0 <= i <= 11
      invariant sum == Checksum(e[..i])
    {
      var odd := sum % 2 == 1;
      var d: byte := sum / 2;
      if odd {
        d := d + 0x80;
      }
      assert e[..i + 1][..i] == e[..i];
      sum, i := (e[i] + d) % 256, i + 1;
    }
  }

  /** The rotation is to the right: the bit that falls out comes in at the top. */
  lemma RotatedIs(x: byte)
    requires x < 128
    ensures Rotated(2 * x) == x && Rotated(2 * x + 1) == x + 128
  {
  }

  /** The name README.TXT has the checksum $73. */
  lemma ChecksumExample()
    ensures Checksum([0x52, 0x45, 0x41, 0x44, 0x4D, 0x45, 0x20, 0x20, 0x54, 0x58, 0x54]) == 0x73
  {
    var name: seq<byte> := [0x52, 0x45, 0x41, 0x44, 0x4D, 0x45, 0x20, 0x20, 0x54, 0x58, 0x54];
    var sums: seq<byte> := [0x00, 0x52, 0x6E, 0x78, 0x80, 0x8D, 0x0B, 0xA5, 0xF2, 0xCD, 0x3E, 0x73];
    ChecksumSteps(name, sums, |name|);
    assert name[..|name|] == name;
  }

  lemma {:induction false} ChecksumSteps(name: seq<byte>, sums: seq<byte>, n: nat)
    requires n <= |name| < |sums| && sums[0] == 0
    requires forall i :: 0 <= i < |name| ==> sums[i + 1] == (Rotated(sums[i]) + name[i]) % 256
    ensures Checksum(name[..n]) == sums[n]
  {
    if n > 0 {
      ChecksumSteps(name, sums, n - 1);
      assert name[..n][..n - 1] == name[..n - 1];
    }
  }

  lemma RotatedInjective(a: byte, b: byte)
    requires Rotated(a) == Rotated(b)
    ensures a == b
  {
    assert a / 2 < 128 && b / 2 < 128;
  }

  lemma AddInjective(a: byte, b: byte, c: byte)
    requires (a + c) % 256 == (b + c) % 256
    ensures a == b
  {
  }

  lemma {:induction false} CommonTail(a: seq<byte>, b: seq<byte>, tail: seq<byte>)
    requires Checksum(a) != Checksum(b)
    ensures Checksum(a + tail) != Checksum(b + tail)
  {
    if tail == [] {
      assert a + tail == a && b + tail == b;
    } else {
      var n := |tail| - 1;
      CommonTail(a, b, tail[..n]);
      assert (a + tail)[..|a + tail| - 1] == a + tail[..n] && (b + tail)[..|b + tail| - 1] == b + tail[..n];
      var x, y := Checksum(a + tail[..n]), Checksum(b + tail[..n]);
      if (Rotated(x) + tail[n]) % 256 == (Rotated(y) + tail[n]) % 256 {
        AddInjective(Rotated(x), Rotated(y), tail[n]);
        RotatedInjective(x, y);
      }
    }
  }

  /** A long name whose short entry has since had one byte changed is never taken for
      that entry's: the checksum differs. */
  lemma OneByteChangeSeen(name: seq<byte>, i: nat, x: byte)
    requires i < |name| && x != name[i]
    ensures Checksum(name[i := x]) != Checksum(name)
  {
    var a, b := name[..i + 1], name[i := x][..i + 1];
    assert a[..i] == b[..i];
    if Checksum(a) == Checksum(b) {
      AddInjective(name[i], x, Rotated(Checksum(a[..i])));
    }
    CommonTail(b, a, name[i + 1..]);
    assert b + name[i + 1..] == name[i := x] && a + name[i + 1..] == name;
  }
}
