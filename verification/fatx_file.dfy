/** The tool's volume object: walking chains, storing a file, reading it back. */
module FatToolFiles {
  import opened Bytes
  import opened FatEntry
  import opened FatChains
  import opened FatTool
  import LongNames
  import ShortNames
  import DirList
  import DirReader

  /** What storing a file comes to: its clusters, or one of the two ways to fail. */
  datatype Outcome = Stored(cs: seq<nat>) | NoCluster | RootFull

  function Need(l: Layout, n: nat): nat
    requires l.spc > 0
  {
    var k := (n + l.ClusterSize() - 1) / l.ClusterSize();
    if k < 1 then 1 else k
  }

  /** The clusters a file of n bytes gets: the first free ones, as far as there are any. */
  function Taken(fat: seq<byte>, l: Layout, n: nat): seq<nat>
    requires l.Sound() && |fat| == 512 * l.spf
  {
    var free := FreeFrom(fat, l.Is16(), 2, l.count + 1);
    free[..Min(Need(l, n), |free|)]
  }

  // ----- the root directory -----

  function SlotAt(l: Layout, j: nat): nat {
    512 * l.RootSec() + 32 * j
  }

  /** The first root slot from j on that is unused or deleted. */
  function FirstSlot(file: seq<byte>, l: Layout, j: nat): (r: Option<nat>)
    requires 512 * l.Data0() <= |file|
    ensures r.Some? ==> j <= r.value < 16 * l.RootSectors()
    decreases 16 * l.RootSectors() - j
  {
    if j >= 16 * l.RootSectors() then None
    else if file[SlotAt(l, j)] == 0 || file[SlotAt(l, j)] == 0xE5 then Some(j)
    else FirstSlot(file, l, j + 1)
  }

  /** It is the least one whose first byte is 0 or $E5, if any is. */
  lemma {:induction false} FirstSlotIs(file: seq<byte>, l: Layout, j: nat)
    requires 512 * l.Data0() <= |file|
    ensures match FirstSlot(file, l, j) {
              case Some(r) =>
                && j <= r < 16 * l.RootSectors() && file[SlotAt(l, r)] in {0, 0xE5}
                && forall k :: j <= k < r ==> file[SlotAt(l, k)] !in {0, 0xE5}
              case None => forall k :: j <= k < 16 * l.RootSectors() ==> file[SlotAt(l, k)] !in {0, 0xE5}
            }
    decreases 16 * l.RootSectors() - j
  {
    hide Times;
    if j < 16 * l.RootSectors() {
      FirstSlotIs(file, l, j + 1);
    }
  }

  predicate IsLower(s: seq<byte>) {
    && (exists i :: 0 <= i < |s| && 0x61 <= s[i] < 0x61 + 26)
    && (forall i :: 0 <= i < |s| ==> !(0x41 <= s[i] < 0x41 + 26))
  }

  /** The slot of a new file. */
  function NewSlot(base: seq<byte>, ext: seq<byte>, first: nat, size: nat): (e: LongNames.Slot)
    requires |base| <= 8 && |ext| <= 3 && first < 0x10000 && size < 0x1_0000_0000
  {
    ShortNames.Pad(ShortNames.Upper(base), 8) + ShortNames.Pad(ShortNames.Upper(ext), 3)
    + [0x20, (if IsLower(base) then 0x08 else 0) + (if IsLower(ext) then 0x10 else 0)]
    + [0, 0, 0, 0, 0, 0, 0, 0, 0]
    + [0, 0, 0x21, 0x5A, first % 256, first / 256]
    + [size % 256, size / 256 % 256, size / 65536 % 256, size / 16777216]
  }

  /** First cluster and size as a directory slot gives them, low bytes first. */
  function FirstIn(e: LongNames.Slot): nat {
    DirReader.Le16(e, 26)
  }

  function SizeIn(e: LongNames.Slot): nat {
    DirReader.Le16(e, 28) + 0x10000 * DirReader.Le16(e, 30)
  }

  /** The slot of a new file says where the file begins and how long it is. */
  lemma SlotPointsAt(base: seq<byte>, ext: seq<byte>, first: nat, size: nat)
    requires |base| <= 8 && |ext| <= 3 && first < 0x10000 && size < 0x1_0000_0000
    ensures var e := NewSlot(base, ext, first, size); FirstIn(e) == first && SizeIn(e) == size
    ensures var e := NewSlot(base, ext, first, size); e[11] == 0x20 && e[13..26] == [0, 0, 0, 0, 0, 0, 0, 0, 0, 0, 0, 0x21, 0x5A]
  {
    SizeBytes(size);
  }

  lemma SizeBytes(n: nat)
    requires n < 0x1_0000_0000
    ensures n % 256 + 256 * (n / 256 % 256) + 0x10000 * (n / 65536 % 256 + 256 * (n / 16777216)) == n
  {
    var q := n / 256;
    var r := q / 256;
    assert n == 256 * q + n % 256 && q == 256 * r + q % 256 && r == 256 * (r / 256) + r % 256;
    assert n / 65536 == r && n / 16777216 == r / 256;
  }

  /** The whole file system image after a file is stored. */
  function Image(file: seq<byte>, l: Layout, fat: seq<byte>, cs: seq<nat>, data: seq<byte>, slot: Option<nat>,
                 e: LongNames.Slot): (r: seq<byte>)
    requires l.Sound() && |fat| == 512 * l.spf && Within(cs, 2, l.count + 2) && l.At(l.count + 2) <= |file|
    requires slot.Some? ==> slot.value < 16 * l.RootSectors()
    ensures |r| == |file|
  {
    var stored := FatsWritten(Written(file, l, cs, data, |cs|), l, fat, l.nfats);
    match slot
    case None => stored
    case Some(j) => Splice(stored, SlotAt(l, j), e)
  }

  class Vol {
    const l: Layout
    const fat: array<byte>
    var file: seq<byte>

    ghost predicate Valid()
      reads this, fat
    {
      l.Sound() && fat.Length == 512 * l.spf && l.At(l.count + 2) <= |file|
    }

    constructor (layout: Layout, image: seq<byte>)
      requires layout.Sound() && layout.At(layout.count + 2) <= |image|
      ensures Valid() && fresh(fat) && l == layout && file == image
      ensures 512 * (layout.rsvd + layout.spf) <= |image| ==>
                fat[..] == image[512 * layout.rsvd..512 * (layout.rsvd + layout.spf)]
    {
      l, file := layout, image;
      var n, from := 512 * layout.spf, 512 * layout.rsvd;
      fat := new byte[n](i => if 0 <= from + i < |image| then image[from + i] else 0);
    }

    method Get(c: nat) returns (v: nat)
      requires Fits(fat.Length, l.Is16(), c)
      ensures v == FatEntry.Get(fat[..], l.Is16(), c)
    {
      if !l.Is16() {
        var o := c + c / 2;
        var w := Word(fat[o], fat[o + 1]);
        v := if c % 2 == 1 then w / 16 else w % 4096;
      } else {
        v := Word(fat[2 * c], fat[2 * c + 1]);
      }
    }

    method Set(c: nat, v: nat)
      requires Fits(fat.Length, l.Is16(), c) && v < 65536
      modifies fat
      ensures fat[..] == Put(old(fat[..]), l.Is16(), c, v)
    {
      if !l.Is16() {
        var o, x := c + c / 2, v % 4096;
        if c % 2 == 1 {
          fat[o] := fat[o] % 16 + x % 16 * 16;
          fat[o + 1] := x / 16;
        } else {
          fat[o] := x % 256;
          fat[o + 1] := fat[o + 1] / 16 * 16 + x / 256;
        }
      } else {
        fat[2 * c] := v % 256;
        fat[2 * c + 1] := v / 256;
      }
    }

    /** The chain from c; a walk of more than count + 2 clusters is given up. */
    method ChainFrom(c: nat) returns (w: Walk)
      ensures w == Walked(fat[..], l.Is16(), l.count + 2, c, [])
    {
      var out, at := [], c;
      while IsCluster(l.Is16(), at)
        invariant |out| <= l.count + 2
        invariant Walked(fat[..], l.Is16(), l.count + 2, c, []) == Walked(fat[..], l.Is16(), l.count + 2, at, out)
        decreases l.count + 2 - |out|
      {
        if !Fits(fat.Length, l.Is16(), at) {
          return OutOfRange;
        }
        var next := Get(at);
        if |out| + 1 > l.count + 2 {
          return Loop;
        }
        out, at := out + [at], next;
      }
      return Chain(out);
    }

    method Write(at: nat, data: seq<byte>)
      requires at + |data| <= |file|
      modifies this`file
      ensures file == Splice(old(file), at, data)
    {
      file := file[..at] + data + file[at + |data|..];
    }

    method Flush()
      requires Valid()
      modifies this`file
      ensures file == FatsWritten(old(file), l, fat[..], l.nfats)
    {
      hide Splice, Times;
      RootInFile(l, |file|);
      for i := 0 to l.nfats
        invariant |file| == |old(file)|
        invariant file == FatsWritten(old(file), l, fat[..], i)
      {
        CopyInFats(l, i);
        Write(l.FatAt(i), fat[..]);
      }
    }

    /** The contents of a file whose slot gives this cluster and size. */
    method ReadFile(first: nat, size: nat) returns (data: Option<seq<byte>>)
      requires Valid()
      ensures var w := Walked(fat[..], l.Is16(), l.count + 2, first, []);
              && (w.Chain? ==> Numbered(w.cs))
              && data == if w.Chain? then Some(Joined(file, l, w.cs)[..Min(size, |Joined(file, l, w.cs)|)]) else None
    {
      hide Walked, Joined, Times;
      WalkedNumbered(fat[..], l.Is16(), l.count + 2, first, []);
      var w := ChainFrom(first);
      if !w.Chain? {
        return None;
      }
      var all := Join(w.cs);
      return Some(all[..Min(size, |all|)]);
    }

    method Join(cs: seq<nat>) returns (all: seq<byte>)
      requires Numbered(cs)
      ensures all == Joined(file, l, cs)
    {
      hide Times, Joined;
      var i := 0;
      all := [];
      assert cs[0..] == cs;
      while i < |cs|
        invariant 0 <= i <= |cs|
        invariant all + Joined(file, l, cs[i..]) == Joined(file, l, cs)
      {
        JoinedStep(file, l, cs, i);
        all := all + ReadAt(file, l.At(cs[i]), l.ClusterSize());
        i := i + 1;
      }
      JoinedNone(file, l);
      assert cs[i..] == [];
    }

    method FindFree() returns (cs: seq<nat>)
      requires Valid()
      ensures cs == FreeFrom(fat[..], l.Is16(), 2, l.count + 1)
    {
      hide FreeFrom, FatEntry.Get;
      var c := 2;
      cs := [];
      while c < l.count + 2
        invariant c >= 2
        invariant cs + FreeFrom(fat[..], l.Is16(), c, l.count + 1) == FreeFrom(fat[..], l.Is16(), 2, l.count + 1)
        decreases l.count + 2 - c
      {
        FreeFromStep(fat[..], l.Is16(), c, l.count + 1);
        var v := Get(c);
        if v == 0 {
          cs := cs + [c];
        }
        c := c + 1;
      }
      FreeFromStep(fat[..], l.Is16(), c, l.count + 1);
    }

    /** Links the clusters in the FAT and writes their data. */
    method Store(cs: seq<nat>, data: seq<byte>)
      requires Valid() && Within(cs, 2, l.count + 2)
      modifies this`file, fat
      ensures Valid()
      ensures forall k :: 0 <= k < |cs| ==> cs[k] < 65536 && Fits(fat.Length, l.Is16(), cs[k])
      ensures fat[..] == Linked(old(fat[..]), l.Is16(), cs, |cs|)
      ensures file == Written(old(file), l, cs, data, |cs|)
    {
      hide Splice, Put, Chunk, Times;
      ghost var fat0 := fat[..];
      for i := 0 to |cs|
        invariant Valid() && |file| == |old(file)|
        invariant fat[..] == Linked(fat0, l.Is16(), cs, i)
        invariant file == Written(old(file), l, cs, data, i)
      {
        Set(cs[i], if i + 1 < |cs| then cs[i + 1] else LAST_MARK);
        ClusterInFile(l, cs[i], |file|);
        Write(l.At(cs[i]), Chunk(data, l.ClusterSize(), i));
      }
    }

    method FindSlot() returns (slot: Option<nat>)
      requires Valid()
      ensures slot == FirstSlot(file, l, 0)
    {
      RootInFile(l, |file|);
      var j := 0;
      while j < 16 * l.RootSectors()
        invariant FirstSlot(file, l, 0) == FirstSlot(file, l, j)
      {
        var b := file[SlotAt(l, j)];
        if b == 0 || b == 0xE5 {
          return Some(j);
        }
        j := j + 1;
      }
      return None;
    }

    /** putroot. The FATs and the data are written before the directory is looked at. */
    method PutRoot(base: seq<byte>, ext: seq<byte>, data: seq<byte>) returns (r: Outcome)
      requires Valid() && |base| <= 8 && |ext| <= 3 && |data| < 0x1_0000_0000
      modifies this`file, fat
      ensures Valid()
      ensures var cs := Taken(old(fat[..]), l, |data|);
              var slot := FirstSlot(old(file), l, 0);
              && Within(cs, 2, l.count + 2)
              && r == (if slot.None? then RootFull else if cs == [] then NoCluster else Stored(cs))
              && (forall k :: 0 <= k < |cs| ==> Fits(fat.Length, l.Is16(), cs[k]))
              && fat[..] == Linked(old(fat[..]), l.Is16(), cs, |cs|)
              && (r.Stored? ==> file == Image(old(file), l, fat[..], cs, data, slot, NewSlot(base, ext, cs[0], |data|)))
              && (r.Stored? ==> var at := 512 * (l.rsvd + l.nfats * l.spf) + 32 * slot.value;
                                at + 32 <= |file| && FirstIn(file[at..at + 32]) == cs[0] && SizeIn(file[at..at + 32]) == |data|)
              && (!r.Stored? ==> file == FatsWritten(Written(old(file), l, cs, data, |cs|), l, fat[..], l.nfats))
    {
      hide Times, FreeFrom, Splice, FirstSlot, Written, FatsWritten, Linked, NewSlot, FirstIn, SizeIn;
      RootInFile(l, |file|);
      TakenFits(fat[..], l, |data|);
      var free := FindFree();
      var need := Need(l, |data|);
      var cs := if |free| < need then free else free[..need];
      assert cs == Taken(fat[..], l, |data|);
      Store(cs, data);
      Flush();
      SlotKept(old(file), l, fat[..], cs, data);
      var slot := FindSlot();
      if slot.None? {
        return RootFull;
      }
      if cs == [] {
        return NoCluster;
      }
      SlotInFile(l, slot.value, |file|);
      var e := NewSlot(base, ext, cs[0], |data|);
      Write(SlotAt(l, slot.value), e);
      SlotPointsAt(base, ext, cs[0], |data|);
      TimesIs(l.nfats, l.spf);
      return Stored(cs);
    }
  }

  lemma {:induction false} WalkedNumbered(fat: seq<byte>, is16: bool, limit: nat, c: nat, out: seq<nat>)
    requires |out| <= limit && Numbered(out)
    ensures var w := Walked(fat, is16, limit, c, out); w.Chain? ==> Numbered(w.cs)
    decreases limit + 1 - |out|
  {
    hide FatEntry.Get;
    if IsCluster(is16, c) && Fits(|fat|, is16, c) && |out| + 1 <= limit {
      WalkedNumbered(fat, is16, limit, FatEntry.Get(fat, is16, c), out + [c]);
    }
  }

  lemma JoinedStep(file: seq<byte>, l: Layout, cs: seq<nat>, i: nat)
    requires Numbered(cs) && i < |cs|
    ensures Joined(file, l, cs[i..]) == ReadAt(file, l.At(cs[i]), l.ClusterSize()) + Joined(file, l, cs[i + 1..])
  {
    hide Times;
    assert cs[i..][1..] == cs[i + 1..] && cs[i..][0] == cs[i];
  }

  lemma JoinedNone(file: seq<byte>, l: Layout)
    ensures Joined(file, l, []) == []
  {
  }

  lemma TimesIs(a: nat, b: nat)
    ensures Times(a, b) == a * b
  {
  }

  lemma RootInFile(l: Layout, length: nat)
    requires l.At(l.count + 2) <= length
    ensures 512 * l.RootSec() <= 512 * l.Data0() <= length
  {
    hide Times;
  }

  lemma SlotInFile(l: Layout, j: nat, length: nat)
    requires l.At(l.count + 2) <= length && j < 16 * l.RootSectors()
    ensures 512 * l.RootSec() <= SlotAt(l, j) && SlotAt(l, j) + 32 <= 512 * l.Data0() <= length
  {
    hide Times;
  }

  lemma TakenFits(fat: seq<byte>, l: Layout, n: nat)
    requires l.Sound() && |fat| == 512 * l.spf
    ensures var cs := Taken(fat, l, n);
            && FatChains.Free(fat, l.Is16(), cs) && Clusters(l, cs)
            && forall k :: 0 <= k < |cs| ==> cs[k] < 65536 && Fits(|fat|, l.Is16(), cs[k])
  {
    hide FreeFrom, FatEntry.Get;
    FreeFromIs(fat, l.Is16(), 2, l.count + 1);
  }

  /** Writing clusters and FATs leaves the root directory alone. */
  lemma RootKept(file: seq<byte>, l: Layout, fat: seq<byte>, cs: seq<nat>, data: seq<byte>)
    requires l.Sound() && |fat| == 512 * l.spf && Within(cs, 2, l.count + 2) && l.At(l.count + 2) <= |file|
    ensures 512 * l.RootSec() <= 512 * l.Data0() <= |file|
    ensures Same(FatsWritten(Written(file, l, cs, data, |cs|), l, fat, l.nfats), file, 512 * l.RootSec(), 512 * l.Data0())
  {
    hide Times, Written, FatsWritten;
    RootInFile(l, |file|);
    forall k | 0 <= k < |cs| ensures 512 * l.Data0() <= l.At(cs[k]) {
      ClusterInFile(l, cs[k], |file|);
    }
    WrittenElsewhere(file, l, cs, data, |cs|, 512 * l.RootSec(), 512 * l.Data0());
    FatsElsewhere(Written(file, l, cs, data, |cs|), l, fat, l.nfats);
  }

  lemma {:induction false} FirstSlotSame(a: seq<byte>, b: seq<byte>, l: Layout, j: nat)
    requires 512 * l.Data0() <= |a| == |b| && Same(a, b, 512 * l.RootSec(), 512 * l.Data0())
    ensures FirstSlot(a, l, j) == FirstSlot(b, l, j)
    decreases 16 * l.RootSectors() - j
  {
    hide Times;
    if j < 16 * l.RootSectors() {
      FirstSlotSame(a, b, l, j + 1);
    }
  }

  lemma SlotKept(file: seq<byte>, l: Layout, fat: seq<byte>, cs: seq<nat>, data: seq<byte>)
    requires l.Sound() && |fat| == 512 * l.spf && Within(cs, 2, l.count + 2) && l.At(l.count + 2) <= |file|
    ensures 512 * l.RootSec() <= 512 * l.Data0() <= |file|
    ensures FirstSlot(FatsWritten(Written(file, l, cs, data, |cs|), l, fat, l.nfats), l, 0) == FirstSlot(file, l, 0)
  {
    hide Times, Written, FatsWritten, FirstSlot, Same;
    RootKept(file, l, fat, cs, data);
    FirstSlotSame(FatsWritten(Written(file, l, cs, data, |cs|), l, fat, l.nfats), file, l, 0);
  }

  // ----- storing, then reading -----

  /** Bytes of the data region are those written, whatever happens in the FATs and
      the root directory. */
  lemma ImageData(file: seq<byte>, l: Layout, fat: seq<byte>, cs: seq<nat>, data: seq<byte>, j: nat, e: LongNames.Slot)
    requires l.Sound() && |fat| == 512 * l.spf && Within(cs, 2, l.count + 2) && l.At(l.count + 2) <= |file|
    requires j < 16 * l.RootSectors()
    ensures 512 * l.Data0() <= |file|
    ensures Same(Image(file, l, fat, cs, data, Some(j), e), Written(file, l, cs, data, |cs|), 512 * l.Data0(), |file|)
  {
    hide Times, Written, FatsWritten;
    RootInFile(l, |file|);
    SlotInFile(l, j, |file|);
    FatsElsewhere(Written(file, l, cs, data, |cs|), l, fat, l.nfats);
  }

  lemma SameJoined(a: seq<byte>, b: seq<byte>, l: Layout, cs: seq<nat>)
    requires Within(cs, 2, l.count + 2) && l.At(l.count + 2) <= |a|
    requires 512 * l.Data0() <= |a| && Same(a, b, 512 * l.Data0(), |a|)
    ensures Joined(a, l, cs) == Joined(b, l, cs)
  {
    hide Times;
    forall k | 0 <= k < |cs| ensures Same(a, b, l.At(cs[k]), l.At(cs[k]) + l.ClusterSize()) {
      ClusterInFile(l, cs[k], |a|);
    }
    JoinedSame(a, b, l, cs);
  }

  lemma WrittenJoined(file: seq<byte>, l: Layout, cs: seq<nat>, data: seq<byte>)
    requires l.Sound() && Clusters(l, cs) && l.At(l.count + 2) <= |file|
    ensures var to, all := Min(|data|, Times(|cs|, l.ClusterSize())), Joined(Written(file, l, cs, data, |cs|), l, cs);
            |all| == Times(|cs|, l.ClusterSize()) && all[..to] == data[..to]
  {
    var after, size := Written(file, l, cs, data, |cs|), l.ClusterSize();
    hide Chunk, Written, Joined;
    forall j | 0 <= j < |cs|
      ensures l.At(cs[j]) + size <= |after| && after[l.At(cs[j])..l.At(cs[j]) + size] == Chunk(data, size, j)
    {
      WrittenAt(file, l, cs, data, |cs|, j);
    }
    JoinedPieces(after, l, cs, data, 0);
    assert cs[0..] == cs && Times(0, size) == 0;
    PiecesHold(data, size, 0, |cs|);
  }

  /** The clusters needed are as many as hold the data, and no fewer would. */
  lemma NeedHolds(l: Layout, n: nat, k: nat)
    requires l.spc > 0 && 1 <= k <= Need(l, n)
    ensures n <= Times(k, l.ClusterSize()) <==> k == Need(l, n)
  {
    var size := l.ClusterSize();
    var q, r := (n + size - 1) / size, (n + size - 1) % size;
    assert n + size - 1 == size * q + r;
    assert Times(q, size) == size * q && Times(1, size) == size;
    if k < q {
      TimesOrder(k, q, size);
    }
  }

  /** A chain of clusters in use. */
  ghost predicate InUse(fat: seq<byte>, l: Layout, c: nat, p: seq<nat>) {
    && Walked(fat, l.Is16(), l.count + 2, c, []) == Chain(p)
    && Within(p, 2, l.count + 2)
    && forall i :: 0 <= i < |p| ==> Fits(|fat|, l.Is16(), p[i]) && FatEntry.Get(fat, l.Is16(), p[i]) != 0
  }

  /** On a FAT12 volume the stored file's chain is exactly the clusters taken, and they
      hold the data as far as they go: it comes back whole exactly when it fits them,
      that is when as many clusters were free as it needs. */
  lemma StoredReadsBack(file: seq<byte>, fat: seq<byte>, l: Layout, data: seq<byte>, j: nat, e: LongNames.Slot)
    requires l.Sound() && |fat| == 512 * l.spf && l.At(l.count + 2) <= |file|
    requires !l.Is16() && j < 16 * l.RootSectors()
    requires Taken(fat, l, |data|) != []
    ensures var cs := Taken(fat, l, |data|);
            && Clusters(l, cs)
            && (forall k :: 0 <= k < |cs| ==> cs[k] < 65536 && Fits(|fat|, false, cs[k]))
            && var fat' := Linked(fat, false, cs, |cs|);
               var file' := Image(file, l, fat', cs, data, Some(j), e);
               var all, room := Joined(file', l, cs), Times(|cs|, l.ClusterSize());
               && Walked(fat', false, l.count + 2, cs[0], []) == Chain(cs)
               && |all| == room && all[..Min(|data|, room)] == data[..Min(|data|, room)]
               && (all[..Min(|data|, |all|)] == data <==> |data| <= room)
               && (|data| <= room <==> |cs| == Need(l, |data|))
  {
    hide Times, Linked, Written, Joined, Walked, Image, IsPath, FatEntry.Get;
    TakenFits(fat, l, |data|);
    var cs := Taken(fat, l, |data|);
    NeedHolds(l, |data|, |cs|);
    hide Taken, Need;
    var fat' := Linked(fat, false, cs, |cs|);
    LinkedPath(fat, cs, 0);
    assert cs[0..] == cs;
    WalkExact(fat', false, l.count, cs[0], cs);
    WrittenJoined(file, l, cs, data);
    ImageData(file, l, fat', cs, data, j, e);
    RootInFile(l, |file|);
    SameJoined(Image(file, l, fat', cs, data, Some(j), e), Written(file, l, cs, data, |cs|), l, cs);
    assert data[..|data|] == data;
  }

  /** Read through its directory entry, the stored file comes back: the 32 bytes at the
      slot found say where it begins and how long it is, and its chain then holds the
      data, whole exactly when as many clusters were free as it needs. */
  lemma EntryReadsBack(file: seq<byte>, fat: seq<byte>, l: Layout, base: seq<byte>, ext: seq<byte>, data: seq<byte>)
    requires l.Sound() && |fat| == 512 * l.spf && l.At(l.count + 2) <= |file|
    requires |base| <= 8 && |ext| <= 3 && |data| < 0x1_0000_0000
    requires !l.Is16() && Taken(fat, l, |data|) != []
    requires 512 * l.Data0() <= |file| && FirstSlot(file, l, 0).Some?
    ensures var cs, j := Taken(fat, l, |data|), FirstSlot(file, l, 0).value;
            && Clusters(l, cs) && j < 16 * l.RootSectors()
            && (forall k :: 0 <= k < |cs| ==> cs[k] < 65536 && Fits(|fat|, false, cs[k]))
            && var fat' := Linked(fat, false, cs, |cs|);
               var file' := Image(file, l, fat', cs, data, Some(j), NewSlot(base, ext, cs[0], |data|));
               && SlotAt(l, j) + 32 <= |file'|
               && var e: LongNames.Slot := file'[SlotAt(l, j)..SlotAt(l, j) + 32];
                  && SizeIn(e) == |data| && Walked(fat', false, l.count + 2, FirstIn(e), []) == Chain(cs)
                  && var all := Joined(file', l, cs);
                     all[..Min(SizeIn(e), |all|)] == data <==> |cs| == Need(l, |data|)
  {
    hide Times, Linked, Written, Joined, Walked, IsPath, FatEntry.Get, NewSlot, FatsWritten, Taken, Need, FirstSlot, FirstIn, SizeIn;
    RootInFile(l, |file|);
    TakenFits(fat, l, |data|);
    var cs, j := Taken(fat, l, |data|), FirstSlot(file, l, 0).value;
    SlotInFile(l, j, |file|);
    SlotPointsAt(base, ext, cs[0], |data|);
    StoredReadsBack(file, fat, l, data, j, NewSlot(base, ext, cs[0], |data|));
  }

  /** Where the bytes of a chain lie: byte i of its k-th cluster, at its place there. */
  lemma {:induction false} StoredBytes(file: seq<byte>, l: Layout, cs: seq<nat>, k: nat, i: nat)
    requires Within(cs, 2, l.count + 2) && l.At(l.count + 2) <= |file|
    requires k < |cs| && i < l.ClusterSize()
    ensures Times(k, l.ClusterSize()) + i < |Joined(file, l, cs)| && Place(l, cs[k], i) < |file|
    ensures Joined(file, l, cs)[Times(k, l.ClusterSize()) + i] == file[Place(l, cs[k], i)]
    decreases |cs|
  {
    hide Times, Place, Layout.At;
    ReadAtIs(file, l, cs[0]);
    if k > 0 {
      StoredBytes(file, l, cs[1..], k - 1, i);
      NextTimes(k - 1, l.ClusterSize());
    } else {
      TimesIs(0, l.ClusterSize());
      PlaceIs(l, cs[0], i);
    }
  }

  /** Byte i of cluster c: behind the FATs and the root directory, which takes whole
      sectors, the clusters follow each other from number 2 on. */
  function Place(l: Layout, c: nat, i: nat): nat
    requires c >= 2
  {
    512 * (l.rsvd + l.nfats * l.spf + (32 * l.rootEnts + 511) / 512) + (c - 2) * (512 * l.spc) + i
  }

  lemma PlaceIs(l: Layout, c: nat, i: nat)
    requires c >= 2
    ensures Place(l, c, i) == l.At(c) + i
  {
  }

  /** A volume of one cluster of 512 bytes: of a file of 513 bytes the last is lost, and
      nothing is reported. */
  lemma FullVolumeExample(file: seq<byte>, data: seq<byte>, j: nat, e: LongNames.Slot)
    requires Layout(1, 1, 1, 1, 16, 1).At(3) <= |file| && |data| == 513 && j < 16
    ensures var l, fat := Layout(1, 1, 1, 1, 16, 1), seq(512, i => 0);
            && l.Sound() && !l.Is16() && Taken(fat, l, |data|) == [2] && Fits(512, false, 2)
            && var all := Joined(Image(file, l, Linked(fat, false, [2], 1), [2], data, Some(j), e), l, [2]);
               all == data[..512]
  {
    hide Times, Linked, Written, Joined, Walked, Image, IsPath, FatEntry.Get, FreeFrom;
    var l, fat: seq<byte> := Layout(1, 1, 1, 1, 16, 1), seq(512, i => 0);
    assert forall n: nat :: n <= 2 ==> Fits(512, false, n);
    FreeFromStep(fat, false, 2, 2);
    FreeFromStep(fat, false, 3, 2);
    EmptyEntry(fat);
    assert [2] + [] == [2];
    StoredReadsBack(file, fat, l, data, j, e);
    OneTimes(512);
  }

  lemma OneTimes(n: nat)
    ensures Times(1, n) == n
  {
  }

  lemma EmptyEntry(fat: seq<byte>)
    requires |fat| == 512 && fat[3] == 0 && fat[4] == 0
    ensures FatEntry.Get(fat, false, 2) == 0
  {
  }

  /** Every chain in use before is the same chain afterwards, with the same contents. */
  lemma OthersKept(file: seq<byte>, fat: seq<byte>, l: Layout, data: seq<byte>, j: nat, e: LongNames.Slot, c: nat, p: seq<nat>)
    requires l.Sound() && |fat| == 512 * l.spf && l.At(l.count + 2) <= |file|
    requires j < 16 * l.RootSectors() && InUse(fat, l, c, p)
    ensures var cs := Taken(fat, l, |data|);
            && Clusters(l, cs)
            && (forall k :: 0 <= k < |cs| ==> cs[k] < 65536 && Fits(|fat|, l.Is16(), cs[k]))
            && var fat' := Linked(fat, l.Is16(), cs, |cs|);
               && InUse(fat', l, c, p)
               && Joined(Image(file, l, fat', cs, data, Some(j), e), l, p) == Joined(file, l, p)
  {
    hide Times, Linked, Written, Joined, Walked, Taken, Image, IsPath, FatEntry.Get;
    TakenFits(fat, l, |data|);
    var cs := Taken(fat, l, |data|);
    var fat' := Linked(fat, l.Is16(), cs, |cs|);
    WalkExact(fat, l.Is16(), l.count, c, p);
    forall i, k | 0 <= i < |p| && 0 <= k < |cs| ensures p[i] != cs[k] {
      assert FatEntry.Get(fat, l.Is16(), cs[k]) == 0;
    }
    OtherPathKept(fat, l.Is16(), cs, c, p);
    WalkExact(fat', l.Is16(), l.count, c, p);
    forall i | 0 <= i < |p| ensures FatEntry.Get(fat', l.Is16(), p[i]) != 0 {
      LinkedAt(fat, l.Is16(), cs, |cs|, p[i]);
    }
    ImageData(file, l, fat', cs, data, j, e);
    RootInFile(l, |file|);
    SameJoined(Image(file, l, fat', cs, data, Some(j), e), Written(file, l, cs, data, |cs|), l, p);
    WrittenOthers(file, l, cs, data, p);
  }

  lemma WrittenOthers(file: seq<byte>, l: Layout, cs: seq<nat>, data: seq<byte>, p: seq<nat>)
    requires Within(cs, 2, l.count + 2) && Within(p, 2, l.count + 2) && l.At(l.count + 2) <= |file|
    requires forall i, k :: 0 <= i < |p| && 0 <= k < |cs| ==> p[i] != cs[k]
    ensures Joined(Written(file, l, cs, data, |cs|), l, p) == Joined(file, l, p)
  {
    hide Times, Written, Joined;
    var after := Written(file, l, cs, data, |cs|);
    forall i | 0 <= i < |p| ensures Same(after, file, l.At(p[i]), l.At(p[i]) + l.ClusterSize()) {
      ClusterInFile(l, p[i], |file|);
      forall k | 0 <= k < |cs| ensures l.At(p[i]) + l.ClusterSize() <= l.At(cs[k]) || l.At(cs[k]) + l.ClusterSize() <= l.At(p[i]) {
        if p[i] < cs[k] {
          ClustersApart(l, p[i], cs[k]);
        } else {
          ClustersApart(l, cs[k], p[i]);
        }
      }
      WrittenElsewhere(file, l, cs, data, |cs|, l.At(p[i]), l.At(p[i]) + l.ClusterSize());
    }
    JoinedSame(after, file, l, p);
  }

  /** The chain of a stored file is its clusters exactly on FAT12: the end mark used
      is a cluster number on FAT16. */
  lemma ChainEndsIff(fat: seq<byte>, l: Layout, n: nat)
    requires l.Sound() && |fat| == 512 * l.spf && Taken(fat, l, n) != []
    ensures var cs := Taken(fat, l, n);
            && Clusters(l, cs)
            && (forall k :: 0 <= k < |cs| ==> cs[k] < 65536 && Fits(|fat|, l.Is16(), cs[k]))
            && (Walked(Linked(fat, l.Is16(), cs, |cs|), l.Is16(), l.count + 2, cs[0], []) == Chain(cs) <==> !l.Is16())
  {
    hide Times, Linked, Walked, Taken, IsPath, FatEntry.Get;
    TakenFits(fat, l, n);
    var cs := Taken(fat, l, n);
    WalkExact(Linked(fat, l.Is16(), cs, |cs|), l.Is16(), l.count, cs[0], cs);
    if l.Is16() {
      LongLinkNotPath(fat, cs);
    } else {
      LinkedPath(fat, cs, 0);
      assert cs[0..] == cs;
    }
  }

  /** An empty FAT16 volume of 4085 clusters: the one-cluster file stored in cluster 2
      gets a chain that runs on into cluster 4095. */
  lemma WrongEndExample()
    ensures var l := Layout(1, 1, 2, 16, 512, 4085);
            var fat := seq(8192, i => 0);
            && l.Sound() && l.Is16() && |fat| == 512 * l.spf && Taken(fat, l, 1) == [2]
            && Walked(Linked(fat, true, [2], 1), true, l.count + 2, 2, []) == Chain([2, 4095])
  {
    hide Walked, Times, FatEntry.Get, Linked, Taken, FreeFrom, IsPath;
    var fat: seq<byte> := seq(8192, i => 0);
    EmptyVolume(fat);
    SecondClusterFirst(fat, 1);
    TwoLinks(fat);
    WalkExact(Linked(fat, true, [2], 1), true, 4085, 2, [2, 4095]);
  }

  lemma EmptyVolume(fat: seq<byte>)
    requires |fat| == 8192
    ensures var l := Layout(1, 1, 2, 16, 512, 4085); l.Sound() && l.Is16() && |fat| == 512 * l.spf
  {
    assert forall n: nat :: n <= 4086 ==> Fits(8192, true, n);
  }

  lemma SecondClusterFirst(fat: seq<byte>, n: nat)
    requires |fat| == 8192 && 1 <= n <= 512 && fat[4] == 0 && fat[5] == 0
    ensures Layout(1, 1, 2, 16, 512, 4085).Sound() && Taken(fat, Layout(1, 1, 2, 16, 512, 4085), n) == [2]
  {
    hide FreeFrom;
    EmptyVolume(fat);
    FreeFromStep(fat, true, 2, 4086);
    assert FatEntry.Get(fat, true, 2) == 0;
  }

  lemma OneIsDistinct(c: nat)
    ensures Distinct([c])
  {
  }

  lemma ZeroEntry(fat: seq<byte>, n: nat)
    requires 2 * n + 1 < |fat| && n < 65536 && fat[2 * n] == 0 && fat[2 * n + 1] == 0
    ensures FatEntry.Get(fat, true, n) == 0
  {
  }

  lemma TwoLinks(fat: seq<byte>)
    requires |fat| == 8192 && forall i :: 0 <= i < 8192 ==> fat[i] == 0
    ensures IsPath(Linked(fat, true, [2], 1), true, 2, [2, 4095])
  {
    hide IsPath, Linked, FatEntry.Get, Distinct;
    OneIsDistinct(2);
    var after := Linked(fat, true, [2], 1);
    LinkedAt(fat, true, [2], 1, 2);
    LinkedAt(fat, true, [2], 1, 4095);
    LastLink(fat, true, [2]);
    ZeroEntry(fat, 4095);
    EmptyPath(after, true, 0);
    PathCons(after, true, 4095, []);
    PathCons(after, true, 2, [4095]);
    assert [4095] + [] == [4095] && [2] + [4095] == [2, 4095];
  }

  /** Afterwards every copy of the FAT on the volume is the updated one. */
  lemma CopiesUpdated(file: seq<byte>, l: Layout, fat: seq<byte>, cs: seq<nat>, data: seq<byte>, j: nat, e: LongNames.Slot, c: nat)
    requires l.Sound() && |fat| == 512 * l.spf && Within(cs, 2, l.count + 2) && l.At(l.count + 2) <= |file|
    requires j < 16 * l.RootSectors() && c < l.nfats
    ensures l.FatAt(c) + |fat| <= |file|
    ensures Image(file, l, fat, cs, data, Some(j), e)[l.FatAt(c)..l.FatAt(c) + |fat|] == fat
  {
    hide Times, Written, FatsWritten;
    RootInFile(l, |file|);
    SlotInFile(l, j, |file|);
    CopyInFats(l, c);
    var stored := FatsWritten(Written(file, l, cs, data, |cs|), l, fat, l.nfats);
    FatsAre(Written(file, l, cs, data, |cs|), l, fat, l.nfats, c);
    SameSlice(Image(file, l, fat, cs, data, Some(j), e), stored, l.FatAt(c), l.FatAt(c) + |fat|);
  }

  /** The directory reader of the kernel shows the stored file under the name it was
      given, unless a part of the name mixes cases. */
  lemma ShownAsGiven(base: seq<byte>, ext: seq<byte>, first: nat, size: nat)
    requires 0 < |base| <= 8 && |ext| <= 3 && first < 0x10000 && size < 0x1_0000_0000
    requires base[|base| - 1] != SPACE && (ext != [] ==> ext[|ext| - 1] != SPACE)
    requires IsLower(base) || ShortNames.Upper(base) == base
    requires IsLower(ext) || ShortNames.Upper(ext) == ext
    ensures var e := NewSlot(base, ext, first, size);
            && DirList.IsShown(e) == (ShortNames.Upper(base)[0] != DirList.DELETED)
            && ShortNames.ShortName(e) == base + if ext == [] then [] else [ShortNames.DOT] + ext
  {
    hide ShortNames.ShortName;
    var e := NewSlot(base, ext, first, size);
    assert e[..8] == ShortNames.Pad(ShortNames.Upper(base), 8);
    assert e[8..11] == ShortNames.Pad(ShortNames.Upper(ext), 3);
    ShortNames.ShortNameBack(e, base, ext);
  }
}
