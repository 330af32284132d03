/** The FAT layer itself: one cached sector, written back lazily, shared by all
    drives, and the entry, allocation and drive-switch routines on top of it. */
module FatKernel {
  import opened Bytes
  import opened FatEntry
  import opened FatWorld
  import opened FatView

  /** The 24-bit addition every sector address is built with. */
  function LbaAdd(lba: nat, d: nat): nat {
    (lba + d) % LBA_LIMIT
  }

  class Kernel {
    var disk: Disk
    var table: seq<Bpb>
    var present: seq<bool>
    var active: nat
    var bpb: Bpb
    var fat16: bool
    const cache: array<byte>
    var csec: nat
    var dirty: bool
    var owner: nat
    var hint: nat
    var clustHi: nat

    /** Boot: nothing cached, no drive active yet, the hint at cluster 2. */
    constructor (disk: Disk, table: seq<Bpb>, present: seq<bool>)
      requires VolumesApart(disk.Keys, table, present)
      ensures Valid() && fresh(cache)
      ensures Snap().disk == disk && Snap().table == table && Snap().present == present
      ensures active == NO_DRIVE && csec == NO_SECTOR && hint == 2
    {
      this.disk, this.table, this.present := disk, table, present;
      active, bpb, fat16 := NO_DRIVE, table[0], true;
      cache := new byte[512](i => 0);
      csec, dirty, owner, hint, clustHi := NO_SECTOR, false, NO_DRIVE, 2, 0;
    }

    ghost predicate Consistent()
      reads this
    {
      && cache.Length == 512
      && (active == NO_DRIVE || (active < |table| && bpb == table[active] && fat16 == bpb.Is16()))
    }

    ghost function Snap(): World
      requires cache.Length == 512
      reads this, cache
    {
      World(disk, table, present, active, cache[..], csec, dirty, owner, hint)
    }

    ghost predicate Sane()
      reads this, cache
    {
      Consistent() && Snap().Wf()
    }

    ghost predicate Valid()
      reads this, cache
    {
      Consistent() && Snap().Valid()
    }

    ghost predicate Usable()
      reads this, cache
    {
      Valid() && Snap().IsDrive(active)
    }

    // ----- BIOS sector transfers: either may fail at any time -----

    method IdeRead(a: Addr) returns (ok: bool)
      requires cache.Length == 512
      modifies cache
      ensures ok ==> a in disk && cache[..] == disk[a]
    {
      ok := *;
      if ok && a in disk {
        var bytes := disk[a];
        forall i | 0 <= i < 512 {
          cache[i] := bytes[i];
        }
        assert cache[..] == bytes;
      } else {
        ok := false;
        modify cache;  // a failed read may leave anything in the buffer
      }
    }

    method IdeWrite(a: Addr) returns (ok: bool)
      requires cache.Length == 512 && a in disk
      modifies this`disk
      ensures disk == if ok then old(disk)[a := cache[..]] else old(disk)
    {
      ok := *;
      if ok {
        disk := disk[a := cache[..]];
      }
    }

    // ----- the sector cache -----

    /** The address of sector s of FAT copy c, by adding the FAT size c times. */
    method CopyLba(c: nat, s: nat) returns (lba: nat)
      requires bpb.Sound() && c < bpb.numFats && s < bpb.spf
      ensures lba == bpb.fatLba + c * bpb.spf + s
      ensures Addr(bpb.dev, lba) == bpb.Copy(c, s)
    {
      CopyInFat(bpb, c, s);
      lba := bpb.fatLba;
      var n := c;
      while n != 0
        invariant 0 <= n <= c && lba == bpb.fatLba + (c - n) * bpb.spf
      {
        assert (c - n) * bpb.spf + bpb.spf == (c - (n - 1)) * bpb.spf;
        MulStep(c - n, c, bpb.spf);
        lba := LbaAdd(lba, bpb.spf);
        n := n - 1;
      }
      lba := LbaAdd(lba, s);
    }

    /** Write the cached sector to every FAT copy; `written` counts those
        that were reached. */
    method FatFlush() returns (ok: bool, written: nat)
      requires Sane()
      modifies this`disk, this`dirty
      ensures !old(dirty) ==> ok && Snap() == old(Snap())
      ensures old(dirty) ==> written <= bpb.numFats && Snap() == Flushed(old(Snap()), written)
      ensures old(dirty) ==> (ok <==> written == bpb.numFats)
    {
      written := 0;
      if !dirty || csec / 256 != 0 {
        return true, 0;
      }
      ghost var w := Snap();
      assert w.IsDrive(active);
      assert bpb.Sound();
      var c := 0;
      while c != bpb.numFats
        invariant c <= bpb.numFats && written == c
        invariant dirty && disk == WriteCopies(w.disk, bpb, csec, cache[..], c)
        invariant disk.Keys == w.disk.Keys
        decreases bpb.numFats - c
      {
        CopyInFat(bpb, c, csec);
        var lba := CopyLba(c, csec);
        assert Present(table, present, active) && table[active].InFat(bpb.Copy(c, csec));
        ok := IdeWrite(Addr(bpb.dev, lba));
        if !ok {
          return false, c;
        }
        c := c + 1;
        assert disk == WriteCopies(w.disk, bpb, csec, cache[..], c - 1)[bpb.Copy(c - 1, csec) := cache[..]];
        written := c;
      }
      dirty := false;
      return true, c;
    }

    /** What the files of each drive see. */
    ghost function Contents(): seq<seq<byte>>
      requires Consistent() && |table| == DRIVE_COUNT == |present|
      reads this, cache
    {
      Fats(Snap())
    }

    /** Nothing was written outside the FAT of the active drive, which is still
        the same one, and the state is well formed. */
    twostate predicate Contained()
      reads this, cache
    {
      && Sane() && cache.Length == 512
      && bpb == old(bpb) && active == old(active) < DRIVE_COUNT
      && Framed(old(Snap()), Snap())
    }

    /** After a step that did not fail: the cache can be relied on, and FAT copies
        that agreed still agree. */
    twostate predicate Clean()
      reads this, cache
    {
      Usable() && cache.Length == 512 && MirrorsKept(old(Snap()), Snap())
    }

    /** Flush before the cached sector is replaced. */
    method Evict() returns (ok: bool)
      requires Usable()
      modifies this`disk, this`dirty
      ensures Contained() && Contents() == old(Contents())
      ensures ok ==> Usable() && Snap() == Saved(old(Snap()))
      ensures Valid()
    {
      ghost var w := Snap();
      SaveKeeps(w);
      ok := true;
      if dirty {
        var written;
        ok, written := FatFlush();
        FlushKeepsFats(w, written);
      }
    }

    /** Read sector `index` over the clean cache. */
    method FillCache(index: nat) returns (ok: bool)
      requires Usable() && !dirty && index < bpb.spf && index < 256
      modifies this`csec, this`dirty, this`owner, cache
      ensures Contained() && Contents() == old(Contents())
      ensures ok ==> bpb.Copy(0, index) in disk && Snap() == old(Snap()).(data := disk[bpb.Copy(0, index)], csec := index, owner := active)
      ensures !ok ==> Snap() == old(Snap()).(data := cache[..])
      ensures !ok ==> (Valid() <==> csec == NO_SECTOR || cache[..] == old(cache[..]))
    {
      hide Mirrored, EffectiveByte, Fats;
      ghost var w := Snap();
      CopyInFat(bpb, 0, index);
      var lba := LbaAdd(bpb.fatLba, index);
      assert Addr(bpb.dev, lba) == bpb.Copy(0, index);
      ok := IdeRead(Addr(bpb.dev, lba));
      if ok {
        csec := index;
        dirty := false;
        owner := active;
      }
      CleanCacheIrrelevant(w, Snap());
      FailedLoad(w, cache[..]);
    }

    /** Make the cache hold sector `index` of the active drive's FAT. After a failure
        the cache can be relied on exactly when nothing is cached or the read left
        the buffer alone: its tag still names the old sector. */
    method LoadSector(index: nat) returns (ok: bool)
      requires Usable() && index < bpb.spf && index < 256
      modifies this`disk, this`dirty, this`csec, this`owner, cache
      ensures Contained() && Contents() == old(Contents())
      ensures ok ==> Clean() && Snap() == Loaded(old(Snap()), index) && csec == index && owner == active
      ensures !ok ==> (Valid() <==> csec == NO_SECTOR || cache[..] == old(cache[..]))
    {
      hide VolumesApart, Mirrored, EffectiveByte;
      ghost var w := Snap();
      LoadKeepsFats(w, index);
      if csec / 256 == 0 && csec % 256 == index && owner == active {
        return true;
      }
      ok := Evict();
      if !ok {
        return;
      }
      SaveKeeps(w);
      ok := FillCache(index);
    }

    // ----- entries -----

    method CachedByte(off: nat) returns (b: byte)
      requires Usable() && csec != NO_SECTOR && owner == active && off < 512
      ensures 512 * csec + off < |Contents()[active]|
      ensures b == cache[off] == Contents()[active][512 * csec + off]
    {
      CachedBytes(Snap(), off);
      b := cache[off];
    }

    /** 16-bit register arithmetic for the offset of a FAT12 entry. */
    static method Offset12(rd: nat) returns (off: nat, index: nat)
      requires rd + rd / 2 < 65536
      ensures off < 512 && 512 * index + off == rd + rd / 2
    {
      var r7 := rd / 2;
      r7 := (r7 + rd) % 65536;
      index := r7 / 256 / 2;
      off := r7 % 512;
    }

    /** Find a FAT12 entry: its first byte's offset in the cached sector, and the
        index of that sector. */
    method Locate12(rd: nat) returns (ok: bool, off: nat, index: nat)
      requires Usable() && !fat16 && bpb.EntryFits(rd)
      modifies this`disk, this`dirty, this`csec, this`owner, cache
      ensures off < 512 && 512 * index + off == rd + rd / 2
      ensures Contained() && Contents() == old(Contents())
      ensures ok ==> Clean() && csec == index && owner == active
    {
      hide VolumesApart, Mirrored, EffectiveByte;
      off, index := Offset12(rd);
      ok := LoadSector(index);
    }

    /** Step to a FAT12 entry's second byte, loading the next sector if it
        straddles. */
    method Second12(off: nat, index: nat) returns (ok: bool, off2: nat)
      requires Usable() && off < 512 && csec == index < 256 && owner == active
      requires off == 511 ==> index + 1 < bpb.spf && index + 1 < 256
      modifies this`disk, this`dirty, this`csec, this`owner, cache
      ensures off2 < 512 && Contained() && Contents() == old(Contents())
      ensures ok ==> Clean() && csec != NO_SECTOR && owner == active && 512 * csec + off2 == 512 * index + off + 1
    {
      hide VolumesApart, Mirrored, EffectiveByte;
      off2 := (off + 1) % 512;
      ok := true;
      if off == 511 {
        ok := LoadSector(index + 1);
      }
    }

    /** Fetch the two bytes that hold a FAT12 entry. */
    method Fetch12(rd: nat, ghost o: nat) returns (ok: bool, lo: byte, hi: byte)
      requires Usable() && !fat16 && bpb.EntryFits(rd) && o == rd + rd / 2
      modifies this`disk, this`dirty, this`csec, this`owner, cache
      ensures Contained() && Contents() == old(Contents())
      ensures ok ==> Clean() && lo == old(Contents())[active][o] && hi == old(Contents())[active][o + 1]
    {
      hide VolumesApart, Mirrored, EffectiveByte, Framed, MirrorsKept, Fats;
      ghost var start := Snap();
      var off, index;
      lo, hi := 0, 0;
      ok, off, index := Locate12(rd);
      if ok {
        lo := CachedByte(off);
        ghost var w := Snap();
        ok, off := Second12(off, index);
        FramedTwice(start, w, Snap());
        if ok {
          MirrorsTwice(start, w, Snap());
          hi := CachedByte(off);
        }
      }
    }

    /** The 12 bits of cluster rd's entry, widened when they are a mark. */
    static method Decode12(rd: nat, lo: byte, hi: byte) returns (r: nat)
      ensures r == Widen(false, Half(rd % 2 == 1, lo, hi))
    {
      WordNibbles(lo, hi);
      r := if rd % 2 == 1 then Word(lo, hi) / 16 else Word(lo, hi);
      r := r % 4096;
      if r / 256 == 0x0F && r % 256 >= 0xF7 {
        r := r % 256 + 0xFF00;
      }
    }

    /** Fetch the two bytes of a FAT16 entry. */
    method Fetch16(rd: nat) returns (ok: bool, lo: byte, hi: byte)
      requires Usable() && fat16 && bpb.EntryFits(rd)
      modifies this`disk, this`dirty, this`csec, this`owner, cache
      ensures Contained() && Contents() == old(Contents())
      ensures ok ==> Clean() && lo == old(Contents())[active][2 * rd] && hi == old(Contents())[active][2 * rd + 1]
    {
      hide VolumesApart, Mirrored, EffectiveByte, Framed, MirrorsKept, Fats;
      lo, hi := 0, 0;
      ok := LoadSector(rd / 256);
      if ok {
        var off := rd % 256 * 2;
        assert 512 * csec + off == 2 * rd;
        lo := CachedByte(off);
        hi := CachedByte(off + 1);
      }
    }

    static lemma WideStays(n: nat)
      ensures forall v :: Widen(true, v) == v
    {
    }

    /** With nothing pending, the active drive's FAT is the one on disk. */
    lemma CleanOnActive()
      requires Usable()
      ensures !dirty ==> OnDisk(Snap(), active, 0) == Contents()[active]
    {
      if !dirty {
        CleanOnDisk(Snap(), active);
      }
    }

    /** Look up a FAT entry: the value stored in the active drive's FAT, its marks
        widened to 16 bits. No drive's FAT changes, whatever the outcome. */
    method FatGet(rd: nat) returns (ok: bool, r: nat)
      requires Usable() && bpb.EntryFits(rd)
      modifies this`disk, this`dirty, this`csec, this`owner, cache
      ensures Contained() && Contents() == old(Contents())
      ensures ok ==> Clean() && r == Widen(fat16, Get(old(Contents())[active], fat16, rd))
      ensures ok && !old(dirty) ==> r == Widen(fat16, Get(OnDisk(old(Snap()), active, 0), fat16, rd))
    {
      CleanOnActive();
      hide VolumesApart, Mirrored, EffectiveByte, Half, OnDisk, Framed, MirrorsKept, Fats, Widen;
      r := 0;
      var lo, hi;
      WideStays(rd);
      if fat16 {
        ok, lo, hi := Fetch16(rd);
        r := Word(lo, hi);
      } else {
        Get12At(Contents()[active], rd, rd + rd / 2);
        ok, lo, hi := Fetch12(rd, rd + rd / 2);
        r := Decode12(rd, lo, hi);
      }
    }

    method StoreByte(off: nat, x: byte)
      requires Usable() && csec != NO_SECTOR && owner == active && off < 512
      modifies this`dirty, cache
      ensures Contained() && Clean()
      ensures 512 * csec + off < |old(Contents())[active]|
      ensures Contents() == Poke(old(Contents()), active, 512 * csec + off, x)
    {
      hide VolumesApart, Mirrored, EffectiveByte;
      StoreChangesOneByte(Snap(), off, x);
      ghost var w := Snap();
      cache[off] := x;
      dirty := true;
      assert Snap() == Stored(w, off, x);
    }

    static lemma LowByteParity(n: nat)
      ensures n % 256 % 2 == n % 2
    {
      assert n == 2 * (n / 256 * 128) + n % 256;
    }

    /** The first half of a FAT12 update: up to the store of the first byte. */
    method PutFirst12(rd: nat, rb: nat, ghost o: nat) returns (ok: bool, off: nat, index: nat, rb': nat)
      requires Usable() && !fat16 && bpb.EntryFits(rd) && o == rd + rd / 2 && rb < 65536
      modifies this`disk, this`dirty, this`csec, this`owner, cache
      ensures Contained() && o == 512 * index + off && off < 512 && o < |old(Contents())[active]|
      ensures ok ==> Clean() && csec == index && owner == active && rb' == Pattern(rd % 2 == 1, rb)
      ensures Contents() == if ok then Poke(old(Contents()), active, o,
                                            FirstByte(rd % 2 == 1, old(Contents())[active][o], Pattern(rd % 2 == 1, rb)))
                            else old(Contents())
    {
      hide VolumesApart, Mirrored, EffectiveByte, FirstByte, Pattern, Framed, MirrorsKept, Fats;
      ghost var start := Snap();
      rb' := rb;
      ok, off, index := Locate12(rd);
      if !ok {
        return;
      }
      LowByteParity(rd);
      rb' := Pattern(rd % 256 % 2 == 1, rb');
      var lo := CachedByte(off);
      ghost var w := Snap();
      StoreByte(off, FirstByte(rd % 256 % 2 == 1, lo, rb'));
      FramedTwice(start, w, Snap());
      MirrorsTwice(start, w, Snap());
    }

    /** The second half: the other byte, in the next sector if need be. */
    method PutSecond12(off: nat, index: nat, odd: bool, x: nat, ghost o: nat) returns (ok: bool)
      requires Usable() && !fat16 && csec == index < 256 && owner == active
      requires o == 512 * index + off && off < 512 && o + 1 < 512 * bpb.spf && o + 1 < 65536
      requires x < 65536 && (!odd ==> x < 4096)
      modifies this`disk, this`dirty, this`csec, this`owner, cache
      ensures Contained() && o + 1 < |old(Contents())[active]|
      ensures ok ==> Clean()
      ensures Contents() == if ok then Poke(old(Contents()), active, o + 1, SecondByte(odd, old(Contents())[active][o + 1], x))
                            else old(Contents())
    {
      hide VolumesApart, Mirrored, EffectiveByte, SecondByte, Framed, MirrorsKept, Fats, Poke;
      ghost var start := Snap();
      var off2;
      ok, off2 := Second12(off, index);
      if !ok {
        return;
      }
      var hi := CachedByte(off2);
      ghost var w := Snap();
      StoreByte(off2, SecondByte(odd, hi, x));
      FramedTwice(start, w, Snap());
      MirrorsTwice(start, w, Snap());
    }

    /** A FAT12 update. Both registers are overwritten on the way, RD by the sector
        index and RB by the pattern on disk, and RB is given back at either exit. */
    method FatSet12(rd: nat, rb: nat, ghost o: nat) returns (ok: bool, rd': nat, rb': nat)
      requires Usable() && !fat16 && bpb.EntryFits(rd) && o == rd + rd / 2 && rb < 65536
      modifies this`disk, this`dirty, this`csec, this`owner, this`clustHi, cache
      ensures rb' == rb && Contained()
      ensures ok ==> Clean() && rd' == rd
                     && Contents() == old(Contents())[active := Put12(old(Contents())[active], rd, rb)]
      ensures !ok ==> exists fat: seq<byte> :: HalfPut(old(Contents())[active], fat, rd, o)
                                               && Contents() == old(Contents())[active := fat]
    {
      hide VolumesApart, Mirrored, EffectiveByte, Pattern, FirstByte, SecondByte, Framed, MirrorsKept, Fats;
      ghost var fats, start := Contents(), Snap();
      var pushed := rb;
      clustHi := rd / 256;
      LowByteParity(rd);
      var odd := rd % 256 % 2 == 1;
      var off, index;
      ok, off, index, rb' := PutFirst12(rd, rb, o);
      rd' := index * 256 + rd % 256;
      ghost var half := Contents()[active];
      assert HalfPut(fats[active], half, rd, o) && Contents() == fats[active := half];
      if !ok {
        rb' := pushed;
        return;
      }
      ghost var w := Snap();
      ok := PutSecond12(off, index, odd, rb', o);
      FramedTwice(start, w, Snap());
      if !ok {
        rb' := pushed;
        return;
      }
      MirrorsTwice(start, w, Snap());
      PutJoin(fats[active], half, rd, rb, o, Contents()[active]);
      rd' := clustHi * 256 + rd % 256;
      rb' := pushed;
    }

    method FatSet16(rd: nat, rb: nat) returns (ok: bool)
      requires Usable() && fat16 && bpb.EntryFits(rd) && rb < 65536
      modifies this`disk, this`dirty, this`csec, this`owner, cache
      ensures Contained()
      ensures ok ==> Clean()
      ensures Contents() == if ok then old(Contents())[active := Put16(old(Contents())[active], rd, rb)] else old(Contents())
    {
      hide VolumesApart, Mirrored, EffectiveByte, Framed, MirrorsKept, Fats;
      ghost var start, fats := Snap(), Contents();
      ok := LoadSector(rd / 256);
      if !ok {
        return;
      }
      var off := rd % 256 * 2;
      assert 512 * csec + off == 2 * rd;
      Store16(off, rb, start, fats);
      PokeWord(fats, active, rd, rb);
    }

    /** Both bytes of a 16-bit entry. */
    method Store16(off: nat, rb: nat, ghost start: World, ghost fats: seq<seq<byte>>)
      requires Usable() && csec != NO_SECTOR && owner == active && off + 1 < 512 && rb < 65536
      requires Contents() == fats && start.active == active && Framed(start, Snap()) && MirrorsKept(start, Snap())
      modifies this`dirty, cache
      ensures Contained() && Clean() && Framed(start, Snap()) && MirrorsKept(start, Snap())
      ensures 512 * csec + off + 1 < |fats[active]|
      ensures Contents() == Poke(Poke(fats, active, 512 * csec + off, rb % 256), active, 512 * csec + off + 1, rb / 256)
    {
      hide VolumesApart, Mirrored, EffectiveByte, Framed, MirrorsKept, Fats;
      ghost var w0 := Snap();
      StoreByte(off, rb % 256);
      ghost var w1 := Snap();
      FramedTwice(start, w0, w1);
      MirrorsTwice(start, w0, w1);
      StoreByte(off + 1, rb / 256);
      FramedTwice(start, w1, Snap());
      MirrorsTwice(start, w1, Snap());
      FramedTwice(w0, w1, Snap());
      MirrorsTwice(w0, w1, Snap());
    }

    static lemma PokeWord(fats: seq<seq<byte>>, d: nat, n: nat, v: nat)
      requires d < |fats| && 2 * n + 1 < |fats[d]| && v < 65536
      ensures Poke(Poke(fats, d, 2 * n, v % 256), d, 2 * n + 1, v / 256) == fats[d := Put16(fats[d], n, v)]
    {
    }

    method SetHint(h: nat)
      requires Usable() && 2 <= h < 65536
      modifies this`hint
      ensures hint == h && Contained() && Clean() && Contents() == old(Contents())
    {
      ghost var w := Snap();
      hint := h;
      HintIrrelevant(w, h);
    }

    /** Store a FAT entry. On success exactly that entry of the active drive has
        changed; after a failure no other entry has. Freeing a cluster below the
        allocation hint lowers the hint to it. */
    method FatSet(rd: nat, rb: nat) returns (ok: bool, rd': nat, rb': nat)
      requires Usable() && bpb.EntryFits(rd) && 2 <= rd && rb < 65536
      modifies this`disk, this`dirty, this`csec, this`owner, this`clustHi, this`hint, cache
      ensures rb' == rb && Contained()
      ensures ok ==> Clean() && rd' == rd
                     && Contents() == old(Contents())[active := Put(old(Contents())[active], fat16, rd, rb)]
      ensures ok ==> hint == if rb == 0 && rd < old(hint) then rd else old(hint)
      ensures !ok ==> hint == old(hint)
                      && SameButFor(old(Contents())[active], Contents()[active], fat16, rd)
                      && Contents() == old(Contents())[active := Contents()[active]]
    {
      hide VolumesApart, Mirrored, EffectiveByte, Get;
      ghost var fats := Contents();
      if fat16 {
        rd', rb' := rd, rb;
        ok := FatSet16(rd, rb);
      } else {
        ok, rd', rb' := FatSet12(rd, rb, rd + rd / 2);
        if !ok {
          ghost var fat: seq<byte> :| HalfPut(fats[active], fat, rd, rd + rd / 2) && Contents() == fats[active := fat];
          HalfPutSpares(fats[active], fat, rd);
        }
      }
      if ok && rb' == 0 && rd' < hint {
        SetHint(rd');
      }
    }

    // ----- allocation -----

    /** The entries of the active drive. */
    ghost function ActiveView(): (view: seq<int>)
      requires Usable()
      reads this, cache
      ensures |view| == bpb.maxClust + 1
    {
      ViewOf(bpb, Contents()[active])
    }

    lemma ClusterFits(n: nat)
      requires Usable() && n <= bpb.maxClust
      ensures bpb.EntryFits(n) && bpb.maxClust <= 65525
      ensures |Contents()[active]| == 512 * bpb.spf
    {
    }

    /** Whether cluster n of the active drive is free. */
    method IsFree(n: nat) returns (ok: bool, free: bool)
      requires Usable() && n <= bpb.maxClust
      modifies this`disk, this`dirty, this`csec, this`owner, cache
      ensures Contained() && Contents() == old(Contents())
      ensures ok ==> Clean() && free == (old(ActiveView())[n] == 0)
    {
      hide VolumesApart, Mirrored, EffectiveByte, Get;
      ClusterFits(n);
      var r;
      ok, r := FatGet(n);
      free := r == 0;
    }

    static lemma SameFramed(w: World)
      ensures Framed(w, w) && MirrorsKept(w, w)
    {
    }

    /** Look for a free cluster forward from the hint and, once, from cluster 2. */
    method FindFree() returns (ok: bool, r8: nat, io: bool)
      requires Usable()
      modifies this`disk, this`dirty, this`csec, this`owner, cache
      ensures Contained() && Contents() == old(Contents())
      ensures ok ==> io && 2 <= r8 <= bpb.maxClust
      ensures io ==> Clean() && Pick(old(ActiveView()), hint) == if ok then Some(r8) else None
    {
      hide VolumesApart, Mirrored, EffectiveByte, Get, ViewOf, NextFree, Framed, MirrorsKept, Fats;
      ghost var view, start := ActiveView(), Snap();
      ClusterFits(0);
      SameFramed(start);
      r8 := hint;
      io := true;
      var wrapped := false;
      while true
        invariant Contained() && Clean() && Contents() == old(Contents())
        invariant 2 <= r8 && (wrapped ==> NextFree(view, hint) == |view|)
        invariant NextFree(view, r8) == NextFree(view, if wrapped then 2 else hint) || (!wrapped && r8 == hint)
        decreases !wrapped, bpb.maxClust - r8
      {
        NextFreeStep(view, r8);
        if bpb.maxClust < r8 {
          if wrapped {
            return false, r8, io;
          }
          wrapped := true;
          r8 := 2;
          continue;
        }
        ghost var w := Snap();
        var free;
        ok, free := IsFree(r8);
        FramedTwice(start, w, Snap());
        if !ok {
          io := false;
          return;
        }
        MirrorsTwice(start, w, Snap());
        if free {
          return true, r8, io;
        }
        r8 := (r8 + 1) % 65536;
      }
    }

    /** Allocate a cluster: the next free one, marked end-of-chain. It fails only
        when every cluster is in use or a transfer failed; `io` tells which. */
    method FatAlloc() returns (ok: bool, rd: nat, io: bool)
      requires Usable()
      modifies this`disk, this`dirty, this`csec, this`owner, this`clustHi, this`hint, cache
      ensures Contained() && (ok ==> io)
      ensures io ==> Clean() && Pick(old(ActiveView()), old(hint)) == if ok then Some(rd) else None
      ensures ok ==> Clean() && 2 <= rd <= bpb.maxClust && bpb.EntryFits(rd) && hint == rd + 1
                     && Contents() == old(Contents())[active := Put(old(Contents())[active], fat16, rd, END_OF_CHAIN)]
      ensures !ok ==> hint == old(hint)
      ensures !ok && io ==> Contents() == old(Contents())
      ensures !ok ==> Contents() == old(Contents())[active := Contents()[active]]
      ensures !ok ==> Contents() == old(Contents())
                      || exists n: nat :: Pick(old(ActiveView()), old(hint)) == Some(n)
                                          && SameButFor(old(Contents())[active], Contents()[active], fat16, n)
    {
      hide VolumesApart, Mirrored, EffectiveByte, Get, ViewOf, Put, Pick, Fits, SameButFor, Framed, MirrorsKept, Fats;
      ghost var start := Snap();
      ok, rd, io := FindFree();
      if !ok {
        return;
      }
      ClusterFits(rd);
      ghost var w := Snap();
      var rb;
      ghost var n: nat := rd;
      ok, rd, rb := FatSet(rd, END_OF_CHAIN);
      assert !ok ==> SameButFor(old(Contents())[active], Contents()[active], fat16, n);
      FramedTwice(start, w, Snap());
      if !ok {
        io := false;
        return;
      }
      MirrorsTwice(start, w, Snap());
      w := Snap();
      SetHint((rd + 1) % 65536);
      FramedTwice(start, w, Snap());
      MirrorsTwice(start, w, Snap());
    }

    // ----- drives -----

    /** Make drive t the active one. The flush of the outgoing drive's sector is
        not checked; `written` says how far it got. */
    method SwitchDrive(t: nat) returns (ok: bool, written: nat)
      requires Valid() && t < DRIVE_COUNT
      modifies this`disk, this`dirty, this`active, this`bpb, this`fat16
      ensures Sane() && (ok <==> present[t])
      ensures Snap() == if !ok || old(active) == t then old(Snap()) else Switched(old(Snap()), written, t)
      ensures ok ==> active == t
      ensures old(dirty) ==> written <= old(bpb).numFats
      ensures Framed(old(Snap()), Snap())
      ensures !ok || old(active) == t || !old(dirty) || written == old(bpb).numFats
              ==> Valid() && Contents() == old(Contents()) && MirrorsKept(old(Snap()), Snap())
    {
      written := 0;
      if !present[t] {
        return false, 0;
      }
      if t == active {
        return true, 0;
      }
      ghost var w := Snap();
      assert w.IsDrive(t);
      ok, written := FatFlush();
      if w.dirty {
        FlushKeepsFats(w, written);
      }
      if !w.dirty || written == w.table[w.active].numFats {
        SwitchKeepsFats(w, written, t);
      }
      bpb := table[t];
      fat16 := bpb.maxClust >= 0x0FF6;
      dirty := false;
      active := t;
      ok := true;
    }
  }
}
