/** Splitting the linked kernel into an installable image, and the boot loader that
    puts its two halves back where they were linked. */
module KernelSplit {
  import opened Bytes

  const KERN_BASE := 0x0100
  const BOOT_BASE := 0x4400
  const BOOT_END := 0x4E00
  const BOOT_SECTORS := 5
  const FIRST_LBA := 6
  const VOL_COUNT := 4
  const NV_COUNT := 9
  const NV_LAST := 11
  const SIG_VERSION: byte := 1

  const KRN: seq<byte> := [0x4B, 0x52, 0x4E]
  const NVK: seq<byte> := [0x4E, 0x56, 0x4B]

  function Sectors(n: nat): nat {
    (n + 511) / 512
  }

  /** A linked image from $0100 on, the end of its volatile region, and the memory
      map it was linked for. */
  datatype Link = Link(data: seq<byte>, volEnd: nat, nvkBase: nat, nvkTop: nat) {
    function Vol(): seq<byte> {
      if KERN_BASE <= volEnd && volEnd - KERN_BASE + 1 <= |data| then data[..volEnd - KERN_BASE + 1] else data
    }

    function Nv(): seq<byte> {
      if KERN_BASE <= nvkBase && nvkBase - KERN_BASE <= |data| then data[nvkBase - KERN_BASE..] else []
    }

    /** The checks made before anything is written out. */
    predicate Passes() {
      && volEnd < nvkBase
      && KERN_BASE + |data| - 1 <= nvkTop
      && |Nv()| >= 3 && Nv()[..3] == NVK
    }
  }

  function Zeros(n: nat): (z: seq<byte>)
    ensures |z| == n
  {
    seq(n, i => 0)
  }

  function NvSectors(l: Link): nat {
    Sectors(|l.Nv()|)
  }

  function VolSectors(l: Link): nat {
    Sectors(|l.Vol()|)
  }

  function LastBytes(l: Link): int {
    |l.Nv()| - (NvSectors(l) - 1) * 512
  }

  /** The loader with its three header words filled in, highest byte first. */
  function Patched(boot: seq<byte>, l: Link): (r: seq<byte>)
    requires |boot| == 512 * BOOT_SECTORS && l.Passes() && VolSectors(l) < 0x10000 && NvSectors(l) < 0x10000
    ensures |r| == |boot|
  {
    LastInRange(l);
    boot[VOL_COUNT := VolSectors(l) / 256][VOL_COUNT + 1 := VolSectors(l) % 256]
        [NV_COUNT := NvSectors(l) / 256][NV_COUNT + 1 := NvSectors(l) % 256]
        [NV_LAST := LastBytes(l) / 256][NV_LAST + 1 := LastBytes(l) % 256]
  }

  lemma LastInRange(l: Link)
    requires |l.Nv()| >= 1
    ensures NvSectors(l) >= 1 && 1 <= LastBytes(l) <= 512
  {
  }

  /** The installable image: loader, volatile half filled up to a sector, and
      non-volatile half. */
  function Image(boot: seq<byte>, l: Link): seq<byte>
    requires |boot| == 512 * BOOT_SECTORS && l.Passes() && VolSectors(l) < 0x10000 && NvSectors(l) < 0x10000
  {
    Patched(boot, l) + (l.Vol() + Zeros(512 * VolSectors(l) - |l.Vol()|)) + l.Nv()
  }

  /** The image byte by byte: the loader with three counts, highest byte first, then the
      linked bytes up to the end of the volatile half, zeroes up to a whole sector, and
      the linked bytes from the non-volatile half on. */
  lemma ImageLayout(boot: seq<byte>, l: Link)
    requires |boot| == 2560 && l.Passes() && KERN_BASE <= l.volEnd <= l.nvkBase - 1 && l.nvkBase - KERN_BASE <= |l.data|
    requires VolSectors(l) < 0x10000 && NvSectors(l) < 0x10000
    ensures var img, v, n, vs := Image(boot, l), l.volEnd - 0xFF, |l.data| - (l.nvkBase - 0x100), VolSectors(l);
            var vol: int, nv: int, last: int := vs, NvSectors(l), LastBytes(l);
            && 512 * (vol - 1) < v <= 512 * vol && n == 512 * (nv - 1) + last && 1 <= last <= 512
            && |img| == 2560 + 512 * vs + n
            && [img[4], img[5], img[9], img[10], img[11], img[12]]
               == [vol / 256, vol % 256, nv / 256, nv % 256, last / 256, last % 256]
            && (forall i :: 0 <= i < 2560 && i !in {4, 5, 9, 10, 11, 12} ==> img[i] == boot[i])
            && img[2560..2560 + v] == l.data[..v]
            && (forall i :: 2560 + v <= i < 2560 + 512 * vs ==> img[i] == 0)
            && img[2560 + 512 * vs..] == l.data[l.nvkBase - 0x100..]
  {
    hide Patched;
    LastInRange(l);
    PatchedBytes(boot, l);
  }

  lemma PatchedBytes(boot: seq<byte>, l: Link)
    requires |boot| == 2560 && l.Passes() && VolSectors(l) < 0x10000 && NvSectors(l) < 0x10000
    ensures var p := Patched(boot, l);
            var vol: int, nv: int, last: int := VolSectors(l), NvSectors(l), LastBytes(l);
            && |p| == 2560
            && [p[4], p[5], p[9], p[10], p[11], p[12]] == [vol / 256, vol % 256, nv / 256, nv % 256, last / 256, last % 256]
            && forall i :: 0 <= i < 2560 && i !in {4, 5, 9, 10, 11, 12} ==> p[i] == boot[i]
  {
    hide Link.Vol, Link.Nv, Sectors;
    LastInRange(l);
  }

  method Put16(buf: array<byte>, at: nat, v: nat)
    requires at + 2 <= buf.Length && v < 0x10000
    modifies buf
    ensures buf[..] == old(buf[..])[at := v / 256][at + 1 := v % 256]
  {
    buf[at], buf[at + 1] := v / 256, v % 256;
  }

  /** The splitting tool: none when one of its checks fails. */
  method Split(l: Link, boot: array<byte>) returns (image: Option<seq<byte>>)
    requires KERN_BASE <= l.volEnd
    modifies boot
    ensures image.Some? <==> l.Passes() && boot.Length == 2560 && old(boot[..3]) == ['K' as int, 'R' as int, 'N' as int]
                             && VolSectors(l) < 0x10000 && NvSectors(l) < 0x10000
    ensures l.Passes() <==> l.volEnd < l.nvkBase && 0x100 + |l.data| - 1 <= l.nvkTop
                            && |l.Nv()| >= 3 && l.Nv()[..3] == ['N' as int, 'V' as int, 'K' as int]
    ensures image.Some? ==> image.value == Image(old(boot[..]), l)
  {
    var nvEnd := KERN_BASE + |l.data| - 1;
    if l.volEnd >= l.nvkBase || nvEnd > l.nvkTop {
      return None;
    }
    var vol, nv := l.Vol(), l.Nv();
    if |nv| < 3 || nv[..3] != NVK {
      return None;
    }
    if boot.Length < 3 || boot[..3] != KRN || boot.Length != 512 * BOOT_SECTORS {
      return None;
    }
    var vs, ns := Sectors(|vol|), Sectors(|nv|);
    if vs >= 0x10000 || ns >= 0x10000 {
      return None;
    }
    LastInRange(l);
    Put16(boot, VOL_COUNT, vs);
    Put16(boot, NV_COUNT, ns);
    Put16(boot, NV_LAST, |nv| - (ns - 1) * 512);
    return Some(boot[..] + (vol + Zeros(vs * 512 - |vol|)) + nv);
  }

  // ----- the boot loader -----

  /** What a load comes to. `Overwritten` is no message: sectors were read over the
      loader itself, which has no code to return to. */
  datatype Outcome = Booted | LoadError | BadSignature | Overwritten

  /** The volatile half ends so near the loader that its last sector reaches into it. */
  predicate Reaches(l: Link) {
    l.volEnd >= BOOT_BASE - 0x100
  }

  /** The loader's first page, with its header and the call of the load, is zero. */
  ghost predicate Erased(m: seq<byte>) {
    |m| == 0x10000 && forall a :: BOOT_BASE <= a < BOOT_BASE + 0x100 ==> m[a] == 0
  }

  function Word(mem: seq<byte>, at: nat): nat
    requires at + 2 <= |mem|
  {
    var hi: int := mem[at];
    256 * hi + mem[at + 1]
  }

  /** n consecutive sectors in memory from ra on. */
  function Loaded(mem: seq<byte>, disk: nat -> Sector, lba: nat, ra: nat, n: nat): (r: seq<byte>)
    requires ra + 512 * n <= |mem|
    ensures |r| == |mem|
    ensures forall a :: 0 <= a < |mem| ==>
              r[a] == if ra <= a < ra + 512 * n then disk(lba + (a - ra) / 512)[(a - ra) % 512] else mem[a]
  {
    seq(|mem|, a requires 0 <= a < |mem| =>
      if ra <= a < ra + 512 * n then disk(lba + (a - ra) / 512)[(a - ra) % 512] else mem[a])
  }

  /** Sectors from 1 on hold the image. */
  ghost predicate Installed(disk: nat -> Sector, image: seq<byte>) {
    forall i: nat :: i < |image| ==> disk(1 + i / 512)[i % 512] == image[i]
  }

  /** A split that was written out, for a machine whose memory it fits: the volatile
      half ends below the loader and the non-volatile half begins behind it. */
  ghost predicate Bootable(l: Link, boot: seq<byte>) {
    && l.Passes() && |boot| == 512 * BOOT_SECTORS
    && KERN_BASE <= l.volEnd < BOOT_BASE && BOOT_END <= l.nvkBase && l.nvkTop < 0x10000
    && |l.Nv()| >= 4
    && VolSectors(l) < 0x10000 && NvSectors(l) < 0x10000
  }

  /** Both regions hold the linked bytes; besides them only the padding of the
      volatile half and the loader's buffer were written. */
  ghost predicate Restored(m0: seq<byte>, m: seq<byte>, l: Link, scratch: nat) {
    && |m| == |m0| == 0x10000
    && (forall a :: KERN_BASE <= a <= l.volEnd && a < 0x10000 && a - KERN_BASE < |l.data| ==> m[a] == l.data[a - KERN_BASE])
    && (forall a :: l.nvkBase <= a < l.nvkBase + |l.Nv()| && KERN_BASE <= a < KERN_BASE + |l.data| && a < 0x10000 ==>
          m[a] == l.data[a - KERN_BASE])
    && (forall a :: 0 <= a < 0x10000 && m[a] != m0[a] ==>
          || KERN_BASE <= a < KERN_BASE + 512 * VolSectors(l)
          || scratch <= a < scratch + 512
          || l.nvkBase <= a < l.nvkBase + |l.Nv()|)
  }

  /** The non-volatile half is in place; besides it only the buffer was written. */
  ghost predicate NvPlaced(m1: seq<byte>, m: seq<byte>, l: Link, scratch: nat) {
    && |m| == |m1| == 0x10000
    && l.nvkBase + |l.Nv()| <= |m|
    && (forall a :: l.nvkBase <= a < l.nvkBase + |l.Nv()| ==> m[a] == l.Nv()[a - l.nvkBase])
    && (forall a :: 0 <= a < 0x10000 && !(l.nvkBase <= a < l.nvkBase + |l.Nv()|) && !(scratch <= a < scratch + 512) ==>
          m[a] == m1[a])
  }

  ghost predicate Readable(disk: nat -> Option<Sector>, lba: nat, n: nat) {
    forall k: nat :: lba <= k < lba + n ==> disk(k).Some?
  }

  /** The card holds these sectors, some of which may be unreadable. */
  ghost predicate Reads(disk: nat -> Option<Sector>, card: nat -> Sector) {
    forall k: nat :: disk(k).Some? ==> disk(k).value == card(k)
  }

  /** The signature and version the loader looks for. */
  predicate Signed(m: seq<byte>, nvk: nat)
    requires nvk + 4 <= |m|
  {
    m[nvk] == NVK[0] && m[nvk + 1] == NVK[1] && m[nvk + 2] == NVK[2] && m[nvk + 3] == SIG_VERSION
  }

  class Loader {
    const mem: array<byte>
    const disk: nat -> Option<Sector>
    ghost const card: nat -> Sector
    const scratch: nat
    const rom: bool  // whether the non-volatile region cannot be written
    var r7: nat
    var ra: nat

    constructor (memory: array<byte>, sectors: nat -> Option<Sector>, ghost held: nat -> Sector, buffer: nat, inRom: bool)
      ensures mem == memory && disk == sectors && card == held && scratch == buffer && rom == inRom
    {
      mem, disk, card, scratch, rom := memory, sectors, held, buffer, inRom;
      r7, ra := 0, 0;
    }

    /** The loader is in memory with its buffer behind the header. */
    ghost predicate Valid()
      reads this
    {
      mem.Length == 0x10000 && BOOT_BASE + NV_LAST + 2 <= scratch && scratch + 512 <= BOOT_END && Reads(disk, card)
    }

    /** Reads a sector to memory; a failed read may leave anything there. */
    method IdeRead(lba: nat, at: nat) returns (ok: bool)
      requires at + 512 <= mem.Length && Reads(disk, card)
      modifies mem
      ensures ok <==> disk(lba).Some?
      ensures ok ==> mem[..] == old(mem[..])[..at] + card(lba) + old(mem[..])[at + 512..]
    {
      if disk(lba).None? {
        modify mem;
        return false;
      }
      var s := disk(lba).value;
      var i := 0;
      while i < 512
        invariant 0 <= i <= 512
        invariant forall a :: 0 <= a < mem.Length ==> mem[a] == if at <= a < at + i then s[a - at] else old(mem[a])
      {
        mem[at + i] := s[i];
        i := i + 1;
      }
      ok := true;
    }

    /** Consecutive sectors to consecutive memory; the first that cannot be read ends
        the load. */
    method LoadSectors(rc: nat) returns (ok: bool)
      requires ra + 512 * rc <= mem.Length && Reads(disk, card)
      modifies mem, this`r7, this`ra
      ensures ok <==> Readable(disk, old(r7), rc)
      ensures ok ==> mem[..] == Loaded(old(mem[..]), card, old(r7), old(ra), rc)
      ensures ok ==> r7 == old(r7) + rc && ra == old(ra) + 512 * rc
    {
      hide Loaded, Reads;
      ghost var before := mem[..];
      var left: nat := rc;
      LoadedNone(before, card, r7, ra);
      while left > 0
        invariant left <= rc && r7 == old(r7) + (rc - left) && ra == old(ra) + 512 * (rc - left)
        invariant mem[..] == Loaded(before, card, old(r7), old(ra), rc - left)
        invariant Readable(disk, old(r7), rc - left)
      {
        LoadedStep(before, card, old(r7), old(ra), rc - left + 1);
        ok := IdeRead(r7, ra);
        if !ok {
          return;
        }
        ra, r7, left := ra + 512, r7 + 1, left - 1;
      }
      ok := true;
    }

    /** The one write test: two patterns, and the byte put back. */
    method TestRam(nvk: nat) returns (ram: bool)
      requires nvk < mem.Length
      modifies mem
      ensures ram == !rom && mem[..] == old(mem[..])
    {
      var saved := mem[nvk];
      Poke(nvk, 0xA5);
      ram := mem[nvk] == 0xA5;
      if ram {
        Poke(nvk, 0x5A);
        ram := mem[nvk] == 0x5A;
      }
      Poke(nvk, saved);
    }

    /** A write in the non-volatile region, which ROM ignores. */
    method Poke(a: nat, x: byte)
      requires a < mem.Length
      modifies mem
      ensures mem[..] == if rom then old(mem[..]) else old(mem[..])[a := x]
    {
      if !rom {
        mem[a] := x;
      }
    }

    /** The whole load: the volatile half, then, unless it is in ROM, the non-volatile
        half with its last sector taken through the buffer, then the signature test. */
    method Boot(nvk: nat, ghost l: Link, ghost boot: seq<byte>) returns (r: Outcome)
      requires Valid() && nvk == l.nvkBase && Bootable(l, boot) && Installed(card, Image(boot, l))
      requires mem[BOOT_BASE..BOOT_END] == Patched(boot, l)
      modifies mem, this`r7, this`ra
      ensures r.Overwritten? <==> Reaches(l) && Readable(disk, FIRST_LBA, VolSectors(l))
      ensures r.Overwritten? ==> Erased(mem[..])
      ensures r.LoadError? <==> !Readable(disk, FIRST_LBA, VolSectors(l))
                                || (!rom && !Reaches(l) && !Readable(disk, FIRST_LBA + VolSectors(l), NvSectors(l)))
      ensures !rom && (r.Booted? || r.BadSignature?) ==>
                Restored(old(mem[..]), mem[..], l, scratch) && (r.Booted? <==> l.Nv()[3] == SIG_VERSION)
      ensures rom && (r.Booted? || r.BadSignature?) ==>
                && KERN_BASE + 512 * VolSectors(l) <= BOOT_BASE && l.nvkBase + 4 <= mem.Length
                && mem[..] == Loaded(old(mem[..]), card, FIRST_LBA, KERN_BASE, VolSectors(l))
                && (r.Booted? <==> Signed(old(mem[..]), l.nvkBase))
    {
      hide Loaded, Image, Patched, Installed, Restored, Link.Passes, Link.Vol, Link.Nv, Bootable, Readable, Reads;
      ghost var m0 := mem[..];
      HeaderWords(m0, boot, l);
      BootSizes(l, boot);
      var rc := Word(mem[..], BOOT_BASE + VOL_COUNT);
      if rc == 0 {
        return LoadError;
      }
      r7, ra := FIRST_LBA, KERN_BASE;
      var ok := LoadSectors(rc);
      if !ok {
        return LoadError;
      }
      ghost var m1 := mem[..];
      HeaderAfterVol(m0, card, boot, l);
      if KERN_BASE + 512 * rc > BOOT_BASE {  // the code to return to has been read over
        return Overwritten;
      }
      var ram := TestRam(nvk);
      if !ram {
        var found := CheckSignature(nvk);
        return if found then Booted else BadSignature;
      }
      rc := Word(mem[..], BOOT_BASE + NV_COUNT);
      if rc == 0 {
        return LoadError;
      }
      ok := LoadNv(nvk, rc, l, boot);
      if !ok {
        return LoadError;
      }
      RestoredIs(m0, m1, mem[..], card, boot, l, scratch);
      SignatureIs(mem[..], l, boot);
      var signed := CheckSignature(nvk);
      r := if signed then Booted else BadSignature;
    }

    method CheckSignature(nvk: nat) returns (found: bool)
      requires nvk + 4 <= mem.Length
      ensures found == Signed(mem[..], nvk)
    {
      found := mem[nvk] == NVK[0] && mem[nvk + 1] == NVK[1] && mem[nvk + 2] == NVK[2] && mem[nvk + 3] == SIG_VERSION;
    }

    /** The non-volatile half: all sectors but the last go straight to their place,
        the last through the buffer. */
    method LoadNv(nvk: nat, rc: nat, ghost l: Link, ghost boot: seq<byte>) returns (ok: bool)
      requires Valid() && nvk == l.nvkBase && Bootable(l, boot) && Installed(card, Image(boot, l))
      requires rc == NvSectors(l) && r7 == FIRST_LBA + VolSectors(l)
      requires Word(mem[..], BOOT_BASE + NV_LAST) == LastBytes(l)
      modifies mem, this`r7, this`ra
      ensures ok <==> Readable(disk, FIRST_LBA + VolSectors(l), NvSectors(l))
      ensures ok ==> NvPlaced(old(mem[..]), mem[..], l, scratch)
    {
      hide Loaded, Image, Patched, Installed, Link.Passes, Link.Vol, Link.Nv, Bootable, NvSectors, VolSectors, Readable, Reads;
      BootSizes(l, boot);
      LastUnderEnd(l);
      ReadableSplit(disk, r7, rc - 1, 1);
      ReadableOne(disk, r7 + (rc - 1));
      ghost var m1, lba := mem[..], r7;
      ra := nvk;
      ok := LoadSectors(rc - 1);
      if !ok {
        return;
      }
      ghost var m2 := mem[..];
      KeptBelow(m1, card, lba, nvk, rc - 1);
      WordKept(m1, m2);
      ok := LoadLast(LastBytes(l));
      if ok {
        NvPlacedIs(m1, m2, mem[..], card, boot, l, scratch);
      }
    }

    /** One sector through the buffer, of which the header says how many bytes count. */
    method LoadLast(ghost n: int) returns (ok: bool)
      requires Valid() && Word(mem[..], BOOT_BASE + NV_LAST) == n && 0 <= n <= 512
      requires BOOT_END <= ra && ra + n <= mem.Length
      modifies mem, this`ra
      ensures ok <==> disk(r7).Some?
      ensures ok ==> forall a :: 0 <= a < mem.Length && !(scratch <= a < scratch + 512) ==>
                mem[a] == if old(ra) <= a < old(ra) + n then card(r7)[a - old(ra)] else old(mem[a])
    {
      hide Reads;
      ghost var before := mem[..];
      ok := IdeRead(r7, scratch);
      if !ok {
        return;
      }
      ghost var after := mem[..];
      assert forall a :: scratch <= a < scratch + 512 ==> after[a] == card(r7)[a - scratch];
      assert forall a :: 0 <= a < |after| && !(scratch <= a < scratch + 512) ==> after[a] == before[a];
      WordKept(before, after);
      var rc := Word(mem[..], BOOT_BASE + NV_LAST);
      CopyOut(rc);
    }

    /** nv_copy: the first n bytes of the buffer, to ra on. */
    method CopyOut(n: nat)
      requires Valid() && n <= 512 && ra + n <= mem.Length && (ra + n <= scratch || scratch + 512 <= ra)
      modifies mem, this`ra
      ensures ra == old(ra) + n
      ensures forall a :: 0 <= a < mem.Length ==>
                mem[a] == if old(ra) <= a < old(ra) + n then old(mem[scratch + a - ra]) else old(mem[a])
    {
      var rf: nat, rc: nat := scratch, n;
      while rc > 0
        invariant rc <= n && rf == scratch + (n - rc) && ra == old(ra) + (n - rc)
        invariant forall a :: 0 <= a < mem.Length ==>
                    mem[a] == if old(ra) <= a < ra then old(mem[scratch + a - ra]) else old(mem[a])
      {
        mem[ra] := mem[rf];
        rf, ra, rc := rf + 1, ra + 1, rc - 1;
      }
    }
  }

  lemma ReadableSplit(disk: nat -> Option<Sector>, lba: nat, a: nat, b: nat)
    ensures Readable(disk, lba, a + b) <==> Readable(disk, lba, a) && Readable(disk, lba + a, b)
  {
  }

  lemma ReadableOne(disk: nat -> Option<Sector>, lba: nat)
    ensures Readable(disk, lba, 1) <==> disk(lba).Some?
  {
  }

  lemma LoadedStep(mem: seq<byte>, disk: nat -> Sector, lba: nat, ra: nat, n: nat)
    requires n > 0 && ra + 512 * n <= |mem|
    ensures var before, at := Loaded(mem, disk, lba, ra, n - 1), ra + 512 * (n - 1);
            Loaded(mem, disk, lba, ra, n) == before[..at] + disk(lba + n - 1) + before[at + 512..]
  {
    var before, at := Loaded(mem, disk, lba, ra, n - 1), ra + 512 * (n - 1);
    var after, made := Loaded(mem, disk, lba, ra, n), before[..at] + disk(lba + n - 1) + before[at + 512..];
    forall a | 0 <= a < |mem| ensures after[a] == made[a] {
      if at <= a < at + 512 {
        PlaceInSector(a - ra, n - 1, a - at);
      }
    }
  }

  lemma PlaceInSector(x: nat, q: nat, r: nat)
    requires x == 512 * q + r && r < 512
    ensures x / 512 == q && x % 512 == r
  {
  }

  lemma LoadedNone(mem: seq<byte>, disk: nat -> Sector, lba: nat, ra: nat)
    requires ra <= |mem|
    ensures Loaded(mem, disk, lba, ra, 0) == mem
  {
  }

  // ----- the proof of the load -----

  lemma BootSizes(l: Link, boot: seq<byte>)
    requires Bootable(l, boot)
    ensures |l.Vol()| == l.volEnd - KERN_BASE + 1 && |l.Nv()| == KERN_BASE + |l.data| - l.nvkBase >= 4
    ensures 1 <= VolSectors(l) <= 34 && NvSectors(l) >= 1 && 1 <= LastBytes(l) <= 512
    ensures VolSectors(l) == 34 <==> Reaches(l)
    ensures BOOT_END <= l.nvkBase && l.nvkBase + 512 * (NvSectors(l) - 1) + LastBytes(l) <= 0x10000
  {
  }

  /** The header words of the patched loader are the counts. */
  lemma HeaderWords(m: seq<byte>, boot: seq<byte>, l: Link)
    requires Bootable(l, boot) && |m| == 0x10000 && m[BOOT_BASE..BOOT_END] == Patched(boot, l)
    ensures Word(m, BOOT_BASE + VOL_COUNT) == VolSectors(l)
    ensures Word(m, BOOT_BASE + NV_COUNT) == NvSectors(l)
    ensures Word(m, BOOT_BASE + NV_LAST) == LastBytes(l)
  {
    hide Link.Vol, Link.Nv, Sectors;
    LastInRange(l);
    var h := Patched(boot, l);
    assert forall k :: 0 <= k < 13 ==> m[BOOT_BASE + k] == m[BOOT_BASE..BOOT_END][k];
    assert m[BOOT_BASE + 4] == h[4] && m[BOOT_BASE + 5] == h[5];
    assert m[BOOT_BASE + 9] == h[9] && m[BOOT_BASE + 10] == h[10];
    assert m[BOOT_BASE + 11] == h[11] && m[BOOT_BASE + 12] == h[12];
  }

  /** Byte k of the padded volatile half, and of the non-volatile half, on disk. */
  lemma VolOnDisk(disk: nat -> Sector, boot: seq<byte>, l: Link, k: nat)
    requires Bootable(l, boot) && Installed(disk, Image(boot, l)) && k < 512 * VolSectors(l)
    ensures disk(FIRST_LBA + k / 512)[k % 512] == if k < |l.Vol()| then l.Vol()[k] else 0
  {
    hide Link.Vol, Link.Nv, Patched;
    var i := 512 * BOOT_SECTORS + k;
    PlaceInSector(i, BOOT_SECTORS + k / 512, k % 512);
    assert Image(boot, l)[i] == if k < |l.Vol()| then l.Vol()[k] else 0;
  }

  lemma NvOnDisk(disk: nat -> Sector, boot: seq<byte>, l: Link, k: nat)
    requires Bootable(l, boot) && Installed(disk, Image(boot, l)) && k < |l.Nv()|
    ensures disk(FIRST_LBA + VolSectors(l) + k / 512)[k % 512] == l.Nv()[k]
  {
    hide Link.Vol, Link.Nv, Patched;
    var i := 512 * (BOOT_SECTORS + VolSectors(l)) + k;
    PlaceInSector(i, BOOT_SECTORS + VolSectors(l) + k / 512, k % 512);
    assert Image(boot, l)[i] == l.Nv()[k];
  }

  /** Loading the volatile half by whole sectors leaves the header alone, or erases the
      loader's first page when the rounding reaches it. */
  lemma HeaderAfterVol(m0: seq<byte>, disk: nat -> Sector, boot: seq<byte>, l: Link)
    requires Bootable(l, boot) && Installed(disk, Image(boot, l)) && |m0| == 0x10000
    requires m0[BOOT_BASE..BOOT_END] == Patched(boot, l)
    ensures KERN_BASE + 512 * VolSectors(l) <= |m0|
    ensures var m1 := Loaded(m0, disk, FIRST_LBA, KERN_BASE, VolSectors(l));
            if Reaches(l) then Erased(m1)
            else Word(m1, BOOT_BASE + NV_COUNT) == NvSectors(l) && Word(m1, BOOT_BASE + NV_LAST) == LastBytes(l)
  {
    hide Patched, Image, Installed, Loaded, Link.Vol, Link.Nv, VolSectors, NvSectors;
    BootSizes(l, boot);
    HeaderWords(m0, boot, l);
    if Reaches(l) {
      var m1 := Loaded(m0, disk, FIRST_LBA, KERN_BASE, VolSectors(l));
      forall a | BOOT_BASE <= a < BOOT_BASE + 0x100 ensures m1[a] == 0 {
        VolOnDisk(disk, boot, l, a - KERN_BASE);
      }
    }
  }

  lemma LastUnderEnd(l: Link)
    requires |l.Nv()| >= 1
    ensures 512 * (NvSectors(l) - 1) + LastBytes(l) == |l.Nv()|
  {
  }

  lemma KeptBelow(m: seq<byte>, disk: nat -> Sector, lba: nat, ra: nat, n: nat)
    requires ra + 512 * n <= |m|
    ensures forall a :: 0 <= a < |m| && !(ra <= a < ra + 512 * n) ==> Loaded(m, disk, lba, ra, n)[a] == m[a]
  {
  }

  lemma WordKept(a: seq<byte>, b: seq<byte>)
    requires |a| == |b| == 0x10000
    requires forall i :: BOOT_BASE <= i < BOOT_BASE + NV_LAST + 2 ==> a[i] == b[i]
    ensures Word(a, BOOT_BASE + NV_LAST) == Word(b, BOOT_BASE + NV_LAST)
  {
  }

  lemma NvPlacedIs(m1: seq<byte>, m2: seq<byte>, m: seq<byte>, disk: nat -> Sector, boot: seq<byte>, l: Link, scratch: nat)
    requires Bootable(l, boot) && Installed(disk, Image(boot, l)) && |m1| == |m| == 0x10000
    requires BOOT_BASE <= scratch && scratch + 512 <= BOOT_END
    requires l.nvkBase + 512 * (NvSectors(l) - 1) + LastBytes(l) <= 0x10000 && NvSectors(l) >= 1 && 1 <= LastBytes(l) <= 512
    requires m2 == Loaded(m1, disk, FIRST_LBA + VolSectors(l), l.nvkBase, NvSectors(l) - 1)
    requires var at, last := l.nvkBase + 512 * (NvSectors(l) - 1), disk(FIRST_LBA + VolSectors(l) + (NvSectors(l) - 1));
             forall a :: 0 <= a < 0x10000 && !(scratch <= a < scratch + 512) ==>
               m[a] == if at <= a < at + LastBytes(l) then last[a - at] else m2[a]
    ensures NvPlaced(m1, m, l, scratch)
  {
    hide Image, Patched, Installed, Link.Passes, Link.Vol, Link.Nv, NvSectors, VolSectors;
    BootSizes(l, boot);
    LastUnderEnd(l);
    var full := NvSectors(l) - 1;
    forall a | l.nvkBase <= a < l.nvkBase + |l.Nv()| ensures m[a] == l.Nv()[a - l.nvkBase] {
      NvOnDisk(disk, boot, l, a - l.nvkBase);
      if a >= l.nvkBase + 512 * full {
        PlaceInSector(a - l.nvkBase, full, a - l.nvkBase - 512 * full);
      }
    }
  }

  lemma RestoredIs(m0: seq<byte>, m1: seq<byte>, m: seq<byte>, disk: nat -> Sector, boot: seq<byte>, l: Link, scratch: nat)
    requires Bootable(l, boot) && Installed(disk, Image(boot, l)) && |m0| == 0x10000
    requires !Reaches(l) && BOOT_BASE <= scratch && scratch + 512 <= BOOT_END
    requires KERN_BASE + 512 * VolSectors(l) <= |m0|
    requires m1 == Loaded(m0, disk, FIRST_LBA, KERN_BASE, VolSectors(l)) && NvPlaced(m1, m, l, scratch)
    ensures Restored(m0, m, l, scratch)
  {
    hide Image, Patched, Installed, NvSectors, VolSectors, Link.Passes, Link.Vol, Link.Nv, Loaded;
    BootSizes(l, boot);
    VolCovers(l, boot);
    forall a | KERN_BASE <= a <= l.volEnd && a < 0x10000 && a - KERN_BASE < |l.data| ensures m[a] == l.data[a - KERN_BASE] {
      VolOnDisk(disk, boot, l, a - KERN_BASE);
    }
    assert forall a :: l.nvkBase <= a < l.nvkBase + |l.Nv()| ==> m[a] == l.Nv()[a - l.nvkBase];
  }

  lemma VolCovers(l: Link, boot: seq<byte>)
    requires Bootable(l, boot)
    ensures |l.Vol()| <= 512 * VolSectors(l) && |l.Vol()| <= |l.data|
    ensures forall k :: 0 <= k < |l.Vol()| ==> l.Vol()[k] == l.data[k]
    ensures forall k :: 0 <= k < |l.Nv()| ==> l.Nv()[k] == l.data[l.nvkBase - KERN_BASE + k]
  {
  }

  lemma SignatureIs(m: seq<byte>, l: Link, boot: seq<byte>)
    requires Bootable(l, boot) && |m| == 0x10000 && l.nvkBase + |l.Nv()| <= |m|
    requires forall a :: l.nvkBase <= a < l.nvkBase + |l.Nv()| ==> m[a] == l.Nv()[a - l.nvkBase]
    ensures m[l.nvkBase] == NVK[0] && m[l.nvkBase + 1] == NVK[1] && m[l.nvkBase + 2] == NVK[2]
    ensures m[l.nvkBase + 3] == l.Nv()[3]
  {
    hide Link.Nv;
    assert l.Nv()[..3][0] == l.Nv()[0] && l.Nv()[..3][1] == l.Nv()[1] && l.Nv()[..3][2] == l.Nv()[2];
  }

  /** A volatile half that ends at $4300, with the non-volatile half at $BD00: it passes
      every check, and once it is loaded the loader's first page is gone. */
  lemma RoundedLoadExample(m0: seq<byte>, disk: nat -> Sector)
    requires var l := RoundedLink();
             && Bootable(l, Zeros(512 * BOOT_SECTORS)) && |m0| == 0x10000
             && Installed(disk, Image(Zeros(512 * BOOT_SECTORS), l))
             && m0[BOOT_BASE..BOOT_END] == Patched(Zeros(512 * BOOT_SECTORS), l)
    ensures KERN_BASE + 512 * VolSectors(RoundedLink()) <= |m0|
    ensures Erased(Loaded(m0, disk, FIRST_LBA, KERN_BASE, VolSectors(RoundedLink())))
  {
    HeaderAfterVol(m0, disk, Zeros(512 * BOOT_SECTORS), RoundedLink());
  }

  function RoundedLink(): Link {
    Link(Zeros(0xBD00 - KERN_BASE) + NVK + [SIG_VERSION], 0x4300, 0xBD00, 0xEFFF)
  }

  lemma RoundedLinkBootable()
    ensures Bootable(RoundedLink(), Zeros(512 * BOOT_SECTORS)) && RoundedLink().Nv()[3] == SIG_VERSION
  {
    var l := RoundedLink();
    assert l.Nv() == NVK + [SIG_VERSION];
    assert l.Nv()[..3] == NVK;
  }
}
