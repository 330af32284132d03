/** The volume layout that Format-ElfDosDisk chooses for a partition, and what the
    boot loader then makes of the volume. */
module FormatGeometry {
  import opened Bytes
  import opened BootGeometry

  const ROOT_ENTRIES := 512
  const ROOT_SECTORS := 32
  const NUM_FATS := 2
  const RESERVED := 1
  const MIN_CLUSTERS := 4085
  const MAX_CLUSTERS := 65524

  const SIZES: seq<byte> := [1, 2, 4, 8, 16, 32, 64, 128]

  datatype Geometry = Geometry(spc: byte, spf: nat, count: nat, total: Word32)

  /** What is left for FATs and clusters. */
  function Room(total: Word32): int {
    total - (RESERVED + ROOT_SECTORS)
  }

  function PerFatSector(spc: byte): nat {
    256 * spc + NUM_FATS
  }

  function FatSize(total: Word32, spc: byte): int {
    (Room(total) + PerFatSector(spc) - 1) / PerFatSector(spc)
  }

  function Overhead(total: Word32, spc: byte): int {
    RESERVED + NUM_FATS * FatSize(total, spc) + ROOT_SECTORS
  }

  function Clusters(total: Word32, spc: byte): int
    requires spc > 0
  {
    (total - Overhead(total, spc)) / spc
  }

  /** Clusters of this size make a FAT16 volume of the partition. */
  predicate Usable(total: Word32, spc: byte) {
    && spc in SIZES
    && Room(total) > 0
    && 0 < FatSize(total, spc) <= 65535
    && Overhead(total, spc) < total
    && MIN_CLUSTERS <= Clusters(total, spc) <= MAX_CLUSTERS
  }

  /** In numbers: one reserved sector and 32 of the root, a cluster size up to 128, a FAT of
      16-bit length, and as many clusters as FAT16 may have. */
  lemma UsableMeans(total: Word32, spc: byte)
    ensures Usable(total, spc) <==>
              && spc in {1, 2, 4, 8, 16, 32, 64, 128} && total > 33
              && var f := FatSize(total, spc);
                 1 <= f <= 65535 && 33 + 2 * f < total && 4085 <= (total - 33 - 2 * f) / spc <= 65524
  {
    hide FatSize;
  }

  /** A layout is found exactly when some cluster size makes a FAT16 volume, and it
      is the one with the smallest such size. */
  method GetFat16Geometry(total: Word32) returns (g: Option<Geometry>)
    ensures g.Some? <==> exists s: byte :: Usable(total, s)
    ensures g.Some? ==>
              && Usable(total, g.value.spc)
              && g.value == Geometry(g.value.spc, FatSize(total, g.value.spc), Clusters(total, g.value.spc), total)
              && forall s: byte :: Usable(total, s) ==> g.value.spc <= s
  {
    hide FatSize, Overhead, Clusters, SIZES;
    var k := 0;
    while k < |SIZES|
      invariant 0 <= k <= |SIZES|
      invariant forall j :: 0 <= j < k ==> !Usable(total, SIZES[j])
    {
      var spc := SIZES[k];
      Layout(total, spc);
      k := k + 1;
      if Room(total) <= 0 {
        continue;
      }
      var fatSize := FatSize(total, spc);
      if fatSize <= 0 || fatSize > 65535 {
        continue;
      }
      var overhead := RESERVED + NUM_FATS * fatSize + ROOT_SECTORS;
      if total <= overhead {
        continue;
      }
      var clusters := (total - overhead) / spc;
      if clusters > MAX_CLUSTERS {
        continue;
      }
      if clusters < MIN_CLUSTERS {
        forall j | k <= j < |SIZES| ensures !Usable(total, SIZES[j]) {
          Ascending(k - 1, j);
          FewerClusters(total, spc, SIZES[j]);
        }
        return None;
      }
      assert Usable(total, spc);
      forall j | k <= j < |SIZES| ensures spc <= SIZES[j] {
        Ascending(k - 1, j);
      }
      return Some(Geometry(spc, fatSize, clusters, total));
    }
    return None;
  }

  lemma Layout(total: Word32, spc: byte)
    requires spc in SIZES
    ensures spc > 0
    ensures Overhead(total, spc) == RESERVED + NUM_FATS * FatSize(total, spc) + ROOT_SECTORS
    ensures Clusters(total, spc) == (total - Overhead(total, spc)) / spc
  {
  }

  lemma Ascending(i: nat, j: nat)
    requires i < j < |SIZES|
    ensures 2 * SIZES[i] <= SIZES[j]
  {
  }

  // ----- the arithmetic of a layout -----

  /** The FAT size is the room divided by what one FAT sector serves, rounded up. */
  lemma FatSizeBounds(total: Word32, spc: byte)
    requires spc > 0 && Room(total) > 0
    ensures var f, d := FatSize(total, spc), PerFatSector(spc);
            1 <= f && Product(f - 1, d) < Room(total) <= Product(f, d)
  {
    var d := PerFatSector(spc);
    QuotientBounds(Room(total) + d - 1, d);
    if FatSize(total, spc) >= 1 {
      ProductStep(FatSize(total, spc) - 1, d);
    }
  }

  /** FATs of f sectors each have an entry for every cluster of the sectors they leave. */
  predicate Serves(total: Word32, spc: byte, f: nat) {
    total - (1 + 2 * f + 32) <= 256 * f * spc
  }

  /** The FAT size is the least that serves the clusters it leaves room for. */
  lemma FatSizeIsLeast(total: Word32, spc: byte, f: nat)
    requires spc > 0 && Room(total) > 0
    ensures FatSize(total, spc) >= 1 && (Serves(total, spc, f) <==> f >= FatSize(total, spc))
  {
    hide FatSize;
    FatSizeBounds(total, spc);
    var least, d := FatSize(total, spc), PerFatSector(spc);
    assert Product(f, d) == 256 * f * spc + 2 * f;
    if f >= least {
      ProductSteps(least, f, d);
    } else {
      ProductSteps(f, least - 1, d);
    }
  }

  lemma ProductSteps(a: nat, b: nat, p: nat)
    requires a <= b
    ensures Product(a, p) <= Product(b, p)
  {
    if a < b {
      ProductMonotone(a, b, p);
    }
  }

  lemma ProductUp(a: nat, b: nat, c: nat)
    requires b <= c
    ensures Product(a, b) <= Product(a, c)
  {
    assert a * c == a * b + a * (c - b);
  }

  /** Twice the cluster size or more never makes more clusters. */
  lemma FewerClusters(total: Word32, s: byte, t: byte)
    requires 1 <= s && 2 * s <= t
    requires Room(total) > 0 && Overhead(total, s) < total
    ensures Clusters(total, t) <= Clusters(total, s)
  {
    hide FatSize, Product;
    var f, f' := FatSize(total, s), FatSize(total, t);
    FatSizeBounds(total, s);
    FatSizeBounds(total, t);
    ProductUp(f - 1, 258, PerFatSector(s));
    assert Product(f - 1, 258) == 258 * (f - 1) by {
      TimesConstant(f - 1);
    }
    var a, b := total - Overhead(total, s), total - Overhead(total, t);
    assert b <= 2 * a;
    QuotientOrder(b, t, a, s);
  }

  lemma TimesConstant(n: nat)
    ensures Product(n, 258) == 258 * n
  {
  }

  lemma QuotientOrder(b: int, t: nat, a: nat, s: nat)
    requires 1 <= s && 2 * s <= t && b <= 2 * a
    ensures b / t <= a / s
  {
    if b >= 0 {
      QuotientBounds(b, t);
      QuotientBounds(a, s);
      var q, r := b / t, a / s;
      if q > r {
        ProductMonotone(r, q, s);
        ProductUp(q, 2 * s, t);
        DoubleProduct(q, s);
      }
    }
  }

  /** The FAT has an entry for each cluster, though not always for the two
      reserved ones too: that holds exactly when the rounding leaves room. */
  lemma EntriesFit(total: Word32, spc: byte)
    requires spc > 0 && Room(total) > 0 && Overhead(total, spc) < total
    ensures Clusters(total, spc) <= 256 * FatSize(total, spc)
    ensures Clusters(total, spc) + 2 <= 256 * FatSize(total, spc) <==>
              Room(total) < FatSize(total, spc) * PerFatSector(spc) - spc
  {
    hide FatSize;
    FatSizeBounds(total, spc);
    var f, n := FatSize(total, spc), Clusters(total, spc);
    var x := total - Overhead(total, spc);
    QuotientBounds(x, spc);
    assert Product(f, PerFatSector(spc)) == Product(256 * f, spc) + 2 * f;
    if n > 256 * f {
      ProductMonotone(256 * f, n, spc);
    } else if n + 2 <= 256 * f {
      ProductMonotone(n, 256 * f - 1, spc);
      ProductStep(256 * f - 1, spc);
    } else {
      ProductStep(256 * f - 1, spc);
    }
  }

  /** A usable layout has at most 256 FAT sectors, so its overhead is small. */
  lemma UsableIsSmall(total: Word32, spc: byte)
    requires Usable(total, spc)
    ensures FatSize(total, spc) <= 256
  {
    hide FatSize;
    FatSizeBounds(total, spc);
    var f, n := FatSize(total, spc), Clusters(total, spc);
    QuotientBounds(total - Overhead(total, spc), spc);
    SizeFactors(f - 1, n, spc);
  }

  lemma SizeFactors(m: nat, n: nat, spc: byte)
    requires spc > 0 && n <= 65524
    ensures Product(m, PerFatSector(spc)) >= Product(n, spc) + spc + 2 * m + 2 || m <= 255
  {
    assert Product(m, PerFatSector(spc)) == 256 * Product(m, spc) + 2 * m;
    assert m == 256 + (m - 256);
    if m > 255 {
      assert Product(m, spc) == 256 * spc + (m - 256) * spc;
      AtMostTimes(n, 65524, spc);
    }
  }

  lemma AtMostTimes(a: nat, b: nat, c: nat)
    requires a <= b
    ensures Product(a, c) <= b * c
  {
  }

  // ----- the boot sector written for it -----

  method SetLE16(buf: array<byte>, at: nat, v: Word16)
    requires at + 2 <= buf.Length
    modifies buf
    ensures buf[at] == v % 0x100 && buf[at + 1] == v / 0x100
    ensures forall i :: 0 <= i < buf.Length && !(at <= i < at + 2) ==> buf[i] == old(buf[i])
  {
    buf[at], buf[at + 1] := v % 0x100, v / 0x100;
  }

  method SetLE32(buf: array<byte>, at: nat, v: Word32)
    requires at + 4 <= buf.Length
    modifies buf
    ensures buf[at] == v % 0x100 && buf[at + 1] == v / 0x100 % 0x100
    ensures buf[at + 2] == v / 0x10000 % 0x100 && buf[at + 3] == v / 0x1000000
    ensures forall i :: 0 <= i < buf.Length && !(at <= i < at + 4) ==> buf[i] == old(buf[i])
  {
    buf[at], buf[at + 1], buf[at + 2], buf[at + 3] := v % 0x100, v / 0x100 % 0x100, v / 0x10000 % 0x100, v / 0x1000000;
  }

  /** Text fields are given as the bytes they occupy. */
  method SetAscii(buf: array<byte>, at: nat, text: seq<byte>)
    requires at + |text| <= buf.Length
    modifies buf
    ensures buf[at..at + |text|] == text
    ensures forall i :: 0 <= i < buf.Length && !(at <= i < at + |text|) ==> buf[i] == old(buf[i])
  {
    var i := 0;
    while i < |text|
      invariant 0 <= i <= |text|
      invariant buf[at..at + i] == text[..i]
      invariant forall j :: 0 <= j < buf.Length && !(at <= j < at + i) ==> buf[j] == old(buf[j])
    {
      buf[at + i] := text[i];
      i := i + 1;
    }
  }

  const OEM: seq<byte> := [0x4D, 0x53, 0x57, 0x49, 0x4E, 0x34, 0x2E, 0x31]
  const FAT16: seq<byte> := [0x46, 0x41, 0x54, 0x31, 0x36, 0x20, 0x20, 0x20]

  function HeaderFor(g: Geometry): Header
    requires g.spf < 0x10000
  {
    Header(g.spc, RESERVED, NUM_FATS, ROOT_ENTRIES, g.spf, g.total)
  }

  /** The fields of a FAT16 boot sector where the FAT specification has them: 512 bytes
      to a sector, a fixed disk, and the numbers of the layout. */
  predicate Described(s: seq<byte>, g: Geometry)
    requires |s| == 512
  {
    && s[0x0B] == 0x00 && s[0x0C] == 0x02 && s[0x0D] == g.spc
    && s[0x0E] == 1 && s[0x0F] == 0 && s[0x10] == 2
    && s[0x11] == 0x00 && s[0x12] == 0x02 && s[0x15] == 0xF8
    && s[0x16] == g.spf % 256 && s[0x17] == g.spf / 256
    && (if g.total < 65536 then s[0x13] == g.total % 256 && s[0x14] == g.total / 256 && s[0x20] == s[0x21] == s[0x22] == s[0x23] == 0
        else s[0x13] == s[0x14] == 0 && s[0x20] == g.total % 256 && s[0x21] == g.total / 256 % 256
             && s[0x22] == g.total / 65536 % 256 && s[0x23] == g.total / 16777216)
  }

  /** The BIOS parameter block. */
  method PutGeometry(vbr: array<byte>, g: Geometry)
    requires vbr.Length == 512 && g.spf < 0x10000 && g.total > 0
    modifies vbr
    ensures HeaderOf(vbr[..]) == HeaderFor(g)
    ensures Described(vbr[..], g)
    ensures forall i :: 0 <= i < 512 && !(0x0B <= i < 0x18 || 0x20 <= i < 0x24) ==> vbr[i] == old(vbr[i])
  {
    SetLE16(vbr, 0x0B, 512);
    vbr[0x0D] := g.spc;
    SetLE16(vbr, 0x0E, RESERVED);
    vbr[0x10] := NUM_FATS;
    SetLE16(vbr, 0x11, ROOT_ENTRIES);
    if g.total < 65536 {
      SetLE16(vbr, 0x13, g.total);
      SetLE32(vbr, 0x20, 0);
    } else {
      SetLE16(vbr, 0x13, 0);
      SetLE32(vbr, 0x20, g.total);
    }
    vbr[0x15] := 0xF8;
    SetLE16(vbr, 0x16, g.spf);
    HeaderBytes(vbr[..], g);
  }

  /** The rest of a FAT16 boot sector: disk geometry, hidden sectors, drive number, extended
      signature, serial, label, type and boot signature, where the specification has them. */
  predicate Labelled(s: seq<byte>, start: Word32, serial: Word32, name: seq<byte>)
    requires |s| == 512
  {
    && s[0x18..0x1C] == [63, 0, 255, 0] && LongAt(s, 0x1C, start)
    && s[0x24] == 0x80 && s[0x25] == 0 && s[0x26] == 0x29 && LongAt(s, 0x27, serial)
    && s[0x2B..0x36] == name && s[0x36..0x3E] == [0x46, 0x41, 0x54, 0x31, 0x36, 0x20, 0x20, 0x20]
    && s[510] == 0x55 && s[511] == 0xAA
  }

  /** A 32-bit number, low byte first. */
  predicate LongAt(s: seq<byte>, at: nat, v: Word32)
    requires at + 4 <= |s|
  {
    s[at] == v % 256 && s[at + 1] == v / 256 % 256 && s[at + 2] == v / 65536 % 256 && s[at + 3] == v / 16777216
  }

  /** What follows the block: disk geometry, serial, labels and the signature. */
  method PutRest(vbr: array<byte>, start: Word32, serial: Word32, name: seq<byte>)
    requires vbr.Length == 512 && |name| == 11
    modifies vbr
    ensures forall i :: 0 <= i < 0x18 || 0x20 <= i < 0x24 ==> vbr[i] == old(vbr[i])
    ensures Labelled(vbr[..], start, serial, name)
  {
    SetLE16(vbr, 0x18, 63);
    SetLE16(vbr, 0x1A, 255);
    SetLE32(vbr, 0x1C, start);
    vbr[0x24], vbr[0x25], vbr[0x26] := 0x80, 0x00, 0x29;
    SetLE32(vbr, 0x27, serial);
    SetAscii(vbr, 0x2B, name);
    SetAscii(vbr, 0x36, FAT16);
    vbr[510], vbr[511] := 0x55, 0xAA;
    assert vbr[..][0x2B..0x36] == vbr[0x2B..0x36] && vbr[..][0x36..0x3E] == vbr[0x36..0x3E];
  }

  lemma BlockStays(a: seq<byte>, b: seq<byte>, g: Geometry)
    requires |a| == |b| == 512 && forall i :: 0x0B <= i < 0x18 || 0x20 <= i < 0x24 ==> a[i] == b[i]
    ensures HeaderOf(a) == HeaderOf(b) && Described(a, g) == Described(b, g)
  {
  }

  lemma HeaderBytes(s: seq<byte>, g: Geometry)
    requires |s| == 512 && g.spf < 0x10000 && g.total > 0
    requires s[13] == g.spc && s[14] == RESERVED && s[15] == 0 && s[16] == NUM_FATS
    requires s[17] == ROOT_ENTRIES % 0x100 && s[18] == ROOT_ENTRIES / 0x100
    requires s[22] == g.spf % 0x100 && s[23] == g.spf / 0x100
    requires if g.total < 65536 then s[19] == g.total % 0x100 && s[20] == g.total / 0x100
             else s[19] == s[20] == 0 && s[32] == g.total % 0x100 && s[33] == g.total / 0x100 % 0x100
                  && s[34] == g.total / 0x10000 % 0x100 && s[35] == g.total / 0x1000000
    ensures HeaderOf(s) == HeaderFor(g)
  {
    TotalBytes(g.total);
  }

  /** The boot sector of a new volume carries exactly its geometry: the loader reads
      back the numbers that were chosen. */
  method NewFat16Vbr(g: Geometry, start: Word32, serial: Word32, name: seq<byte>) returns (vbr: array<byte>)
    requires g.spf < 0x10000 && g.total > 0 && |name| == 11
    ensures fresh(vbr) && vbr.Length == 512
    ensures HeaderOf(vbr[..]) == HeaderFor(g) && Described(vbr[..], g)
    ensures Labelled(vbr[..], start, serial, name)
    ensures Jumps(vbr[..])
  {
    vbr := new byte[512](i => 0);
    PutJump(vbr);
    ghost var first := vbr[..];
    PutGeometry(vbr, g);
    ghost var block := vbr[..];
    PutRest(vbr, start, serial, name);
    hide HeaderOf, Described, Labelled;
    BlockStays(block, vbr[..], g);
    JumpStays(first, vbr[..]);
  }

  /** The jump at the front and the maker's name. */
  method PutJump(vbr: array<byte>)
    requires vbr.Length == 512
    modifies vbr
    ensures Jumps(vbr[..])
  {
    vbr[0], vbr[1], vbr[2] := 0xEB, 0x3C, 0x90;
    SetAscii(vbr, 0x03, OEM);
    assert vbr[..][3..11] == vbr[3..11];
  }

  predicate Jumps(s: seq<byte>)
    requires |s| == 512
  {
    s[0] == 0xEB && s[1] == 0x3C && s[2] == 0x90 && s[3..11] == [0x4D, 0x53, 0x57, 0x49, 0x4E, 0x34, 0x2E, 0x31]
  }

  lemma JumpStays(a: seq<byte>, b: seq<byte>)
    requires |a| == |b| == 512 && Jumps(a) && forall i :: 0 <= i < 11 ==> a[i] == b[i]
    ensures Jumps(b)
  {
    assert a[3..11] == b[3..11];
  }

  lemma TotalBytes(t: Word32)
    ensures t % 0x100 + 256 * (t / 0x100 % 0x100) + 0x10000 * (t / 0x10000 % 0x100 + 256 * (t / 0x1000000)) == t
  {
    var q := t / 0x100;
    DivModIs(t, 0x10000, q / 0x100, q % 0x100 * 0x100 + t % 0x100);
    var p := t / 0x10000;
    DivModIs(t, 0x1000000, p / 0x100, p % 0x100 * 0x10000 + t % 0x10000);
  }

  // ----- formatting, then booting -----

  lemma SizesArePowers(spc: byte)
    requires spc in SIZES
    ensures IsPow2(spc)
  {
    assert LowBit(1) == 0 && LowBit(2) == 1 && LowBit(4) == 2 && LowBit(8) == 3;
    assert LowBit(16) == 4 && LowBit(32) == 5 && LowBit(64) == 6 && LowBit(128) == 7;
    assert Pow2(1) == 2 && Pow2(2) == 4 && Pow2(3) == 8 && Pow2(4) == 16;
    assert Pow2(5) == 32 && Pow2(6) == 64 && Pow2(7) == 128;
  }

  /** Every volume the formatter lays out is accepted at boot with the cluster count
      the formatter computed, as FAT16, with its clusters apart, inside the
      partition and clear of the FATs; it is sound for the FAT layer exactly when the FAT has room for the
      two reserved entries as well. */
  lemma FormattedVolumeBoots(total: Word32, spc: byte, part1: Lba, dev: nat)
    requires Usable(total, spc) && 0 < part1 && part1 + total <= LBAS
    ensures FatSize(total, spc) <= 256
    ensures var h := HeaderFor(Geometry(spc, FatSize(total, spc), Clusters(total, spc), total));
            var e := Computed(part1, h);
            && e.present && e.maxClust == Clusters(total, spc) + 1
            && AllInside(part1, h) && AllDistinct(e) && AllClear(e, dev) && RootClear(e, dev)
            && e.rootLba == part1 + 1 + 2 * FatSize(total, spc) && e.rootEnts == 512 && e.dataLba == e.rootLba + 32
            && BpbOf(e, dev).Is16()
            && (BpbOf(e, dev).Sound() <==> Room(total) < FatSize(total, spc) * PerFatSector(spc) - spc)
  {
    hide FatSize, Clusters, AllInside, AllDistinct, AllClear, RootClear, Computed, Pow2, LowBit, AddLba, Header.Overhead, SIZES, Product;
    UsableIsSmall(total, spc);
    SizesArePowers(spc);
    Layout(total, spc);
    var h := HeaderFor(Geometry(spc, FatSize(total, spc), Clusters(total, spc), total));
    TwoFats(FatSize(total, spc));
    HeaderOverhead(h, FatSize(total, spc));
    AcceptedIff(part1, h);
    AllInsidePow2Iff(part1, h);
    AllDistinctIff(part1, h);
    FatPlace(part1, h);
    SoundIff(part1, h, dev);
    DataClearIff(part1, h, dev);
    RootPlace(part1, h);
    RootClearIff(part1, h, dev);
    EntriesFit(total, spc);
    EntryFields(part1, h);
  }

  lemma HeaderOverhead(h: Header, f: nat)
    requires f <= 256 && h.rsvd == RESERVED && h.rootEnts == ROOT_ENTRIES && h.numFats == NUM_FATS && h.spf == f
    ensures h.Overhead() == RESERVED + NUM_FATS * f + ROOT_SECTORS
  {
    TwoFats(f);
  }

  lemma TwoFats(f: nat)
    requires f <= 256
    ensures Product(2, f) % 0x10000 == 2 * f && Product(2, f) < 0x10000 && 2 * f % 0x10000 == 2 * f
  {
  }

  /** A volume size for which the FAT comes out one entry short of the last cluster. */
  lemma ShortFatExample()
    ensures Usable(4161, 1) && Clusters(4161, 1) == 4096 && FatSize(4161, 1) == 16
    ensures !(Clusters(4161, 1) + 2 <= 256 * FatSize(4161, 1))
  {
    assert FatSize(4161, 1) == 16;
  }
}
