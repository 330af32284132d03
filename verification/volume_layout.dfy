/** One volume, three readers: the directory iterator and the host-side tool look for the
    root directory and the clusters where the boot loader's numbers place them. */
module VolumeLayout {
  import opened Bytes
  import opened BootGeometry
  import DirSectors
  import FatTool
  import FatToolFiles

  /** The volume as the directory iterator reads it. */
  function VolumeOf(e: Entry, next: Word16 -> Option<Word16>, disk: Lba -> Option<Sector>): DirSectors.Volume {
    DirSectors.Volume(e.rootLba, e.rootEnts, e.dataLba, e.spc, e.shift, next, disk)
  }

  // ----- directories -----

  /** The iterator's sectors of the root are those of the root region, in order. */
  lemma {:induction false} RootSectorsFrom(v: DirSectors.Volume, s: nat, k: nat)
    requires v.rootLba + v.rootEnts / 16 <= LBAS && s + k < v.rootEnts / 16
    ensures |DirSectors.RootFrom(v, s)| == v.rootEnts / 16 - s
    ensures DirSectors.RootFrom(v, s)[k] == v.rootLba + s + k
    decreases v.rootEnts / 16 - s
  {
    hide AddLba;
    AddNoWrap(v.rootLba, s);
    if k > 0 {
      RootSectorsFrom(v, s + 1, k - 1);
    } else if s + 1 < v.rootEnts / 16 {
      RootSectorsFrom(v, s + 1, 0);
    }
  }

  /** Behind the FATs of an accepted volume, as far as 16 bits count them, the iterator
      reads the root directory sector by sector. */
  lemma RootSectorsAre(part1: Lba, h: Header, next: Word16 -> Option<Word16>, disk: Lba -> Option<Sector>, k: nat)
    requires Accepted(part1, h) && k < h.rootEnts / 16
    ensures var lbas := DirSectors.RootSectors(VolumeOf(Computed(part1, h), next, disk));
            |lbas| == h.rootEnts / 16 && lbas[k] == part1 + h.rsvd + h.numFats * h.spf % 0x10000 + k
  {
    hide Pow2, LowBit, AddLba, Computed, FitsFat16, DirSectors.RootFrom;
    FatPlace(part1, h);
    RootPlace(part1, h);
    RootSectorsFrom(VolumeOf(Computed(part1, h), next, disk), 0, k);
  }

  /** The iterator's sectors of a chain are those of its clusters, cluster by cluster and
      in the order they have in each. */
  lemma {:induction false} ChainSectorsAre(v: DirSectors.Volume, cs: seq<Word16>, s: nat, i: nat, j: nat)
    requires s <= v.spc && i < |cs| && j < v.spc && (i == 0 ==> s <= j) && forall k :: 0 <= k < |cs| ==> cs[k] >= 2
    ensures |DirSectors.ChainFrom(v, cs, s)| == Product(|cs|, v.spc) - s
    ensures 0 <= Product(i, v.spc) + j - s < |DirSectors.ChainFrom(v, cs, s)|
    ensures DirSectors.ChainFrom(v, cs, s)[Product(i, v.spc) + j - s]
            == (v.dataLba + (cs[i] - 2) * Pow2(v.shift) + j) % LBAS
    decreases |cs|, v.spc - s
  {
    hide Product, Pow2, AddLba, DirSectors.SectorOf;
    ChainLength(v, cs, s);
    ProductMonotone(i, |cs|, v.spc);
    ProductNone(v.spc);
    if s == v.spc {
      ProductStep(i - 1, v.spc);
      ChainSectorsAre(v, cs[1..], 0, i - 1, j);
    } else if i == 0 && s == j {
      SectorIs(v, cs[0], s);
    } else {
      if i > 0 {
        ProductUpTo(i, v.spc);
      }
      ChainSectorsAre(v, cs, s + 1, i, j);
    }
  }

  lemma ProductNone(p: nat)
    ensures Product(0, p) == 0
  {
  }

  lemma ProductUpTo(n: nat, p: nat)
    requires n >= 1
    ensures Product(n, p) >= p
  {
    AtLeast(p, n);
    if p > 0 {
      AtLeast(n, p);
    }
    assert n * p == p * n;
  }

  lemma {:induction false} ChainLength(v: DirSectors.Volume, cs: seq<Word16>, s: nat)
    requires s <= v.spc && cs != []
    ensures |DirSectors.ChainFrom(v, cs, s)| == Product(|cs|, v.spc) - s
    decreases |cs|, v.spc - s
  {
    hide Product, AddLba, DirSectors.SectorOf;
    ProductStep(|cs| - 1, v.spc);
    ProductNone(v.spc);
    if s < v.spc {
      ChainLength(v, cs, s + 1);
    } else if |cs| > 1 {
      ChainLength(v, cs[1..], 0);
    }
  }

  lemma SectorIs(v: DirSectors.Volume, c: Word16, s: byte)
    requires c >= 2
    ensures DirSectors.SectorOf(v, c, s) == (v.dataLba + (c - 2) * Pow2(v.shift) + s) % LBAS
  {
    hide Pow2;
    DivModIs(c - 2, 0x10000, 0, c - 2);
    AddTwice(v.dataLba, Product(c - 2, Pow2(v.shift)), s);
  }

  // ----- the host-side tool -----

  /** The layout the tool reads off a boot sector. */
  function LayoutOf(h: Header): FatTool.Layout
    requires h.spc > 0
  {
    var l := FatTool.Layout(h.spc, h.rsvd, h.numFats, h.spf, h.rootEnts, 0);
    l.(count := if l.Data0() <= h.total then (h.total - l.Data0()) / h.spc else 0)
  }

  /** The tool's FAT copies are the kernel's. */
  lemma ToolFindsFats(part1: Lba, h: Header, dev: nat, k: nat)
    requires Accepted(part1, h)
    ensures LayoutOf(h).FatAt(k) == 512 * (BpbOf(Computed(part1, h), dev).Copy(k, 0).lba - part1)
  {
    hide Pow2, LowBit, AddLba, Computed, FitsFat16;
    FatPlace(part1, h);
  }

  /** Its root directory and data region are the kernel's exactly when the 16-bit product
      of the boot loader does not wrap, and for the data when the root directory fills its
      last sector. */
  lemma ToolFindsDataIff(part1: Lba, h: Header)
    requires Accepted(part1, h)
    ensures var l, e := LayoutOf(h), Computed(part1, h);
            && (FatToolFiles.SlotAt(l, 0) == 512 * (e.rootLba - part1) <==> h.numFats * h.spf < 0x10000)
            && (l.At(2) == 512 * (e.dataLba - part1) <==> h.numFats * h.spf < 0x10000 && h.rootEnts % 16 == 0)
  {
    hide Pow2, LowBit, AddLba, Computed, FitsFat16, FatTool.Times;
    FatPlace(part1, h);
    RootPlace(part1, h);
    ReducedIsSmaller(h.numFats * h.spf);
    FatToolFiles.TimesIs(0, 512 * h.spc);
    FatToolFiles.TimesIs(h.numFats, h.spf);
    DataDiffers(h.rsvd, h.numFats * h.spf, h.numFats * h.spf % 0x10000, h.rootEnts);
  }

  lemma DataDiffers(rsvd: nat, p: nat, q: nat, rootEnts: nat)
    requires q <= p
    ensures 512 * (rsvd + p + (rootEnts * 32 + 511) / 512) == 512 * (rsvd + q + rootEnts / 16) <==> p == q && rootEnts % 16 == 0
  {
  }

  lemma ReducedIsSmaller(p: nat)
    ensures p % 0x10000 <= p && (p % 0x10000 == p <==> p < 0x10000)
  {
  }

  /** A volume on which the boot loader's arithmetic does not wrap and the root directory
      fills its last sector. */
  predicate Regular(part1: Lba, h: Header) {
    && Accepted(part1, h) && IsPow2(h.spc) && h.Overhead() < 0x10000
    && h.numFats * h.spf < 0x10000 && h.rootEnts % 16 == 0
  }

  lemma ToolPlaces(part1: Lba, h: Header)
    requires Regular(part1, h)
    ensures h.spc > 0 && LayoutOf(h).spc == h.spc
    ensures LayoutOf(h).At(2) == 512 * (Computed(part1, h).dataLba - part1) && LayoutOf(h).Data0() == h.Overhead()
    ensures Computed(part1, h).dataLba == part1 + h.Overhead() && Pow2(LowBit(h.spc)) == h.spc
  {
    hide Pow2, LowBit, AddLba, Computed, FitsFat16, Header.Overhead, FatTool.Times;
    AcceptedFacts(part1, h);
    ToolFindsDataIff(part1, h);
    ToolData(h);
  }

  /** There it finds every sector of every cluster where the kernel does. */
  lemma ToolFindsClusters(part1: Lba, h: Header, c: Word16, s: nat)
    requires Regular(part1, h) && IsSector(Computed(part1, h), c, s)
    ensures h.spc > 0 && LayoutOf(h).At(c) + 512 * s == 512 * (SectorLba(Computed(part1, h), c, s) - part1)
  {
    ToolPlaces(part1, h);
    hide Pow2, LowBit, AddLba, Computed, SectorLba, FitsFat16, Header.Overhead, Product, FatTool.Times, FatTool.Layout.At, LayoutOf;
    AllInsidePow2Iff(part1, h);
    SectorInside(part1, h, c, s);
    ToolOffset(LayoutOf(h), c);
  }

  /** And it counts as many clusters. */
  lemma ToolCountsClusters(part1: Lba, h: Header)
    requires Regular(part1, h)
    ensures h.spc > 0 && LayoutOf(h).count == Computed(part1, h).maxClust - 1
  {
    ToolPlaces(part1, h);
    hide Pow2, LowBit, AddLba, Computed, Header.Overhead, FatTool.Times, FatTool.Layout.At, LayoutOf;
    SmallRemainder(h.Overhead());
    AcceptedIff(part1, h);
    ToolCount(h);
  }

  lemma SmallRemainder(n: nat)
    requires n < 0x10000
    ensures n % 0x10000 == n
  {
  }

  lemma ToolData(h: Header)
    requires h.spc > 0
    ensures LayoutOf(h).At(2) == 512 * LayoutOf(h).Data0() && LayoutOf(h).spc == h.spc
  {
    TimesProduct(0, h.spc);
    assert Product(0, h.spc) == 0;
  }

  lemma ToolOffset(l: FatTool.Layout, c: nat)
    requires c >= 2
    ensures l.At(c) == l.At(2) + 512 * Product(c - 2, l.spc)
  {
    TimesProduct(c - 2, l.spc);
    TimesProduct(0, l.spc);
    assert Product(0, l.spc) == 0;
  }

  lemma ToolCount(h: Header)
    requires h.spc > 0 && h.Overhead() <= h.total && LayoutOf(h).Data0() == h.Overhead()
    ensures LayoutOf(h).count == (h.total - h.Overhead()) / h.spc
  {
    hide Header.Overhead;
  }

  lemma TimesProduct(n: nat, spc: nat)
    ensures FatTool.Times(n, 512 * spc) == 512 * Product(n, spc)
  {
    assert n * (512 * spc) == 512 * (n * spc);
  }
}
