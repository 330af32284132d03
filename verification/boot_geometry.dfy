/** Where a volume's regions lie: what krnboot computes from a partition's boot
    sector, and the kernel's cluster-to-sector arithmetic, with the register
    widths the code has. */
module BootGeometry {
  import opened Bytes
  import opened FatEntry
  import FatWorld

  const LBAS := FatWorld.LBA_LIMIT
  const FAT32_CLUSTERS := 65525

  type Word16 = x: int | 0 <= x < 0x10000
  type Word32 = x: int | 0 <= x < 0x1_0000_0000
  type Lba = x: int | 0 <= x < 0x1000000

  /** The boot-sector fields krnboot reads. */
  datatype Header = Header(spc: byte, rsvd: Word16, numFats: byte, rootEnts: Word16, spf: Word16, total: Word32) {
    /** Sectors in front of cluster 2, as the code adds them up. */
    function Overhead(): nat {
      rsvd + FatSectors() + rootEnts / 16
    }

    /** The 16-bit product of f_mul16. */
    function FatSectors(): nat {
      Product(numFats, spf) % 0x10000
    }
  }

  function Product(a: nat, b: nat): nat {
    a * b
  }

  /** A 24-bit sector number plus a smaller one, as the carry chains leave it. */
  function AddLba(a: Lba, n: nat): Lba {
    (a + n) % LBAS
  }

  /** A difference kept to 16 bits. */
  function Sub16(a: nat, b: nat): Word16 {
    (a - b) % 0x10000
  }

  /** A difference kept to 32 bits. */
  function Sub32(a: Word32, b: Word16): Word32 {
    (a - b) % 0x1_0000_0000
  }

  /** The 16-bit sector total counts unless it is zero. */
  function HeaderOf(s: seq<byte>): Header
    requires |s| == 512
  {
    var total16 := Word(s[19], s[20]);
    Header(s[13], Word(s[14], s[15]), s[16], Word(s[17], s[18]), Word(s[22], s[23]),
           if total16 != 0 then total16 else Word(s[32], s[33]) + 0x10000 * Word(s[34], s[35]))
  }

  function Pow2(n: nat): (p: nat)
    ensures p >= 1
  {
    if n == 0 then 1 else 2 * Pow2(n - 1)
  }

  /** The position of the lowest 1 bit. */
  function LowBit(n: nat): nat
    requires n > 0
  {
    if n % 2 == 1 then 0 else 1 + LowBit(n / 2)
  }

  predicate IsPow2(n: nat) {
    n > 0 && n == Pow2(LowBit(n))
  }

  /** One entry of the drive table. */
  datatype Entry = Entry(present: bool, part1: Lba, fatLba: Lba, rootLba: Lba, dataLba: Lba, spc: byte, shift: nat,
                         rootEnts: Word16, numFats: byte, spf: Word16, maxClust: Word16)

  function Absent(part1: Lba): Entry {
    Entry(false, part1, 0, 0, 0, 0, 0, 0, 0, 0, 0)
  }

  function DataLba(part1: Lba, h: Header): Lba {
    AddLba(AddLba(AddLba(part1, h.rsvd), h.FatSectors()), h.rootEnts / 16)
  }

  /** The cluster count before it is checked: the overhead is a 16-bit difference,
      the data region a 32-bit one. */
  function Count(part1: Lba, h: Header): Word32
    requires h.spc > 0
  {
    Shifted(Sub32(h.total, Sub16(DataLba(part1, h), part1)), LowBit(h.spc))
  }

  function Shifted(n: Word32, k: nat): Word32 {
    if k == 0 then n else Shifted(n, k - 1) / 2
  }

  function Computed(part1: Lba, h: Header): Entry {
    if part1 == 0 || h.spc == 0 then Absent(part1)
    else
      var count := Count(part1, h);
      if count >= FAT32_CLUSTERS then Absent(part1)
      else
        var fatLba := AddLba(part1, h.rsvd);
        Entry(true, part1, fatLba, AddLba(fatLba, h.FatSectors()), DataLba(part1, h), h.spc, LowBit(h.spc),
              h.rootEnts, h.numFats, h.spf, count + 1)
  }

  /** The boot loader's scratch fields for the drive at hand. */
  class BootDrive {
    var present: bool
    var part1: Lba
    var fatLba: Lba
    var rootLba: Lba
    var dataLba: Lba
    var spc: byte
    var shift: nat
    var rootEnts: Word16
    var numFats: byte
    var spf: Word16
    var maxClust: Word16

    constructor (start: Lba)
      ensures part1 == start
    {
      part1 := start;
    }

    function Value(): Entry
      reads this
    {
      Entry(present, part1, fatLba, rootLba, dataLba, spc, shift, rootEnts, numFats, spf, maxClust)
    }

    method SetAbsent()
      modifies this
      ensures Value() == Absent(old(part1))
    {
      present := false;
      fatLba, rootLba, dataLba, spc, shift := 0, 0, 0, 0, 0;
      rootEnts, numFats, spf, maxClust := 0, 0, 0, 0;
    }

    /** Which bit of the cluster size is set, by shifting it out. */
    method FindShift(size: byte) returns (k: nat)
      requires size > 0
      ensures k == LowBit(size)
    {
      k := 0;
      var d: nat := size;
      while d % 2 == 0
        invariant d > 0 && k + LowBit(d) == LowBit(size)
        decreases d
      {
        d, k := d / 2, k + 1;
      }
    }

    /** Sectors in front of cluster 2, low byte first and then with the borrow. */
    method SectorsBefore() returns (n: Word16)
      ensures n == Sub16(dataLba, part1)
    {
      var lo := dataLba % 0x100 - part1 % 0x100;
      var borrow := if lo < 0 then 1 else 0;
      var hi := dataLba / 0x100 % 0x100 - part1 / 0x100 % 0x100 - borrow;
      n := lo % 0x100 + 0x100 * (hi % 0x100);
      BorrowChain(dataLba, part1);
    }

    /** Steps 4 to 7b for one partition, whose first sector is vbr. */
    method Compute(vbr: seq<byte>)
      requires |vbr| == 512
      modifies this
      ensures Value() == Computed(old(part1), HeaderOf(vbr))
    {
      hide Pow2, LowBit, AddLba, Sub16, Sub32, HeaderOf, Product;
      if part1 == 0 {
        SetAbsent();
        return;
      }
      present := true;
      var h := HeaderOf(vbr);
      if h.spc == 0 {
        SetAbsent();
        return;
      }
      spc := h.spc;
      shift := FindShift(h.spc);
      fatLba := AddLba(part1, h.rsvd);
      numFats, spf := h.numFats, h.spf;
      rootLba := AddLba(fatLba, h.FatSectors());
      rootEnts := h.rootEnts;
      dataLba := AddLba(rootLba, h.rootEnts / 16);
      var before := SectorsBefore();
      var region := Sub32(h.total, before);
      var n: Word32, k: nat := region, 0;
      while k < shift
        invariant k <= shift
        invariant n == Shifted(region, k)
      {
        n, k := n / 2, k + 1;
      }
      if n / 0x10000 != 0 || n % 0x10000 >= 0xFFF5 {
        assert n >= FAT32_CLUSTERS;
        SetAbsent();
        return;
      }
      assert n < FAT32_CLUSTERS;
      maxClust := n + 1;
    }
  }

  lemma DivModIs(x: int, d: nat, q: int, r: nat)
    requires d > 0 && x == d * q + r && r < d
    ensures x / d == q && x % d == r
  {
    var k, m := x / d, x % d;
    assert d * k + m == d * q + r;
    assert d * (k - q) == r - m && d * (q - k) == m - r;
    if k > q {
      AtLeast(d, k - q);
    } else if k < q {
      AtLeast(d, q - k);
    }
  }

  lemma AtLeast(d: nat, m: nat)
    requires m >= 1
    ensures d * m >= d
  {
    assert d * m == d * (m - 1) + d;
  }

  /** The three bytes of a sector number. */
  lemma Digits(a: Lba)
    ensures a == a % 0x100 + 0x100 * (a / 0x100 % 0x100) + 0x10000 * (a / 0x10000)
    ensures a / 0x10000 < 0x100
  {
    var q := a / 0x100;
    DivModIs(a, 0x10000, q / 0x100, q % 0x100 * 0x100 + a % 0x100);
  }

  lemma BorrowChain(a: Lba, b: Lba)
    ensures var lo := a % 0x100 - b % 0x100;
            var hi := a / 0x100 % 0x100 - b / 0x100 % 0x100 - (if lo < 0 then 1 else 0);
            lo % 0x100 + 0x100 * (hi % 0x100) == Sub16(a, b)
  {
    Digits(a);
    Digits(b);
    Borrows(a % 0x100, a / 0x100 % 0x100, a / 0x10000, b % 0x100, b / 0x100 % 0x100, b / 0x10000, a - b);
  }

  lemma Borrows(a0: byte, a1: byte, a2: byte, b0: byte, b1: byte, b2: byte, x: int)
    requires x == a0 + 0x100 * a1 + 0x10000 * a2 - (b0 + 0x100 * b1 + 0x10000 * b2)
    ensures var lo := a0 - b0;
            var hi := a1 - b1 - (if lo < 0 then 1 else 0);
            lo % 0x100 + 0x100 * (hi % 0x100) == x % 0x10000
  {
    var lo := a0 - b0;
    var borrow := if lo < 0 then 1 else 0;
    var hi := a1 - b1 - borrow;
    var borrow' := if hi < 0 then 1 else 0;
    assert lo % 0x100 == lo + 0x100 * borrow && hi % 0x100 == hi + 0x100 * borrow';
    DivModIs(x, 0x10000, a2 - b2 - borrow', lo + 0x100 * borrow + 0x100 * (hi + 0x100 * borrow'));
  }

  // ----- from a cluster to its first sector -----

  function ClusterLba(dataLba: Lba, shift: nat, cluster: Word16): Lba {
    AddLba(dataLba, Product(Sub16(cluster, 2), Pow2(shift)))
  }

  /** The kernel's shift loop on a 24-bit accumulator, then a three-byte addition
      with carries. */
  method ClusterToLba(dataLba: Lba, shift: nat, cluster: Word16) returns (lba: Lba)
    ensures lba == ClusterLba(dataLba, shift, cluster)
  {
    hide Pow2, Product, AddLba, Sub16;
    var start := Sub16(cluster, 2);
    var acc: Lba, k: nat := start, shift;
    ghost var exact: nat := start;
    ShiftNone(start);
    while k > 0
      invariant k <= shift
      invariant exact == Product(start, Pow2(shift - k)) && acc == AddLba(0, exact)
    {
      ShiftOne(start, shift - k, acc);
      acc, exact, k := acc * 2 % LBAS, exact * 2, k - 1;
    }
    var lo := acc % 0x100 + dataLba % 0x100;
    var mid := acc / 0x100 % 0x100 + dataLba / 0x100 % 0x100 + lo / 0x100;
    var hi := acc / 0x10000 + dataLba / 0x10000 + mid / 0x100;
    lba := lo % 0x100 + 0x100 * (mid % 0x100) + 0x10000 * (hi % 0x100);
    CarryChain(acc, dataLba);
    AddReduced(dataLba, exact);
  }

  lemma ShiftNone(a: Word16)
    ensures Product(a, Pow2(0)) == a == AddLba(0, a)
  {
  }

  lemma ShiftOne(a: Word16, k: nat, acc: Lba)
    requires acc == AddLba(0, Product(a, Pow2(k)))
    ensures 2 * Product(a, Pow2(k)) == Product(a, Pow2(k + 1))
    ensures acc * 2 % LBAS == AddLba(0, 2 * Product(a, Pow2(k)))
  {
    hide Product;
    DoubleProduct(a, Pow2(k));
    DoubleWraps(Product(a, Pow2(k)), acc);
  }

  lemma DoubleWraps(x: nat, acc: Lba)
    requires acc == x % LBAS
    ensures acc * 2 % LBAS == 2 * x % LBAS
  {
    var q := x / LBAS;
    if 2 * acc < LBAS {
      DivModIs(2 * x, LBAS, 2 * q, 2 * acc);
    } else {
      DivModIs(2 * x, LBAS, 2 * q + 1, 2 * acc - LBAS);
      DivModIs(2 * acc, LBAS, 1, 2 * acc - LBAS);
    }
  }

  lemma AddReduced(a: Lba, n: nat)
    ensures AddLba(a, AddLba(0, n)) == AddLba(a, n)
  {
    var q, r := n / LBAS, n % LBAS;
    if a + r < LBAS {
      DivModIs(a + n, LBAS, q, a + r);
    } else {
      DivModIs(a + n, LBAS, q + 1, a + r - LBAS);
    }
  }

  lemma DoubleProduct(a: nat, b: nat)
    ensures 2 * Product(a, b) == Product(a, 2 * b)
  {
  }

  lemma CarryChain(a: Lba, b: Lba)
    ensures var lo := a % 0x100 + b % 0x100;
            var mid := a / 0x100 % 0x100 + b / 0x100 % 0x100 + lo / 0x100;
            var hi := a / 0x10000 + b / 0x10000 + mid / 0x100;
            lo % 0x100 + 0x100 * (mid % 0x100) + 0x10000 * (hi % 0x100) == AddLba(b, a)
  {
    Digits(a);
    Digits(b);
    Carries(a % 0x100, a / 0x100 % 0x100, a / 0x10000, b % 0x100, b / 0x100 % 0x100, b / 0x10000, b + a);
  }

  lemma Carries(a0: byte, a1: byte, a2: byte, b0: byte, b1: byte, b2: byte, x: int)
    requires x == a0 + 0x100 * a1 + 0x10000 * a2 + b0 + 0x100 * b1 + 0x10000 * b2
    ensures var lo := a0 + b0;
            var mid := a1 + b1 + lo / 0x100;
            var hi := a2 + b2 + mid / 0x100;
            lo % 0x100 + 0x100 * (mid % 0x100) + 0x10000 * (hi % 0x100) == x % LBAS
  {
    var lo := a0 + b0;
    var mid := a1 + b1 + lo / 0x100;
    var hi := a2 + b2 + mid / 0x100;
    DivModIs(x, LBAS, hi / 0x100, lo % 0x100 + 0x100 * (mid % 0x100) + 0x10000 * (hi % 0x100));
  }

  // ----- which volumes are accepted -----

  lemma {:induction false} ShiftedIsDivision(n: Word32, k: nat)
    ensures Shifted(n, k) == n / Pow2(k)
  {
    if k > 0 {
      ShiftedIsDivision(n, k - 1);
      HalfOfQuotient(n, Pow2(k - 1));
    }
  }

  lemma HalfOfQuotient(n: nat, d: nat)
    requires d > 0
    ensures n / d / 2 == n / (2 * d)
  {
    var q, r := n / (2 * d), n % (2 * d);
    assert n == 2 * d * q + r;
    if r < d {
      DivModIs(n, d, 2 * q, r);
    } else {
      DivModIs(n, d, 2 * q + 1, r - d);
    }
  }

  /** The lowest bit divides, and the cluster size has eight bits. */
  lemma {:induction false} LowBitDivides(n: nat)
    requires n > 0
    ensures n % Pow2(LowBit(n)) == 0 && 0 < Pow2(LowBit(n)) <= n
  {
    if n % 2 == 0 {
      LowBitDivides(n / 2);
      var p := Pow2(LowBit(n / 2));
      var q := n / 2 / p;
      assert n / 2 == p * q;
      DivModIs(n, 2 * p, q, 0);
    }
  }

  lemma {:induction false} SmallPowers(k: nat)
    requires Pow2(k) < 256
    ensures k <= 7 && Pow2(k) in {1, 2, 4, 8, 16, 32, 64, 128}
  {
    if k > 0 {
      SmallPowers(k - 1);
      SeventhPower();
    }
  }

  lemma SeventhPower()
    ensures Pow2(7) == 128
  {
    assert Pow2(3) == 8;
    assert Pow2(5) == 32;
  }

  lemma ShiftBounds(size: byte)
    requires size > 0
    ensures LowBit(size) <= 7 && Pow2(LowBit(size)) in {1, 2, 4, 8, 16, 32, 64, 128}
  {
    LowBitDivides(size);
    SmallPowers(LowBit(size));
  }

  lemma DataLbaIs(part1: Lba, h: Header)
    ensures DataLba(part1, h) == AddLba(part1, h.Overhead())
    ensures Sub16(DataLba(part1, h), part1) == h.Overhead() % 0x10000
  {
    hide Header.FatSectors;
    var a, b, c: nat := h.rsvd, h.FatSectors(), h.rootEnts / 16;
    AddTwice(part1, a, b);
    AddTwice(part1, a + b, c);
    DifferenceOfSum(part1, a + b + c);
  }

  lemma AddTwice(p: Lba, a: nat, b: nat)
    ensures AddLba(AddLba(p, a), b) == AddLba(p, a + b)
  {
    var q, r := (p + a) / LBAS, (p + a) % LBAS;
    var q', r' := (r + b) / LBAS, (r + b) % LBAS;
    DivModIs(p + a + b, LBAS, q + q', r');
  }

  lemma DifferenceOfSum(p: Lba, a: nat)
    ensures Sub16(AddLba(p, a), p) == a % 0x10000
  {
    var q := (p + a) / LBAS;
    DivModIs(AddLba(p, a) - p, 0x10000, a / 0x10000 - 0x100 * q, a % 0x10000);
  }

  /** The sectors in front of cluster 2, of which the code keeps 16 bits. */
  predicate FitsFat16(h: Header) {
    && h.spc > 0
    && h.Overhead() % 0x10000 <= h.total
    && (h.total - h.Overhead() % 0x10000) / Pow2(LowBit(h.spc)) < 65525
  }

  /** A partition is taken exactly when its data region exists and holds fewer
      than 65525 clusters; a region that would be negative is refused too. */
  lemma AcceptedIff(part1: Lba, h: Header)
    requires part1 > 0
    ensures Computed(part1, h).present <==> FitsFat16(h)
    ensures FitsFat16(h) ==>
              Computed(part1, h).maxClust == (h.total - h.Overhead() % 0x10000) / Pow2(LowBit(h.spc)) + 1
  {
    hide Pow2, LowBit, Shifted, AddLba, DataLba, Header.Overhead, Sub16;
    if h.spc > 0 {
      var before := h.Overhead() % 0x10000;
      DataLbaIs(part1, h);
      ShiftBounds(h.spc);
      ShiftedIsDivision(Sub32(h.total, before), LowBit(h.spc));
      RegionIs(h.total, before, Pow2(LowBit(h.spc)));
    }
  }

  lemma RegionIs(total: Word32, overhead: Word16, d: nat)
    requires d in {1, 2, 4, 8, 16, 32, 64, 128}
    ensures overhead <= total ==> Sub32(total, overhead) == total - overhead
    ensures total < overhead ==> Sub32(total, overhead) / d >= FAT32_CLUSTERS
  {
    if total < overhead {
      DivModIs(total - overhead, 0x1_0000_0000, -1, total - overhead + 0x1_0000_0000);
      assert Sub32(total, overhead) >= 0xFFFF_0000;
    }
  }

  // ----- where the clusters of an accepted volume lie -----

  /** Sector s of cluster c, as the kernel addresses it. */
  function SectorLba(e: Entry, c: Word16, s: nat): Lba {
    AddLba(ClusterLba(e.dataLba, e.shift, c), s)
  }

  predicate IsSector(e: Entry, c: Word16, s: nat) {
    2 <= c <= e.maxClust && s < e.spc
  }

  lemma SectorLbaIs(e: Entry, c: Word16, s: nat)
    requires c >= 2
    ensures SectorLba(e, c, s) == AddLba(e.dataLba, Product(c - 2, Pow2(e.shift)) + s)
  {
    hide Pow2, Product;
    DivModIs(c - 2, 0x10000, 0, c - 2);
    AddTwice(e.dataLba, Product(c - 2, Pow2(e.shift)), s);
  }

  /** An accepted volume, its whole partition within the 24-bit sector numbers. */
  predicate Accepted(part1: Lba, h: Header) {
    && part1 > 0
    && FitsFat16(h)
    && part1 + h.total <= LBAS
    && part1 + h.Overhead() < LBAS
  }

  /** How the numbers of an accepted volume hang together. */
  lemma AcceptedFacts(part1: Lba, h: Header)
    requires Accepted(part1, h)
    ensures var e, p := Computed(part1, h), Pow2(LowBit(h.spc));
            && e.present && e.spc == h.spc && e.shift == LowBit(h.spc)
            && e.dataLba == part1 + h.Overhead()
            && 1 <= p <= h.spc && 1 <= e.maxClust
            && Product(e.maxClust - 1, p) <= h.total - h.Overhead() % 0x10000 < Product(e.maxClust - 1, p) + p
  {
    hide Pow2, LowBit, AddLba, Header.Overhead, DataLba, Count, Product;
    AcceptedIff(part1, h);
    DataLbaIs(part1, h);
    LowBitDivides(h.spc);
    AddNoWrap(part1, h.Overhead());
    QuotientBounds(h.total - h.Overhead() % 0x10000, Pow2(LowBit(h.spc)));
  }

  lemma QuotientBounds(x: nat, p: nat)
    requires p > 0
    ensures Product(x / p, p) <= x < Product(x / p, p) + p
  {
    assert x == p * (x / p) + x % p;
  }

  lemma AddNoWrap(a: Lba, n: nat)
    requires a + n < LBAS
    ensures AddLba(a, n) == a + n
  {
  }

  lemma ProductMonotone(a: nat, b: nat, p: nat)
    requires a < b
    ensures Product(a, p) + p <= Product(b, p)
  {
    assert b * p == a * p + (b - a) * p;
    AtLeast(p, b - a);
  }

  ghost predicate AllInside(part1: Lba, h: Header) {
    forall c: Word16, s: nat :: IsSector(Computed(part1, h), c, s) ==>
      Computed(part1, h).dataLba <= SectorLba(Computed(part1, h), c, s) < part1 + h.total
  }

  /** No cluster offset reaches the end of the 24-bit sector numbers. */
  lemma OffsetSmall(part1: Lba, h: Header, c: Word16, s: nat)
    requires Accepted(part1, h) && IsSector(Computed(part1, h), c, s)
    ensures var e, p := Computed(part1, h), Pow2(LowBit(h.spc));
            && e.spc == h.spc && e.shift == LowBit(h.spc)
            && Product(c - 2, p) + s <= Product(e.maxClust - 2, p) + (h.spc - 1) < LBAS
  {
    hide Pow2, LowBit, Product, AddLba, Header.Overhead, Computed;
    var e, p := Computed(part1, h), Pow2(LowBit(h.spc));
    AcceptedFacts(part1, h);
    MaxClustBound(part1, h);
    ShiftBounds(h.spc);
    if c < e.maxClust {
      ProductMonotone(c - 2, e.maxClust - 2, p);
    }
    if e.maxClust < 65525 {
      ProductMonotone(e.maxClust - 2, 65523, p);
    }
    TopProduct(p);
  }

  lemma MaxClustBound(part1: Lba, h: Header)
    requires Accepted(part1, h)
    ensures Computed(part1, h).maxClust <= 65525
  {
    hide Pow2, LowBit, AddLba, Header.Overhead;
    AcceptedIff(part1, h);
  }

  lemma TopProduct(p: nat)
    requires p <= 128
    ensures Product(65523, p) <= 65523 * 128
  {
  }

  /** Each sector of each cluster of an accepted volume lies at its distance from the data
      region's start, in the 24 bits of sector numbers; it is inside the partition exactly
      when the distance is less than what the overhead leaves. */
  lemma SectorInside(part1: Lba, h: Header, c: Word16, s: nat)
    requires Accepted(part1, h) && IsSector(Computed(part1, h), c, s)
    ensures var e, n := Computed(part1, h), Product(c - 2, Pow2(LowBit(h.spc))) + s;
            && SectorLba(e, c, s) == AddLba(e.dataLba, n)
            && (e.dataLba <= SectorLba(e, c, s) < part1 + h.total <==> n < h.total - h.Overhead())
            && (n < h.total - h.Overhead() ==> SectorLba(e, c, s) == e.dataLba + n)
  {
    hide Pow2, LowBit, Product, AddLba, Header.Overhead, Computed, SectorLba, FitsFat16;
    AcceptedFacts(part1, h);
    OffsetSmall(part1, h, c, s);
    var e, n := Computed(part1, h), Product(c - 2, Pow2(LowBit(h.spc))) + s;
    SectorLbaIs(e, c, s);
    if n < h.total - h.Overhead() {
      AddNoWrap(e.dataLba, n);
    } else {
      WrapsOutside(e.dataLba, n, part1 + h.total);
    }
  }

  /** The clusters of an accepted volume stay inside its partition exactly when the
      last sector of the last one does, or there are none. */
  lemma AllInsideIff(part1: Lba, h: Header)
    requires Accepted(part1, h)
    ensures var e := Computed(part1, h);
            AllInside(part1, h) <==>
              e.maxClust < 2 || Product(e.maxClust - 2, Pow2(LowBit(h.spc))) + h.spc <= h.total - h.Overhead()
  {
    hide Pow2, LowBit, Product, AddLba, Header.Overhead, Computed, SectorLba, FitsFat16;
    var e := Computed(part1, h);
    AcceptedFacts(part1, h);
    if e.maxClust >= 2 {
      var n := Product(e.maxClust - 2, Pow2(LowBit(h.spc))) + (h.spc - 1);
      if n < h.total - h.Overhead() {
        forall c: Word16, s: nat | IsSector(e, c, s) ensures e.dataLba <= SectorLba(e, c, s) < part1 + h.total {
          OffsetSmall(part1, h, c, s);
          SectorInside(part1, h, c, s);
        }
      } else {
        assert IsSector(e, e.maxClust, h.spc - 1);
        SectorInside(part1, h, e.maxClust, h.spc - 1);
      }
    }
  }

  /** With a power of two for a cluster size, that is so exactly when 16 bits are
      enough for the overhead, or there are no clusters. */
  lemma AllInsidePow2Iff(part1: Lba, h: Header)
    requires Accepted(part1, h) && IsPow2(h.spc)
    ensures AllInside(part1, h) <==> h.Overhead() < 0x10000 || Computed(part1, h).maxClust < 2
  {
    hide Pow2, LowBit, Product, AddLba, Header.Overhead, Computed, AllInside, FitsFat16;
    var e := Computed(part1, h);
    AcceptedFacts(part1, h);
    AllInsideIff(part1, h);
    if e.maxClust >= 2 {
      ProductStep(e.maxClust - 2, h.spc);
    }
  }

  lemma ProductStep(a: nat, p: nat)
    ensures Product(a + 1, p) == Product(a, p) + p
  {
  }

  lemma WrapsOutside(a: Lba, n: nat, end: nat)
    requires a + n >= end && n < LBAS
    ensures !(a <= AddLba(a, n) < end)
  {
    if a + n >= LBAS {
      DivModIs(a + n, LBAS, 1, a + n - LBAS);
    } else {
      AddNoWrap(a, n);
    }
  }

  ghost predicate AllDistinct(e: Entry) {
    forall c: Word16, s: nat, c': Word16, s': nat ::
      IsSector(e, c, s) && IsSector(e, c', s') && SectorLba(e, c, s) == SectorLba(e, c', s') ==> c == c' && s == s'
  }

  /** No two sectors of clusters coincide exactly when the cluster size is a power
      of two: the shift stops at its lowest bit. */
  lemma AllDistinctIff(part1: Lba, h: Header)
    requires Accepted(part1, h)
    ensures AllDistinct(Computed(part1, h)) <==> IsPow2(h.spc) || Computed(part1, h).maxClust < 3
  {
    hide Pow2, LowBit, Product, AddLba, Header.Overhead, Computed, SectorLba, FitsFat16;
    var e := Computed(part1, h);
    AcceptedFacts(part1, h);
    if IsPow2(h.spc) || e.maxClust < 3 {
      forall c: Word16, s: nat, c': Word16, s': nat
        | IsSector(e, c, s) && IsSector(e, c', s') && SectorLba(e, c, s) == SectorLba(e, c', s')
        ensures c == c' && s == s'
      {
        if c < c' || (c == c' && s < s') {
          SectorsApart(part1, h, c, s, c', s');
        } else if c' < c || s' < s {
          SectorsApart(part1, h, c', s', c, s);
        }
      }
    } else {
      assert IsSector(e, 2, Pow2(e.shift)) && IsSector(e, 3, 0);
      ClustersOverlap(e);
    }
  }

  lemma SectorsApart(part1: Lba, h: Header, c: Word16, s: nat, c': Word16, s': nat)
    requires Accepted(part1, h) && (IsPow2(h.spc) || Computed(part1, h).maxClust < 3)
    requires IsSector(Computed(part1, h), c, s) && IsSector(Computed(part1, h), c', s')
    requires c < c' || (c == c' && s < s')
    ensures SectorLba(Computed(part1, h), c, s) != SectorLba(Computed(part1, h), c', s')
  {
    hide Pow2, LowBit, Product, AddLba, Header.Overhead, Computed, FitsFat16;
    var e := Computed(part1, h);
    OffsetSmall(part1, h, c, s);
    OffsetSmall(part1, h, c', s');
    SectorLbaIs(e, c, s);
    SectorLbaIs(e, c', s');
    if c < c' {
      ProductMonotone(c - 2, c' - 2, Pow2(e.shift));
    }
    AddApart(e.dataLba, Product(c - 2, Pow2(e.shift)) + s, Product(c' - 2, Pow2(e.shift)) + s');
  }

  lemma AddApart(a: Lba, n: nat, m: nat)
    requires n < m < LBAS
    ensures AddLba(a, n) != AddLba(a, m)
  {
    hide AddLba;
    AddTwice(a, n, m - n);
    var x := AddLba(a, n);
    if x + (m - n) < LBAS {
      AddNoWrap(x, m - n);
    } else {
      WrapsOutside(x, m - n, x + (m - n));
    }
  }

  lemma ClustersOverlap(e: Entry)
    ensures SectorLba(e, 2, Pow2(e.shift)) == SectorLba(e, 3, 0)
  {
    hide AddLba, Pow2;
    SectorLbaIs(e, 2, Pow2(e.shift));
    SectorLbaIs(e, 3, 0);
  }

  // ----- what the FAT layer is handed -----

  function BpbOf(e: Entry, dev: nat): FatWorld.Bpb {
    FatWorld.Bpb(e.fatLba, e.numFats, e.spf, e.maxClust, dev)
  }

  /** Whether the FAT is long enough for the entries of every cluster. */
  predicate FatHolds(e: Entry) {
    if e.maxClust >= 0x0FF6 then 2 * e.maxClust + 2 <= 512 * e.spf
    else e.maxClust + e.maxClust / 2 + 2 <= 512 * e.spf
  }

  lemma EntryFields(part1: Lba, h: Header)
    requires Computed(part1, h).present
    ensures var e := Computed(part1, h);
            && e.fatLba == AddLba(part1, h.rsvd) && e.numFats == h.numFats && e.spf == h.spf
            && e.rootLba == AddLba(e.fatLba, h.FatSectors()) && e.rootEnts == h.rootEnts
  {
    hide Count, DataLba, AddLba, LowBit;
  }

  /** The start of the FATs, and where the data begins behind the 16-bit product. */
  lemma FatPlace(part1: Lba, h: Header)
    requires Accepted(part1, h)
    ensures var e := Computed(part1, h);
            && e.numFats == h.numFats && e.spf == h.spf && e.fatLba == part1 + h.rsvd
            && e.dataLba == e.fatLba + h.FatSectors() + h.rootEnts / 16
  {
    hide Pow2, LowBit, AddLba, Computed, Header.FatSectors, FitsFat16;
    AcceptedFacts(part1, h);
    AcceptedIff(part1, h);
    EntryFields(part1, h);
    AddNoWrap(part1, h.rsvd);
  }

  /** The root directory lies behind the FATs, as far as 16 bits count them, and the
      data behind the root directory. */
  lemma RootPlace(part1: Lba, h: Header)
    requires Accepted(part1, h)
    ensures var e := Computed(part1, h);
            && e.rootEnts == h.rootEnts
            && e.rootLba == e.fatLba + h.numFats * h.spf % 0x10000
            && e.dataLba == e.rootLba + h.rootEnts / 16
  {
    hide Pow2, LowBit, AddLba, Computed, FitsFat16;
    FatPlace(part1, h);
    AcceptedFacts(part1, h);
    EntryFields(part1, h);
    AddNoWrap(Computed(part1, h).fatLba, h.FatSectors());
  }

  /** Sector s of the root directory. */
  function RootSector(e: Entry, s: nat): nat {
    e.rootLba + s
  }

  /** No sector of the root directory lies in a FAT copy. */
  ghost predicate RootClear(e: Entry, dev: nat) {
    forall s: nat :: s < e.rootEnts / 16 ==> !BpbOf(e, dev).InFat(FatWorld.Addr(dev, RootSector(e, s)))
  }

  /** The root directory of an accepted volume is clear of the FATs exactly when the size
      of all copies fits the 16-bit product, or it has no sector. */
  lemma RootClearIff(part1: Lba, h: Header, dev: nat)
    requires Accepted(part1, h)
    ensures RootClear(Computed(part1, h), dev) <==> h.numFats * h.spf < 0x10000 || h.rootEnts < 16
  {
    hide Pow2, LowBit, AddLba, Computed, Header.Overhead, FitsFat16;
    var e := Computed(part1, h);
    FatPlace(part1, h);
    RootPlace(part1, h);
    RootClearFrom(e, dev, h.numFats * h.spf);
  }

  lemma RootClearFrom(e: Entry, dev: nat, size: nat)
    requires size == e.numFats * e.spf && e.rootLba == e.fatLba + size % 0x10000
    ensures RootClear(e, dev) <==> size < 0x10000 || e.rootEnts < 16
  {
    if size >= 0x10000 && e.rootEnts >= 16 {
      assert BpbOf(e, dev).InFat(FatWorld.Addr(dev, RootSector(e, 0)));
    }
  }

  /** No sector of a cluster lies in the root directory, whenever the clusters stay
      inside the partition. */
  lemma RootApart(part1: Lba, h: Header, c: Word16, s: nat)
    requires Accepted(part1, h) && AllInside(part1, h) && IsSector(Computed(part1, h), c, s)
    ensures var e := Computed(part1, h); SectorLba(e, c, s) >= e.rootLba + e.rootEnts / 16
  {
    hide Pow2, LowBit, AddLba, Computed, SectorLba, Header.Overhead, FitsFat16;
    RootPlace(part1, h);
  }

  /** An accepted volume is one the FAT layer can work on exactly when it has a FAT,
      that FAT holds an entry for each cluster, and the copies end within the 24-bit
      sector numbers; krnboot checks none of the three. */
  lemma SoundIff(part1: Lba, h: Header, dev: nat)
    requires Accepted(part1, h)
    ensures var e := Computed(part1, h);
            BpbOf(e, dev).Sound() <==> h.numFats >= 1 && FatHolds(e) && e.fatLba + h.numFats * h.spf <= LBAS
  {
    hide Pow2, LowBit, AddLba, Product, Computed, Header.Overhead, Header.FatSectors, FitsFat16;
    var e := Computed(part1, h);
    var b := BpbOf(e, dev);
    FatPlace(part1, h);
    MaxClustBound(part1, h);
    assert b.EntryFits(e.maxClust) <==> FatHolds(e);
    assert forall n: nat :: n <= e.maxClust && b.EntryFits(e.maxClust) ==> b.EntryFits(n);
  }

  ghost predicate AllClear(e: Entry, dev: nat) {
    forall c: Word16, s: nat :: IsSector(e, c, s) ==> !BpbOf(e, dev).InFat(FatWorld.Addr(dev, SectorLba(e, c, s)))
  }

  /** Of a volume whose clusters are inside the partition, no sector of a cluster
      lies in a FAT copy exactly when the size of all copies fits the 16-bit product,
      or there are no clusters: a product that wraps puts the data into the FATs. */
  lemma DataClearIff(part1: Lba, h: Header, dev: nat)
    requires Accepted(part1, h) && AllInside(part1, h)
    ensures AllClear(Computed(part1, h), dev) <==> h.numFats * h.spf < 0x10000 || Computed(part1, h).maxClust < 2
  {
    hide Pow2, LowBit, AddLba, Computed, Header.Overhead, FitsFat16, SectorLba;
    var e := Computed(part1, h);
    FatPlace(part1, h);
    AcceptedFacts(part1, h);
    if e.maxClust >= 2 {
      FirstSector(e);
      assert IsSector(e, 2, 0);
    }
  }

  lemma FirstSector(e: Entry)
    ensures SectorLba(e, 2, 0) == e.dataLba
  {
    hide Pow2, AddLba;
    SectorLbaIs(e, 2, 0);
    AddNoWrap(e.dataLba, 0);
  }

  /** Cluster counts from 4085 up are FAT16 to the kernel, which tests the last
      cluster instead. */
  lemma TypeByCount(part1: Lba, h: Header, dev: nat)
    requires Accepted(part1, h)
    ensures BpbOf(Computed(part1, h), dev).Is16() <==>
              (h.total - h.Overhead() % 0x10000) / Pow2(LowBit(h.spc)) >= 4085
  {
    AcceptedIff(part1, h);
  }

  // ----- volumes that are accepted and should not be -----

  lemma SmallShifts()
    ensures LowBit(1) == 0 && LowBit(3) == 0 && Pow2(0) == 1 && IsPow2(1) && !IsPow2(3)
  {
  }

  /** 65535 reserved sectors: the overhead does not fit 16 bits, and the last clusters
      lie behind the partition. */
  lemma LongOverheadExample()
    ensures var h := Header(1, 65535, 2, 512, 100, 50000);
            Accepted(1, h) && IsPow2(h.spc) && h.Overhead() == 65767 && !AllInside(1, h)
  {
    hide AllInside, AddLba, Computed;
    var h := Header(1, 65535, 2, 512, 100, 50000);
    SmallShifts();
    AcceptedIff(1, h);
    AllInsidePow2Iff(1, h);
  }

  /** Three sectors to a cluster: clusters overlap, and the last one ends behind the
      partition although the overhead is small. */
  lemma ThreeSectorExample()
    ensures var h := Header(3, 1, 2, 512, 20, 9000);
            Accepted(1, h) && h.Overhead() == 73 && !AllInside(1, h) && !AllDistinct(Computed(1, h))
  {
    hide AllInside, AllDistinct, AddLba, Computed;
    var h := Header(3, 1, 2, 512, 20, 9000);
    SmallShifts();
    AcceptedIff(1, h);
    AllInsideIff(1, h);
    AllDistinctIff(1, h);
  }

  /** Two FATs of 32768 sectors: the product wraps to zero. The volume is sound for
      the FAT layer and its clusters are inside, but the first lies in the FAT. */
  lemma WrappedProductExample(dev: nat)
    ensures var h := Header(1, 1, 2, 512, 32768, 9000);
            && Accepted(1, h) && h.Overhead() == 33 && AllInside(1, h)
            && BpbOf(Computed(1, h), dev).Sound() && !AllClear(Computed(1, h), dev)
  {
    hide AllInside, AllClear, AddLba, Computed, FatWorld.Bpb.Sound;
    var h := Header(1, 1, 2, 512, 32768, 9000);
    SmallShifts();
    AcceptedIff(1, h);
    AllInsidePow2Iff(1, h);
    FatPlace(1, h);
    SoundIff(1, h, dev);
    DataClearIff(1, h, dev);
  }
}
