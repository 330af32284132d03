/** FAT entries inside the bytes of one FAT: 16-bit little-endian words, or the
    packed 12-bit form in which two neighbouring entries share a byte. */
module FatEntry {
  import opened Bytes

  /** Entries from here on end a chain. */
  const END_OF_CHAIN := 0xFFF8

  function Word(lo: int, hi: int): int {
    lo + 256 * hi
  }

  /** The FAT12 encoding, written byte by byte. */
  function Get12(fat: seq<byte>, n: nat): nat
    requires n + n / 2 + 1 < |fat|
  {
    Half(n % 2 == 1, fat[n + n / 2], fat[n + n / 2 + 1])
  }

  /** An odd cluster has the upper 12 bits of its word, an even one the lower. */
  function Half(odd: bool, lo: byte, hi: byte): nat {
    if odd then Word(lo, hi) / 16 else Word(lo, hi) % 4096
  }

  lemma Get12At(fat: seq<byte>, n: nat, o: nat)
    requires o == n + n / 2 && o + 1 < |fat|
    ensures Get12(fat, n) == Half(n % 2 == 1, fat[o], fat[o + 1])
  {
  }

  function Put12(fat: seq<byte>, n: nat, v: nat): seq<byte>
    requires n + n / 2 + 1 < |fat|
  {
    var o, x := n + n / 2, v % 4096;
    if n % 2 == 1 then fat[o := fat[o] % 16 + x % 16 * 16][o + 1 := x / 16]
    else fat[o := x % 256][o + 1 := fat[o + 1] / 16 * 16 + x / 256]
  }

  function Get16(fat: seq<byte>, n: nat): nat
    requires 2 * n + 1 < |fat|
  {
    Word(fat[2 * n], fat[2 * n + 1])
  }

  function Put16(fat: seq<byte>, n: nat, v: nat): seq<byte>
    requires 2 * n + 1 < |fat|
    requires v < 65536
  {
    fat[2 * n := v % 256][2 * n + 1 := v / 256]
  }

  /** Where entries lie: a 16-bit one in two bytes, low byte first; two 12-bit ones in
      three, the even one in the first byte and the low half of the second, the odd one
      in the rest. */
  lemma EntryLayout(fat: seq<byte>, k: nat)
    ensures 2 * k + 1 < |fat| ==> var lo: int, hi: int := fat[2 * k], fat[2 * k + 1]; Get16(fat, k) == lo + 256 * hi
    ensures 3 * k + 2 < |fat| ==>
              var a: int, b: int, c: int := fat[3 * k], fat[3 * k + 1], fat[3 * k + 2];
              Get12(fat, 2 * k) == a + 256 * (b % 16) && Get12(fat, 2 * k + 1) == b / 16 + 16 * c
  {
    if 3 * k + 2 < |fat| {
      assert 2 * k + (2 * k) / 2 == 3 * k && (2 * k + 1) + (2 * k + 1) / 2 == 3 * k + 1;
      WordNibbles(fat[3 * k], fat[3 * k + 1]);
      WordNibbles(fat[3 * k + 1], fat[3 * k + 2]);
    }
  }

  /** Whether cluster n has an entry the kernel can address: both of its bytes
      lie in the FAT and their offset fits the registers that hold it. */
  predicate Fits(size: nat, is16: bool, n: nat) {
    if is16 then 2 * n + 1 < size && n < 65536
    else n + n / 2 + 1 < size && n + n / 2 + 1 < 65536
  }

  function Get(fat: seq<byte>, is16: bool, n: nat): nat
    requires Fits(|fat|, is16, n)
  {
    if is16 then Get16(fat, n) else Get12(fat, n)
  }

  function Put(fat: seq<byte>, is16: bool, n: nat, v: nat): seq<byte>
    requires Fits(|fat|, is16, n)
    requires v < 65536
  {
    if is16 then Put16(fat, n, v) else Put12(fat, n, v)
  }

  /** What is left of a value once it is stored: all of it, or its low 12 bits. */
  function Kept(is16: bool, v: nat): nat {
    if is16 then v else v % 4096
  }

  /** Bad-cluster and end-of-chain marks are widened to their 16-bit form. */
  function Widen(is16: bool, v: nat): nat {
    if !is16 && v >= 0xFF7 then v + 0xF000 else v
  }

  /** The two 12-bit readings of a word, nibble by nibble. */
  lemma WordNibbles(lo: byte, hi: byte)
    ensures Word(lo, hi) / 16 == lo / 16 + 16 * hi
    ensures Word(lo, hi) % 4096 == lo + 256 * (hi % 16)
  {
    var word := Word(lo, hi);
    Div16(word, lo / 16 + 16 * hi, lo % 16);
    Mod4096(word, hi / 16, lo + 256 * (hi % 16));
  }

  lemma Div16(x: int, q: int, r: int)
    requires x == 16 * q + r && 0 <= r < 16
    ensures x / 16 == q
  {
  }

  lemma Mod4096(x: int, q: int, r: int)
    requires x == 4096 * q + r && 0 <= r < 4096
    ensures x % 4096 == r
  {
  }

  /** A 12-bit update is exact: the entry named gets the low 12 bits and every
      other entry, sharing a nibble or not, keeps its value. */
  lemma Put12Exact(fat: seq<byte>, n: nat, v: nat, m: nat)
    requires n + n / 2 + 1 < |fat| && m + m / 2 + 1 < |fat|
    ensures |Put12(fat, n, v)| == |fat|
    ensures Get12(Put12(fat, n, v), m) == if m == n then v % 4096 else Get12(fat, m)
  {
    var o, p, after := n + n / 2, m + m / 2, Put12(fat, n, v);
    WordNibbles(fat[p], fat[p + 1]);
    WordNibbles(after[p], after[p + 1]);
    WordNibbles(fat[o], fat[o + 1]);
    if m == n {
      Put12Bytes(fat[o], fat[o + 1], v % 4096);
    } else if m < n {
      assert p < o && (p + 1 == o ==> n % 2 == 1 && m % 2 == 0);
      LowNibbleKept(fat[o], v % 4096 % 16);
    } else {
      assert o < p && (o + 1 == p ==> m % 2 == 1 && n % 2 == 0);
      HighNibbleKept(fat[o + 1], v % 4096 / 256);
    }
  }

  lemma LowNibbleKept(b: byte, x: nat)
    requires x < 16
    ensures (b % 16 + x * 16) % 16 == b % 16
    ensures (b % 16 + x * 16) / 16 == x
  {
  }

  lemma HighNibbleKept(b: byte, x: nat)
    requires x < 16
    ensures (b / 16 * 16 + x) / 16 == b / 16
    ensures (b / 16 * 16 + x) % 16 == x
  {
  }

  lemma Put12Bytes(lo: byte, hi: byte, x: nat)
    requires x < 4096
    ensures (lo % 16 + x % 16 * 16) / 16 + 16 * (x / 16) == x
    ensures x % 256 + 256 * ((hi / 16 * 16 + x / 256) % 16) == x
  {
    LowNibbleKept(lo, x % 16);
    HighNibbleKept(hi, x / 256);
  }

  /** The value as it sits in its 16 bits on disk. */
  function Pattern(odd: bool, v: nat): (x: nat)
    requires v < 65536
    ensures x < 65536 && (if odd then x % 16 == 0 else x < 4096)
  {
    if odd then v * 16 % 65536 else v % 4096
  }

  /** The first byte keeps its low nibble for an odd cluster. */
  function FirstByte(odd: bool, lo: byte, x: nat): (b: byte)
    requires odd ==> x % 16 == 0
    ensures odd ==> b % 16 == lo % 16
  {
    if odd then NibblesFit(lo, x); lo % 16 + x % 256 else x % 256
  }

  /** The second byte keeps its high nibble for an even cluster. */
  function SecondByte(odd: bool, hi: byte, x: nat): byte
    requires x < 65536 && (!odd ==> x < 4096)
  {
    if odd then x / 256 else hi / 16 * 16 + x / 256
  }

  lemma NibblesFit(lo: byte, x: nat)
    requires x % 16 == 0
    ensures lo % 16 + x % 256 < 256 && (lo % 16 + x % 256) % 16 == lo % 16
  {
    var q := x % 256 / 16;
    assert x % 256 == 16 * q;
  }

  /** The bytes of an update, as a 16-bit shift of the value and two masks make them. */
  lemma Put12At(fat: seq<byte>, n: nat, v: nat, o: nat)
    requires o == n + n / 2 && o + 1 < |fat| && v < 65536
    ensures var odd, x := n % 2 == 1, Pattern(n % 2 == 1, v);
            Put12(fat, n, v) == fat[o := FirstByte(odd, fat[o], x)][o + 1 := SecondByte(odd, fat[o + 1], x)]
  {
    ShiftUp(v);
  }

  lemma ShiftUp(v: nat)
    requires v < 65536
    ensures v * 16 % 65536 % 256 == v % 4096 % 16 * 16
    ensures v * 16 % 65536 / 256 == v % 4096 / 16
  {
    var top, a, b := v / 4096, v % 4096 / 16, v % 4096 % 16;
    assert v == top * 4096 + a * 16 + b;
    Split(v * 16, 65536, top, a * 256 + b * 16);
    Split(a * 256 + b * 16, 256, a, b * 16);
  }

  lemma Split(y: nat, d: nat, q: nat, r: nat)
    requires d in {256, 65536} && y == q * d + r && r < d
    ensures y / d == q && y % d == r
  {
  }

  /** Writing only the first byte of an entry that straddles two sectors leaves
      every other entry as it was. */
  lemma FirstByteOnly(fat: seq<byte>, n: nat, o: nat, lo: byte, m: nat)
    requires o == n + n / 2 && o + 1 < |fat|
    requires n % 2 == 1 ==> lo % 16 == fat[o] % 16
    requires m != n && m + m / 2 + 1 < |fat|
    ensures Get12(fat[o := lo], m) == Get12(fat, m)
  {
    var p, after := m + m / 2, fat[o := lo];
    WordNibbles(fat[p], fat[p + 1]);
    WordNibbles(after[p], after[p + 1]);
    if m < n {
      assert p < o && (p + 1 == o ==> n % 2 == 1 && m % 2 == 0);
    } else {
      assert o < p;
    }
  }

  /** The entries other than n's are the same in both. */
  ghost predicate SameButFor(a: seq<byte>, b: seq<byte>, is16: bool, n: nat) {
    |a| == |b| && forall m: nat :: Fits(|a|, is16, m) && m != n ==> Get(a, is16, m) == Get(b, is16, m)
  }

  /** b is a with at most the first byte of entry n rewritten. */
  ghost predicate HalfPut(a: seq<byte>, b: seq<byte>, n: nat, o: nat) {
    && |a| == |b| && o < |a|
    && (n % 2 == 1 ==> a[o] % 16 == b[o] % 16)
    && b == a[o := b[o]]
  }

  lemma PutJoin(a: seq<byte>, half: seq<byte>, n: nat, v: nat, o: nat, b: seq<byte>)
    requires o == n + n / 2 && o + 1 < |a| && v < 65536 && HalfPut(a, half, n, o)
    requires half[o] == FirstByte(n % 2 == 1, a[o], Pattern(n % 2 == 1, v))
    requires b == half[o + 1 := SecondByte(n % 2 == 1, a[o + 1], Pattern(n % 2 == 1, v))]
    ensures b == Put12(a, n, v)
  {
    Put12At(a, n, v, o);
  }

  lemma HalfPutSpares(a: seq<byte>, b: seq<byte>, n: nat)
    requires Fits(|a|, false, n) && HalfPut(a, b, n, n + n / 2)
    ensures SameButFor(a, b, false, n)
  {
    forall m: nat | Fits(|a|, false, m) && m != n ensures Get12(b, m) == Get12(a, m) {
      FirstByteOnly(a, n, n + n / 2, b[n + n / 2], m);
    }
  }

  lemma PutExact(fat: seq<byte>, is16: bool, n: nat, v: nat, m: nat)
    requires Fits(|fat|, is16, n) && Fits(|fat|, is16, m) && v < 65536
    ensures |Put(fat, is16, n, v)| == |fat|
    ensures Get(Put(fat, is16, n, v), is16, m) == if m == n then Kept(is16, v) else Get(fat, is16, m)
  {
    if !is16 {
      Put12Exact(fat, n, v, m);
    }
  }

  /** The stored form loses nothing a reader looks at: what is read back of a
      16-bit end-of-chain or bad mark is the mark itself, and a cluster number
      below $FF7 comes back unchanged. */
  lemma StoredThenRead(fat: seq<byte>, is16: bool, n: nat, v: nat)
    requires Fits(|fat|, is16, n) && v < 65536
    ensures var r := Widen(is16, Get(Put(fat, is16, n, v), is16, n));
            (r == v) <==> is16 || v < 0xFF7 || v >= 0xFFF7
  {
    PutExact(fat, is16, n, v, n);
  }

  /** The entries determine the bytes that hold them, so nothing is hidden
      between entries. */
  lemma {:induction false} EntriesDetermineBytes(a: seq<byte>, b: seq<byte>, n: nat)
    requires |a| == |b| && 2 * n + n + 2 < |a|
    requires Get12(a, 2 * n) == Get12(b, 2 * n) && Get12(a, 2 * n + 1) == Get12(b, 2 * n + 1)
    ensures forall i :: 3 * n <= i < 3 * n + 3 ==> a[i] == b[i]
  {
    assert 2 * n + (2 * n) / 2 == 3 * n && (2 * n + 1) + (2 * n + 1) / 2 == 3 * n + 1;
    BytesFromWords(a[3 * n], a[3 * n + 1], a[3 * n + 2], b[3 * n], b[3 * n + 1], b[3 * n + 2]);
  }

  lemma BytesFromWords(x: byte, y: byte, z: byte, p: byte, q: byte, r: byte)
    requires Word(x, y) % 4096 == Word(p, q) % 4096
    requires Word(y, z) / 16 == Word(q, r) / 16
    ensures x == p && y == q && z == r
  {
    WordNibbles(x, y);
    WordNibbles(y, z);
    WordNibbles(p, q);
    WordNibbles(q, r);
    var yl: int, ql: int, yh: int, qh: int := y % 16, q % 16, y / 16, q / 16;
    assert yl == ql && yh == qh;
  }
}
