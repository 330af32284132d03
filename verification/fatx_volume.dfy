/** The host-side volume tool: a file put into the root directory of a FAT12 volume
    can be read back, and nothing else on the volume is disturbed. */
module FatTool {
  import opened Bytes
  import opened FatEntry
  import opened FatChains

  function Times(a: nat, b: nat): nat {
    a * b
  }

  lemma NextTimes(k: nat, size: nat)
    ensures Times(k + 1, size) == Times(k, size) + size
  {
  }

  lemma {:induction false} TimesOrder(a: nat, b: nat, m: nat)
    requires a < b
    ensures Times(a, m) + m <= Times(b, m)
  {
    hide Times;
    NextTimes(b - 1, m);
    if a + 1 < b {
      TimesOrder(a, b - 1, m);
    }
  }

  /** A volume's layout in sectors of 512 bytes, counted from its start. */
  datatype Layout = Layout(spc: nat, rsvd: nat, nfats: nat, spf: nat, rootEnts: nat, count: nat) {
    predicate Is16() {
      count >= 4085
    }

    function RootSec(): nat {
      rsvd + Times(nfats, spf)
    }

    function RootSectors(): nat {
      (rootEnts * 32 + 511) / 512
    }

    function Data0(): nat {
      RootSec() + RootSectors()
    }

    function ClusterSize(): nat {
      512 * spc
    }

    /** Byte offset of a cluster. */
    function At(c: nat): nat
      requires c >= 2
    {
      512 * Data0() + Times(c - 2, ClusterSize())
    }

    /** Byte offset of a copy of the FAT. */
    function FatAt(k: nat): nat {
      512 * (rsvd + Times(k, spf))
    }

    /** The FAT has an entry for each cluster, and there are too few for FAT32. */
    ghost predicate Sound() {
      && spc > 0 && count < 65525
      && forall n: nat :: n <= count + 1 ==> Fits(512 * spf, Is16(), n)
    }
  }

  // ----- a file as bytes -----

  function Splice(file: seq<byte>, at: nat, data: seq<byte>): (r: seq<byte>)
    requires at + |data| <= |file|
    ensures |r| == |file|
    ensures r[at..at + |data|] == data
    ensures forall i :: 0 <= i < |file| && !(at <= i < at + |data|) ==> r[i] == file[i]
  {
    file[..at] + data + file[at + |data|..]
  }

  /** Bytes from .. to are the same in both. */
  predicate Same(a: seq<byte>, b: seq<byte>, from: nat, to: nat) {
    |a| == |b| && to <= |a| && forall i :: from <= i < to ==> a[i] == b[i]
  }

  lemma SameSlice(a: seq<byte>, b: seq<byte>, from: nat, to: nat)
    requires from <= to && Same(a, b, from, to)
    ensures a[from..to] == b[from..to]
  {
  }

  function Min(a: nat, b: nat): nat {
    if a < b then a else b
  }

  /** Piece i of the data, filled up with zeros. */
  function Chunk(data: seq<byte>, size: nat, i: nat): (c: seq<byte>)
    ensures |c| == size
  {
    var piece := data[Min(Times(i, size), |data|)..Min(Times(i, size) + size, |data|)];
    PieceFits(Times(i, size), size, |data|);
    piece + seq(size - |piece|, k => 0)
  }

  lemma PieceFits(a: nat, size: nat, n: nat)
    ensures Min(a, n) <= Min(a + size, n) <= Min(a, n) + size
  {
  }

  ghost predicate Clusters(l: Layout, cs: seq<nat>) {
    Distinct(cs) && Within(cs, 2, l.count + 2)
  }

  lemma ClustersApart(l: Layout, c: nat, d: nat)
    requires 2 <= c < d
    ensures l.At(c) + l.ClusterSize() <= l.At(d)
  {
    hide Times;
    TimesOrder(c - 2, d - 2, l.ClusterSize());
  }

  lemma ClusterInFile(l: Layout, c: nat, length: nat)
    requires 2 <= c < l.count + 2 && l.At(l.count + 2) <= length
    ensures 512 * l.Data0() <= l.At(c) && l.At(c) + l.ClusterSize() <= length
  {
    ClustersApart(l, c, l.count + 2);
  }

  // ----- what a file put on the volume leaves -----

  /** The first i pieces written to their clusters. */
  function Written(file: seq<byte>, l: Layout, cs: seq<nat>, data: seq<byte>, i: nat): (r: seq<byte>)
    requires i <= |cs| && Within(cs, 2, l.count + 2) && l.At(l.count + 2) <= |file|
    ensures |r| == |file|
    decreases i
  {
    if i == 0 then file
    else
      ClusterInFile(l, cs[i - 1], |file|);
      Splice(Written(file, l, cs, data, i - 1), l.At(cs[i - 1]), Chunk(data, l.ClusterSize(), i - 1))
  }

  lemma {:induction false} WrittenElsewhere(file: seq<byte>, l: Layout, cs: seq<nat>, data: seq<byte>, i: nat, from: nat, to: nat)
    requires i <= |cs| && Within(cs, 2, l.count + 2) && l.At(l.count + 2) <= |file| && from <= to <= |file|
    requires forall k :: 0 <= k < i ==> to <= l.At(cs[k]) || l.At(cs[k]) + l.ClusterSize() <= from
    ensures Same(Written(file, l, cs, data, i), file, from, to)
    decreases i
  {
    hide Chunk;
    if i > 0 {
      WrittenElsewhere(file, l, cs, data, i - 1, from, to);
      ClusterInFile(l, cs[i - 1], |file|);
    }
  }

  /** Each piece is in its cluster. */
  lemma {:induction false} WrittenAt(file: seq<byte>, l: Layout, cs: seq<nat>, data: seq<byte>, i: nat, k: nat)
    requires k < i <= |cs| && Clusters(l, cs) && l.At(l.count + 2) <= |file|
    ensures l.At(cs[k]) + l.ClusterSize() <= |file|
    ensures Written(file, l, cs, data, i)[l.At(cs[k])..l.At(cs[k]) + l.ClusterSize()] == Chunk(data, l.ClusterSize(), k)
    decreases i
  {
    hide Chunk;
    ClusterInFile(l, cs[k], |file|);
    ClusterInFile(l, cs[i - 1], |file|);
    if k < i - 1 {
      WrittenAt(file, l, cs, data, i - 1, k);
      if cs[k] < cs[i - 1] {
        ClustersApart(l, cs[k], cs[i - 1]);
      } else {
        ClustersApart(l, cs[i - 1], cs[k]);
      }
      SameSlice(Written(file, l, cs, data, i), Written(file, l, cs, data, i - 1),
                l.At(cs[k]), l.At(cs[k]) + l.ClusterSize());
    }
  }

  /** The FAT written to its first k places. */
  function FatsWritten(file: seq<byte>, l: Layout, fat: seq<byte>, k: nat): (r: seq<byte>)
    requires k <= l.nfats && |fat| == 512 * l.spf && 512 * l.RootSec() <= |file|
    ensures |r| == |file|
    decreases k
  {
    if k == 0 then file
    else
      CopyInFats(l, k - 1);
      Splice(FatsWritten(file, l, fat, k - 1), l.FatAt(k - 1), fat)
  }

  lemma CopyInFats(l: Layout, k: nat)
    requires k < l.nfats
    ensures 512 * l.rsvd <= l.FatAt(k) && l.FatAt(k) + 512 * l.spf <= 512 * l.RootSec()
  {
    hide Times;
    TimesOrder(k, l.nfats, l.spf);
  }

  lemma {:induction false} FatsElsewhere(file: seq<byte>, l: Layout, fat: seq<byte>, k: nat)
    requires k <= l.nfats && |fat| == 512 * l.spf && 512 * l.RootSec() <= |file|
    ensures Same(FatsWritten(file, l, fat, k), file, 512 * l.RootSec(), |file|)
    ensures Same(FatsWritten(file, l, fat, k), file, 0, 512 * l.rsvd)
    decreases k
  {
    hide Times, Splice;
    if k > 0 {
      FatsElsewhere(file, l, fat, k - 1);
      CopyInFats(l, k - 1);
    }
  }

  /** All copies of the FAT are what is held in memory. */
  lemma {:induction false} FatsAre(file: seq<byte>, l: Layout, fat: seq<byte>, k: nat, c: nat)
    requires c < k <= l.nfats && |fat| == 512 * l.spf && 512 * l.RootSec() <= |file|
    ensures l.FatAt(c) + |fat| <= |file|
    ensures FatsWritten(file, l, fat, k)[l.FatAt(c)..l.FatAt(c) + |fat|] == fat
    decreases k
  {
    hide Times, Splice;
    CopyInFats(l, c);
    CopyInFats(l, k - 1);
    if c < k - 1 {
      FatsAre(file, l, fat, k - 1, c);
      TimesOrder(c, k - 1, l.spf);
      SameSlice(FatsWritten(file, l, fat, k), FatsWritten(file, l, fat, k - 1), l.FatAt(c), l.FatAt(c) + |fat|);
    }
  }

  // ----- reading a chain -----

  predicate Numbered(cs: seq<nat>) {
    forall i :: 0 <= i < |cs| ==> cs[i] >= 2
  }

  /** A read of n bytes, cut short at the end of the file. */
  function ReadAt(file: seq<byte>, at: nat, n: nat): seq<byte> {
    file[Min(at, |file|)..Min(at + n, |file|)]
  }

  /** What the clusters of a chain hold, one after another. */
  function Joined(file: seq<byte>, l: Layout, cs: seq<nat>): seq<byte>
    requires Numbered(cs)
    decreases |cs|
  {
    if cs == [] then [] else ReadAt(file, l.At(cs[0]), l.ClusterSize()) + Joined(file, l, cs[1..])
  }

  lemma ReadAtIs(file: seq<byte>, l: Layout, c: nat)
    requires 2 <= c < l.count + 2 && l.At(l.count + 2) <= |file|
    ensures l.At(c) + l.ClusterSize() <= |file|
    ensures ReadAt(file, l.At(c), l.ClusterSize()) == file[l.At(c)..l.At(c) + l.ClusterSize()]
  {
    ClusterInFile(l, c, |file|);
  }

  lemma {:induction false} JoinedSame(a: seq<byte>, b: seq<byte>, l: Layout, cs: seq<nat>)
    requires Within(cs, 2, l.count + 2) && |a| == |b| && l.At(l.count + 2) <= |a|
    requires forall k :: 0 <= k < |cs| ==> Same(a, b, l.At(cs[k]), l.At(cs[k]) + l.ClusterSize())
    ensures Joined(a, l, cs) == Joined(b, l, cs)
    decreases |cs|
  {
    if cs != [] {
      SameSlice(a, b, l.At(cs[0]), l.At(cs[0]) + l.ClusterSize());
      ReadAtIs(a, l, cs[0]);
      ReadAtIs(b, l, cs[0]);
      forall k | 0 <= k < |cs[1..]| ensures Same(a, b, l.At(cs[1..][k]), l.At(cs[1..][k]) + l.ClusterSize()) {
        assert cs[1..][k] == cs[k + 1];
      }
      JoinedSame(a, b, l, cs[1..]);
    }
  }

  /** The pieces from the k-th on, one after another. */
  function Pieces(data: seq<byte>, size: nat, k: nat, n: nat): seq<byte>
    decreases n - k
  {
    if k >= n then [] else Chunk(data, size, k) + Pieces(data, size, k + 1, n)
  }

  lemma {:induction false} JoinedPieces(file: seq<byte>, l: Layout, cs: seq<nat>, data: seq<byte>, k: nat)
    requires k <= |cs| && Within(cs, 2, l.count + 2) && l.At(l.count + 2) <= |file|
    requires forall j :: k <= j < |cs| ==>
               l.At(cs[j]) + l.ClusterSize() <= |file| &&
               file[l.At(cs[j])..l.At(cs[j]) + l.ClusterSize()] == Chunk(data, l.ClusterSize(), j)
    ensures Within(cs[k..], 2, l.count + 2)
    ensures Joined(file, l, cs[k..]) == Pieces(data, l.ClusterSize(), k, |cs|)
    decreases |cs| - k
  {
    hide Chunk;
    if k < |cs| {
      ReadAtIs(file, l, cs[k]);
      assert cs[k..][1..] == cs[k + 1..] && cs[k..][0] == cs[k];
      JoinedPieces(file, l, cs, data, k + 1);
    }
  }

  /** The pieces hold the data as far as they go. */
  lemma {:induction false} PiecesHold(data: seq<byte>, size: nat, k: nat, n: nat)
    requires k <= n && Times(k, size) <= |data|
    ensures var at, to := Times(k, size), Min(|data|, Times(n, size));
            && at <= to && |Pieces(data, size, k, n)| == Times(n, size) - at
            && Pieces(data, size, k, n)[..to - at] == data[at..to]
    decreases n - k
  {
    hide Times, Chunk;
    if k < n {
      NextTimes(k, size);
      var at, to, rest := Times(k, size), Min(|data|, Times(n, size)), Pieces(data, size, k + 1, n);
      ChunkIs(data, size, k);
      if at + size <= |data| {
        PiecesHold(data, size, k + 1, n);
        assert data[at..to] == data[at..at + size] + data[at + size..to];
        assert (Chunk(data, size, k) + rest)[..to - at] == Chunk(data, size, k) + rest[..to - at - size];
      } else {
        PiecesLength(data, size, k + 1, n);
        assert (Chunk(data, size, k) + rest)[..|data| - at] == Chunk(data, size, k)[..|data| - at];
      }
    }
  }

  lemma {:induction false} PiecesLength(data: seq<byte>, size: nat, k: nat, n: nat)
    requires k <= n
    ensures Times(k, size) + |Pieces(data, size, k, n)| == Times(n, size)
    decreases n - k
  {
    hide Times, Chunk;
    if k < n {
      NextTimes(k, size);
      PiecesLength(data, size, k + 1, n);
    }
  }

  lemma ChunkIs(data: seq<byte>, size: nat, k: nat)
    requires Times(k, size) <= |data|
    ensures var at := Times(k, size);
            if at + size <= |data| then Chunk(data, size, k) == data[at..at + size]
            else Chunk(data, size, k)[..|data| - at] == data[at..]
  {
    hide Times;
  }
}
