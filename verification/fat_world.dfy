/** The state the FAT layer works on, as a value: disks, drive table and the one
    cached FAT sector. What each drive's FAT means is `Effective`. */
module FatWorld {
  import opened Bytes
  import opened FatEntry

  const NO_SECTOR := 0xFFFF
  const NO_DRIVE := 0xFF
  const DRIVE_COUNT := 6
  const LBA_LIMIT := 0x1000000

  datatype Addr = Addr(dev: nat, lba: nat)

  type Disk = map<Addr, Sector>

  datatype Bpb = Bpb(fatLba: nat, numFats: nat, spf: nat, maxClust: nat, dev: nat) {
    predicate Is16() {
      maxClust >= 0x0FF6
    }

    /** Where sector s of FAT copy c is. */
    function Copy(c: nat, s: nat): Addr {
      Addr(dev, fatLba + c * spf + s)
    }

    predicate InFat(a: Addr) {
      a.dev == dev && fatLba <= a.lba < fatLba + numFats * spf
    }

    predicate EntryFits(n: nat) {
      Fits(512 * spf, Is16(), n)
    }

    ghost predicate Sound() {
      && 1 <= numFats < 256
      && spf < 65536
      && maxClust <= 65525
      && fatLba + numFats * spf <= LBA_LIMIT
      && forall n: nat :: n <= maxClust ==> EntryFits(n)
    }
  }

  predicate Present(table: seq<Bpb>, present: seq<bool>, d: nat) {
    |table| == DRIVE_COUNT == |present| && d < DRIVE_COUNT && present[d]
  }

  /** Every present drive is a sound volume on its own part of the disks. */
  ghost predicate VolumesApart(sectors: set<Addr>, table: seq<Bpb>, present: seq<bool>) {
    && |table| == DRIVE_COUNT == |present|
    && (forall d: nat :: Present(table, present, d) ==> table[d].Sound())
    && (forall d: nat, a: Addr :: Present(table, present, d) && table[d].InFat(a) ==> a in sectors)
    && (forall d: nat, e: nat, a: Addr ::
          Present(table, present, d) && Present(table, present, e) && d != e && table[d].InFat(a) ==> !table[e].InFat(a))
  }

  datatype World = World(disk: Disk, table: seq<Bpb>, present: seq<bool>, active: nat,
                         data: Sector, csec: nat, dirty: bool, owner: nat, hint: nat) {
    predicate IsDrive(d: nat) {
      Present(table, present, d)
    }

    ghost predicate Drives() {
      VolumesApart(disk.Keys, table, present)
    }

    /** Dirty implies the sector is the active drive's own. */
    ghost predicate Wf() {
      && Drives()
      && (active == NO_DRIVE || IsDrive(active))
      && (csec != NO_SECTOR ==> csec < 256 && IsDrive(owner) && csec < table[owner].spf)
      && (dirty ==> csec != NO_SECTOR && owner == active)
      && 2 <= hint < 65536
    }

    /** A clean cached sector is what its owner's disk holds. */
    ghost predicate Valid() {
      && Wf()
      && (csec != NO_SECTOR && !dirty ==>
            table[owner].Copy(0, csec) in disk && data == disk[table[owner].Copy(0, csec)])
    }
  }

  lemma {:induction false} MulStep(c: nat, n: nat, m: nat)
    requires c < n
    ensures c * m + m <= n * m
  {
    if c + 1 < n {
      MulStep(c, n - 1, m);
    }
    assert n * m == (n - 1) * m + m;
  }

  lemma CopyInFat(b: Bpb, c: nat, s: nat)
    requires c < b.numFats && s < b.spf
    ensures b.InFat(b.Copy(c, s))
  {
    MulStep(c, b.numFats, b.spf);
  }

  lemma CopyInjective(b: Bpb, c: nat, s: nat, c': nat, s': nat)
    requires s < b.spf && s' < b.spf
    ensures b.Copy(c, s) == b.Copy(c', s') <==> c == c' && s == s'
  {
    if c < c' {
      MulStep(c, c', b.spf);
    } else if c' < c {
      MulStep(c', c, b.spf);
    }
  }

  /** Byte o of the first FAT copy of a sound drive on disk. */
  function DiskByte(w: World, d: nat, o: nat): byte
    requires d < |w.table|
  {
    var a := w.table[d].Copy(0, o / 512);
    if a in w.disk then w.disk[a][o % 512] else 0
  }

  function EffectiveByte(w: World, d: nat, o: nat): byte
    requires d < |w.table|
  {
    if w.dirty && w.owner == d && w.csec == o / 512 then w.data[o % 512] else DiskByte(w, d, o)
  }

  /** The FAT of drive d as its files see it: what is on disk, overlaid by the
      cached sector while that one is modified and belongs to d. */
  function Effective(w: World, d: nat): (fat: seq<byte>)
    requires d < |w.table|
    ensures |fat| == 512 * w.table[d].spf
    ensures forall o :: 0 <= o < |fat| ==> fat[o] == EffectiveByte(w, d, o)
  {
    seq(512 * w.table[d].spf, o requires 0 <= o => EffectiveByte(w, d, o))
  }

  /** All FAT copies of drive d hold the same sectors. */
  ghost predicate Mirrored(w: World, d: nat)
    requires d < |w.table|
  {
    forall c: nat, s: nat :: c < w.table[d].numFats && s < w.table[d].spf ==>
      && w.table[d].Copy(c, s) in w.disk
      && w.table[d].Copy(0, s) in w.disk
      && w.disk[w.table[d].Copy(c, s)] == w.disk[w.table[d].Copy(0, s)]
  }

  /** The same drives, and no sector outside the FAT of the drive that was active
      has been written. */
  ghost predicate Framed(w: World, w': World) {
    && w'.table == w.table
    && w'.present == w.present
    && w'.disk.Keys == w.disk.Keys
    && forall a :: a in w.disk && w'.disk[a] != w.disk[a] ==> w.IsDrive(w.active) && w.table[w.active].InFat(a)
  }

  /** What every present drive's files see. */
  function Fats(w: World): (fats: seq<seq<byte>>)
    requires |w.table| == DRIVE_COUNT == |w.present|
    ensures |fats| == DRIVE_COUNT
    ensures forall d: nat :: d < DRIVE_COUNT ==> fats[d] == if w.present[d] then Effective(w, d) else []
  {
    seq(DRIVE_COUNT, d requires 0 <= d < DRIVE_COUNT => if w.present[d] then Effective(w, d) else [])
  }

  /** One byte of one drive's FAT changed. */
  function Poke(fats: seq<seq<byte>>, d: nat, p: nat, x: byte): seq<seq<byte>>
    requires d < |fats| && p < |fats[d]|
  {
    var fat: seq<byte> := fats[d][p := x];
    fats[d := fat]
  }

  lemma FatsByDrive(w: World, w': World)
    requires |w.table| == DRIVE_COUNT == |w.present|
    requires w'.table == w.table && w'.present == w.present
    requires forall d: nat :: w.IsDrive(d) ==> Effective(w', d) == Effective(w, d)
    ensures Fats(w') == Fats(w)
  {
    forall d: nat | d < DRIVE_COUNT ensures Fats(w')[d] == Fats(w)[d] {
      assert w.present[d] ==> w.IsDrive(d);
    }
  }

  ghost predicate MirrorsKept(w: World, w': World) {
    && w'.table == w.table
    && forall d: nat :: w.IsDrive(d) && Mirrored(w, d) ==> Mirrored(w', d)
  }

  lemma FramedTwice(a: World, b: World, c: World)
    requires Framed(a, b) && Framed(b, c) && b.active == a.active
    ensures Framed(a, c)
  {
  }

  lemma MirrorsTwice(a: World, b: World, c: World)
    requires a.present == b.present && MirrorsKept(a, b) && MirrorsKept(b, c)
    ensures MirrorsKept(a, c)
  {
    hide Mirrored;
  }

  // ----- where the bytes lie -----

  /** Copy c of drive d's FAT as it lies on disk, sector after sector from the start of
      the FATs on, the copies one behind the other. */
  function OnDisk(w: World, d: nat, c: nat): (fat: seq<byte>)
    requires d < |w.table|
    ensures |fat| == 512 * w.table[d].spf
  {
    var b := w.table[d];
    seq(512 * b.spf, o requires 0 <= o =>
      var a := Addr(b.dev, b.fatLba + c * b.spf + o / 512); if a in w.disk then w.disk[a][o % 512] else 0)
  }

  /** What a drive's files see is, while nothing of it is pending in the cache, byte for
      byte what lies on disk from the start of its FATs on. */
  lemma EffectiveOnDisk(w: World, d: nat, o: nat)
    requires w.Wf() && w.IsDrive(d) && !(w.dirty && w.owner == d) && o < 512 * w.table[d].spf
    ensures var b := w.table[d]; var a := Addr(b.dev, b.fatLba + o / 512);
            a in w.disk && Effective(w, d)[o] == w.disk[a][o % 512] == OnDisk(w, d, 0)[o]
  {
    CopyInFat(w.table[d], 0, o / 512);
  }

  /** Of a drive with equal copies, every copy is. */
  lemma MirrorOnDisk(w: World, d: nat, c: nat, o: nat)
    requires w.Wf() && w.IsDrive(d) && !(w.dirty && w.owner == d) && Mirrored(w, d)
    requires c < w.table[d].numFats && o < 512 * w.table[d].spf
    ensures var b := w.table[d]; var a := Addr(b.dev, b.fatLba + c * b.spf + o / 512);
            a in w.disk && Effective(w, d)[o] == w.disk[a][o % 512] == OnDisk(w, d, c)[o]
  {
    var b := w.table[d];
    EffectiveOnDisk(w, d, o);
    CopyInFat(b, c, o / 512);
    assert w.disk[b.Copy(c, o / 512)] == w.disk[b.Copy(0, o / 512)];
  }

  lemma CleanOnDisk(w: World, d: nat)
    requires w.Wf() && w.IsDrive(d) && !(w.dirty && w.owner == d)
    ensures OnDisk(w, d, 0) == Effective(w, d)
    ensures Mirrored(w, d) ==> forall c: nat :: c < w.table[d].numFats ==> OnDisk(w, d, c) == Effective(w, d)
  {
    hide VolumesApart, OnDisk, EffectiveByte, Mirrored;
    forall o: nat | o < 512 * w.table[d].spf ensures OnDisk(w, d, 0)[o] == Effective(w, d)[o] {
      EffectiveOnDisk(w, d, o);
    }
    if Mirrored(w, d) {
      forall c: nat | c < w.table[d].numFats ensures OnDisk(w, d, c) == Effective(w, d) {
        forall o: nat | o < 512 * w.table[d].spf ensures OnDisk(w, d, c)[o] == Effective(w, d)[o] {
          MirrorOnDisk(w, d, c, o);
        }
      }
    }
  }

  // ----- writing the cached sector back -----

  function WriteCopies(disk: Disk, b: Bpb, s: nat, data: Sector, k: nat): Disk {
    if k == 0 then disk else WriteCopies(disk, b, s, data, k - 1)[b.Copy(k - 1, s) := data]
  }

  lemma {:induction false} WriteCopiesAt(disk: Disk, b: Bpb, s: nat, data: Sector, k: nat, a: Addr)
    requires s < b.spf && k <= b.numFats
    requires a in disk
    requires forall a: Addr :: b.InFat(a) ==> a in disk
    ensures WriteCopies(disk, b, s, data, k).Keys == disk.Keys
    ensures (forall c: nat :: c < k ==> a != b.Copy(c, s)) ==> WriteCopies(disk, b, s, data, k)[a] == disk[a]
    ensures forall c: nat :: c < k && a == b.Copy(c, s) ==> WriteCopies(disk, b, s, data, k)[a] == data
  {
    if k > 0 {
      WriteCopiesAt(disk, b, s, data, k - 1, a);
      CopyInFat(b, k - 1, s);
    }
  }

  /** The world once k of the FAT copies have been written; the cache stays
      dirty until all of them have. */
  function Flushed(w: World, k: nat): World
    requires w.active < |w.table|
  {
    var b := w.table[w.active];
    w.(disk := WriteCopies(w.disk, b, w.csec, w.data, k), dirty := k < b.numFats)
  }

  /** A flush, complete or cut short by a write error, changes no drive's FAT
      and writes only copies of the cached sector, in its owner's FAT. */
  lemma FlushKeepsFats(w: World, k: nat)
    requires w.Valid() && w.dirty
    requires k <= w.table[w.active].numFats
    ensures Flushed(w, k).Valid()
    ensures Fats(Flushed(w, k)) == Fats(w)
    ensures Framed(w, Flushed(w, k))
  {
    var b, w' := w.table[w.active], Flushed(w, k);
    CopyInFat(b, 0, w.csec);
    WriteCopiesAt(w.disk, b, w.csec, w.data, k, b.Copy(0, w.csec));
    forall a | a in w.disk
      ensures w'.disk[a] == w.disk[a] || (b.InFat(a) && exists c: nat :: c < k && a == b.Copy(c, w.csec))
    {
      WriteCopiesAt(w.disk, b, w.csec, w.data, k, a);
      forall c: nat | c < k ensures b.InFat(b.Copy(c, w.csec)) {
        CopyInFat(b, c, w.csec);
      }
    }
    forall d: nat | w.IsDrive(d) ensures Effective(w', d) == Effective(w, d) {
      forall o: nat | o < 512 * w.table[d].spf ensures EffectiveByte(w', d, o) == EffectiveByte(w, d, o) {
        FlushKeepsByte(w, k, d, o);
      }
    }
    FatsByDrive(w, w');
  }

  lemma FlushKeepsByte(w: World, k: nat, d: nat, o: nat)
    requires w.Valid() && w.dirty
    requires k <= w.table[w.active].numFats
    requires w.IsDrive(d) && o < 512 * w.table[d].spf
    ensures EffectiveByte(Flushed(w, k), d, o) == EffectiveByte(w, d, o)
  {
    var b, a := w.table[w.active], w.table[d].Copy(0, o / 512);
    CopyInFat(w.table[d], 0, o / 512);
    WriteCopiesAt(w.disk, b, w.csec, w.data, k, a);
    forall c: nat | c < k ensures b.InFat(b.Copy(c, w.csec)) && (d == w.active && a == b.Copy(c, w.csec) ==> o / 512 == w.csec) {
      CopyInFat(b, c, w.csec);
      if d == w.active {
        CopyInjective(b, 0, o / 512, c, w.csec);
      }
    }
    if d == w.active && o / 512 == w.csec && k > 0 {
      assert a == b.Copy(0, w.csec);
    }
  }

  /** A completed flush leaves every copy of the sector equal. */
  lemma FlushMirrors(w: World)
    requires w.Valid() && w.dirty
    ensures MirrorsKept(w, Flushed(w, w.table[w.active].numFats))
  {
    var b := w.table[w.active];
    var k := b.numFats;
    var w' := Flushed(w, k);
    forall d: nat, c: nat, s: nat | w.IsDrive(d) && Mirrored(w, d) && c < w.table[d].numFats && s < w.table[d].spf
      ensures w.table[d].Copy(c, s) in w'.disk && w.table[d].Copy(0, s) in w'.disk
      ensures w'.disk[w.table[d].Copy(c, s)] == w'.disk[w.table[d].Copy(0, s)]
    {
      FlushedCopy(w, k, d, c, s);
      FlushedCopy(w, k, d, 0, s);
    }
  }

  lemma FlushedCopy(w: World, k: nat, d: nat, c: nat, s: nat)
    requires w.Valid() && w.dirty && k == w.table[w.active].numFats
    requires w.IsDrive(d) && c < w.table[d].numFats && s < w.table[d].spf
    ensures w.table[d].Copy(c, s) in w.disk && Flushed(w, k).disk.Keys == w.disk.Keys
    ensures Flushed(w, k).disk[w.table[d].Copy(c, s)]
            == if d == w.active && s == w.csec then w.data else w.disk[w.table[d].Copy(c, s)]
  {
    var b, a := w.table[w.active], w.table[d].Copy(c, s);
    CopyInFat(w.table[d], c, s);
    WriteCopiesAt(w.disk, b, w.csec, w.data, k, a);
    forall i: nat | i < k ensures b.InFat(b.Copy(i, w.csec)) && (d == w.active && a == b.Copy(i, w.csec) ==> i == c && s == w.csec) {
      CopyInFat(b, i, w.csec);
      if d == w.active {
        CopyInjective(b, c, s, i, w.csec);
      }
    }
    if d == w.active && s == w.csec {
      assert a == b.Copy(c, w.csec);
    }
  }

  // ----- bringing a sector of the active drive into the cache -----

  function Saved(w: World): World
    requires w.active < |w.table|
  {
    if w.dirty then Flushed(w, w.table[w.active].numFats) else w
  }

  function Loaded(w: World, s: nat): World
    requires w.active < |w.table|
  {
    var f, a := Saved(w), w.table[w.active].Copy(0, s);
    if (w.csec == s && w.owner == w.active) || a !in f.disk then w
    else f.(data := f.disk[a], csec := s, dirty := false, owner := w.active)
  }

  lemma SaveKeeps(w: World)
    requires w.Valid() && w.IsDrive(w.active)
    ensures Saved(w).Valid() && !Saved(w).dirty
    ensures Fats(Saved(w)) == Fats(w) && Framed(w, Saved(w)) && MirrorsKept(w, Saved(w))
  {
    if w.dirty {
      FlushKeepsFats(w, w.table[w.active].numFats);
      FlushMirrors(w);
    }
  }

  /** A clean cache contributes nothing, so swapping it changes no FAT. */
  lemma CleanCacheIrrelevant(w: World, w': World)
    requires !w.dirty && !w'.dirty
    requires |w.table| == DRIVE_COUNT == |w.present|
    requires w'.disk == w.disk && w'.table == w.table && w'.present == w.present
    ensures Fats(w') == Fats(w) && MirrorsKept(w, w')
  {
    forall d: nat | w.IsDrive(d) ensures Effective(w', d) == Effective(w, d) {
      assert forall o: nat :: EffectiveByte(w', d, o) == EffectiveByte(w, d, o);
    }
    FatsByDrive(w, w');
    forall d: nat | w.IsDrive(d) && Mirrored(w, d) ensures Mirrored(w', d) {
    }
  }

  lemma HintIrrelevant(w: World, h: nat)
    requires |w.table| == DRIVE_COUNT == |w.present|
    ensures Fats(w.(hint := h)) == Fats(w) && MirrorsKept(w, w.(hint := h))
  {
    forall d: nat | w.IsDrive(d) ensures Effective(w.(hint := h), d) == Effective(w, d) {
      assert forall o: nat :: EffectiveByte(w.(hint := h), d, o) == EffectiveByte(w, d, o);
    }
    FatsByDrive(w, w.(hint := h));
    forall d: nat | w.IsDrive(d) && Mirrored(w, d) ensures Mirrored(w.(hint := h), d) {
    }
  }

  /** Loading evicts and refills the cache without changing any drive's FAT. */
  lemma LoadKeepsFats(w: World, s: nat)
    requires w.Valid() && w.IsDrive(w.active)
    requires s < w.table[w.active].spf && s < 256
    ensures Loaded(w, s).Valid()
    ensures Loaded(w, s).csec == s && Loaded(w, s).owner == Loaded(w, s).active == w.active
    ensures Fats(Loaded(w, s)) == Fats(w) && Framed(w, Loaded(w, s)) && MirrorsKept(w, Loaded(w, s))
  {
    SaveKeeps(w);
    var f := Saved(w);
    CopyInFat(w.table[w.active], 0, s);
    CleanCacheIrrelevant(f, f.(data := f.disk[w.table[w.active].Copy(0, s)], csec := s, owner := w.active));
  }

  /** A cached sector of the active drive, clean or dirty, is that part of the FAT. */
  lemma CachedBytes(w: World, i: nat)
    requires w.Valid() && w.IsDrive(w.active)
    requires w.csec != NO_SECTOR && w.owner == w.active && i < 512
    ensures 512 * w.csec + i < |Fats(w)[w.active]|
    ensures w.data[i] == Fats(w)[w.active][512 * w.csec + i]
  {
    assert (512 * w.csec + i) / 512 == w.csec && (512 * w.csec + i) % 512 == i;
  }

  // ----- a load that fails after the old sector was saved -----

  /** A failed read keeps the tag and may leave anything in the buffer. The cache is
      still good exactly when nothing was cached or the buffer did not change. */
  lemma FailedLoad(w: World, x: Sector)
    requires w.Valid() && !w.dirty
    ensures w.(data := x).Valid() <==> w.csec == NO_SECTOR || x == w.data
    ensures Fats(w.(data := x)) == Fats(w)
  {
    CleanCacheIrrelevant(w, w.(data := x));
  }

  /** Otherwise a later store writes the rest of the buffer along: what is stored is
      the change of one byte exactly when no other byte had been damaged. */
  lemma StoreAfterFailedLoad(w: World, x: Sector, i: nat, b: byte)
    requires w.Valid() && !w.dirty && w.IsDrive(w.active)
    requires w.csec != NO_SECTOR && w.owner == w.active && i < 512
    ensures 512 * w.csec + i < |Fats(w)[w.active]|
    ensures Fats(Stored(w.(data := x), i, b)) == Poke(Fats(w), w.active, 512 * w.csec + i, b)
            <==> forall j :: 0 <= j < 512 && j != i ==> x[j] == w.data[j]
  {
    hide VolumesApart, EffectiveByte;
    StoreChangesOneByte(w, i, b);
    var good, bad := Stored(w, i, b), Stored(w.(data := x), i, b);
    if forall j :: 0 <= j < 512 && j != i ==> x[j] == w.data[j] {
      assert good.data == bad.data;
    } else {
      var j :| 0 <= j < 512 && j != i && x[j] != w.data[j];
      var o := 512 * w.csec + j;
      assert o / 512 == w.csec && o % 512 == j;
      CachedBytes(w, j);
      DirtyByteAt(good, o);
      DirtyByteAt(bad, o);
      assert Fats(good)[w.active][o] != Fats(bad)[w.active][o];
    }
  }

  lemma DirtyByteAt(w: World, o: nat)
    requires w.IsDrive(w.active) && w.dirty && w.owner == w.active && o / 512 == w.csec && o < 512 * w.table[w.active].spf
    ensures o < |Fats(w)[w.active]| && Fats(w)[w.active][o] == w.data[o % 512]
  {
  }

  // ----- modifying the cached sector -----

  function Stored(w: World, i: nat, x: byte): World
    requires i < 512
  {
    w.(data := w.data[i := x], dirty := true)
  }

  /** A store into the cache changes one byte of the active drive's FAT, and no
      other drive. */
  lemma StoreChangesOneByte(w: World, i: nat, x: byte)
    requires w.Valid() && w.IsDrive(w.active)
    requires w.csec != NO_SECTOR && w.owner == w.active && i < 512
    ensures Stored(w, i, x).Valid()
    ensures 512 * w.csec + i < |Fats(w)[w.active]|
    ensures Fats(Stored(w, i, x)) == Poke(Fats(w), w.active, 512 * w.csec + i, x)
    ensures Framed(w, Stored(w, i, x)) && MirrorsKept(w, Stored(w, i, x))
  {
    hide Mirrored, MirrorsKept, Framed, EffectiveByte, VolumesApart;
    var w', p := Stored(w, i, x), 512 * w.csec + i;
    var fat, fat' := Effective(w, w.active), Effective(w', w.active);
    CachedBytes(w, i);
    forall o | 0 <= o < |fat| ensures fat'[o] == fat[p := x][o] {
      StoredByteAt(w, i, x, o);
    }
    assert fat' == fat[p := x];
    forall d: nat | w.IsDrive(d) && d != w.active ensures Effective(w', d) == Effective(w, d) {
      StoredElsewhere(w, i, x, d);
    }
    assert Fats(w') == Poke(Fats(w), w.active, p, x);
    StoreKeepsDisk(w, i, x);
  }

  lemma StoredByteAt(w: World, i: nat, x: byte, o: nat)
    requires w.Valid() && w.IsDrive(w.active) && o < 512 * w.table[w.active].spf
    requires w.csec != NO_SECTOR && w.owner == w.active && i < 512
    ensures EffectiveByte(Stored(w, i, x), w.active, o)
            == if o == 512 * w.csec + i then x else EffectiveByte(w, w.active, o)
  {
    if o / 512 == w.csec {
      assert o == 512 * w.csec + o % 512;
      CachedBytes(w, o % 512);
    }
  }

  lemma StoredElsewhere(w: World, i: nat, x: byte, d: nat)
    requires w.Wf() && w.IsDrive(d) && d != w.owner && i < 512
    ensures Effective(Stored(w, i, x), d) == Effective(w, d)
  {
    assert forall o: nat :: EffectiveByte(Stored(w, i, x), d, o) == EffectiveByte(w, d, o);
  }

  lemma StoreKeepsDisk(w: World, i: nat, x: byte)
    requires i < 512
    ensures Framed(w, Stored(w, i, x)) && MirrorsKept(w, Stored(w, i, x))
  {
    forall d: nat | w.IsDrive(d) && Mirrored(w, d) ensures Mirrored(Stored(w, i, x), d) {
    }
  }

  // ----- switching drives -----

  /** The world after a switch to t whose flush got k copies written: the result
      of the flush is not looked at and the sector is called clean. */
  function Switched(w: World, k: nat, t: nat): World
    requires w.dirty ==> w.active < |w.table|
  {
    (if w.dirty then Flushed(w, k) else w).(dirty := false, active := t)
  }

  /** A switch keeps every drive's FAT when its flush succeeds. */
  lemma SwitchKeepsFats(w: World, k: nat, t: nat)
    requires w.Valid() && w.IsDrive(t)
    requires w.dirty ==> k == w.table[w.active].numFats
    ensures Switched(w, k, t).Valid()
    ensures Fats(Switched(w, k, t)) == Fats(w) && Framed(w, Switched(w, k, t)) && MirrorsKept(w, Switched(w, k, t))
  {
    if w.dirty {
      SaveKeeps(w);
      CleanCacheIrrelevant(Saved(w), Switched(w, k, t));
    } else {
      CleanCacheIrrelevant(w, Switched(w, k, t));
    }
  }

  /** It keeps them with a failing flush exactly when nothing was pending or the
      first copy was reached. */
  lemma SwitchAfterFailedFlush(w: World, k: nat, t: nat)
    requires w.Valid() && w.dirty && w.IsDrive(t)
    requires k < w.table[w.active].numFats
    ensures w.table[w.active].Copy(0, w.csec) in w.disk
    ensures Fats(Switched(w, k, t)) == Fats(w) <==> k > 0 || w.data == w.disk[w.table[w.active].Copy(0, w.csec)]
  {
    var b, f, w' := w.table[w.active], Flushed(w, k), Switched(w, k, t);
    CopyInFat(b, 0, w.csec);
    FlushKeepsFats(w, k);
    if k > 0 || w.data == w.disk[b.Copy(0, w.csec)] {
      WriteCopiesAt(w.disk, b, w.csec, w.data, k, b.Copy(0, w.csec));
      forall d: nat | w.IsDrive(d) ensures Effective(w', d) == Effective(f, d) {
        assert forall o: nat :: EffectiveByte(w', d, o) == EffectiveByte(f, d, o);
      }
      FatsByDrive(f, w');
    } else {
      var i :| 0 <= i < 512 && w.data[i] != w.disk[b.Copy(0, w.csec)][i];
      CachedBytes(w, i);
      var o := 512 * w.csec + i;
      assert o / 512 == w.csec && o % 512 == i;
      assert Fats(w')[w.active][o] == DiskByte(w, w.active, o);
    }
  }

  /** So a switch is safe against any write error exactly when the cache is
      clean, or modified to what the disk already holds: a caller that flushes
      first, and sees the flush succeed, loses nothing. */
  lemma SwitchSafeIffNothingPending(w: World, t: nat)
    requires w.Valid() && w.IsDrive(w.active) && w.IsDrive(t)
    ensures w.dirty ==> w.table[w.active].Copy(0, w.csec) in w.disk
    ensures (forall k: nat :: k <= w.table[w.active].numFats ==> Fats(Switched(w, k, t)) == Fats(w))
            <==> (!w.dirty || w.data == w.disk[w.table[w.active].Copy(0, w.csec)])
  {
    if w.dirty {
      SwitchAfterFailedFlush(w, 0, t);
      forall k: nat | k <= w.table[w.active].numFats
        ensures w.data == w.disk[w.table[w.active].Copy(0, w.csec)] ==> Fats(Switched(w, k, t)) == Fats(w)
      {
        if k == w.table[w.active].numFats {
          SwitchKeepsFats(w, k, t);
        } else {
          SwitchAfterFailedFlush(w, k, t);
        }
      }
    } else {
      forall k: nat ensures Fats(Switched(w, k, t)) == Fats(w) {
        CleanCacheIrrelevant(w, Switched(w, k, t));
      }
    }
  }
}
