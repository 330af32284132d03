/** Where a directory's sectors are: the fixed root region or a cluster chain, and
    the order in which the reader comes to them. */
module DirSectors {
  import opened Bytes
  import opened BootGeometry
  import FatEntry
  import opened LongNames

  const PER_SECTOR := 16

  /** The volume a directory is read from: geometry, FAT entries and sectors; an
      entry or sector may be unreadable. */
  datatype Volume = Volume(rootLba: Lba, rootEnts: Word16, dataLba: Lba, spc: byte, shift: nat,
                           next: Word16 -> Option<Word16>, disk: Lba -> Option<Sector>)

  /** What the iterator becomes when it goes on to its next sector, and the sector
      it wants then, if there is one. */
  datatype Move = Move(clust: Word16, sect: byte, lba: Option<Lba>)

  function SectorOf(v: Volume, c: Word16, s: byte): Lba {
    AddLba(ClusterLba(v.dataLba, v.shift, c), s)
  }

  function Moved(v: Volume, clust: Word16, sect: byte): Move {
    var s: byte := (sect + 1) % 256;
    if clust == 0 then
      var n := v.rootEnts / 16;
      Move(0, s, if n < 256 && s >= n then None else Some(AddLba(v.rootLba, s)))
    else if s < v.spc then Move(clust, s, Some(SectorOf(v, clust, s)))
    else
      match v.next(clust)
      case None => Move(clust, s, None)
      case Some(c) => if c >= FatEntry.END_OF_CHAIN then Move(clust, s, None) else Move(c, 0, Some(SectorOf(v, c, 0)))
  }

  /** The iterator's scan position: cluster, sector in it, next slot, slots left in
      the loaded sector, and where that sector is. */
  datatype Scan = Scan(clust: Word16, sect: byte, index: nat, left: nat, lba: Lba) {
    predicate Valid() {
      left <= PER_SECTOR && (left > 0 ==> index + left == PER_SECTOR)
    }
  }

  function SlotAt(data: Sector, i: nat): Slot
    requires i < PER_SECTOR
  {
    data[32 * i..32 * i + 32]
  }

  /** The last n slots of a sector. */
  function LastSlots(data: Sector, n: nat): seq<Slot>
    requires n <= PER_SECTOR
    decreases n
  {
    if n == 0 then [] else [SlotAt(data, PER_SECTOR - n)] + LastSlots(data, n - 1)
  }

  function SlotsOf(v: Volume, lbas: seq<Lba>): seq<Slot>
    requires Readable(v, lbas)
  {
    if lbas == [] then [] else LastSlots(v.disk(lbas[0]).value, PER_SECTOR) + SlotsOf(v, lbas[1..])
  }

  lemma {:induction false} LastSlotsAre(data: Sector, n: nat, i: nat)
    requires i < n <= PER_SECTOR
    ensures |LastSlots(data, n)| == n && LastSlots(data, n)[i] == SlotAt(data, PER_SECTOR - n + i)
  {
    if i > 0 {
      LastSlotsAre(data, n - 1, i - 1);
    } else if n > 1 {
      LastSlotsAre(data, n - 1, 0);
    }
  }

  lemma {:induction false} SlotsCount(v: Volume, lbas: seq<Lba>)
    requires Readable(v, lbas)
    ensures |SlotsOf(v, lbas)| == 16 * |lbas|
    decreases |lbas|
  {
    hide LastSlots;
    if lbas != [] {
      SectorCount(v.disk(lbas[0]).value);
      SlotsCount(v, lbas[1..]);
    }
  }

  lemma SectorCount(data: Sector)
    ensures |LastSlots(data, PER_SECTOR)| == 16
  {
    LastSlotsAre(data, PER_SECTOR, 0);
  }

  /** The slots of sectors, sixteen to each: slot i of the k-th is its bytes from 32 * i on. */
  lemma {:induction false} SlotsAre(v: Volume, lbas: seq<Lba>, k: nat, i: nat)
    requires Readable(v, lbas) && k < |lbas| && i < 16
    ensures |SlotsOf(v, lbas)| == 16 * |lbas|
    ensures SlotsOf(v, lbas)[16 * k + i] == v.disk(lbas[k]).value[32 * i..32 * i + 32]
    decreases |lbas|
  {
    hide LastSlots;
    SlotsCount(v, lbas);
    var data := v.disk(lbas[0]).value;
    SectorCount(data);
    if k > 0 {
      SlotsAre(v, lbas[1..], k - 1, i);
      assert lbas[1..][k - 1] == lbas[k];
    } else {
      LastSlotsAre(data, PER_SECTOR, i);
    }
  }

  predicate Readable(v: Volume, lbas: seq<Lba>) {
    forall i :: 0 <= i < |lbas| ==> v.disk(lbas[i]).Some?
  }

  /** A step that finds no sector: there is none, or it cannot be read. */
  predicate Stops(v: Volume, m: Move) {
    m.lba.None? || v.disk(m.lba.value).None?
  }

  /** The sectors still to come are these, up to the end or to one that cannot be read. */
  ghost predicate Delivers(v: Volume, clust: Word16, sect: byte, ahead: seq<Lba>)
    decreases |ahead|
  {
    var m := Moved(v, clust, sect);
    if ahead == [] then Stops(v, m)
    else m.lba == Some(ahead[0]) && v.disk(ahead[0]).Some? && Delivers(v, m.clust, m.sect, ahead[1..])
  }

  lemma {:induction false} DeliversReadable(v: Volume, clust: Word16, sect: byte, ahead: seq<Lba>)
    requires Delivers(v, clust, sect, ahead)
    ensures Readable(v, ahead)
    decreases |ahead|
  {
    if ahead != [] {
      var m := Moved(v, clust, sect);
      DeliversReadable(v, m.clust, m.sect, ahead[1..]);
      forall i | 0 <= i < |ahead| ensures v.disk(ahead[i]).Some? {
        assert i > 0 ==> ahead[i] == ahead[1..][i - 1];
      }
    }
  }

  /** The slots an iterator at this position will still come to. */
  ghost predicate Coming(v: Volume, sc: Scan, slots: seq<Slot>) {
    && sc.Valid()
    && (sc.left > 0 ==> v.disk(sc.lba).Some?)
    && exists ahead: seq<Lba> ::
         && Delivers(v, sc.clust, sc.sect, ahead)
         && Readable(v, ahead)
         && slots == Unread(v, sc.lba, sc.left) + SlotsOf(v, ahead)
  }

  /** The slots left of the sector that is loaded. */
  function Unread(v: Volume, lba: Lba, left: nat): seq<Slot>
    requires left <= PER_SECTOR
  {
    match v.disk(lba)
    case Some(data) => LastSlots(data, left)
    case None => []
  }

  // ----- an open directory delivers all its sectors -----

  function RootSectors(v: Volume): seq<Lba> {
    RootFrom(v, 0)
  }

  function RootFrom(v: Volume, s: nat): seq<Lba>
    decreases v.rootEnts / 16 - s
  {
    if s >= v.rootEnts / 16 then [] else [AddLba(v.rootLba, s)] + RootFrom(v, s + 1)
  }

  /** The chain from its first cluster to the one marked as its end. */
  predicate IsChain(v: Volume, cs: seq<Word16>)
    decreases |cs|
  {
    && cs != [] && cs[0] != 0 && v.next(cs[0]).Some?
    && var c := v.next(cs[0]).value;
       if |cs| == 1 then c >= FatEntry.END_OF_CHAIN else c == cs[1] && c < FatEntry.END_OF_CHAIN && IsChain(v, cs[1..])
  }

  /** The sectors from sector s of the first cluster on. */
  function ChainFrom(v: Volume, cs: seq<Word16>, s: nat): seq<Lba>
    requires s <= v.spc
    decreases |cs|, v.spc - s
  {
    if cs == [] then []
    else if s == v.spc then ChainFrom(v, cs[1..], 0)
    else [SectorOf(v, cs[0], s)] + ChainFrom(v, cs, s + 1)
  }

  /** The sectors in front of the first that cannot be read. */
  function ReadablePart(v: Volume, lbas: seq<Lba>): (r: seq<Lba>)
    ensures Readable(v, r) && r <= lbas && (|r| < |lbas| ==> v.disk(lbas[|r|]).None?)
  {
    if lbas == [] || v.disk(lbas[0]).None? then []
    else
      var rest := ReadablePart(v, lbas[1..]);
      assert forall i :: 0 < i < |[lbas[0]] + rest| ==> ([lbas[0]] + rest)[i] == rest[i - 1];
      [lbas[0]] + rest
  }

  lemma ReadableMore(v: Volume, lba: Lba, rest: seq<Lba>)
    ensures ReadablePart(v, [lba] + rest) == if v.disk(lba).None? then [] else [lba] + ReadablePart(v, rest)
  {
    assert ([lba] + rest)[1..] == rest;
  }

  lemma DeliversCons(v: Volume, clust: Word16, sect: byte, rest: seq<Lba>)
    requires var m := Moved(v, clust, sect);
             m.lba.Some? && (v.disk(m.lba.value).Some? ==> Delivers(v, m.clust, m.sect, ReadablePart(v, rest)))
    ensures Delivers(v, clust, sect, ReadablePart(v, [Moved(v, clust, sect).lba.value] + rest))
  {
    hide Moved, ReadablePart;
    var m := Moved(v, clust, sect);
    ReadableMore(v, m.lba.value, rest);
    if v.disk(m.lba.value).Some? {
      assert ([m.lba.value] + ReadablePart(v, rest))[1..] == ReadablePart(v, rest);
    }
  }

  lemma NothingDelivered(v: Volume, clust: Word16, sect: byte)
    requires Moved(v, clust, sect).lba.None?
    ensures Delivers(v, clust, sect, ReadablePart(v, []))
  {
  }

  /** Some root sector from s on that the 8-bit counter comes to cannot be read. */
  predicate RootBroken(v: Volume, s: nat) {
    exists k :: s <= k < 256 && k < v.rootEnts / 16 && v.disk(AddLba(v.rootLba, k)).None?
  }

  /** The root's sectors are delivered in order up to its end or the first that cannot
      be read, whichever comes before the counter wraps. */
  lemma {:induction false} RootDelivers(v: Volume, s: nat, sect: byte)
    requires v.rootEnts / 16 <= 255 || RootBroken(v, s)
    requires s <= v.rootEnts / 16 && s == (sect + 1) % 256
    ensures Delivers(v, 0, sect, ReadablePart(v, RootFrom(v, s)))
    decreases v.rootEnts / 16 - s
  {
    hide AddLba, Delivers, ReadablePart;
    if s < v.rootEnts / 16 {
      if v.disk(AddLba(v.rootLba, s)).Some? {
        RootDelivers(v, s + 1, s);
      }
      DeliversCons(v, 0, sect, RootFrom(v, s + 1));
    } else {
      NothingDelivered(v, 0, sect);
    }
  }

  /** A root directory of 256 sectors or more, the first 256 readable, is never through:
      the counter has eight bits and the sector count is not looked at. */
  lemma {:induction false} BigRootNeverEnds(v: Volume, sect: byte, ahead: seq<Lba>)
    requires v.rootEnts / 16 >= 256 && !RootBroken(v, 0)
    ensures !Delivers(v, 0, sect, ahead)
    decreases |ahead|
  {
    hide AddLba;
    var m := Moved(v, 0, sect);
    assert m.lba == Some(AddLba(v.rootLba, m.sect));
    if ahead != [] {
      BigRootNeverEnds(v, m.sect, ahead[1..]);
    }
  }

  /** Reading the root from its start comes to a stop exactly when it has at most 255
      sectors or one of its first 256 cannot be read. */
  lemma RootEndsIff(v: Volume)
    ensures (exists ahead :: Delivers(v, 0, 255, ahead)) <==> v.rootEnts / 16 <= 255 || RootBroken(v, 0)
  {
    hide Delivers, RootBroken;
    if v.rootEnts / 16 <= 255 || RootBroken(v, 0) {
      RootDelivers(v, 0, 255);
    } else {
      forall ahead ensures !Delivers(v, 0, 255, ahead) {
        BigRootNeverEnds(v, 255, ahead);
      }
    }
  }

  /** What is delivered from a position is determined by it. */
  lemma {:induction false} DeliversOnce(v: Volume, clust: Word16, sect: byte, a: seq<Lba>, b: seq<Lba>)
    requires Delivers(v, clust, sect, a) && Delivers(v, clust, sect, b)
    ensures a == b
    decreases |a|
  {
    var m := Moved(v, clust, sect);
    if a != [] && b != [] {
      DeliversOnce(v, m.clust, m.sect, a[1..], b[1..]);
      assert a == [a[0]] + a[1..] && b == [b[0]] + b[1..];
    }
  }

  /** A chain's sectors are delivered in order up to its end or the first that cannot
      be read. */
  lemma {:induction false} ChainDelivers(v: Volume, cs: seq<Word16>, s: nat, sect: byte)
    requires v.spc > 0 && IsChain(v, cs)
    requires s <= v.spc && s == (sect + 1) % 256
    ensures Delivers(v, cs[0], sect, ReadablePart(v, ChainFrom(v, cs, s)))
    decreases |cs|, v.spc - s
  {
    hide AddLba, ClusterLba, SectorOf, Delivers, ReadablePart;
    if s < v.spc {
      ChainDelivers(v, cs, s + 1, s);
      DeliversCons(v, cs[0], sect, ChainFrom(v, cs, s + 1));
    } else if |cs| > 1 {
      var d := cs[1..];
      assert Moved(v, cs[0], sect) == Move(d[0], 0, Some(SectorOf(v, d[0], 0)));
      ChainDelivers(v, d, 1, 0);
      DeliversCons(v, cs[0], sect, ChainFrom(v, d, 1));
      assert ChainFrom(v, cs, s) == [SectorOf(v, d[0], 0)] + ChainFrom(v, d, 1);
    } else {
      assert cs[1..] == [];
      NothingDelivered(v, cs[0], sect);
    }
  }

  /** The slots of a directory, up to its end or its first sector that cannot be read. */
  ghost predicate IsDirectory(v: Volume, start: Word16, slots: seq<Slot>) {
    if start == 0 then
      (v.rootEnts / 16 <= 255 || RootBroken(v, 0)) && slots == SlotsOf(v, ReadablePart(v, RootSectors(v)))
    else exists cs :: cs != [] && cs[0] == start && v.spc > 0 && IsChain(v, cs)
                      && slots == SlotsOf(v, ReadablePart(v, ChainFrom(v, cs, 0)))
  }

  /** Opened, the iterator stands before all slots of the directory. */
  lemma OpenedAtStart(v: Volume, start: Word16, slots: seq<Slot>, sc: Scan)
    requires IsDirectory(v, start, slots)
    requires sc.clust == start && sc.sect == 255 && sc.left == 0
    ensures Coming(v, sc, slots)
  {
    hide SlotsOf, Delivers, ReadablePart, RootBroken;
    assert Unread(v, sc.lba, sc.left) == [];
    if start == 0 {
      RootDelivers(v, 0, 255);
      assert slots == Unread(v, sc.lba, sc.left) + SlotsOf(v, ReadablePart(v, RootSectors(v)));
    } else {
      var cs :| cs != [] && cs[0] == start && v.spc > 0 && IsChain(v, cs)
                && slots == SlotsOf(v, ReadablePart(v, ChainFrom(v, cs, 0)));
      ChainDelivers(v, cs, 0, 255);
      assert slots == Unread(v, sc.lba, sc.left) + SlotsOf(v, ReadablePart(v, ChainFrom(v, cs, 0)));
    }
  }
}
