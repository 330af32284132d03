/** The kernel's directory iterator. Reading it over and over gives the entries of
    the directory one by one, also across a saved and restored position. */
module DirReader {
  import opened Bytes
  import opened BootGeometry
  import FatEntry
  import opened LongNames
  import opened ShortNames
  import opened DirList
  import opened DirSectors

  const RESULT := 139
  const ATTR := 128
  const CLUSTER := 129
  const SIZE := 131
  const TIME := 135
  const DATE := 137

  function Le16(s: seq<byte>, at: nat): nat
    requires at + 2 <= |s|
  {
    FatEntry.Word(s[at], s[at + 1])
  }

  function Be16(s: seq<byte>, at: nat): nat
    requires at + 2 <= |s|
  {
    FatEntry.Word(s[at + 1], s[at])
  }

  /** The caller's result buffer describes an entry: its name, NUL-terminated and
      short of the fields, and the slot's numbers, highest byte first. */
  predicate Describes(res: seq<byte>, item: Item) {
    var e, n := item.slot, |item.name|;
    && |res| == RESULT
    && n < ATTR && res[..n] == item.name && res[n] == 0
    && res[ATTR] == e[11]
    && Be16(res, CLUSTER) == Le16(e, 26)
    && Be16(res, SIZE) == Le16(e, 30) && Be16(res, SIZE + 2) == Le16(e, 28)
    && Be16(res, TIME) == Le16(e, 22)
    && Be16(res, DATE) == Le16(e, 24)
  }

  /** The entries that reading on from this position will give. */
  ghost predicate Yields(v: Volume, sc: Scan, items: seq<Item>) {
    exists slots: seq<Slot> :: Coming(v, sc, slots) && Entries(slots) == items
  }

  /** Past the last sector: the next step finds none, until the 8-bit counter comes round. */
  ghost predicate AtEnd(v: Volume, sc: Scan) {
    sc.left == 0 && (sc.sect < 255 ==> Moved(v, sc.clust, sc.sect).lba.None?)
  }

  /** The step just made was to a sector that cannot be read. */
  ghost predicate Behind(v: Volume, sc: Scan) {
    sc.left == 0 && exists c, s :: Moved(v, c, s).clust == sc.clust && Moved(v, c, s).sect == sc.sect
                                   && Moved(v, c, s).lba.Some? && Stops(v, Moved(v, c, s))
  }

  /** What a read comes to: the next entry, none, or a run out of the caller's buffer. */
  datatype Reading = Next | NoMore | Astray

  method CopyString(src: array<byte>, dst: array<byte>)
    requires src != dst && src.Length == BUFFER && dst.Length == RESULT
    requires forall i :: LONGEST <= i < BUFFER ==> src[i] == 0
    modifies dst
    ensures |CString(src[..])| <= LONGEST
    ensures dst[..|CString(src[..])|] == CString(src[..]) && dst[|CString(src[..])|] == 0
    ensures forall i :: ATTR <= i < RESULT ==> dst[i] == old(dst[i])
  {
    var i := 0;
    while src[i] != 0
      invariant 0 <= i <= LONGEST
      invariant dst[..i] == src[..i] && forall j :: 0 <= j < i ==> src[j] != 0
      invariant forall j :: ATTR <= j < RESULT ==> dst[j] == old(dst[j])
      decreases LONGEST - i
    {
      dst[i] := src[i];
      i := i + 1;
    }
    dst[i] := 0;
    CStringIs(src[..], src[..i]);
  }

  /** The numbers of a short entry, turned round to highest byte first. */
  method PutFields(e: Slot, res: array<byte>)
    requires res.Length == RESULT
    modifies res
    ensures res[..ATTR] == old(res[..ATTR])
    ensures res[ATTR] == e[11]
    ensures res[CLUSTER] == e[27] && res[CLUSTER + 1] == e[26]
    ensures res[SIZE] == e[31] && res[SIZE + 1] == e[30] && res[SIZE + 2] == e[29] && res[SIZE + 3] == e[28]
    ensures res[TIME] == e[23] && res[TIME + 1] == e[22]
    ensures res[DATE] == e[25] && res[DATE + 1] == e[24]
  {
    res[ATTR] := e[11];
    res[CLUSTER], res[CLUSTER + 1] := e[27], e[26];
    res[SIZE], res[SIZE + 1], res[SIZE + 2], res[SIZE + 3] := e[31], e[30], e[29], e[28];
    res[TIME], res[TIME + 1] := e[23], e[22];
    res[DATE], res[DATE + 1] := e[25], e[24];
  }

  class Directory {
    const v: Volume
    const long: Assembler
    var clust: Word16
    var sect: byte
    var index: nat
    var left: nat
    var buf: Sector
    var curLba: Lba
    var lastOff: nat

    constructor (volume: Volume)
      ensures Valid() && fresh(long) && fresh(long.lfn) && v == volume
    {
      v := volume;
      var assembler := new Assembler();
      long := assembler;
      clust, sect, index, left := 0, 0, 0, 0;
      curLba, lastOff := 0, 0;
      buf := seq(512, i => 0);
    }

    function Now(): Scan
      reads this
    {
      Scan(clust, sect, index, left, curLba)
    }

    ghost predicate Valid()
      reads this, long, long.lfn
    {
      && long.lfn.Length == BUFFER
      && long.Value().Valid()
      && Now().Valid()
      && (left > 0 ==> v.disk(curLba) == Some(buf))
    }

    /** dir_open: before the first sector of the directory that starts at cluster
        start, or of the root. */
    method Open(start: Word16, ghost slots: seq<Slot>)
      requires Valid()
      modifies this, long
      ensures Valid() && !long.ok && Now() == Scan(start, 255, old(index), 0, old(curLba))
      ensures IsDirectory(v, start, slots) ==> Yields(v, Now(), Entries(slots))
    {
      clust := start;
      sect := 0xFF;
      left := 0;
      long.ok := false;
      if IsDirectory(v, start, slots) {
        OpenedAtStart(v, start, slots, Now());
      }
    }

    /** dir_save_state. */
    method SaveState() returns (s: Scan)
      ensures s == Now()
    {
      s := Scan(clust, sect, index, left, curLba);
    }

    /** dir_restore_state: whatever was read in between, reading goes on with the
        entries that lay ahead when the position was saved. */
    method RestoreState(s: Scan, ghost items: seq<Item>) returns (ok: bool)
      requires Valid() && s.Valid() && Yields(v, s, items)
      modifies this, long
      ensures ok <==> v.disk(s.lba).Some?
      ensures ok ==> Valid() && Now() == s && !long.ok && Yields(v, Now(), items)
    {
      clust, sect, index, left := s.clust, s.sect, s.index, s.left;
      curLba := s.lba;
      long.ok := false;
      match v.disk(curLba)
      case None => ok := false;
      case Some(data) =>
        buf := data;
        ok := true;
    }

    /** _dir_next_sector. */
    method NextSector() returns (ok: bool)
      modifies this`clust, this`sect, this`curLba, this`buf
      ensures clust == Moved(v, old(clust), old(sect)).clust && sect == Moved(v, old(clust), old(sect)).sect
      ensures var lba := Moved(v, old(clust), old(sect)).lba;
              && (ok <==> lba.Some? && v.disk(lba.value).Some?)
              && (ok ==> curLba == lba.value && v.disk(curLba) == Some(buf))
    {
      hide AddLba, ClusterLba;
      sect := (sect + 1) % 256;
      var lba: Lba;
      if clust == 0 {
        var count := v.rootEnts / 16;
        if count / 256 == 0 && sect >= count {
          return false;
        }
        lba := AddLba(v.rootLba, sect);
      } else {
        if sect >= v.spc {
          var entry := v.next(clust);
          if entry.None? || entry.value >= FatEntry.END_OF_CHAIN {
            return false;
          }
          sect, clust := 0, entry.value;
        }
        lba := ClusterToLba(v.dataLba, v.shift, clust);
        lba := AddLba(lba, sect);
      }
      curLba := lba;
      match v.disk(lba)
      case None => ok := false;
      case Some(data) =>
        buf := data;
        ok := true;
    }

    /** Builds the caller's result for the short entry e, with this byte in front of the
        caller's buffer. */
    method Describe(e: Slot, res: array<byte>, front: byte) returns (ok: bool)
      requires long.lfn.Length == BUFFER && long.Value().Valid()
      requires res.Length == RESULT && res != long.lfn
      modifies res
      ensures ok <==> !Shows(long.Value(), e).Blank() || front != SPACE
      ensures ok ==> Describes(res[..], Shows(long.Value(), e))
    {
      hide CString, ShortName, Checksum, AllSpaces;
      var sum := ComputeChecksum(e);
      ghost var name := Shows(long.Value(), e).name;
      ok := true;
      if long.ok && long.chk == sum {
        CopyString(long.lfn, res);
      } else {
        ok := Format(e, res, front);
      }
      if !ok {
        return;
      }
      assert |name| < ATTR && res[..|name|] == name && res[|name|] == 0;
      PutFields(e, res);
      assert res[..][..|name|] == name;
    }

    /** At slot ra of the loaded sector, with these slots to come. */
    ghost predicate Before(ra: nat, slots: seq<Slot>, ahead: seq<Lba>)
      reads this
    {
      && left <= PER_SECTOR
      && (left > 0 ==> ra + left == PER_SECTOR && v.disk(curLba) == Some(buf))
      && Delivers(v, clust, sect, ahead) && Readable(v, ahead)
      && slots == Unread(v, curLba, left) + SlotsOf(v, ahead)
    }

    /** Goes on to the next sector when none of the loaded one is left. */
    method Refill(ra: nat, ghost slots: seq<Slot>, ghost ahead: seq<Lba>) returns (ok: bool)
      requires Before(ra, slots, ahead) && left == 0
      modifies this
      ensures ok ==> ahead != [] && left > 0 && Before(0, slots, ahead[1..])
      ensures !ok ==> slots == [] && left == 0 && (AtEnd(v, Now()) || Behind(v, Now()))
      ensures index == old(index)
    {
      hide Delivers, SlotsOf, Moved;
      NextDelivered(v, Now(), ahead);
      EndStays(v, clust, sect);
      ghost var c, s := clust, sect;
      ok := NextSector();
      assert !ok && Moved(v, c, s).lba.Some? ==> Moved(v, c, s) == Move(clust, sect, Moved(v, c, s).lba);
      if ok {
        left := PER_SECTOR;
      }
    }

    /** Past slot ra. */
    method Advance(ra: nat, ghost slots: seq<Slot>, ghost ahead: seq<Lba>)
      requires Before(ra, slots, ahead) && left > 0
      modifies this`left
      ensures slots != [] && Before(ra + 1, slots[1..], ahead)
      ensures left == old(left) - 1
    {
      hide Delivers, SlotsOf;
      FirstSlot(v, Now(), buf, slots, ahead);
      left := left - 1;
    }

    /** The short entry e at slot ra goes to the caller. */
    method Deliver(ra: nat, e: Slot, res: array<byte>, front: byte, ghost slots: seq<Slot>, ghost ahead: seq<Lba>) returns (ok: bool)
      requires long.lfn.Length == BUFFER && long.Value().Valid()
      requires res.Length == RESULT && res != long.lfn
      requires Before(ra, slots, ahead) && left > 0 && e == SlotAt(buf, ra) && slots != [] && e == slots[0]
      modifies this, long, res
      ensures ok <==> !Shows(old(long.Value()), e).Blank() || front != SPACE
      ensures ok ==> Valid() && !long.ok && index > 0
      ensures ok ==> Describes(res[..], Shows(old(long.Value()), e))
      ensures ok ==> Yields(v, Now(), Entries(slots[1..]))
      ensures ok ==> v.disk(curLba).Some? && lastOff <= 480 && v.disk(curLba).value[lastOff..lastOff + 32] == e
    {
      hide Delivers, SlotsOf, Entries, Describes, Processed, Checksum, AllSpaces, Shows, Yields, Moved, Unread;
      ok := Describe(e, res, front);
      if !ok {
        return;
      }
      long.ok := false;
      lastOff := 32 * ra;
      Advance(ra, slots, ahead);
      index := ra + 1;
      StandsBefore(v, Now(), slots[1..], ahead);
    }

    /** dir_read: the next entry, or none when the directory is through or comes to a
        sector that cannot be read; where the entry lies on disk is remembered. At its end
        the directory stays there; such a sector is passed over. An entry without any name
        leads it astray when the byte in front of the caller's buffer is a space. */
    method Read(res: array<byte>, front: byte, ghost items: seq<Item>) returns (r: Reading)
      requires Valid() && res.Length == RESULT && res != long.lfn
      requires Yields(v, Now(), items)
      requires long.ok ==> items == []
      modifies this, long, long.lfn, res
      ensures r.NoMore? <==> items == []
      ensures r.Astray? <==> items != [] && items[0].Blank() && front == SPACE
      ensures !r.Astray? ==> Valid()
      ensures r.Next? ==> Describes(res[..], items[0]) && Yields(v, Now(), items[1..]) && !long.ok
      ensures r.Next? ==> v.disk(curLba).Some? && lastOff <= 480
                          && v.disk(curLba).value[lastOff..lastOff + 32] == items[0].slot
      ensures r.NoMore? ==> Yields(v, Now(), []) || (AtEnd(v, Now()) && sect == 255) || Behind(v, Now())
    {
      hide Delivers, SlotsOf, Entries, Describes, Processed, Checksum, AllSpaces, Shows, Yields, Find, Moved, Unread, AtEnd, Behind,
           Item.Blank;
      ghost var slots, ahead := Start(v, Now(), items);
      FirstEntry(slots, long.Value());
      ghost var target := Find(slots, long.Value());
      var ra := index;
      while true
        invariant long.lfn.Length == BUFFER && long.Value().Valid()
        invariant Before(ra, slots, ahead)
        invariant Find(slots, long.Value()) == target
        decreases |ahead|, left
      {
        if left == 0 {
          var ok := Refill(ra, slots, ahead);
          if !ok {
            IndexUnused(v, Now(), ra);
            index := ra;
            FindStep(slots, long.Value());
            if AtEnd(v, Now()) {
              StandsAtEnd(v, Now());
            }
            return NoMore;
          }
          ahead := ahead[1..];
          ra := 0;
        }
        var e := SlotAt(buf, ra);
        FirstSlot(v, Now(), buf, slots, ahead);
        FindStep(slots, long.Value());
        if e[0] == 0 {
          index := ra;
          StandsBefore(v, Now(), slots, ahead);
          MarkerEnds(slots);
          return NoMore;
        }
        if e[0] == DELETED {
          long.ok := false;
        } else if IsLong(e) {
          long.Process(e);
        } else if e[11] / VOLUME_ID % 2 == 1 {
          long.ok := false;
        } else {
          var ok := Deliver(ra, e, res, front, slots, ahead);
          return if ok then Next else Astray;
        }
        Advance(ra, slots, ahead);
        slots := slots[1..];
        ra := ra + 1;
      }
      r := NoMore;
    }
  }

  lemma Start(v: Volume, sc: Scan, items: seq<Item>) returns (slots: seq<Slot>, ahead: seq<Lba>)
    requires Yields(v, sc, items)
    ensures sc.Valid() && Entries(slots) == items
    ensures Delivers(v, sc.clust, sc.sect, ahead) && Readable(v, ahead)
    ensures slots == Unread(v, sc.lba, sc.left) + SlotsOf(v, ahead)
  {
    hide Delivers, SlotsOf, Entries;
    slots :| Coming(v, sc, slots) && Entries(slots) == items;
    ahead :| Delivers(v, sc.clust, sc.sect, ahead) && Readable(v, ahead)
             && slots == Unread(v, sc.lba, sc.left) + SlotsOf(v, ahead);
  }

  /** What reading on will give is determined by the position. */
  lemma YieldsOnce(v: Volume, sc: Scan, a: seq<Item>, b: seq<Item>)
    requires Yields(v, sc, a) && Yields(v, sc, b)
    ensures a == b
  {
    hide Delivers, SlotsOf, Entries;
    var s, p := Start(v, sc, a);
    var t, q := Start(v, sc, b);
    DeliversOnce(v, sc.clust, sc.sect, p, q);
  }

  lemma FirstSlot(v: Volume, sc: Scan, data: Sector, slots: seq<Slot>, ahead: seq<Lba>)
    requires 0 < sc.left <= PER_SECTOR && v.disk(sc.lba) == Some(data) && Readable(v, ahead)
    requires slots == Unread(v, sc.lba, sc.left) + SlotsOf(v, ahead)
    ensures slots != [] && slots[0] == SlotAt(data, PER_SECTOR - sc.left)
    ensures slots[1..] == Unread(v, sc.lba, sc.left - 1) + SlotsOf(v, ahead)
  {
    hide SlotsOf, SlotAt;
  }

  /** One step of the search. */
  lemma FindStep(slots: seq<Slot>, st: Lfn)
    requires |st.buf| == BUFFER
    ensures slots == [] ==> Find(slots, st) == Nothing(slots)
    ensures slots != [] ==>
              var e := slots[0];
              Find(slots, st) ==
                if e[0] == 0 then Nothing(slots)
                else if e[0] == DELETED then Find(slots[1..], st.(ok := false))
                else if IsLong(e) then Find(slots[1..], Processed(st, e))
                else if e[11] / VOLUME_ID % 2 == 1 then Find(slots[1..], st.(ok := false))
                else Found(Shows(st, e), slots[1..])
  {
    hide Processed, Shows;
  }

  /** What the search finds is the first entry of the list. */
  lemma FirstEntry(slots: seq<Slot>, st: Lfn)
    requires |st.buf| == BUFFER
    requires st.ok ==> Entries(slots) == []
    ensures match Find(slots, st) {
              case Nothing(_) => Entries(slots) == []
              case Found(item, rest) => Entries(slots) == [item] + Entries(rest)
            }
  {
    hide Find;
    SearchesAgree(slots, st, Idle());
  }

  lemma MarkerEnds(slots: seq<Slot>)
    requires slots != [] && slots[0][0] == 0
    ensures Entries(slots) == []
  {
  }

  /** What the next step of an iterator without loaded slots comes to. */
  lemma NextDelivered(v: Volume, sc: Scan, ahead: seq<Lba>)
    requires sc.left == 0 && Delivers(v, sc.clust, sc.sect, ahead) && Readable(v, ahead)
    ensures var m := Moved(v, sc.clust, sc.sect);
            if ahead == [] then Stops(v, m) && Unread(v, sc.lba, sc.left) + SlotsOf(v, ahead) == []
            else && m.lba == Some(ahead[0]) && v.disk(ahead[0]).Some?
                 && Delivers(v, m.clust, m.sect, ahead[1..]) && Readable(v, ahead[1..])
                 && Unread(v, sc.lba, sc.left) + SlotsOf(v, ahead) ==
                      LastSlots(v.disk(ahead[0]).value, PER_SECTOR) + SlotsOf(v, ahead[1..])
  {
    hide Moved;
    if ahead != [] {
      DeliversReadable(v, Moved(v, sc.clust, sc.sect).clust, Moved(v, sc.clust, sc.sect).sect, ahead[1..]);
    }
  }

  lemma StandsBefore(v: Volume, sc: Scan, slots: seq<Slot>, ahead: seq<Lba>)
    requires sc.Valid() && (sc.left > 0 ==> v.disk(sc.lba).Some?)
    requires Delivers(v, sc.clust, sc.sect, ahead) && Readable(v, ahead)
    requires slots == Unread(v, sc.lba, sc.left) + SlotsOf(v, ahead)
    ensures Yields(v, sc, Entries(slots))
  {
    hide Delivers, SlotsOf, Entries;
    assert Coming(v, sc, slots);
  }

  /** A reader that has run out of sectors keeps finding none, until its 8-bit
      sector counter comes round. */
  lemma EndStays(v: Volume, clust: Word16, sect: byte)
    ensures var m := Moved(v, clust, sect);
            m.lba.None? && m.sect < 255 ==> Moved(v, m.clust, m.sect).lba.None?
  {
  }

  lemma IndexUnused(v: Volume, sc: Scan, i: nat)
    ensures AtEnd(v, sc.(index := i)) == AtEnd(v, sc) && Behind(v, sc.(index := i)) == Behind(v, sc)
  {
  }

  lemma StandsAtEnd(v: Volume, sc: Scan)
    requires AtEnd(v, sc)
    ensures sc.sect < 255 ==> Yields(v, sc, [])
  {
    if sc.sect < 255 {
      StandsBefore(v, sc, [], []);
    }
  }
}
