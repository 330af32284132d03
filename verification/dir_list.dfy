/** A directory as a list: the slots of its sectors, and the entries its reader
    shows of them. */
module DirList {
  import opened Bytes
  import opened LongNames
  import opened ShortNames

  const VOLUME_ID := 0x08
  const DELETED: byte := 0xE5

  /** A shown entry: its slot, the name it goes by, and whether that is its long name. */
  datatype Item = Item(slot: Slot, name: seq<byte>, long: bool) {
    /** Nothing but spaces for a base name, and no long name either. */
    predicate Blank() {
      !long && AllSpaces(slot[..8])
    }
  }

  /** The next entry and the slots after it; or none, and the slots that stopped the
      search: an end marker, or nothing. */
  datatype Search = Found(item: Item, rest: seq<Slot>) | Nothing(rest: seq<Slot>)

  predicate IsLong(e: Slot) {
    e[11] == LFN_ATTR
  }

  predicate IsShown(e: Slot) {
    e[0] != DELETED && !IsLong(e) && e[11] / VOLUME_ID % 2 == 0
  }

  /** A short entry as it is shown when this long name was put together before it. */
  function Shows(st: Lfn, e: Slot): (item: Item)
    ensures item.slot == e
  {
    if st.ok && st.chk == Checksum(e[..11]) then Item(e, CString(st.buf), true) else Item(e, ShortName(e), false)
  }

  function Find(slots: seq<Slot>, st: Lfn): (s: Search)
    requires |st.buf| == BUFFER
    ensures s.Found? ==> |s.rest| < |slots|
    decreases |slots|
  {
    if slots == [] || slots[0][0] == 0 then Nothing(slots)
    else
      var e := slots[0];
      if e[0] == DELETED then Find(slots[1..], st.(ok := false))
      else if IsLong(e) then Find(slots[1..], Processed(st, e))
      else if e[11] / VOLUME_ID % 2 == 1 then Find(slots[1..], st.(ok := false))
      else Found(Shows(st, e), slots[1..])
  }

  function Idle(): Lfn {
    Lfn(Zeros(), 0, false)
  }

  /** All entries, each search starting without a long name under way. */
  function Entries(slots: seq<Slot>): seq<Item>
    decreases |slots|
  {
    match Find(slots, Idle())
    case Nothing(_) => []
    case Found(item, rest) => [item] + Entries(rest)
  }

  /** Whatever name is under way, the same slots are found; without one, the same
      names too. */
  lemma {:induction false} SearchesAgree(slots: seq<Slot>, a: Lfn, b: Lfn)
    requires |a.buf| == BUFFER == |b.buf|
    ensures var x, y := Find(slots, a), Find(slots, b);
            && x.Found? == y.Found? && x.rest == y.rest
            && (x.Found? ==> x.item.slot == y.item.slot)
            && (!a.ok && !b.ok ==> x == y)
    decreases |slots|
  {
    hide Checksum, CString, Fill, Zeros, Chars;
    if slots != [] && slots[0][0] != 0 && !IsShown(slots[0]) {
      var e := slots[0];
      if e[0] != DELETED && IsLong(e) {
        SearchesAgree(slots[1..], Processed(a, e), Processed(b, e));
      } else {
        SearchesAgree(slots[1..], a.(ok := false), b.(ok := false));
      }
    }
  }

  // ----- which slots are shown -----

  /** The slots in front of the end marker. */
  function BeforeEnd(slots: seq<Slot>): seq<Slot> {
    if slots == [] || slots[0][0] == 0 then [] else [slots[0]] + BeforeEnd(slots[1..])
  }

  function Shown(slots: seq<Slot>): seq<Slot> {
    if slots == [] then []
    else if IsShown(slots[0]) then [slots[0]] + Shown(slots[1..])
    else Shown(slots[1..])
  }

  function SlotsIn(items: seq<Item>): seq<Slot> {
    if items == [] then [] else [items[0].slot] + SlotsIn(items[1..])
  }

  lemma {:induction false} FindIsFirstShown(slots: seq<Slot>, st: Lfn)
    requires |st.buf| == BUFFER
    ensures var s := Find(slots, st);
            match s {
              case Nothing(_) => Shown(BeforeEnd(slots)) == []
              case Found(item, rest) => Shown(BeforeEnd(slots)) == [item.slot] + Shown(BeforeEnd(rest))
            }
    decreases |slots|
  {
    hide Checksum, CString, Fill, Zeros, Chars;
    if slots != [] && slots[0][0] != 0 {
      var e := slots[0];
      assert BeforeEnd(slots)[1..] == BeforeEnd(slots[1..]);
      if !IsShown(e) {
        FindIsFirstShown(slots[1..], if e[0] != DELETED && IsLong(e) then Processed(st, e) else st.(ok := false));
      }
    }
  }

  /** Shown are slots that are not deleted ($E5), no part of a long name (attributes $0F)
      and no volume label (attribute bit $08). */
  lemma ShownIs(e: Slot)
    ensures IsShown(e) <==> e[0] != 0xE5 && e[11] != 0x0F && e[11] / 8 % 2 == 0
  {
  }

  /** Exactly the shown slots in front of the end marker are listed, in order:
      deleted slots, volume labels and long-name slots are passed over. */
  lemma {:induction false} EntriesAreShownSlots(slots: seq<Slot>)
    ensures SlotsIn(Entries(slots)) == Shown(BeforeEnd(slots))
    decreases |slots|
  {
    hide Shown, BeforeEnd, Find;
    FindIsFirstShown(slots, Idle());
    var s := Find(slots, Idle());
    if s.Found? {
      EntriesAreShownSlots(s.rest);
      assert Entries(slots)[1..] == Entries(s.rest);
    }
  }

  // ----- under which names -----

  lemma {:induction false} LongSlotsTakenIn(name: seq<byte>, k: nat, chk: byte, rest: seq<Slot>, st: Lfn)
    requires IsName(name) && k <= SlotCount(|name|) && |st.buf| == BUFFER
    ensures |ProcessedAll(st, NameSlots(name, k, chk)).buf| == BUFFER
    ensures Find(NameSlots(name, k, chk) + rest, st) == Find(rest, ProcessedAll(st, NameSlots(name, k, chk)))
    decreases k
  {
    hide Checksum, CString, Fill, Zeros, Chars, NameSlot;
    var slots := NameSlots(name, k, chk) + rest;
    if k == 0 {
      assert slots == rest;
    } else {
      NameSlotFields(name, k, chk);
      var e := NameSlot(name, k, chk);
      assert slots[0] == e && slots[1..] == NameSlots(name, k - 1, chk) + rest;
      assert NameSlots(name, k, chk)[1..] == NameSlots(name, k - 1, chk);
      LongSlotsTakenIn(name, k - 1, chk, rest, Processed(st, e));
    }
  }

  /** A short entry behind the long-name slots made for it is listed under the long
      name, cut at 117 characters; made for another short name, they are ignored. */
  lemma LongNameListed(name: seq<byte>, e: Slot, chk: byte, rest: seq<Slot>)
    requires IsName(name) && e[0] != 0 && IsShown(e)
    ensures Entries(NameSlots(name, SlotCount(|name|), chk) + ([e] + rest)) ==
              [Item(e, if chk != Checksum(e[..11]) then ShortName(e)
                       else if |name| <= LONGEST then name else name[..LONGEST], chk == Checksum(e[..11]))] + Entries(rest)
  {
    hide Checksum, CString, NameSlots, ProcessedAll, ShortName;
    var k := SlotCount(|name|);
    LongSlotsTakenIn(name, k, chk, [e] + rest, Idle());
    NameDecoded(Idle(), name, chk);
    assert ([e] + rest)[1..] == rest;
  }

  /** An entry with nothing in front of it is listed under its short name. */
  lemma ShortNameListed(e: Slot, rest: seq<Slot>)
    requires e[0] != 0 && IsShown(e)
    ensures Entries([e] + rest) == [Item(e, ShortName(e), false)] + Entries(rest)
  {
    assert ([e] + rest)[1..] == rest;
  }

  /** A deleted slot, a volume label or a long-name slot with number 0 between a long name
      and a short entry breaks the two apart. */
  lemma BrokenLongName(name: seq<byte>, chk: byte, gap: Slot, e: Slot, rest: seq<Slot>)
    requires IsName(name) && e[0] != 0 && IsShown(e)
    requires gap[0] != 0 && !IsShown(gap) && (gap[0] == DELETED || !IsLong(gap) || gap[0] % 0x40 == 0)
    ensures Entries(NameSlots(name, SlotCount(|name|), chk) + ([gap, e] + rest)) == [Item(e, ShortName(e), false)] + Entries(rest)
  {
    hide Checksum, CString, NameSlots, ProcessedAll, ShortName;
    var k := SlotCount(|name|);
    LongSlotsTakenIn(name, k, chk, [gap, e] + rest, Idle());
    var st := ProcessedAll(Idle(), NameSlots(name, k, chk));
    assert ([gap, e] + rest)[1..] == [e] + rest;
    assert ([e] + rest)[1..] == rest;
    var broken := if gap[0] != DELETED && IsLong(gap) then Processed(st, gap) else st.(ok := false);
    assert !broken.ok && |broken.buf| == BUFFER;
    assert Find([gap, e] + rest, st) == Find([e] + rest, broken);
  }
}
