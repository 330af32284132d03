/** A chain in a FAT's bytes, 12-bit or 16-bit, is a chain to the directory reader,
    which only knows the widened entries. */
module DirOnFat {
  import opened Bytes
  import opened BootGeometry
  import FatEntry
  import FatChains
  import opened DirSectors

  /** What the kernel's look-up answers for a FAT with these bytes. */
  function EntryRead(fat: seq<byte>, is16: bool, c: Word16): Option<Word16> {
    if FatEntry.Fits(|fat|, is16, c) then
      EntryIsWord(fat, is16, c);
      Some(FatEntry.Widen(is16, FatEntry.Get(fat, is16, c)))
    else None
  }

  lemma EntryIsWord(fat: seq<byte>, is16: bool, c: Word16)
    requires FatEntry.Fits(|fat|, is16, c)
    ensures FatEntry.Get(fat, is16, c) < if is16 then 0x10000 else 0x1000
  {
    if !is16 {
      FatEntry.WordNibbles(fat[c + c / 2], fat[c + c / 2 + 1]);
    }
  }

  /** The chain ends in an end mark of its FAT type, not in a free or bad entry. */
  predicate Ended(fat: seq<byte>, is16: bool, c: Word16) {
    FatEntry.Fits(|fat|, is16, c) && FatEntry.Get(fat, is16, c) >= if is16 then 0xFFF8 else 0xFF8
  }

  ghost predicate OnFat(v: Volume, fat: seq<byte>, is16: bool) {
    forall c: Word16 :: v.next(c) == EntryRead(fat, is16, c)
  }

  /** The directory reader follows exactly the chains that the FAT spells out and
      closes with an end mark. */
  lemma {:induction false} ChainIff(v: Volume, fat: seq<byte>, is16: bool, cs: seq<Word16>)
    requires OnFat(v, fat, is16) && cs != []
    requires forall i :: 0 <= i < |cs| ==> FatChains.IsCluster(is16, cs[i])
    ensures IsChain(v, cs) <==> FatChains.IsPath(fat, is16, cs[0], cs) && Ended(fat, is16, cs[|cs| - 1])
    decreases |cs|
  {
    hide FatEntry.Get;
    assert v.next(cs[0]) == EntryRead(fat, is16, cs[0]);
    if FatEntry.Fits(|fat|, is16, cs[0]) {
      EntryIsWord(fat, is16, cs[0]);
      if |cs| > 1 {
        assert forall i :: 0 <= i < |cs[1..]| ==> cs[1..][i] == cs[i + 1];
        ChainIff(v, fat, is16, cs[1..]);
      } else {
        assert cs[1..] == [];
      }
    }
  }
}
