/** States in which the FAT layer loses something, as small as they come. */
module FatExamples {
  import opened Bytes
  import opened FatEntry
  import opened FatWorld

  function Filled(b: byte): Sector {
    seq(512, i => b)
  }

  /** Two drives of one FAT sector each; drive 0 is active with its sector cached. */
  function TwoDrives(data: Sector, dirty: bool): World {
    var a, b := Bpb(1, 1, 1, 2, 0), Bpb(9, 1, 1, 2, 0);
    World(map[Addr(0, 1) := Filled(0), Addr(0, 9) := Filled(0)],
          [a, b, a, a, a, a], [true, true, false, false, false, false],
          0, data, 0, dirty, 0, 2)
  }

  lemma TwoDrivesValid(data: Sector, dirty: bool)
    requires dirty || data == Filled(0)
    ensures TwoDrives(data, dirty).Valid()
  {
    var w := TwoDrives(data, dirty);
    assert forall n: nat :: n <= 2 ==> Fits(512, false, n);
    assert w.Drives() by {
      forall d: nat, x: Addr | w.IsDrive(d) && w.table[d].InFat(x) ensures x in w.disk {
        assert d == 0 || d == 1;
        assert x == Addr(0, 1) || x == Addr(0, 9);
      }
    }
  }

  /** A changed sector, a switch whose very first write fails: the change is gone. */
  lemma LostChangeExample()
    ensures var w := TwoDrives(Filled(7), true);
            w.Valid() && w.IsDrive(0) && w.IsDrive(1) && Fats(Switched(w, 0, 1)) != Fats(w)
  {
    var w := TwoDrives(Filled(7), true);
    TwoDrivesValid(Filled(7), true);
    assert w.data[0] == 7 && w.disk[Addr(0, 1)][0] == 0;
    SwitchAfterFailedFlush(w, 0, 1);
  }

  /** A failed read over a clean sector: the cache is wrong from then on, and a store
      spreads it. */
  lemma DamagedCacheExample()
    ensures var w := TwoDrives(Filled(0), false);
            && w.Valid() && w.IsDrive(0)
            && !w.(data := Filled(7)).Valid()
            && |Fats(w)[0]| == 512
            && Fats(Stored(w.(data := Filled(7)), 0, 1)) != Poke(Fats(w), 0, 0, 1)
  {
    var w := TwoDrives(Filled(0), false);
    TwoDrivesValid(Filled(0), false);
    assert Filled(7)[1] != w.data[1];
    FailedLoad(w, Filled(7));
    StoreAfterFailedLoad(w, Filled(7), 0, 1);
  }

  /** A value that a 12-bit entry gives back changed: $FF8 is read as $FFF8. */
  lemma ChangedMarkExample(fat: seq<byte>, n: nat)
    requires Fits(|fat|, false, n)
    ensures Widen(false, Get(Put(fat, false, n, 0xFF8), false, n)) == 0xFFF8
  {
    PutExact(fat, false, n, 0xFF8, n);
  }
}
