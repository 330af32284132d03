/** The specification of the FAT layer: each drive is a plain sequence of entry
    values indexed by cluster, and allocation is a choice on that sequence. */
module FatView {
  import opened Bytes
  import opened FatEntry
  import opened FatWorld

  /** The entry of every cluster a volume has, and of the two reserved ones. */
  function ViewOf(b: Bpb, fat: seq<byte>): (view: seq<int>)
    ensures |view| == b.maxClust + 1
    ensures forall n: nat :: n <= b.maxClust && Fits(|fat|, b.Is16(), n) ==> view[n] == Get(fat, b.Is16(), n)
  {
    seq(b.maxClust + 1, n requires 0 <= n => if Fits(|fat|, b.Is16(), n) then Get(fat, b.Is16(), n) else 0)
  }

  function Views(table: seq<Bpb>, present: seq<bool>, fats: seq<seq<byte>>): (views: seq<seq<int>>)
    requires |table| == |present| == |fats|
    ensures |views| == |fats|
    ensures forall d :: 0 <= d < |fats| ==> views[d] == if present[d] then ViewOf(table[d], fats[d]) else []
  {
    seq(|fats|, d requires 0 <= d < |fats| => if present[d] then ViewOf(table[d], fats[d]) else [])
  }

  /** Storing an entry changes one key of one drive's view. */
  lemma ViewsOfPut(table: seq<Bpb>, present: seq<bool>, fats: seq<seq<byte>>, d: nat, n: nat, v: nat)
    requires |table| == |present| == |fats| && d < |fats| && present[d]
    requires n <= table[d].maxClust && v < 65536
    requires forall i: nat :: i <= table[d].maxClust ==> Fits(|fats[d]|, table[d].Is16(), i)
    ensures var is16, views := table[d].Is16(), Views(table, present, fats);
            Views(table, present, fats[d := Put(fats[d], is16, n, v)]) == views[d := views[d][n := Kept(is16, v)]]
  {
    var is16, fat := table[d].Is16(), fats[d];
    var after := Put(fat, is16, n, v);
    PutExact(fat, is16, n, v, n);
    forall i: nat | i <= table[d].maxClust
      ensures ViewOf(table[d], after)[i] == ViewOf(table[d], fat)[n := Kept(is16, v)][i]
    {
      PutExact(fat, is16, n, v, i);
    }
    assert ViewOf(table[d], after) == ViewOf(table[d], fat)[n := Kept(is16, v)];
  }

  // ----- choosing a free cluster -----

  /** The first free cluster at or after n, or the end of the view. */
  function NextFree(view: seq<int>, n: nat): (r: nat)
    ensures n <= r || r == |view|
    ensures r <= |view| || r == n
    ensures r < |view| ==> view[r] == 0
    ensures forall i :: n <= i < r && i < |view| ==> view[i] != 0
    decreases |view| - n
  {
    if n >= |view| then |view| else if view[n] == 0 then n else NextFree(view, n + 1)
  }

  lemma NextFreeStep(view: seq<int>, n: nat)
    ensures NextFree(view, n) ==
              if n >= |view| then |view| else if view[n] == 0 then n else NextFree(view, n + 1)
  {
  }

  /** Next-fit: forward from the hint, then once more from cluster 2. */
  function Pick(view: seq<int>, hint: nat): Option<nat> {
    if NextFree(view, hint) < |view| then Some(NextFree(view, hint))
    else if NextFree(view, 2) < |view| then Some(NextFree(view, 2))
    else None
  }

  /** Exact and complete for every hint: the least free cluster from the hint on,
      failing that the least free one from 2, and nothing only when all are used. */
  lemma PickIsExact(view: seq<int>, hint: nat)
    requires hint >= 2
    ensures Pick(view, hint).None? <==> forall i :: 2 <= i < |view| ==> view[i] != 0
    ensures var p := Pick(view, hint);
            p.Some? ==> 2 <= p.value < |view| && view[p.value] == 0
                        && (forall i :: 2 <= i < p.value && view[i] == 0 ==> i < hint)
                        && (p.value < hint ==> forall i :: hint <= i < |view| ==> view[i] != 0)
  {
  }

  ghost predicate NoneFreeBelow(view: seq<int>, hint: nat) {
    forall i :: 2 <= i < hint && i < |view| ==> view[i] != 0
  }

  /** With nothing free below the hint, next-fit is lowest-fit. */
  lemma PickIsLowest(view: seq<int>, hint: nat, i: nat)
    requires hint >= 2 && NoneFreeBelow(view, hint)
    requires 2 <= i < |view| && view[i] == 0
    ensures Pick(view, hint).Some? && Pick(view, hint).value <= i
  {
  }
}
