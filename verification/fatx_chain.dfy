/** Cluster chains in a FAT, as the host-side volume tool walks and builds them. */
module FatChains {
  import opened Bytes
  import opened FatEntry

  predicate IsCluster(is16: bool, c: nat) {
    2 <= c < if is16 then 0xFFF7 else 0xFF7
  }

  /** A walk gives its clusters, gives up after too many, or hits the FAT's end. */
  datatype Walk = Chain(cs: seq<nat>) | Loop | OutOfRange

  function Walked(fat: seq<byte>, is16: bool, limit: nat, c: nat, out: seq<nat>): Walk
    requires |out| <= limit
    decreases limit + 1 - |out|
  {
    if !IsCluster(is16, c) then Chain(out)
    else if !Fits(|fat|, is16, c) then OutOfRange
    else if |out| + 1 > limit then Loop
    else Walked(fat, is16, limit, Get(fat, is16, c), out + [c])
  }

  /** cs is the chain from c: each entry names the next cluster, and the last
      entry none. */
  predicate IsPath(fat: seq<byte>, is16: bool, c: nat, cs: seq<nat>)
    decreases |cs|
  {
    if cs == [] then !IsCluster(is16, c)
    else c == cs[0] && IsCluster(is16, c) && Fits(|fat|, is16, c) && IsPath(fat, is16, Get(fat, is16, c), cs[1..])
  }

  lemma {:induction false} WalkedIff(fat: seq<byte>, is16: bool, limit: nat, c: nat, out: seq<nat>, cs: seq<nat>)
    requires |out| <= limit
    ensures Walked(fat, is16, limit, c, out) == Chain(out + cs) <==> IsPath(fat, is16, c, cs) && |out| + |cs| <= limit
    decreases limit + 1 - |out|
  {
    hide Get, IsCluster;
    if cs == [] {
      assert out + cs == out;
      if IsCluster(is16, c) && Fits(|fat|, is16, c) && |out| + 1 <= limit {
        WalkedGrows(fat, is16, limit, Get(fat, is16, c), out + [c]);
      }
    } else if IsCluster(is16, c) && Fits(|fat|, is16, c) && |out| + 1 <= limit {
      if c == cs[0] {
        assert out + cs == out + [c] + cs[1..];
        WalkedIff(fat, is16, limit, Get(fat, is16, c), out + [c], cs[1..]);
      } else {
        WalkedGrows(fat, is16, limit, Get(fat, is16, c), out + [c]);
        assert (out + cs)[|out|] == cs[0] && (out + [c])[|out|] == c;
      }
    } else if !IsCluster(is16, c) {
      assert |out + cs| != |out|;
    }
  }

  lemma {:induction false} WalkedGrows(fat: seq<byte>, is16: bool, limit: nat, c: nat, out: seq<nat>)
    requires |out| <= limit
    ensures var w := Walked(fat, is16, limit, c, out); w.Chain? ==> out <= w.cs
    decreases limit + 1 - |out|
  {
    hide Get;
    if IsCluster(is16, c) && Fits(|fat|, is16, c) && |out| + 1 <= limit {
      WalkedGrows(fat, is16, limit, Get(fat, is16, c), out + [c]);
    }
  }

  // ----- chains do not repeat -----

  lemma {:induction false} PathUnique(fat: seq<byte>, is16: bool, c: nat, a: seq<nat>, b: seq<nat>)
    requires IsPath(fat, is16, c, a) && IsPath(fat, is16, c, b)
    ensures a == b
    decreases |a|
  {
    hide Get;
    if a != [] && b != [] {
      PathUnique(fat, is16, Get(fat, is16, c), a[1..], b[1..]);
      assert a == [c] + a[1..] && b == [c] + b[1..];
    }
  }

  lemma {:induction false} PathSuffix(fat: seq<byte>, is16: bool, c: nat, cs: seq<nat>, i: nat)
    requires IsPath(fat, is16, c, cs) && i < |cs|
    ensures IsPath(fat, is16, cs[i], cs[i..])
    decreases i
  {
    hide Get;
    if i > 0 {
      PathSuffix(fat, is16, Get(fat, is16, c), cs[1..], i - 1);
      assert cs[1..][i - 1..] == cs[i..];
    } else {
      assert cs[0..] == cs;
    }
  }

  predicate Distinct(cs: seq<nat>) {
    forall i, j :: 0 <= i < j < |cs| ==> cs[i] != cs[j]
  }

  /** No chain visits a cluster twice. */
  lemma PathDistinct(fat: seq<byte>, is16: bool, c: nat, cs: seq<nat>)
    requires IsPath(fat, is16, c, cs)
    ensures Distinct(cs)
  {
    hide Get, IsPath;
    forall i, j | 0 <= i < j < |cs| ensures cs[i] != cs[j] {
      PathSuffix(fat, is16, c, cs, i);
      PathSuffix(fat, is16, c, cs, j);
      if cs[i] == cs[j] {
        PathUnique(fat, is16, cs[i], cs[i..], cs[j..]);
      }
    }
  }

  predicate Within(cs: seq<nat>, lo: nat, hi: nat) {
    forall i :: 0 <= i < |cs| ==> lo <= cs[i] < hi
  }

  /** Distinct numbers below a bound are no more than the bound allows. */
  lemma {:induction false} Pigeonhole(cs: seq<nat>, lo: nat, hi: nat)
    requires Distinct(cs) && Within(cs, lo, hi) && lo <= hi
    ensures |cs| <= hi - lo
    decreases hi - lo
  {
    if cs != [] {
      assert lo <= cs[0] < hi;
      if i :| 0 <= i < |cs| && cs[i] == hi - 1 {
        var rest := cs[..i] + cs[i + 1..];
        Pigeonhole(rest, lo, hi - 1);
      } else {
        Pigeonhole(cs, lo, hi - 1);
      }
    }
  }

  /** A walk bounded by count + 2 steps returns the chain whenever its clusters are
      those of the volume, and whatever it returns is a chain without repeats. */
  lemma WalkExact(fat: seq<byte>, is16: bool, count: nat, c: nat, cs: seq<nat>)
    ensures Walked(fat, is16, count + 2, c, []) == Chain(cs) <==> IsPath(fat, is16, c, cs) && |cs| <= count + 2
    ensures IsPath(fat, is16, c, cs) ==> Distinct(cs)
    ensures IsPath(fat, is16, c, cs) && Within(cs, 2, count + 2) ==> Walked(fat, is16, count + 2, c, []) == Chain(cs)
  {
    hide Walked, IsPath;
    WalkedIff(fat, is16, count + 2, c, [], cs);
    assert [] + cs == cs;
    if IsPath(fat, is16, c, cs) {
      PathDistinct(fat, is16, c, cs);
      if Within(cs, 2, count + 2) {
        Pigeonhole(cs, 2, count + 2);
      }
    }
  }

  // ----- building a chain -----

  /** The free clusters from c up to and including last, in order. */
  function FreeFrom(fat: seq<byte>, is16: bool, c: nat, last: nat): (cs: seq<nat>)
    requires forall n: nat :: n <= last ==> Fits(|fat|, is16, n)
    decreases last + 1 - c
  {
    if c > last then []
    else if Get(fat, is16, c) == 0 then [c] + FreeFrom(fat, is16, c + 1, last)
    else FreeFrom(fat, is16, c + 1, last)
  }

  lemma FreeFromStep(fat: seq<byte>, is16: bool, c: nat, last: nat)
    requires forall n: nat :: n <= last ==> Fits(|fat|, is16, n)
    ensures FreeFrom(fat, is16, c, last) ==
              if c > last then []
              else (if Get(fat, is16, c) == 0 then [c] else []) + FreeFrom(fat, is16, c + 1, last)
  {
    hide Get;
  }

  ghost predicate Free(fat: seq<byte>, is16: bool, cs: seq<nat>) {
    forall i :: 0 <= i < |cs| ==> Fits(|fat|, is16, cs[i]) && Get(fat, is16, cs[i]) == 0
  }

  lemma {:induction false} FreeFromIs(fat: seq<byte>, is16: bool, c: nat, last: nat)
    requires forall n: nat :: n <= last ==> Fits(|fat|, is16, n)
    ensures var cs := FreeFrom(fat, is16, c, last);
            && Free(fat, is16, cs) && Within(cs, c, last + 1) && Distinct(cs)
            && forall n: nat :: c <= n <= last && Get(fat, is16, n) == 0 ==> n in cs
    decreases last + 1 - c
  {
    hide Get;
    if c <= last {
      FreeFromIs(fat, is16, c + 1, last);
      var rest := FreeFrom(fat, is16, c + 1, last);
      if Get(fat, is16, c) == 0 {
        DistinctCons(c, rest, last + 1);
      }
    }
  }

  /** And in ascending order. */
  lemma {:induction false} FreeAscending(fat: seq<byte>, is16: bool, c: nat, last: nat)
    requires forall n: nat :: n <= last ==> Fits(|fat|, is16, n)
    ensures var cs := FreeFrom(fat, is16, c, last); forall i, j :: 0 <= i < j < |cs| ==> cs[i] < cs[j]
    decreases last + 1 - c
  {
    hide Get;
    if c <= last {
      FreeAscending(fat, is16, c + 1, last);
      FreeFromIs(fat, is16, c + 1, last);
      AscendingCons(c, FreeFrom(fat, is16, c + 1, last), last + 1);
    }
  }

  lemma AscendingCons(c: nat, rest: seq<nat>, hi: nat)
    requires Within(rest, c + 1, hi) && forall i, j :: 0 <= i < j < |rest| ==> rest[i] < rest[j]
    ensures var cs := [c] + rest; forall i, j :: 0 <= i < j < |cs| ==> cs[i] < cs[j]
  {
    var cs := [c] + rest;
    forall i, j | 0 <= i < j < |cs| ensures cs[i] < cs[j] {
      assert cs[j] == rest[j - 1] && (i > 0 ==> cs[i] == rest[i - 1]);
    }
  }

  lemma DistinctCons(c: nat, rest: seq<nat>, hi: nat)
    requires Distinct(rest) && Within(rest, c + 1, hi)
    ensures Distinct([c] + rest)
  {
    var cs := [c] + rest;
    forall i, j | 0 <= i < j < |cs| ensures cs[i] != cs[j] {
      assert cs[j] == rest[j - 1] && (i > 0 ==> cs[i] == rest[i - 1]);
    }
  }

  /** The end mark the tool stores, whatever the FAT type. */
  const LAST_MARK := 0xFFF

  function Follower(cs: seq<nat>, k: nat): nat
    requires k < |cs|
  {
    if k + 1 < |cs| then cs[k + 1] else LAST_MARK
  }

  /** Each cluster's entry made to name the next, from the i-th on. */
  function Linked(fat: seq<byte>, is16: bool, cs: seq<nat>, i: nat): (r: seq<byte>)
    requires i <= |cs|
    requires forall k :: 0 <= k < |cs| ==> cs[k] < 65536 && Fits(|fat|, is16, cs[k])
    ensures |r| == |fat|
    decreases i
  {
    if i == 0 then fat
    else Put(Linked(fat, is16, cs, i - 1), is16, cs[i - 1], Follower(cs, i - 1))
  }

  lemma {:induction false} LinkedAt(fat: seq<byte>, is16: bool, cs: seq<nat>, i: nat, m: nat)
    requires i <= |cs| && Distinct(cs) && Fits(|fat|, is16, m)
    requires forall k :: 0 <= k < |cs| ==> cs[k] < 65536 && Fits(|fat|, is16, cs[k])
    ensures (forall k :: 0 <= k < i ==> cs[k] != m) ==> Get(Linked(fat, is16, cs, i), is16, m) == Get(fat, is16, m)
    ensures forall k :: 0 <= k < i && cs[k] == m ==>
              Get(Linked(fat, is16, cs, i), is16, m) == Kept(is16, Follower(cs, k))
    decreases i
  {
    hide Get, Put;
    if i > 0 {
      LinkedAt(fat, is16, cs, i - 1, m);
      PutExact(Linked(fat, is16, cs, i - 1), is16, cs[i - 1], Follower(cs, i - 1), m);
    }
  }

  lemma {:induction false} LinkedPath(fat: seq<byte>, cs: seq<nat>, i: nat)
    requires i < |cs| && Distinct(cs) && Within(cs, 2, 0xFF7)
    requires forall k :: 0 <= k < |cs| ==> cs[k] < 65536 && Fits(|fat|, false, cs[k])
    ensures IsPath(Linked(fat, false, cs, |cs|), false, cs[i], cs[i..])
    decreases |cs| - i
  {
    hide Get, Linked;
    var after := Linked(fat, false, cs, |cs|);
    LinkedAt(fat, false, cs, |cs|, cs[i]);
    assert cs[i..] == [cs[i]] + cs[i + 1..];
    if i + 1 < |cs| {
      LinkedPath(fat, cs, i + 1);
      assert Get(after, false, cs[i]) == cs[i + 1];
    } else {
      assert Get(after, false, cs[i]) == LAST_MARK;
      assert cs[i + 1..] == [];
    }
    PathCons(after, false, cs[i], cs[i + 1..]);
  }

  lemma PathCons(fat: seq<byte>, is16: bool, c: nat, rest: seq<nat>)
    requires Fits(|fat|, is16, c)
    ensures IsPath(fat, is16, c, [c] + rest) <==> IsCluster(is16, c) && IsPath(fat, is16, Get(fat, is16, c), rest)
  {
    hide Get;
    assert ([c] + rest)[1..] == rest;
  }

  /** A chain that uses none of the clusters taken is as it was. */
  lemma {:induction false} OtherPathKept(fat: seq<byte>, is16: bool, cs: seq<nat>, c: nat, p: seq<nat>)
    requires Distinct(cs)
    requires forall k :: 0 <= k < |cs| ==> cs[k] < 65536 && Fits(|fat|, is16, cs[k])
    requires IsPath(fat, is16, c, p)
    requires forall i, k :: 0 <= i < |p| && 0 <= k < |cs| ==> p[i] != cs[k]
    ensures IsPath(Linked(fat, is16, cs, |cs|), is16, c, p)
    decreases |p|
  {
    hide Get, Linked, Distinct;
    if p != [] {
      assert p[0] == c;
      LinkedAt(fat, is16, cs, |cs|, c);
      forall i, k | 0 <= i < |p[1..]| && 0 <= k < |cs| ensures p[1..][i] != cs[k] {
        assert p[1..][i] == p[i + 1];
      }
      OtherPathKept(fat, is16, cs, Get(fat, is16, c), p[1..]);
    }
  }

  /** On FAT16 the end mark is a cluster number, so the chain does not end there. */
  lemma LongLinkNotPath(fat: seq<byte>, cs: seq<nat>)
    requires cs != [] && Distinct(cs)
    requires forall k :: 0 <= k < |cs| ==> cs[k] < 65536 && Fits(|fat|, true, cs[k])
    ensures !IsPath(Linked(fat, true, cs, |cs|), true, cs[0], cs)
  {
    hide Get, Linked, IsPath, Distinct;
    var after, last := Linked(fat, true, cs, |cs|), |cs| - 1;
    LastLink(fat, true, cs);
    if IsPath(after, true, cs[0], cs) {
      PathSuffix(after, true, cs[0], cs, last);
      assert cs[last..] == [cs[last]] + [];
      PathCons(after, true, cs[last], []);
      EmptyPath(after, true, LAST_MARK);
    }
  }

  lemma LastLink(fat: seq<byte>, is16: bool, cs: seq<nat>)
    requires cs != [] && Distinct(cs)
    requires forall k :: 0 <= k < |cs| ==> cs[k] < 65536 && Fits(|fat|, is16, cs[k])
    ensures Get(Linked(fat, is16, cs, |cs|), is16, cs[|cs| - 1]) == Kept(is16, LAST_MARK)
  {
    hide Get, Linked, Distinct;
    LinkedAt(fat, is16, cs, |cs|, cs[|cs| - 1]);
  }

  lemma EmptyPath(fat: seq<byte>, is16: bool, c: nat)
    ensures IsPath(fat, is16, c, []) <==> !IsCluster(is16, c)
  {
  }
}
