/** Whole runs of the FAT layer against plain sequences of entries: the abstract
    machine, the proof that the kernel implements it, and what follows for runs. */
module FatRuns {
  import opened Bytes
  import opened FatEntry
  import opened FatWorld
  import opened FatView
  import opened FatKernel

  datatype Op = Look(n: nat) | Put(n: nat, v: nat) | Alloc | Flush | Switch(d: nat)

  datatype Outcome = Value(v: nat) | Done | Refused

  datatype Abs = Abs(views: seq<seq<int>>, is16: seq<bool>, present: seq<bool>, active: nat, hint: nat) {
    predicate Ready() {
      && |views| == |is16| == |present| == DRIVE_COUNT
      && active < DRIVE_COUNT && present[active]
      && (forall i :: 0 <= i < |views[active]| ==> views[active][i] >= 0)
      && |views[active]| <= 65526
    }

    function View(): seq<int>
      requires Ready()
    {
      views[active]
    }

    predicate Allows(op: Op) {
      && |views| == |is16| == |present| == DRIVE_COUNT
      && match op {
        case Look(n) => Ready() && 2 <= n < |View()|
        case Put(n, v) => Ready() && 2 <= n < |View()| && v < 65536
        case Alloc => Ready()
        case Flush => true
        case Switch(d) => d < DRIVE_COUNT
      }
    }
  }

  /** One call on the plain view of the drives: no cache, no sectors. */
  function Step(a: Abs, op: Op): (Abs, Outcome)
    requires a.Allows(op)
  {
    match op
    case Look(n) => (a, Value(Widen(a.is16[a.active], a.View()[n])))
    case Put(n, v) =>
      (a.(views := a.views[a.active := a.View()[n := Kept(a.is16[a.active], v)]],
          hint := if v == 0 && n < a.hint then n else a.hint), Done)
    case Alloc => (
      match Pick(a.View(), a.hint)
      case None => (a, Refused)
      case Some(n) => (a.(views := a.views[a.active := a.View()[n := Kept(a.is16[a.active], END_OF_CHAIN)]], hint := n + 1), Value(n)))
    case Flush => (a, Done)
    case Switch(d) => if a.present[d] then (a.(active := d), Done) else (a, Refused)
  }

  ghost predicate Legal(a: Abs, ops: seq<Op>)
    decreases |ops|, 0
  {
    ops == [] || (Legal(a, ops[..|ops| - 1]) && After(a, ops[..|ops| - 1]).Allows(ops[|ops| - 1]))
  }

  ghost function After(a: Abs, ops: seq<Op>): Abs
    requires Legal(a, ops)
    decreases |ops|, 1
  {
    if ops == [] then a else Step(After(a, ops[..|ops| - 1]), ops[|ops| - 1]).0
  }

  ghost function Outcomes(a: Abs, ops: seq<Op>): (r: seq<Outcome>)
    requires Legal(a, ops)
    ensures |r| == |ops|
  {
    if ops == [] then []
    else Outcomes(a, ops[..|ops| - 1]) + [Step(After(a, ops[..|ops| - 1]), ops[|ops| - 1]).1]
  }

  // ----- the kernel implements the abstract machine -----

  function Kinds(table: seq<Bpb>): seq<bool> {
    seq(|table|, d requires 0 <= d < |table| => table[d].Is16())
  }

  function AbsOf(table: seq<Bpb>, present: seq<bool>, fats: seq<seq<byte>>, active: nat, hint: nat): Abs
    requires |table| == |present| == |fats|
  {
    Abs(Views(table, present, fats), Kinds(table), present, active, hint)
  }

  /** The plain view of the kernel's state. */
  ghost function Meaning(k: Kernel): Abs
    requires k.Valid()
    reads k, k.cache
  {
    AbsOf(k.table, k.present, k.Contents(), k.active, k.hint)
  }

  /** A usable kernel means a ready abstract machine over its own clusters. */
  lemma UsableIsReady(k: Kernel)
    requires k.Usable()
    ensures Meaning(k).Ready() && |Meaning(k).View()| == k.bpb.maxClust + 1
    ensures Meaning(k).hint >= 2
  {
    forall n: nat | n <= k.bpb.maxClust ensures Meaning(k).View()[n] >= 0 {
      LookMeans(k, n);
    }
    k.ClusterFits(0);
  }

  /** A stored entry, seen as a change of the plain view. */
  lemma PutMeans(k: Kernel, n: nat, v: nat, hint: nat)
    requires k.Usable() && n <= k.bpb.maxClust && v < 65536
    ensures k.bpb.EntryFits(n) && |k.Contents()[k.active]| == 512 * k.bpb.spf
    ensures var a, fats, d := Meaning(k), k.Contents(), k.active;
            AbsOf(k.table, k.present, fats[d := FatEntry.Put(fats[d], k.fat16, n, v)], d, hint)
            == a.(views := a.views[d := a.views[d][n := Kept(a.is16[d], v)]], hint := hint)
  {
    k.ClusterFits(n);
    forall i: nat | i <= k.bpb.maxClust ensures Fits(|k.Contents()[k.active]|, k.bpb.Is16(), i) {
      k.ClusterFits(i);
    }
    ViewsOfPut(k.table, k.present, k.Contents(), k.active, n, v);
  }

  /** An entry read, seen in the plain view. */
  lemma LookMeans(k: Kernel, n: nat)
    requires k.Usable() && n <= k.bpb.maxClust
    ensures k.bpb.EntryFits(n) && |k.Contents()[k.active]| == 512 * k.bpb.spf
    ensures Meaning(k).views[k.active] == k.ActiveView() && |k.ActiveView()| == k.bpb.maxClust + 1
    ensures Meaning(k).is16[k.active] == k.fat16
    ensures Meaning(k).views[k.active][n] == FatEntry.Get(k.Contents()[k.active], k.fat16, n)
  {
    k.ClusterFits(n);
  }

  /** What a call that failed may have changed of the FATs: at most the entry it was to
      change, which for an allocation is that of the cluster it would have given. */
  ghost predicate FailedAt(a: Abs, op: Op, fats: seq<seq<byte>>, fats': seq<seq<byte>>)
    requires a.Allows(op)
  {
    match op
    case Look(_) => fats' == fats
    case Flush => fats' == fats
    case Put(n, _) => OnlyEntry(a, fats, fats', n)
    case Alloc => fats' == fats || (Pick(a.View(), a.hint).Some? && OnlyEntry(a, fats, fats', Pick(a.View(), a.hint).value))
    case Switch(_) => true
  }

  ghost predicate OnlyEntry(a: Abs, fats: seq<seq<byte>>, fats': seq<seq<byte>>, n: nat)
    requires a.Ready()
  {
    OnlyDrive(fats, fats', a.active) && SameButFor(fats[a.active], fats'[a.active], a.is16[a.active], n)
  }

  ghost predicate OnlyDrive(fats: seq<seq<byte>>, fats': seq<seq<byte>>, active: nat) {
    |fats| == |fats'| && active < |fats| && fats' == fats[active := fats'[active]]
  }

  /** One call either fails on a transfer or does and returns what the abstract
      machine says, and copies that agreed still agree. Failing or not, it writes only
      the active FAT and leaves the other drives' FATs alone; a call that fails changes
      at most the entry it was to change, and none if it only looks or flushes. */
  method Exec(k: Kernel, op: Op) returns (r: Outcome, io: bool)
    requires k.Valid() && Meaning(k).Allows(op)
    modifies k, k.cache
    ensures io ==> k.Valid() && Meaning(k) == Step(old(Meaning(k)), op).0 && r == Step(old(Meaning(k)), op).1
    ensures io ==> MirrorsKept(old(k.Snap()), k.Snap())
    ensures k.Sane() && Framed(old(k.Snap()), k.Snap())
    ensures !io && !op.Switch? ==> FailedAt(old(Meaning(k)), op, old(k.Contents()), k.Contents())
  {
    hide VolumesApart, Mirrored, EffectiveByte, Get, FatEntry.Put, ViewOf, Views, Fits, SameButFor, Framed;
    r, io := Done, true;
    match op
    case Look(n) =>
      r, io := ExecLook(k, n);
    case Put(n, v) =>
      io := ExecPut(k, n, v);
    case Alloc =>
      r, io := ExecAlloc(k);
    case Flush =>
      io := ExecFlush(k);
    case Switch(d) =>
      r, io := ExecSwitch(k, d);
  }

  method ExecLook(k: Kernel, n: nat) returns (r: Outcome, io: bool)
    requires k.Valid() && Meaning(k).Allows(Look(n))
    modifies k, k.cache
    ensures io ==> k.Valid() && Meaning(k) == Step(old(Meaning(k)), Look(n)).0 && r == Step(old(Meaning(k)), Look(n)).1
    ensures io ==> MirrorsKept(old(k.Snap()), k.Snap())
    ensures k.Sane() && Framed(old(k.Snap()), k.Snap())
    ensures !io ==> FailedAt(old(Meaning(k)), Look(n), old(k.Contents()), k.Contents())
  {
    hide VolumesApart, Mirrored, EffectiveByte, Get, FatEntry.Put, ViewOf, Fits;
    LookMeans(k, n);
    var ok, v := k.FatGet(n);
    io := ok;
    r := Value(v);
  }

  method ExecPut(k: Kernel, n: nat, v: nat) returns (io: bool)
    requires k.Valid() && Meaning(k).Allows(Put(n, v))
    modifies k, k.cache
    ensures io ==> k.Valid() && Meaning(k) == Step(old(Meaning(k)), Put(n, v)).0
    ensures io ==> MirrorsKept(old(k.Snap()), k.Snap())
    ensures k.Sane() && Framed(old(k.Snap()), k.Snap())
    ensures !io ==> FailedAt(old(Meaning(k)), Put(n, v), old(k.Contents()), k.Contents())
  {
    hide VolumesApart, Mirrored, EffectiveByte, Get, FatEntry.Put, ViewOf, Fits;
    PutMeans(k, n, v, if v == 0 && n < k.hint then n else k.hint);
    var ok, rd, rb := k.FatSet(n, v);
    io := ok;
  }

  method ExecAlloc(k: Kernel) returns (r: Outcome, io: bool)
    requires k.Valid() && Meaning(k).Allows(Alloc)
    modifies k, k.cache
    ensures io ==> k.Valid() && Meaning(k) == Step(old(Meaning(k)), Alloc).0 && r == Step(old(Meaning(k)), Alloc).1
    ensures io ==> MirrorsKept(old(k.Snap()), k.Snap())
    ensures k.Sane() && Framed(old(k.Snap()), k.Snap())
    ensures !io ==> FailedAt(old(Meaning(k)), Alloc, old(k.Contents()), k.Contents())
  {
    hide VolumesApart, Mirrored, EffectiveByte, Get, FatEntry.Put, ViewOf, Fits, Pick;
    LookMeans(k, 0);
    forall n: nat | n <= k.bpb.maxClust {
      PutMeans(k, n, END_OF_CHAIN, n + 1);
    }
    var ok, n;
    ok, n, io := k.FatAlloc();
    r := if ok then Value(n) else Refused;
  }

  method ExecFlush(k: Kernel) returns (io: bool)
    requires k.Valid()
    modifies k, k.cache
    ensures io ==> k.Valid() && Meaning(k) == old(Meaning(k)) && !k.dirty
    ensures k.active == old(k.active) && k.present == old(k.present)
    ensures io ==> MirrorsKept(old(k.Snap()), k.Snap())
    ensures k.Sane() && Framed(old(k.Snap()), k.Snap())
    ensures !io ==> FailedAt(old(Meaning(k)), Flush, old(k.Contents()), k.Contents())
  {
    hide Mirrored, EffectiveByte;
    ghost var w := k.Snap();
    if w.dirty {
      SaveKeeps(w);
    }
    var written;
    io, written := k.FatFlush();
    if w.dirty {
      FlushKeepsFats(w, written);
    } else {
      SameWorld(w);
    }
  }

  method ExecSwitch(k: Kernel, d: nat) returns (r: Outcome, io: bool)
    requires k.Valid() && d < DRIVE_COUNT
    modifies k, k.cache
    ensures io ==> k.Valid() && Meaning(k) == Step(old(Meaning(k)), Switch(d)).0 && r == Step(old(Meaning(k)), Switch(d)).1
    ensures io ==> MirrorsKept(old(k.Snap()), k.Snap())
    ensures k.Sane() && Framed(old(k.Snap()), k.Snap())
  {
    hide VolumesApart, Mirrored, EffectiveByte;
    var dirty, active, copies := k.dirty, k.active, k.bpb.numFats;
    var ok, written := k.SwitchDrive(d);
    io := !ok || active == d || !dirty || written == copies;
    r := if ok then Done else Refused;
  }

  lemma SameWorld(w: World)
    ensures Framed(w, w) && MirrorsKept(w, w)
  {
  }

  /** Sectors written lie in the FAT of some drive. */
  ghost predicate Confined(w: World, w': World) {
    && w'.table == w.table
    && w'.present == w.present
    && w'.disk.Keys == w.disk.Keys
    && forall a :: a in w.disk && w'.disk[a] != w.disk[a] ==> exists d: nat :: w.IsDrive(d) && w.table[d].InFat(a)
  }

  /** Any sequence of calls, as long as the transfers succeed, returns what the
      plain views return and leaves what they leave; only FAT sectors of the
      drives are written and copies that agreed at the start agree at the end.
      `done` calls were completed. */
  method Run(k: Kernel, ops: seq<Op>) returns (results: seq<Outcome>, io: bool, done: nat)
    requires k.Valid() && Legal(Meaning(k), ops)
    modifies k, k.cache
    ensures done == |results| <= |ops| && (io <==> done == |ops|)
    ensures Legal(old(Meaning(k)), ops[..done]) && results == Outcomes(old(Meaning(k)), ops[..done])
    ensures io ==> k.Valid() && Meaning(k) == After(old(Meaning(k)), ops)
    ensures io ==> Confined(old(k.Snap()), k.Snap()) && MirrorsKept(old(k.Snap()), k.Snap())
  {
    hide VolumesApart, Mirrored, EffectiveByte, Views, Kinds, Pick, Step;
    ghost var a := Meaning(k);
    results := [];
    LegalPrefix(a, ops, 0);
    for i := 0 to |ops|
      invariant k.Valid() && |results| == i
      invariant Legal(a, ops[..i]) && Meaning(k) == After(a, ops[..i]) && results == Outcomes(a, ops[..i])
      invariant Confined(old(k.Snap()), k.Snap()) && MirrorsKept(old(k.Snap()), k.Snap())
    {
      LegalPrefix(a, ops, i + 1);
      assert ops[..i + 1][..i] == ops[..i];
      ghost var w := k.Snap();
      var r;
      r, io := Exec(k, ops[i]);
      if !io {
        return results, false, i;
      }
      ConfinedStep(old(k.Snap()), w, k.Snap());
      results := results + [r];
    }
    assert ops[..|ops|] == ops;
    return results, true, |ops|;
  }

  lemma ConfinedStep(w: World, w1: World, w2: World)
    requires Confined(w, w1) && Framed(w1, w2)
    ensures Confined(w, w2)
  {
    forall a | a in w.disk && w2.disk[a] != w.disk[a] ensures exists d: nat :: w.IsDrive(d) && w.table[d].InFat(a) {
      if w1.disk[a] == w.disk[a] {
        assert w.IsDrive(w1.active) && w.table[w1.active].InFat(a);
      }
    }
  }

  lemma {:induction false} LegalPrefix(a: Abs, ops: seq<Op>, i: nat)
    requires Legal(a, ops) && i <= |ops|
    ensures Legal(a, ops[..i])
    decreases |ops|
  {
    if i < |ops| {
      assert ops[..|ops| - 1][..i] == ops[..i];
      LegalPrefix(a, ops[..|ops| - 1], i);
    } else {
      assert ops[..i] == ops;
    }
  }

  // ----- what follows for every run -----

  /** A run that stays on one drive. */
  ghost predicate OneDrive(ops: seq<Op>) {
    forall i :: 0 <= i < |ops| ==> !ops[i].Switch?
  }

  /** A non-zero value whose stored form is zero would free a cluster unseen. */
  predicate HiddenFree(a: Abs, op: Op)
    requires a.Allows(op)
  {
    op.Put? && op.v != 0 && Kept(a.is16[a.active], op.v) == 0
  }

  /** Only below the hint does that matter. */
  predicate HiddenBelow(a: Abs, op: Op)
    requires a.Allows(op)
  {
    HiddenFree(a, op) && op.n < a.hint
  }

  /** A step on a drive keeps everything below the hint in use exactly when it is
      not a hidden free below the hint. */
  lemma StepKeepsLowest(a: Abs, op: Op)
    requires a.Ready() && a.hint >= 2 && a.Allows(op) && !op.Switch?
    requires NoneFreeBelow(a.View(), a.hint)
    ensures Step(a, op).0.Ready() && Step(a, op).0.hint >= 2 && Step(a, op).0.active == a.active
    ensures NoneFreeBelow(Step(a, op).0.View(), Step(a, op).0.hint) <==> !HiddenBelow(a, op)
  {
    var b := Step(a, op).0;
    if HiddenBelow(a, op) {
      assert b.View()[op.n] == 0;
    }
  }

  /** On FAT12, storing $1000 in cluster 2 with the hint at 3 frees the cluster, and the
      next allocation takes the higher cluster 3. */
  lemma HiddenFreeExample()
    ensures var view := [0, 0, 5, 0];
            var a := Abs([view, [], [], [], [], []], [false, false, false, false, false, false],
                         [true, false, false, false, false, false], 0, 3);
            && a.Ready() && NoneFreeBelow(a.View(), a.hint) && a.Allows(Put(2, 0x1000))
            && var b := Step(a, Put(2, 0x1000)).0;
               && b.Ready() && b.View()[2] == 0 && !NoneFreeBelow(b.View(), b.hint)
               && Step(b, Alloc).1 == Value(3)
  {
    var view := [0, 0, 5, 0];
    var a := Abs([view, [], [], [], [], []], [false, false, false, false, false, false],
                 [true, false, false, false, false, false], 0, 3);
    var b := Step(a, Put(2, 0x1000)).0;
    assert b.View() == [0, 0, 0, 0];
  }

  /** On a single drive nothing below the hint is ever free. */
  lemma {:induction false} LowestFreeInvariant(a: Abs, ops: seq<Op>)
    requires a.Ready() && a.hint >= 2 && NoneFreeBelow(a.View(), a.hint)
    requires Legal(a, ops) && OneDrive(ops)
    requires forall i :: 0 <= i < |ops| && Legal(a, ops[..i]) && After(a, ops[..i]).Allows(ops[i]) ==> !HiddenBelow(After(a, ops[..i]), ops[i])
    ensures After(a, ops).Ready() && After(a, ops).hint >= 2
    ensures NoneFreeBelow(After(a, ops).View(), After(a, ops).hint)
    decreases |ops|
  {
    if ops != [] {
      var m := |ops| - 1;
      forall i | 0 <= i < m ensures ops[..m][..i] == ops[..i] {
      }
      LowestFreeInvariant(a, ops[..m]);
      assert ops[..m] == ops[..m];
      StepKeepsLowest(After(a, ops[..m]), ops[m]);
    }
  }

  /** Hence an allocation at the end of such a run returns the lowest free cluster,
      although it starts at the hint. */
  lemma AllocIsLowest(a: Abs, ops: seq<Op>, i: nat)
    requires a.Ready() && a.hint >= 2 && NoneFreeBelow(a.View(), a.hint)
    requires Legal(a, ops) && OneDrive(ops)
    requires forall i :: 0 <= i < |ops| && Legal(a, ops[..i]) && After(a, ops[..i]).Allows(ops[i]) ==> !HiddenBelow(After(a, ops[..i]), ops[i])
    requires After(a, ops).Ready() && 2 <= i < |After(a, ops).View()| && After(a, ops).View()[i] == 0
    ensures Step(After(a, ops), Alloc).1.Value? && Step(After(a, ops), Alloc).1.v <= i
  {
    LowestFreeInvariant(a, ops);
    PickIsLowest(After(a, ops).View(), After(a, ops).hint, i);
  }

  /** The kernel itself: after any run on one drive with nothing hidden below the hint,
      an allocation gives the lowest free cluster, and fails only if there is none. */
  method RunThenAlloc(k: Kernel, ops: seq<Op>) returns (r: Outcome, io: bool)
    requires k.Usable() && NoneFreeBelow(Meaning(k).View(), Meaning(k).hint)
    requires Legal(Meaning(k), ops) && OneDrive(ops)
    requires var a := Meaning(k);
             forall i :: 0 <= i < |ops| && Legal(a, ops[..i]) && After(a, ops[..i]).Allows(ops[i])
               ==> !HiddenBelow(After(a, ops[..i]), ops[i])
    modifies k, k.cache
    ensures io ==> After(old(Meaning(k)), ops).Ready()
                   && var view := After(old(Meaning(k)), ops).View();
                      match r {
                        case Value(n) => 2 <= n < |view| && view[n] == 0 && forall i :: 2 <= i < n ==> view[i] != 0
                        case _ => forall i :: 2 <= i < |view| ==> view[i] != 0
                      }
  {
    hide Legal, After, Step, Meaning, NoneFreeBelow, Pick;
    ghost var a := Meaning(k);
    UsableIsReady(k);
    LowestFreeInvariant(a, ops);
    var results, done;
    results, io, done := Run(k, ops);
    r := Refused;
    if io {
      ghost var b := After(a, ops);
      r, io := Exec(k, Alloc);
      AllocOutcome(b);
      forall i | 2 <= i < |b.View()| && b.View()[i] == 0 ensures Step(b, Alloc).1.Value? && Step(b, Alloc).1.v <= i {
        AllocIsLowest(a, ops, i);
      }
    }
  }

  /** What copy c of a drive's FAT spells out on disk is this list of entries. */
  ghost predicate Spells(w: World, d: nat, c: nat, view: seq<int>)
    requires d < |w.table|
  {
    var b := w.table[d];
    |view| == b.maxClust + 1
    && forall n: nat :: n < |view| ==> b.EntryFits(n) && view[n] == FatEntry.Get(OnDisk(w, d, c), b.Is16(), n)
  }

  /** A run that is flushed at its end is on the disk: of the drive it ends on, whose
      copies agreed, every copy holds the entries the plain machine ends with. */
  method RunThenFlush(k: Kernel, ops: seq<Op>) returns (io: bool)
    requires k.Valid() && Legal(Meaning(k), ops)
    modifies k, k.cache
    ensures io ==> k.Valid() && Meaning(k) == After(old(Meaning(k)), ops) && !k.dirty
    ensures io && k.Usable() ==> Spells(k.Snap(), k.active, 0, Meaning(k).views[k.active])
    ensures io && k.Usable() && Mirrored(old(k.Snap()), k.active) ==>
              forall c: nat :: c < k.bpb.numFats ==> Spells(k.Snap(), k.active, c, Meaning(k).views[k.active])
  {
    hide Legal, After, Step, VolumesApart, Mirrored, EffectiveByte, Views, Spells, OnDisk, Framed;
    ghost var start, a := k.Snap(), Meaning(k);
    var results, done;
    results, io, done := Run(k, ops);
    if io {
      ghost var w := k.Snap();
      io := ExecFlush(k);
      if io {
        MirrorsTwice(start, w, k.Snap());
        if k.Usable() {
          FlushedSpells(k);
        }
      }
    }
  }

  lemma FlushedSpells(k: Kernel)
    requires k.Usable() && !k.dirty
    ensures Spells(k.Snap(), k.active, 0, Meaning(k).views[k.active])
    ensures Mirrored(k.Snap(), k.active) ==>
              forall c: nat :: c < k.bpb.numFats ==> Spells(k.Snap(), k.active, c, Meaning(k).views[k.active])
  {
    hide VolumesApart, Mirrored, EffectiveByte, OnDisk, FatEntry.Get, Fits;
    CleanOnDisk(k.Snap(), k.active);
    forall n: nat | n <= k.bpb.maxClust
      ensures k.bpb.EntryFits(n) && Meaning(k).views[k.active][n] == FatEntry.Get(k.Contents()[k.active], k.fat16, n)
    {
      LookMeans(k, n);
    }
    LookMeans(k, 0);
  }

  lemma AllocOutcome(a: Abs)
    requires a.Ready() && a.hint >= 2
    ensures match Step(a, Alloc).1 {
              case Value(n) => 2 <= n < |a.View()| && a.View()[n] == 0
              case _ => forall i :: 2 <= i < |a.View()| ==> a.View()[i] != 0
            }
  {
    PickIsExact(a.View(), a.hint);
  }

  /** A step touches only the active drive's view. */
  ghost predicate Untouched(d: nat, a: Abs, ops: seq<Op>) {
    a.active != d && forall i :: 0 <= i < |ops| ==> ops[i] != Switch(d)
  }

  lemma {:induction false} OtherDrivesKept(d: nat, a: Abs, ops: seq<Op>)
    requires Legal(a, ops) && Untouched(d, a, ops) && d < |a.views|
    ensures After(a, ops).active != d && |After(a, ops).views| == |a.views|
    ensures After(a, ops).views[d] == a.views[d]
    decreases |ops|
  {
    if ops != [] {
      OtherDrivesKept(d, a, ops[..|ops| - 1]);
    }
  }

  /** No call of the run frees an entry of drive d. */
  ghost predicate FreesNothing(a: Abs, ops: seq<Op>)
    requires Legal(a, ops)
  {
    forall i :: 0 <= i < |ops| && ops[i].Put? && Legal(a, ops[..i]) && After(a, ops[..i]).Allows(ops[i])
      ==> Kept(After(a, ops[..i]).is16[After(a, ops[..i]).active], ops[i].v) != 0
  }

  /** A cluster in use stays in use while nothing is freed, whatever drives the
      run visits. */
  lemma {:induction false} InUseStays(a: Abs, ops: seq<Op>, d: nat, n: nat)
    requires Legal(a, ops) && FreesNothing(a, ops)
    requires d < |a.views| && n < |a.views[d]| && a.views[d][n] != 0
    ensures |After(a, ops).views| == |a.views| && |After(a, ops).views[d]| == |a.views[d]|
    ensures After(a, ops).views[d][n] != 0
    decreases |ops|
  {
    if ops != [] {
      var m := |ops| - 1;
      forall i | 0 <= i < m ensures ops[..m][..i] == ops[..i] {
      }
      InUseStays(a, ops[..m], d, n);
      StepKeepsInUse(After(a, ops[..m]), ops[m], d, n);
    }
  }

  lemma StepKeepsInUse(a: Abs, op: Op, d: nat, n: nat)
    requires a.Allows(op) && d < |a.views| && n < |a.views[d]| && a.views[d][n] != 0
    requires op.Put? ==> Kept(a.is16[a.active], op.v) != 0
    ensures |Step(a, op).0.views| == |a.views| && |Step(a, op).0.views[d]| == |a.views[d]|
    ensures Step(a, op).0.views[d][n] != 0
  {
  }

  /** So two allocations on a drive with no free between them, and any other calls
      on any drives, never return the same cluster. */
  lemma AllocationsDistinct(a: Abs, ops: seq<Op>)
    requires a.Ready() && Step(a, Alloc).1.Value?
    requires var b := Step(a, Alloc).0;
             Legal(b, ops) && FreesNothing(b, ops) && After(b, ops).Ready() && After(b, ops).active == a.active
             && Step(After(b, ops), Alloc).1.Value?
    ensures Step(After(Step(a, Alloc).0, ops), Alloc).1.v != Step(a, Alloc).1.v
  {
    var b, n := Step(a, Alloc).0, Step(a, Alloc).1.v;
    InUseStays(b, ops, a.active, n);
  }
}
