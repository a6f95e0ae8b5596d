/** `PageAllocator::allocate` and `allocate_res` (kernel/memory.cpp) on the extent table, with the
    growth path `aquire` taken as failing. A result of 0 is the source's failure value. */
module Allocation {
  import opened Extents

  function Allocate(t: Table, l: nat, f: Class): (r: (Table, nat))
    requires Shaped(t)
    ensures Shaped(r.0) && |r.0.slots| == |t.slots|
  {
    var t1 := if t.slots[t.ifree].flags != Free then FindFree(t, l) else t;
    var e1 := t1.slots[t1.ifree];
    if e1.flags != Free then (t1, 0)
    else if e1.length >= l then (SetExtent(t1, e1.base, l, f), e1.base)
    else
      var t2 := FindFree(t1, l);
      var e2 := t2.slots[t2.ifree];
      if e2.length >= l && e2.flags == Free then (SetExtent(t2, e2.base, l, f), e2.base)
      else (FindFree(t2, 0), 0)
  }

  function AllocateRes(t: Table, l: nat, f: Class): (r: (Table, nat))
    requires Shaped(t)
    ensures Shaped(r.0) && |r.0.slots| == |t.slots|
  {
    var k := FirstOfType(t.slots, l, Pre);
    if k < |t.slots| then (SetExtent(t, t.slots[k].base, l, f), t.slots[k].base) else (t, 0)
  }

  /** Slot `k` is a FREE extent of at least `l` pages. */
  predicate Candidate(s: seq<Extent>, k: nat, l: nat) {
    k < |s| && s[k].flags == Free && s[k].length >= l
  }

  predicate Satisfiable(s: seq<Extent>, l: nat) {
    exists k: nat :: k < |s| && Candidate(s, k, l)
  }

  /** An allocator table: well-formed, and its free memory does not include page 0. */
  ghost predicate Manages(t: Table) {
    WellFormed(t) && forall i :: 0 <= i < |t.slots| && t.slots[i].flags == Free ==> t.slots[i].base > 0
  }

  /** `[b, b + l pages)` was entirely FREE. */
  ghost predicate WasFree(s: seq<Extent>, b: nat, l: nat) {
    forall a: int :: b <= a < b + Bytes(l) ==> ClassAt(s, a) == Free
  }

  /** Setting the first `l` pages of extent `k` to another class. */
  lemma TakeFromStart(t: Table, k: nat, l: nat, f: Class)
    requires WellFormed(t) && k < |t.slots| && t.slots[k].flags != Unset && t.slots[k].length >= l
    requires f != Unset && l > 0
    ensures Intersect(t.slots, t.slots[k].base, l) == k
    ensures Request(t.slots[k].base, l, f) && Fits(t.slots, t.slots[k].base, l)
    ensures Need(t, t.slots[k].base, l, f) <= 1
  {
    var b := t.slots[k].base;
    assert t.slots[k].Holds(b, l);
    var p := Intersect(t.slots, b, l);
    assert Overlap(t.slots, p, k, b);
  }

  /** A zero-length request changes no slot. */
  lemma TakeNothing(t: Table, k: nat, f: Class)
    requires WellFormed(t) && k < |t.slots| && t.slots[k].flags != Unset && f != Unset
    ensures SetExtent(t, t.slots[k].base, 0, f).slots == t.slots
  {
    var b := t.slots[k].base;
    assert t.slots[k].Holds(b, 0);
    var p := Intersect(t.slots, b, 0);
    var e := t.slots[p];
    if e.base < b {
      if b < e.End() { assert Overlap(t.slots, p, k, b); }
      var adrm := (b - e.base) / PAGE_SIZE;
      assert adrm * PAGE_SIZE == b - e.base && adrm == e.length;
      assert SetInside(t, p, b, 0, f).slots == t.slots;
    } else {
      MergeSlotIs(t, p, b, f);
      assert SetAtStart(t, p, b, 0, f).slots == t.slots;
    }
  }

  /** The table with `ifree` where `allocate` leaves it before it takes anything. */
  function Searched(t: Table, l: nat): (r: Table)
    requires Shaped(t)
    ensures Shaped(r) && r.slots == t.slots
  {
    var t1 := if t.slots[t.ifree].flags != Free then FindFree(t, l) else t;
    if t1.slots[t1.ifree].length < l then FindFree(t1, l) else t1
  }

  /** The table has the unset slot, if one is needed, for taking `l` pages as class `f`. */
  ghost predicate Spare(t: Table, l: nat, f: Class)
    requires Shaped(t)
  {
    var t1 := Searched(t, l);
    l == 0 || |UnsetSlots(t.slots)| >= Need(t1, t.slots[t1.ifree].base, l, f)
  }

  /** `allocate` is sound and complete: it fails exactly when no FREE extent is long enough, and
      then changes no slot; a range it returns was wholly FREE, and becomes exactly class `f` if and
      only if the table has the slot that takes. */
  lemma AllocateSoundComplete(t: Table, l: nat, f: Class)
    requires Manages(t) && l < 0x10_0000 && f != Unset
    ensures var (r, b) := Allocate(t, l, f);
      && (b == 0 <==> !Satisfiable(t.slots, l))
      && (b == 0 ==> r.slots == t.slots)
      && (b != 0 ==> WasFree(t.slots, b, l) && Request(b, l, f))
      && (b != 0 ==> (Painted(t.slots, r.slots, b, l, f) <==> Spare(t, l, f)) && (Spare(t, l, f) ==> WellFormed(r)))
      && (|UnsetSlots(t.slots)| > 0 ==> b == 0 || Spare(t, l, f))
  {
    var (r, b) := Allocate(t, l, f);
    if b != 0 {
      var k, t1 := Chosen(t, l, f);
      assert Candidate(t.slots, k, l);
      forall a: int | b <= a < b + Bytes(l) ensures ClassAt(t.slots, a) == Free { ClassOfCover(t.slots, k, a); }
      if l == 0 {
        TakeNothing(t1, k, f);
      } else {
        TakeFromStart(t1, k, l, f);
        SetExtentRefines(t1, b, l, f);
      }
    }
  }

  /** The slot a successful `allocate` takes from. */
  lemma Chosen(t: Table, l: nat, f: Class) returns (k: nat, t1: Table)
    requires Manages(t) && Allocate(t, l, f).1 != 0
    ensures Candidate(t.slots, k, l) && t1 == t.(ifree := k) == Searched(t, l)
    ensures Allocate(t, l, f) == (SetExtent(t1, t.slots[k].base, l, f), t.slots[k].base)
  {
    t1 := Searched(t, l);
    k := t1.ifree;
  }

  lemma ManagesKept(t: Table, r: Table, b: nat, l: nat, f: Class)
    requires Manages(t) && WellFormed(r) && Painted(t.slots, r.slots, b, l, f) && f != Free
    ensures Manages(r)
  {
    forall i | 0 <= i < |r.slots| && r.slots[i].flags == Free ensures r.slots[i].base > 0 {
      ClassOfCover(r.slots, i, r.slots[i].base);
      if k :| 0 <= k < |t.slots| && t.slots[k].Covers(0) { ClassOfCover(t.slots, k, 0); }
    }
  }

  // ----- Runs of same-class requests -----

  ghost function FreeSlots(s: seq<Extent>): set<nat> {
    set i: nat | i < |s| && s[i].flags == Free
  }

  /** FREE extents whose preceding page is not of class `f`: taking from the start of one of these
      may cost a slot, and leaves it preceded by `f`. */
  ghost function Unpreceded(s: seq<Extent>, f: Class): set<nat> {
    set i: nat | i < |s| && s[i].flags == Free && ClassAt(s, s[i].base - 1) != f
  }

  ghost predicate Funded(t: Table, f: Class) {
    Manages(t) && |UnsetSlots(t.slots)| >= |Unpreceded(t.slots, f)|
  }

  lemma SubsetSize(a: set<nat>, b: set<nat>)
    requires a <= b
    ensures |a| <= |b|
  {
    assert b == a + (b - a);
  }

  lemma PrecededIffMerges(t: Table, k: nat, f: Class)
    requires Manages(t) && k < |t.slots| && t.slots[k].flags == Free && f != Unset && f != Free
    ensures ClassAt(t.slots, t.slots[k].base - 1) == f <==> MergeSlot(t.slots, t.slots[k].base, f) < |t.slots|
  {
    var s, b := t.slots, t.slots[k].base;
    MergeSlotIs(t, k, b, f);
    if j :| 0 <= j < |s| && s[j].Covers(b - 1) {
      ClassOfCover(s, j, b - 1);
      if s[j].End() > b { assert Overlap(s, j, k, b); }
    }
    var m := MergeSlot(s, b, f);
    if m < |s| { ClassOfCover(s, m, b - 1); }
  }

  /** What a request for the first `l` pages of extent `k` does to the slots. */
  lemma TakeShape(t: Table, k: nat, l: nat, f: Class)
    requires WellFormed(t) && k < |t.slots| && t.slots[k].flags != Unset && t.slots[k].length >= l > 0
    requires f != Unset && f != Free
    ensures var s := t.slots; var r := SetExtent(t, s[k].base, l, f).slots;
      && (forall i :: 0 <= i < |s| && i != k ==> r[i] == s[i] || r[i].flags == f)
      && (if s[k].length > l then r[k] == Shrink(s, k, l)[k] else r[k].flags == f || r[k].flags == Unset)
  {
    var s, b := t.slots, t.slots[k].base;
    MergeSlotIs(t, k, b, f);
    TakenAtStart(t, k, l, f);
    if MergeSlot(s, b, f) == |s| && s[k].length > l {
      AddExtentSlots(t.(slots := Shrink(s, k, l)), b, l, f);
    }
  }

  lemma AddExtentSlots(t: Table, b: nat, l: nat, f: Class)
    requires Shaped(t) && f != Free
    ensures var r := AddExtent(t, b, l, f).slots;
      forall i :: 0 <= i < |r| ==> r[i] == t.slots[i] || (t.slots[i].flags == Unset && r[i].flags == f)
  {
  }

  lemma TakenAtStart(t: Table, k: nat, l: nat, f: Class)
    requires WellFormed(t) && k < |t.slots| && t.slots[k].flags != Unset && t.slots[k].length >= l > 0 && f != Unset
    ensures var b := t.slots[k].base;
      SetExtent(t, b, l, f).slots == SetAtStart(t, k, b, l, f).slots
  {
    TakeFromStart(t, k, l, f);
  }

  /** The slots such a request uses up: one exactly when it neither merges nor consumes. */
  lemma UnsetSlotsAfter(t: Table, k: nat, l: nat, f: Class)
    requires WellFormed(t) && k < |t.slots| && t.slots[k].flags != Unset && t.slots[k].length >= l > 0
    requires f != Unset && f != Free && |UnsetSlots(t.slots)| >= Need(t, t.slots[k].base, l, f)
    ensures var s, b := t.slots, t.slots[k].base;
      |UnsetSlots(SetExtent(t, b, l, f).slots)| >= |UnsetSlots(s)| - Need(t, b, l, f)
  {
    var s, b := t.slots, t.slots[k].base;
    TakeFromStart(t, k, l, f);
    MergeSlotIs(t, k, b, f);
    UnsetExists(s);
    var r := SetAtStart(t, k, b, l, f).slots;
    TakenAtStart(t, k, l, f);
    if Need(t, b, l, f) == 0 {
      SubsetSize(UnsetSlots(s), UnsetSlots(r));
    } else {
      var s1 := Shrink(s, k, l);
      FirstUnsetSame(s, s1);
      assert r == s1[FirstUnset(s1) := Extent(f, b, l)];
      SubsetSize(UnsetSlots(s) - {FirstUnset(s)}, UnsetSlots(r));
    }
  }

  lemma UnprecededAfter(s: seq<Extent>, r: seq<Extent>, k: nat, l: nat, f: Class)
    requires |r| == |s| && k < |s| && l > 0 && Bytes(l) > 0 && f != Free
    requires Painted(s, r, s[k].base, l, f)
    requires forall i :: 0 <= i < |s| && i != k && r[i].flags == Free ==> r[i] == s[i]
    requires r[k].flags == Free ==> r[k].base == s[k].base + Bytes(l)
    ensures Unpreceded(r, f) <= Unpreceded(s, f) - {k}
  {
    assert ClassAt(r, s[k].base + Bytes(l) - 1) == f;
  }

  /** Slots used plus unpreceded FREE extents never grows: the potential of the table. */
  lemma PotentialKept(t: Table, k: nat, l: nat, f: Class)
    requires Manages(t) && Candidate(t.slots, k, l) && l > 0 && f != Unset && f != Free
    requires |UnsetSlots(t.slots)| >= |Unpreceded(t.slots, f)|
    ensures |UnsetSlots(t.slots)| >= Need(t, t.slots[k].base, l, f)
    ensures var r := SetExtent(t, t.slots[k].base, l, f);
      |UnsetSlots(r.slots)| - |Unpreceded(r.slots, f)| >= |UnsetSlots(t.slots)| - |Unpreceded(t.slots, f)|
  {
    var s, b := t.slots, t.slots[k].base;
    var r := SetExtent(t, b, l, f).slots;
    var before := Unpreceded(s, f);
    NeedUnpreceded(t, k, l, f);
    if Need(t, b, l, f) == 1 {
      assert |before| == |before - {k}| + 1;
    }
    TakeFromStart(t, k, l, f);
    SetExtentRefines(t, b, l, f);
    TakeShape(t, k, l, f);
    UnsetSlotsAfter(t, k, l, f);
    UnprecededAfter(s, r, k, l, f);
    SubsetSize(Unpreceded(r, f), before - {k});
    SubsetSize(before - {k}, before);
  }

  lemma NeedUnpreceded(t: Table, k: nat, l: nat, f: Class)
    requires Manages(t) && Candidate(t.slots, k, l) && l > 0 && f != Unset && f != Free
    ensures Need(t, t.slots[k].base, l, f) == 0 || k in Unpreceded(t.slots, f)
    ensures Need(t, t.slots[k].base, l, f) <= 1
  {
    TakeFromStart(t, k, l, f);
    PrecededIffMerges(t, k, f);
  }

  ghost function Slack(s: seq<Extent>, f: Class): int {
    |UnsetSlots(s)| - |Unpreceded(s, f)|
  }

  /** One step of a funded run: the allocation is exact and the table stays funded. */
  lemma AllocateFunded(t: Table, l: nat, f: Class)
    requires Funded(t, f) && l < 0x10_0000 && f != Unset && f != Free
    ensures var (r, b) := Allocate(t, l, f);
      && Funded(r, f) && Slack(r.slots, f) >= Slack(t.slots, f)
      && (if b == 0 then r.slots == t.slots
          else Painted(t.slots, r.slots, b, l, f) && WasFree(t.slots, b, l) && Request(b, l, f))
  {
    var (r, b) := Allocate(t, l, f);
    AllocateSoundComplete(t, l, f);
    if b != 0 {
      var k, t1 := Chosen(t, l, f);
      if l == 0 {
        TakeNothing(t1, k, f);
      } else {
        PotentialKept(t1, k, l, f);
        ManagesKept(t, r, b, l, f);
      }
    }
  }

  /** Consecutive `allocate` calls of one class, as `phymm` sees them. */
  function AllocateAll(t: Table, ls: seq<nat>, f: Class): (r: (Table, seq<nat>))
    requires Shaped(t)
    ensures Shaped(r.0) && |r.1| == |ls|
    decreases |ls|
  {
    if ls == [] then (t, [])
    else
      var (t1, b) := Allocate(t, ls[0], f);
      var (t2, bs) := AllocateAll(t1, ls[1..], f);
      (t2, [b] + bs)
  }

  /** Request `i` of the run succeeded and `a` lies in the range it returned. */
  predicate Returned(ls: seq<nat>, bs: seq<nat>, i: nat, a: int) {
    i < |ls| && i < |bs| && bs[i] != 0 && bs[i] <= a < bs[i] + Bytes(ls[i])
  }

  /** Every returned address was FREE and now has class `f`; no address is returned twice; every
      other address keeps its class. */
  ghost predicate RunExact(s: seq<Extent>, r: seq<Extent>, ls: seq<nat>, bs: seq<nat>, f: Class) {
    && (forall i: nat, a: int :: Returned(ls, bs, i, a) ==> ClassAt(s, a) == Free && ClassAt(r, a) == f)
    && (forall i: nat, j: nat, a: int :: Returned(ls, bs, i, a) && Returned(ls, bs, j, a) ==> i == j)
    && (forall a: int :: ClassAt(r, a) != ClassAt(s, a) ==> exists i: nat :: Returned(ls, bs, i, a))
  }

  lemma RunCons(s: seq<Extent>, s1: seq<Extent>, r: seq<Extent>, ls: seq<nat>, b: nat, rest: seq<nat>, f: Class)
    requires |ls| > 0 && f != Free && RunExact(s1, r, ls[1..], rest, f)
    requires if b == 0 then s1 == s else Painted(s, s1, b, ls[0], f) && WasFree(s, b, ls[0])
    ensures RunExact(s, r, ls, [b] + rest, f)
  {
    var tail, bs := ls[1..], [b] + rest;
    forall i: nat, a: int | Returned(ls, bs, i, a)
      ensures ClassAt(s, a) == Free && ClassAt(r, a) == f && (i == 0 <==> ClassAt(s1, a) == f)
    {
      if i > 0 { assert Returned(tail, rest, i - 1, a); }
      else {
        assert ClassAt(s1, a) == f;
        assert !exists j: nat :: Returned(tail, rest, j, a);
      }
    }
    forall i: nat, j: nat, a: int | Returned(ls, bs, i, a) && Returned(ls, bs, j, a) ensures i == j {
      if i > 0 && j > 0 { assert Returned(tail, rest, i - 1, a) && Returned(tail, rest, j - 1, a); }
    }
    forall a: int | ClassAt(r, a) != ClassAt(s, a) ensures exists i: nat :: Returned(ls, bs, i, a) {
      if ClassAt(s1, a) != ClassAt(s, a) {
        assert Returned(ls, bs, 0, a);
      } else {
        var i: nat :| Returned(tail, rest, i, a);
        assert Returned(ls, bs, i + 1, a);
      }
    }
  }

  /** Over any run the returned ranges were FREE at the start, are pairwise disjoint, and together
      are exactly what changed class. The only supply needed is one unset slot per unpreceded FREE
      extent, however long the run. */
  lemma {:induction false} RunsAreDisjoint(t: Table, ls: seq<nat>, f: Class)
    requires Funded(t, f) && f != Unset && f != Free && forall i :: 0 <= i < |ls| ==> ls[i] < 0x10_0000
    ensures var (r, bs) := AllocateAll(t, ls, f);
      Funded(r, f) && Slack(r.slots, f) >= Slack(t.slots, f) && RunExact(t.slots, r.slots, ls, bs, f)
    decreases |ls|
  {
    if ls != [] {
      var (t1, b) := Allocate(t, ls[0], f);
      var (r, rest) := AllocateAll(t1, ls[1..], f);
      AllocateFunded(t, ls[0], f);
      RunsAreDisjoint(t1, ls[1..], f);
      RunCons(t.slots, t1.slots, r.slots, ls, b, rest, f);
    }
  }

  /** The slots used over any run never exceed those used at the start plus the FREE extents there
      were at the start. */
  lemma TableBound(t: Table, ls: seq<nat>, f: Class)
    requires Manages(t) && f != Unset && f != Free && forall i :: 0 <= i < |ls| ==> ls[i] < 0x10_0000
    ensures var r := AllocateAll(t, ls, f).0;
      && |r.slots| == |t.slots|
      && |r.slots| - |UnsetSlots(r.slots)| <= |t.slots| - |UnsetSlots(t.slots)| + |FreeSlots(t.slots)|
  {
    SameSlots(t, ls, f);
    SubsetSize(Unpreceded(t.slots, f), FreeSlots(t.slots));
    if Funded(t, f) {
      RunsAreDisjoint(t, ls, f);
    }
  }

  lemma {:induction false} SameSlots(t: Table, ls: seq<nat>, f: Class)
    requires Shaped(t)
    ensures |AllocateAll(t, ls, f).0.slots| == |t.slots|
    decreases |ls|
  {
    if ls != [] { SameSlots(Allocate(t, ls[0], f).0, ls[1..], f); }
  }
}
