/** The extent table of `PageAllocator` (kernel/memory.cpp) as a value: a fixed row of slots, each
    unset or describing a run of pages of one class, and the index `ifree` of the slot that
    `free()` returns. There is one table, so the iterator of the source visits slots 0, 1, 2, ...

    The main result is that `SetExtent`, with its split, shrink, merge and consume branches, is
    exactly the update of a plain map from addresses to classes. */
module Extents {
  const PAGE_SIZE := 0x1000
  const LIMIT := 0x1_0000_0000
  const MAX_EXT := 127

  datatype Class = Unset | Control | Link | Io | Empty | Free | Clear | Fixed | Alloc | Pre

  /** A 32-bit unsigned result. */
  function Wrap32(x: int): (r: nat)
    ensures r < LIMIT && (0 <= x < LIMIT ==> r == x)
  {
    x % LIMIT
  }

  /** The product `l * PAGE_SIZE`, which the source computes in 32 bits. */
  function Bytes(pages: nat): (r: nat)
    ensures pages < 0x10_0000 ==> r == pages * PAGE_SIZE
  {
    Wrap32(pages * PAGE_SIZE)
  }

  datatype Extent = Extent(flags: Class, base: nat, length: nat) {
    function End(): nat { base + Bytes(length) }

    predicate Covers(a: int) { flags != Unset && base <= a < End() }

    predicate Holds(b: nat, l: nat) { flags != Unset && base <= b && b + Bytes(l) <= End() }

    predicate Misses(b: nat, l: nat) { flags != Unset ==> b + Bytes(l) <= base || End() <= b }

    predicate Sound() {
      flags != Unset ==> 0 < length < 0x10_0000 && base % PAGE_SIZE == 0 && End() < LIMIT
    }
  }

  datatype Table = Table(slots: seq<Extent>, ifree: nat)

  // ----- Slot searches: each returns the first matching slot, or |s| -----

  function FirstUnset(s: seq<Extent>): (k: nat)
    ensures k <= |s| && (k < |s| ==> s[k].flags == Unset)
    ensures forall j :: 0 <= j < k ==> s[j].flags != Unset
  {
    if s == [] || s[0].flags == Unset then 0 else 1 + FirstUnset(s[1..])
  }

  function FirstOfType(s: seq<Extent>, l: nat, f: Class): (k: nat)
    ensures k <= |s| && (k < |s| ==> s[k].flags == f && s[k].length >= l)
    ensures forall j :: 0 <= j < k ==> !(s[j].flags == f && s[j].length >= l)
  {
    if s == [] || (s[0].flags == f && s[0].length >= l) then 0 else 1 + FirstOfType(s[1..], l, f)
  }

  function Intersect(s: seq<Extent>, b: nat, l: nat): (k: nat)
    ensures k <= |s| && (k < |s| ==> s[k].Holds(b, l))
    ensures forall j :: 0 <= j < k ==> !s[j].Holds(b, l)
  {
    if s == [] || s[0].Holds(b, l) then 0 else 1 + Intersect(s[1..], b, l)
  }

  // ----- Updates -----

  predicate Shaped(t: Table) { t.ifree < |t.slots| }

  function AddExtent(t: Table, b: nat, l: nat, f: Class): (r: Table)
    requires Shaped(t)
    ensures Shaped(r) && |r.slots| == |t.slots| && r.ifree == t.ifree
  {
    var pfree := t.slots[t.ifree];
    if l == 0 || f == Unset then t
    else if f == Free && pfree.flags == Free && pfree.End() == b then
      t.(slots := t.slots[t.ifree := pfree.(length := Wrap32(pfree.length + l))])
    else
      var k := FirstUnset(t.slots);
      if k < |t.slots| then t.(slots := t.slots[k := Extent(f, b, l)]) else t
  }

  /** The slot of the extent that ends where the request begins and has the same class, if any. */
  function MergeSlot(s: seq<Extent>, b: nat, f: Class): (k: nat)
    ensures k <= |s|
  {
    var k := if b >= PAGE_SIZE then Intersect(s, b - PAGE_SIZE, 1) else |s|;
    if k < |s| && s[k].End() == b && s[k].flags == f then k else |s|
  }

  /** Take the first `l` pages off slot `p`. */
  function Shrink(s: seq<Extent>, p: nat, l: nat): (r: seq<Extent>)
    requires p < |s| && s[p].length >= l
    ensures |r| == |s|
  {
    s[p := s[p].(length := s[p].length - l, base := s[p].base + Bytes(l))]
  }

  /** `set_extent` when the request starts where extent `p` starts. */
  function SetAtStart(t: Table, p: nat, b: nat, l: nat, f: Class): (r: Table)
    requires Shaped(t) && p < |t.slots|
    ensures Shaped(r) && |r.slots| == |t.slots| && r.ifree == t.ifree
  {
    var k := MergeSlot(t.slots, b, f);
    if k < |t.slots| then
      var s := t.slots[k := t.slots[k].(length := Wrap32(t.slots[k].length + l))];
      t.(slots := if s[p].length > l then Shrink(s, p, l) else s[p := s[p].(flags := Unset)])
    else if t.slots[p].length > l then
      AddExtent(t.(slots := Shrink(t.slots, p, l)), b, l, f)
    else
      t.(slots := t.slots[p := t.slots[p].(length := l, flags := f)])
  }

  /** `set_extent` when the request starts inside extent `p`: the extent is split around it. */
  function SetInside(t: Table, p: nat, b: nat, l: nat, f: Class): (r: Table)
    requires Shaped(t) && p < |t.slots| && t.slots[p].base <= b
    ensures Shaped(r) && |r.slots| == |t.slots| && r.ifree == t.ifree
  {
    var adrm := (b - t.slots[p].base) / PAGE_SIZE;
    var t1 := AddExtent(t, b, l, f);
    var t2 := AddExtent(t1, b + Bytes(l), Wrap32(t1.slots[p].length - (l + adrm)), t1.slots[p].flags);
    t2.(slots := t2.slots[p := t2.slots[p].(length := adrm)])
  }

  function Place(t: Table, b: nat, l: nat, f: Class): (r: Table)
    requires Shaped(t)
    ensures Shaped(r) && |r.slots| == |t.slots| && r.ifree == t.ifree
  {
    var p := Intersect(t.slots, b, l);
    if p == |t.slots| then AddExtent(t, b, l, f)
    else if b == t.slots[p].base then SetAtStart(t, p, b, l, f)
    else SetInside(t, p, b, l, f)
  }

  function FindFree(t: Table, l: nat): (r: Table)
    requires Shaped(t)
    ensures Shaped(r) && r.slots == t.slots
  {
    var k := FirstOfType(t.slots, l, Free);
    if k < |t.slots| then t.(ifree := k) else t
  }

  function SetExtent(t: Table, b: nat, l: nat, f: Class): (r: Table)
    requires Shaped(t)
    ensures Shaped(r) && |r.slots| == |t.slots| && r.slots == Place(t, b, l, f).slots
  {
    var t1 := Place(t, b, l, f);
    if t1.slots[t1.ifree].flags != Free then FindFree(t1, 0) else t1
  }

  // ----- The map the table stands for -----

  /** The class of address `a`: that of an extent covering it, or `Unset`. */
  ghost function ClassAt(s: seq<Extent>, a: int): Class {
    if i :| 0 <= i < |s| && s[i].Covers(a) then s[i].flags else Unset
  }

  /** Slots `i` and `j` both cover address `a`. */
  ghost predicate Overlap(s: seq<Extent>, i: int, j: int, a: int) {
    0 <= i < |s| && 0 <= j < |s| && s[i].Covers(a) && s[j].Covers(a)
  }

  ghost predicate Disjoint(s: seq<Extent>) {
    forall i: int, j: int, a: int {:trigger Overlap(s, i, j, a)} :: Overlap(s, i, j, a) ==> i == j
  }

  /** Extents are non-empty, page-aligned, end below 2^32 and do not overlap. */
  ghost predicate WellFormed(t: Table) {
    && Shaped(t)
    && (forall i :: 0 <= i < |t.slots| ==> t.slots[i].Sound())
    && Disjoint(t.slots)
  }

  /** `r` is `s` with the addresses of `l` pages from `b` given class `f` and no other change. */
  ghost predicate Painted(s: seq<Extent>, r: seq<Extent>, b: nat, l: nat, f: Class) {
    forall a: int :: ClassAt(r, a) == if b <= a < b + Bytes(l) then f else ClassAt(s, a)
  }

  ghost function UnsetSlots(s: seq<Extent>): set<nat> {
    set i: nat | i < |s| && s[i].flags == Unset
  }

  lemma ClassOfCover(s: seq<Extent>, i: nat, a: int)
    requires i < |s| && Disjoint(s) && s[i].Covers(a)
    ensures ClassAt(s, a) == s[i].flags
  {
    forall j | 0 <= j < |s| && s[j].Covers(a) ensures j == i { assert Overlap(s, i, j, a); }
  }

  /** What overwriting slot `k` with `e` does to the class of `a`. */
  ghost function Replaced(s: seq<Extent>, k: nat, e: Extent, a: int): Class
    requires k < |s|
  {
    if e.Covers(a) then e.flags else if s[k].Covers(a) then Unset else ClassAt(s, a)
  }

  /** Overwriting one slot with an extent that overlaps no other slot. */
  lemma ReplaceSlot(t: Table, k: nat, e: Extent)
    requires WellFormed(t) && k < |t.slots| && e.Sound()
    requires forall j, a :: 0 <= j < |t.slots| && j != k && t.slots[j].Covers(a) ==> !e.Covers(a)
    ensures WellFormed(t.(slots := t.slots[k := e]))
    ensures forall a :: ClassAt(t.slots[k := e], a) == Replaced(t.slots, k, e, a)
  {
    var s, r := t.slots, t.slots[k := e];
    forall i: int, j: int, a: int | Overlap(r, i, j, a) ensures i == j {
      if i != k && j != k { assert Overlap(s, i, j, a); }
    }
    forall a ensures ClassAt(r, a) == Replaced(s, k, e, a) {
      if i :| 0 <= i < |r| && r[i].Covers(a) {
        ClassOfCover(r, i, a);
        if i != k {
          ClassOfCover(s, i, a);
          assert !Overlap(s, i, k, a);
        }
      } else {
        assert !r[k].Covers(a);
        if j :| 0 <= j < |s| && s[j].Covers(a) {
          assert !r[j].Covers(a);
          assert j == k;
        }
      }
    }
  }

  /** Overwriting one slot with an extent that covers no more than the old one. */
  lemma NarrowSlot(t: Table, k: nat, e: Extent)
    requires WellFormed(t) && k < |t.slots| && e.Sound()
    requires forall a: int :: e.Covers(a) ==> t.slots[k].Covers(a)
    ensures WellFormed(t.(slots := t.slots[k := e]))
    ensures forall a :: ClassAt(t.slots[k := e], a) == Replaced(t.slots, k, e, a)
  {
    forall j, a | 0 <= j < |t.slots| && j != k && t.slots[j].Covers(a) ensures !e.Covers(a) {
      assert !Overlap(t.slots, j, k, a);
    }
    ReplaceSlot(t, k, e);
  }

  predicate Merges(t: Table, b: nat, f: Class)
    requires Shaped(t)
  {
    f == Free && t.slots[t.ifree].flags == Free && t.slots[t.ifree].End() == b
  }

  /** A request the callers may make: page-aligned, below 2^32 and of a real class. */
  predicate Request(b: nat, l: nat, f: Class) {
    b % PAGE_SIZE == 0 && l < 0x10_0000 && b + l * PAGE_SIZE < LIMIT && f != Unset
  }

  function AddNeed(t: Table, b: nat, l: nat, f: Class): nat
    requires Shaped(t)
  {
    if l == 0 || Merges(t, b, f) then 0 else 1
  }

  lemma UnsetExists(s: seq<Extent>)
    ensures |UnsetSlots(s)| > 0 <==> FirstUnset(s) < |s|
  {
    if FirstUnset(s) < |s| { assert FirstUnset(s) in UnsetSlots(s); }
    if i :| i in UnsetSlots(s) { assert s[i].flags == Unset; }
  }

  /** `add_extent` on memory that directly follows the `ifree` extent lengthens that extent. */
  lemma AddMerging(t: Table, b: nat, l: nat)
    requires WellFormed(t) && Request(b, l, Free) && l > 0 && Merges(t, b, Free)
    requires forall i :: 0 <= i < |t.slots| ==> t.slots[i].Misses(b, l)
    ensures var r := AddExtent(t, b, l, Free);
      WellFormed(r) && Painted(t.slots, r.slots, b, l, Free) && UnsetSlots(r.slots) == UnsetSlots(t.slots)
  {
    var s, k := t.slots, t.ifree;
    var e := s[k];
    assert e.length + l < 0x10_0000;
    var e' := e.(length := e.length + l);
    assert e'.End() == b + Bytes(l);
    forall j, a | 0 <= j < |s| && j != k && s[j].Covers(a) ensures !e'.Covers(a) {
      assert s[j].Misses(b, l) && !Overlap(s, j, k, a);
    }
    ReplaceSlot(t, k, e');
    var r := s[k := e'];
    forall a: int ensures ClassAt(r, a) == if b <= a < b + Bytes(l) then Free else ClassAt(s, a) {
      assert ClassAt(r, a) == Replaced(s, k, e', a);
      if e.Covers(a) { ClassOfCover(s, k, a); }
    }
    assert UnsetSlots(r) == UnsetSlots(s);
    assert AddExtent(t, b, l, Free).slots == r;
  }

  lemma AddToUnset(t: Table, b: nat, l: nat, f: Class)
    requires WellFormed(t) && Request(b, l, f) && l > 0 && FirstUnset(t.slots) < |t.slots|
    requires forall i :: 0 <= i < |t.slots| ==> t.slots[i].Misses(b, l)
    ensures var k := FirstUnset(t.slots); var r := t.slots[k := Extent(f, b, l)];
      && WellFormed(t.(slots := r)) && Painted(t.slots, r, b, l, f)
      && k in UnsetSlots(t.slots) && UnsetSlots(r) == UnsetSlots(t.slots) - {k}
  {
    var k := FirstUnset(t.slots);
    var e := Extent(f, b, l);
    forall j, a | 0 <= j < |t.slots| && t.slots[j].Covers(a) ensures !e.Covers(a) {
      assert t.slots[j].Misses(b, l);
    }
    ReplaceSlot(t, k, e);
    var r := t.slots[k := e];
    forall a: int ensures ClassAt(r, a) == if b <= a < b + Bytes(l) then f else ClassAt(t.slots, a) {
      assert ClassAt(r, a) == Replaced(t.slots, k, e, a);
    }
  }

  /** `add_extent` on untouched memory sets exactly that memory, or does nothing when it needs a
      slot and none is unset. */
  lemma AddExtentPaints(t: Table, b: nat, l: nat, f: Class)
    requires WellFormed(t) && Request(b, l, f)
    requires forall i :: 0 <= i < |t.slots| && l > 0 ==> t.slots[i].Misses(b, l)
    ensures var r := AddExtent(t, b, l, f);
      if |UnsetSlots(t.slots)| >= AddNeed(t, b, l, f) then
        && WellFormed(r) && Painted(t.slots, r.slots, b, l, f)
        && |UnsetSlots(r.slots)| == |UnsetSlots(t.slots)| - AddNeed(t, b, l, f)
      else r == t
  {
    UnsetExists(t.slots);
    if l > 0 {
      if Merges(t, b, f) {
        AddMerging(t, b, l);
      } else if FirstUnset(t.slots) < |t.slots| {
        AddToUnset(t, b, l, f);
      }
    }
  }

  lemma FirstUnsetSame(s: seq<Extent>, r: seq<Extent>)
    requires |r| == |s| && forall i :: 0 <= i < |s| ==> (r[i].flags == Unset <==> s[i].flags == Unset)
    ensures FirstUnset(r) == FirstUnset(s) && UnsetSlots(r) == UnsetSlots(s)
  {
  }

  /** Taking the first `l` pages off extent `p`. */
  lemma ShrinkClears(t: Table, p: nat, l: nat)
    requires WellFormed(t) && p < |t.slots| && t.slots[p].flags != Unset && t.slots[p].length > l
    ensures var r := Shrink(t.slots, p, l);
      && WellFormed(t.(slots := r)) && Painted(t.slots, r, t.slots[p].base, l, Unset)
      && UnsetSlots(r) == UnsetSlots(t.slots)
      && forall i :: 0 <= i < |r| ==> r[i].Misses(t.slots[p].base, l)
  {
    var s, e := t.slots, t.slots[p];
    var e' := Shrink(s, p, l)[p];
    var r := s[p := e'];
    NarrowSlot(t, p, e');
    forall a: int ensures ClassAt(r, a) == if e.base <= a < e.base + Bytes(l) then Unset else ClassAt(s, a) {
      assert ClassAt(r, a) == Replaced(s, p, e', a);
      if s[p].Covers(a) { ClassOfCover(s, p, a); }
    }
    FirstUnsetSame(s, r);
    forall i | 0 <= i < |r| ensures r[i].Misses(e.base, l) {
      if i != p { MissesCovered(s, i, p); }
    }
  }

  /** Two extents of a well-formed table: each lies wholly on one side of the other. */
  lemma MissesCovered(s: seq<Extent>, i: nat, p: nat)
    requires i < |s| && p < |s| && i != p && Disjoint(s)
    requires s[i].Sound() && s[p].Sound() && s[p].flags != Unset
    ensures s[i].flags != Unset ==> s[p].End() <= s[i].base || s[i].End() <= s[p].base
  {
    if s[i].flags != Unset && s[i].base < s[p].End() && s[p].base < s[i].End() {
      var a := if s[i].base < s[p].base then s[p].base else s[i].base;
      assert Overlap(s, i, p, a);
    }
  }

  function StartNeed(t: Table, p: nat, b: nat, l: nat, f: Class): nat
    requires Shaped(t) && p < |t.slots|
  {
    if MergeSlot(t.slots, b, f) < |t.slots| || t.slots[p].length <= l || l == 0 then 0 else 1
  }

  ghost predicate Placed(t: Table, r: Table, b: nat, l: nat, f: Class, need: nat) {
    if |UnsetSlots(t.slots)| >= need then WellFormed(r) && Painted(t.slots, r.slots, b, l, f)
    else !Painted(t.slots, r.slots, b, l, f)
  }

  lemma MergeSlotIs(t: Table, p: nat, b: nat, f: Class)
    requires WellFormed(t) && p < |t.slots| && t.slots[p].flags != Unset && t.slots[p].base == b
    ensures var k := MergeSlot(t.slots, b, f);
      && (k < |t.slots| ==> k != p && t.slots[k].flags == f != Unset && t.slots[k].End() == b)
      && (forall j :: 0 <= j < |t.slots| && t.slots[j].flags == f != Unset && t.slots[j].End() == b ==> k == j)
  {
    var s, k := t.slots, MergeSlot(t.slots, b, f);
    forall j | 0 <= j < |s| && s[j].flags == f != Unset && s[j].End() == b ensures k == j {
      assert s[j].Holds(b - PAGE_SIZE, 1);
      var i := Intersect(s, b - PAGE_SIZE, 1);
      assert Overlap(s, i, j, b - 1);
    }
  }

  lemma SetAtStartPaints(t: Table, p: nat, b: nat, l: nat, f: Class)
    requires WellFormed(t) && Request(b, l, f) && p < |t.slots|
    requires t.slots[p].Holds(b, l) && t.slots[p].base == b
    ensures Placed(t, SetAtStart(t, p, b, l, f), b, l, f, StartNeed(t, p, b, l, f))
  {
    var s, k := t.slots, MergeSlot(t.slots, b, f);
    var r := SetAtStart(t, p, b, l, f).slots;
    MergeSlotIs(t, p, b, f);
    if k < |s| {
      MergeAtStart(t, p, b, l, f, k);
    } else if s[p].length > l {
      ShrinkClears(t, p, l);
      var t1 := t.(slots := Shrink(s, p, l));
      AddExtentPaints(t1, b, l, f);
      if |UnsetSlots(s)| < StartNeed(t, p, b, l, f) {
        assert ClassAt(r, b) == Unset;
      } else {
        assert Painted(t1.slots, r, b, l, f);
        forall a: int ensures ClassAt(r, a) == if b <= a < b + Bytes(l) then f else ClassAt(s, a) {
          assert ClassAt(t1.slots, a) == if b <= a < b + Bytes(l) then Unset else ClassAt(s, a);
        }
      }
    } else {
      var e' := s[p].(length := l, flags := f);
      NarrowSlot(t, p, e');
      forall a: int ensures ClassAt(r, a) == if b <= a < b + Bytes(l) then f else ClassAt(s, a) {
        assert ClassAt(r, a) == Replaced(s, p, e', a);
      }
    }
  }

  /** The branch that lengthens the preceding extent and shrinks or consumes extent `p`. */
  lemma MergeAtStart(t: Table, p: nat, b: nat, l: nat, f: Class, k: nat)
    requires WellFormed(t) && Request(b, l, f) && p < |t.slots|
    requires t.slots[p].Holds(b, l) && t.slots[p].base == b
    requires k == MergeSlot(t.slots, b, f) < |t.slots| && k != p
    requires t.slots[k].flags == f && t.slots[k].End() == b
    ensures var r := SetAtStart(t, p, b, l, f); WellFormed(r) && Painted(t.slots, r.slots, b, l, f)
  {
    var s, r := t.slots, SetAtStart(t, p, b, l, f).slots;
    var ep := if s[p].length > l then Shrink(s, p, l)[p] else s[p].(flags := Unset);
    var s1 := s[p := ep];
    var t1 := t.(slots := s1);
    if s[p].length > l {
      ShrinkClears(t, p, l);
    } else {
      NarrowSlot(t, p, ep);
      forall a: int ensures ClassAt(s1, a) == if b <= a < b + Bytes(l) then Unset else ClassAt(s, a) {
        assert ClassAt(s1, a) == Replaced(s, p, ep, a);
      }
    }
    assert s[k].length + l < 0x10_0000;
    var ek := s[k].(length := s[k].length + l);
    forall j, a | 0 <= j < |s1| && j != k && s1[j].Covers(a) ensures !ek.Covers(a) {
      assert !Overlap(s1, j, k, a);
      if j != p { assert !Overlap(s, j, p, a); }
    }
    ReplaceSlot(t1, k, ek);
    assert r == s1[k := ek];
    forall a: int ensures ClassAt(r, a) == if b <= a < b + Bytes(l) then f else ClassAt(s, a) {
      assert ClassAt(r, a) == Replaced(s1, k, ek, a);
      if s[k].Covers(a) { ClassOfCover(s, k, a); }
    }
  }

  /** Slots the split branch needs: one for the request and one for the tail, except that a FREE
      request that lands in the `ifree` slot swallows a FREE tail. */
  function InsideNeed(t: Table, p: nat, b: nat, l: nat, f: Class): nat
    requires Shaped(t) && p < |t.slots|
  {
    var e := t.slots[p];
    var head := if l == 0 then 0 else 1;
    head + if e.End() <= b + Bytes(l) || Joined(t, p, l, f) then 0 else 1
  }

  /** Put an extent in the first unset slot, if there is one. */
  function Put(s: seq<Extent>, e: Extent): (r: seq<Extent>)
    ensures |r| == |s|
  {
    var k := FirstUnset(s);
    if k < |s| then s[k := e] else s
  }

  /** Extent `p` cut down to end at address `b`. */
  function Cut(s: seq<Extent>, p: nat, b: nat): (r: seq<Extent>)
    requires p < |s| && s[p].base <= b
    ensures |r| == |s|
  {
    s[p := s[p].(length := (b - s[p].base) / PAGE_SIZE)]
  }

  function Tail(e: Extent, b: nat, l: nat): nat
    requires e.base <= b
  {
    Wrap32(e.length - (l + (b - e.base) / PAGE_SIZE))
  }

  predicate Joined(t: Table, p: nat, l: nat, f: Class)
    requires p < |t.slots|
  {
    l > 0 && f == Free && t.slots[p].flags == Free && FirstUnset(t.slots) == t.ifree
  }

  /** The split branch again, with the old extent cut down before the new ones are placed. */
  function SplitParts(t: Table, p: nat, b: nat, l: nat, f: Class): seq<Extent>
    requires Shaped(t) && p < |t.slots| && t.slots[p].base <= b
  {
    var e, s0 := t.slots[p], Cut(t.slots, p, b);
    var rest := Tail(e, b, l);
    if Joined(t, p, l, f) then Put(s0, Extent(f, b, Wrap32(l + rest)))
    else
      var s1 := if l == 0 then s0 else Put(s0, Extent(f, b, l));
      if rest == 0 then s1 else Put(s1, Extent(e.flags, b + Bytes(l), rest))
  }

  /** Dropping everything of extent `p` from address `b` on. */
  lemma CutClears(t: Table, p: nat, b: nat)
    requires WellFormed(t) && p < |t.slots| && t.slots[p].flags != Unset && b % PAGE_SIZE == 0
    requires t.slots[p].base < b <= t.slots[p].End()
    ensures var r := Cut(t.slots, p, b); var l := t.slots[p].length - r[p].length;
      && WellFormed(t.(slots := r)) && Painted(t.slots, r, b, l, Unset)
      && UnsetSlots(r) == UnsetSlots(t.slots)
      && r[p].End() == b && b + l * PAGE_SIZE == t.slots[p].End()
      && forall i :: 0 <= i < |r| ==> r[i].Misses(b, l)
  {
    var s, e, r := t.slots, t.slots[p], Cut(t.slots, p, b);
    var e' := r[p];
    assert e'.length * PAGE_SIZE == b - e.base;
    NarrowSlot(t, p, e');
    forall a: int ensures ClassAt(r, a) == if b <= a < e.End() then Unset else ClassAt(s, a) {
      assert ClassAt(r, a) == Replaced(s, p, e', a);
      if s[p].Covers(a) { ClassOfCover(s, p, a); }
    }
    FirstUnsetSame(s, r);
    forall i | 0 <= i < |r| ensures r[i].Misses(b, e.length - e'.length) {
      if i != p { MissesCovered(s, i, p); }
    }
  }

  /** `Put` on untouched memory, with a slot to put it in. */
  lemma PutPaints(t: Table, e: Extent)
    requires WellFormed(t) && Request(e.base, e.length, e.flags) && e.length > 0
    requires forall i :: 0 <= i < |t.slots| ==> t.slots[i].Misses(e.base, e.length)
    requires |UnsetSlots(t.slots)| > 0
    ensures var r := Put(t.slots, e);
      && WellFormed(t.(slots := r)) && Painted(t.slots, r, e.base, e.length, e.flags)
      && |UnsetSlots(r)| == |UnsetSlots(t.slots)| - 1
  {
    UnsetExists(t.slots);
    AddToUnset(t, e.base, e.length, e.flags);
  }

  lemma PutLoses(s: seq<Extent>, e: Extent)
    requires |UnsetSlots(s)| == 0
    ensures Put(s, e) == s
  {
    UnsetExists(s);
  }

  /** In the split branch `add_extent` never lengthens an existing extent with the request. */
  lemma SplitHead(t: Table, p: nat, b: nat, l: nat, f: Class)
    requires WellFormed(t) && Request(b, l, f) && p < |t.slots|
    requires t.slots[p].Holds(b, l) && t.slots[p].base < b
    ensures AddExtent(t, b, l, f).slots == if l == 0 then t.slots else Put(t.slots, Extent(f, b, l))
    ensures AddExtent(t, b, l, f).slots[p] == t.slots[p]
  {
    if l > 0 && Merges(t, b, f) {
      assert Overlap(t.slots, t.ifree, p, b - 1);
    }
  }

  /** ... and lengthens one with the tail only if that one is the request just placed. */
  lemma SplitTail(t: Table, p: nat, b: nat, l: nat, f: Class)
    requires WellFormed(t) && Request(b, l, f) && p < |t.slots|
    requires t.slots[p].Holds(b, l) && t.slots[p].base < b
    requires Tail(t.slots[p], b, l) > 0
    ensures var u := AddExtent(t, b, l, f); var e := t.slots[p]; var b2 := b + Bytes(l);
      Merges(u, b2, e.flags) <==> Joined(t, p, l, f)
  {
    var s, e, b2 := t.slots, t.slots[p], b + Bytes(l);
    var u := AddExtent(t, b, l, f);
    SplitHead(t, p, b, l, f);
    assert b2 < e.End();
    if Merges(u, b2, e.flags) && u.slots[t.ifree] == s[t.ifree] {
      assert Overlap(s, t.ifree, p, b2 - 1);
    }
  }

  lemma PutCommutes(s: seq<Extent>, p: nat, e: Extent, x: Extent)
    requires p < |s| && s[p].flags != Unset && e.flags != Unset
    ensures Put(s, x)[p] == s[p] && Put(s, x)[p := e] == Put(s[p := e], x)
  {
    FirstUnsetSame(s, s[p := e]);
  }

  /** An extent in use may be lengthened, but keeps base and class. */
  lemma AddKeepsSlot(t: Table, p: nat, b: nat, l: nat, f: Class)
    requires Shaped(t) && p < |t.slots| && t.slots[p].flags != Unset
    ensures var e := AddExtent(t, b, l, f).slots[p]; e == t.slots[p].(length := e.length)
  {
  }

  lemma SetInsideIs(t: Table, p: nat, b: nat, l: nat, f: Class)
    requires Shaped(t) && p < |t.slots| && t.slots[p].base <= b && t.slots[p].flags != Unset
    requires AddExtent(t, b, l, f).slots[p] == t.slots[p]
    ensures SetInside(t, p, b, l, f).slots ==
      AddExtent(AddExtent(t, b, l, f), b + Bytes(l), Tail(t.slots[p], b, l), t.slots[p].flags).slots[p := Cut(t.slots, p, b)[p]]
  {
    var t1, e := AddExtent(t, b, l, f), t.slots[p];
    AddKeepsSlot(t1, p, b + Bytes(l), Tail(e, b, l), e.flags);
    hide AddExtent, Wrap32;
  }

  lemma SetInsideIsSplit(t: Table, p: nat, b: nat, l: nat, f: Class)
    requires WellFormed(t) && Request(b, l, f) && p < |t.slots|
    requires t.slots[p].Holds(b, l) && t.slots[p].base < b
    ensures SetInside(t, p, b, l, f).slots == SplitParts(t, p, b, l, f)
  {
    SplitHead(t, p, b, l, f);
    var e, s, u := t.slots[p], t.slots, AddExtent(t, b, l, f);
    SetInsideIs(t, p, b, l, f);
    hide SetInside, FirstUnset, Wrap32, ClassAt, WellFormed, MergeSlot;
    var cut := Cut(s, p, b)[p];
    var rest := Tail(e, b, l);
    var head, tail := Extent(f, b, l), Extent(e.flags, b + Bytes(l), rest);
    PutCommutes(s, p, cut, head);
    if rest > 0 {
      SplitTail(t, p, b, l, f);
      if !Joined(t, p, l, f) {
        PutCommutes(u.slots, p, cut, tail);
        assert AddExtent(u, tail.base, rest, e.flags).slots == Put(u.slots, tail);
      } else {
        assert AddExtent(u, tail.base, rest, e.flags).slots == Put(s, Extent(f, b, Wrap32(l + rest)));
        PutCommutes(s, p, cut, Extent(f, b, Wrap32(l + rest)));
      }
    } else {
      assert AddExtent(u, tail.base, rest, e.flags).slots == u.slots;
    }
  }

  lemma TailIs(t: Table, p: nat, b: nat, l: nat)
    requires WellFormed(t) && p < |t.slots| && b % PAGE_SIZE == 0 && l < 0x10_0000
    requires t.slots[p].Holds(b, l) && t.slots[p].base < b
    ensures var e := t.slots[p]; var rest := Tail(e, b, l);
      && l + rest == e.length - Cut(t.slots, p, b)[p].length && rest <= e.length
      && b + Bytes(l) + Bytes(rest) == e.End() == b + Bytes(l + rest)
      && (b + Bytes(l)) % PAGE_SIZE == 0
  {
    var e := t.slots[p];
    var adrm := (b - e.base) / PAGE_SIZE;
    assert adrm * PAGE_SIZE == b - e.base;
  }

  /** The state of the split after its first placement, when that finds a slot. */
  lemma SplitFirst(t: Table, p: nat, b: nat, l: nat, f: Class) returns (t1: Table, rest: nat)
    requires WellFormed(t) && Request(b, l, f) && p < |t.slots|
    requires t.slots[p].Holds(b, l) && t.slots[p].base < b
    requires l == 0 || |UnsetSlots(t.slots)| > 0
    ensures rest == Tail(t.slots[p], b, l) && t.slots[p].End() == b + Bytes(l) + Bytes(rest)
    ensures rest <= t.slots[p].length && (b + Bytes(l)) % PAGE_SIZE == 0
    ensures t1 == t.(slots := if l == 0 then Cut(t.slots, p, b) else Put(Cut(t.slots, p, b), Extent(f, b, l)))
    ensures WellFormed(t1) && |UnsetSlots(t1.slots)| == |UnsetSlots(t.slots)| - (if l == 0 then 0 else 1)
    ensures forall i :: 0 <= i < |t1.slots| ==> t1.slots[i].Misses(b + Bytes(l), rest)
    ensures forall a: int :: ClassAt(t1.slots, a) == if b <= a < b + Bytes(l) then f
                                                     else if b <= a < t.slots[p].End() then Unset
                                                     else ClassAt(t.slots, a)
  {
    var s, e, s0 := t.slots, t.slots[p], Cut(t.slots, p, b);
    t1 := t.(slots := if l == 0 then s0 else Put(s0, Extent(f, b, l)));
    rest := Tail(e, b, l);
    CutClears(t, p, b);
    TailIs(t, p, b, l);
    forall i | 0 <= i < |s0| ensures s0[i].Misses(b, l) && s0[i].Misses(b + Bytes(l), rest) {
      assert s0[i].Misses(b, l + rest);
    }
    if l > 0 {
      PutPaints(t.(slots := s0), Extent(f, b, l));
    }
  }

  lemma SplitJoined(t: Table, p: nat, b: nat, l: nat, f: Class)
    requires WellFormed(t) && Request(b, l, f) && p < |t.slots|
    requires t.slots[p].Holds(b, l) && t.slots[p].base < b && Joined(t, p, l, f)
    ensures var r := t.(slots := SplitParts(t, p, b, l, f));
      && WellFormed(r) && Painted(t.slots, r.slots, b, l, f)
      && |UnsetSlots(t.slots)| >= 1
  {
    var s, e, s0 := t.slots, t.slots[p], Cut(t.slots, p, b);
    var r := SplitParts(t, p, b, l, f);
    var all := l + Tail(e, b, l);
    CutClears(t, p, b);
    TailIs(t, p, b, l);
    UnsetExists(s);
    PutPaints(t.(slots := s0), Extent(f, b, all));
    assert r == Put(s0, Extent(f, b, all));
    hide Put, Cut, UnsetSlots, SplitParts;
    forall a: int ensures ClassAt(r, a) == if b <= a < b + Bytes(l) then f else ClassAt(s, a) {
      assert ClassAt(r, a) == if b <= a < b + Bytes(all) then f else ClassAt(s0, a);
      if b <= a < e.End() { ClassOfCover(s, p, a); }
    }
  }

  lemma PaintTail(s: seq<Extent>, s1: seq<Extent>, r: seq<Extent>, b: nat, l: nat, f: Class, rest: nat, g: Class)
    requires forall a: int :: b <= a < b + Bytes(l) + Bytes(rest) ==> ClassAt(s, a) == g
    requires forall a: int :: ClassAt(s1, a) == if b <= a < b + Bytes(l) then f
                                                else if b <= a < b + Bytes(l) + Bytes(rest) then Unset
                                                else ClassAt(s, a)
    requires Painted(s1, r, b + Bytes(l), rest, g)
    ensures Painted(s, r, b, l, f)
  {
  }

  lemma SplitPlaced(t: Table, p: nat, b: nat, l: nat, f: Class)
    requires WellFormed(t) && Request(b, l, f) && p < |t.slots|
    requires t.slots[p].Holds(b, l) && t.slots[p].base < b && !Joined(t, p, l, f)
    requires |UnsetSlots(t.slots)| >= InsideNeed(t, p, b, l, f)
    ensures var r := t.(slots := SplitParts(t, p, b, l, f)); WellFormed(r) && Painted(t.slots, r.slots, b, l, f)
  {
    hide Put, Cut, ClassAt, UnsetSlots;
    var t1, rest := SplitFirst(t, p, b, l, f);
    SplitSecond(t, t1, p, b, l, f, rest);
  }

  lemma SplitSecond(t: Table, t1: Table, p: nat, b: nat, l: nat, f: Class, rest: nat)
    requires WellFormed(t) && WellFormed(t1) && p < |t.slots| && Request(b, l, f)
    requires t.slots[p].Holds(b, l) && t.slots[p].base < b
    requires t.slots[p].End() == b + Bytes(l) + Bytes(rest) && rest <= t.slots[p].length
    requires (b + Bytes(l)) % PAGE_SIZE == 0 && (rest > 0 ==> |UnsetSlots(t1.slots)| > 0)
    requires forall i :: 0 <= i < |t1.slots| ==> t1.slots[i].Misses(b + Bytes(l), rest)
    requires forall a: int :: ClassAt(t1.slots, a) == if b <= a < b + Bytes(l) then f
                                                      else if b <= a < t.slots[p].End() then Unset
                                                      else ClassAt(t.slots, a)
    ensures var r := if rest == 0 then t1.slots else Put(t1.slots, Extent(t.slots[p].flags, b + Bytes(l), rest));
      WellFormed(t1.(slots := r)) && Painted(t.slots, r, b, l, f)
  {
    var s, s1, e := t.slots, t1.slots, t.slots[p];
    var r := if rest == 0 then s1 else Put(s1, Extent(e.flags, b + Bytes(l), rest));
    if rest > 0 {
      PutPaints(t1, Extent(e.flags, b + Bytes(l), rest));
    }
    forall a: int | b <= a < e.End() ensures ClassAt(s, a) == e.flags { ClassOfCover(s, p, a); }
    PaintTail(s, s1, r, b, l, f, rest, e.flags);
  }

  /** With too few unset slots the request or the tail of the split extent is lost. */
  lemma SplitLost(t: Table, p: nat, b: nat, l: nat, f: Class)
    requires WellFormed(t) && Request(b, l, f) && p < |t.slots|
    requires t.slots[p].Holds(b, l) && t.slots[p].base < b && !Joined(t, p, l, f)
    requires |UnsetSlots(t.slots)| < InsideNeed(t, p, b, l, f)
    ensures !Painted(t.slots, SplitParts(t, p, b, l, f), b, l, f)
  {
    var s, e, s0 := t.slots, t.slots[p], Cut(t.slots, p, b);
    var rest, b2 := Tail(e, b, l), b + Bytes(l);
    var r := SplitParts(t, p, b, l, f);
    var tail := Extent(e.flags, b2, rest);
    TailIs(t, p, b, l);
    CutClears(t, p, b);
    if |UnsetSlots(s)| == 0 {
      PutLoses(s0, Extent(f, b, l));
      PutLoses(s0, tail);
      ClassOfCover(s, p, b);
      assert ClassAt(r, b) == Unset;
    } else {
      var t1, r1 := SplitFirst(t, p, b, l, f);
      var s1 := t1.slots;
      PutLoses(s1, tail);
      ClassOfCover(s, p, b2);
      assert ClassAt(s1, b2) == Unset;
    }
  }

  lemma SetInsidePaints(t: Table, p: nat, b: nat, l: nat, f: Class)
    requires WellFormed(t) && Request(b, l, f) && p < |t.slots|
    requires t.slots[p].Holds(b, l) && t.slots[p].base < b
    ensures Placed(t, SetInside(t, p, b, l, f), b, l, f, InsideNeed(t, p, b, l, f))
  {
    SetInsideIsSplit(t, p, b, l, f);
    if Joined(t, p, l, f) {
      SplitJoined(t, p, b, l, f);
    } else if |UnsetSlots(t.slots)| < InsideNeed(t, p, b, l, f) {
      SplitLost(t, p, b, l, f);
    } else {
      SplitPlaced(t, p, b, l, f);
    }
  }

  /** Unset slots the request needs, told from the table before the call. */
  function Need(t: Table, b: nat, l: nat, f: Class): (n: nat)
    requires Shaped(t)
    ensures n <= 2
  {
    var p := Intersect(t.slots, b, l);
    if p == |t.slots| then AddNeed(t, b, l, f)
    else if b == t.slots[p].base then StartNeed(t, p, b, l, f)
    else InsideNeed(t, p, b, l, f)
  }

  /** The request lies inside one extent or touches none: the two cases `set_extent` is made for. */
  predicate Fits(s: seq<Extent>, b: nat, l: nat) {
    Intersect(s, b, l) < |s| || forall i :: 0 <= i < |s| ==> s[i].Misses(b, l)
  }

  /** `set_extent` refines the update of a map from addresses to classes, through every branch, and
      keeps the table well-formed, exactly when the table has the unset slots the branch needs. */
  lemma SetExtentRefines(t: Table, b: nat, l: nat, f: Class)
    requires WellFormed(t) && Request(b, l, f) && Fits(t.slots, b, l)
    ensures var r := SetExtent(t, b, l, f);
      && (Painted(t.slots, r.slots, b, l, f) <==> |UnsetSlots(t.slots)| >= Need(t, b, l, f))
      && (|UnsetSlots(t.slots)| >= Need(t, b, l, f) ==> WellFormed(r))
  {
    var p := Intersect(t.slots, b, l);
    if p == |t.slots| {
      AddExtentPaints(t, b, l, f);
      if |UnsetSlots(t.slots)| < AddNeed(t, b, l, f) {
        assert ClassAt(t.slots, b) == Unset;
      }
    } else if b == t.slots[p].base {
      SetAtStartPaints(t, p, b, l, f);
    } else {
      SetInsidePaints(t, p, b, l, f);
    }
  }
}
