/** `PageAllocator` (kernel/memory.cpp) in place: one extent table held in an array, the index
    `ifree`, and the trie array. Every method is proved equal to the update of `Extents`,
    `Allocation` or `Trie` that specifies it. */
module PageAllocators {
  import opened Extents
  import Allocation
  import Trie

  class PageAllocator {
    const extent: array<Extent>
    const trie: array<Trie.Node>
    var ifree: nat

    ghost predicate Valid()
      reads this
    {
      extent.Length == MAX_EXT && trie.Length == Trie.MAX_TRIE && ifree < MAX_EXT
    }

    ghost function State(): Table
      reads this, extent
    {
      Table(extent[..], ifree)
    }

    constructor ()
      ensures Valid() && fresh(extent) && fresh(trie)
      ensures WellFormed(State()) && (forall a :: ClassAt(State().slots, a) == Unset)
      ensures trie[..] == Trie.Initial()
    {
      extent := new Extent[MAX_EXT](i => Extent(Unset, 0xffff_ffff_ffff_ffff, 0xffff_ffff));
      trie := new Trie.Node[Trie.MAX_TRIE](i => Trie.Init(Trie.Vacant));
      ifree := 0;
      new;
      trie[0] := Trie.Init(Trie.Mask2);
      assert trie[..] == Trie.Initial();
    }

    method NextEmptyExtent() returns (k: nat)
      requires Valid()
      ensures k == FirstUnset(extent[..])
    {
      k := 0;
      while k < MAX_EXT && extent[k].flags != Unset
        invariant k <= MAX_EXT
        invariant forall j :: 0 <= j < k ==> extent[..][j].flags != Unset
      {
        k := k + 1;
      }
      assert k < MAX_EXT ==> extent[..][k].flags == Unset;
    }

    method FindTypeExtent(l: nat, f: Class) returns (k: nat)
      requires Valid()
      ensures k == FirstOfType(extent[..], l, f)
    {
      k := 0;
      while k < MAX_EXT && !(extent[k].flags == f && extent[k].length >= l)
        invariant k <= MAX_EXT
        invariant forall j :: 0 <= j < k ==> !(extent[..][j].flags == f && extent[..][j].length >= l)
      {
        k := k + 1;
      }
      assert k < MAX_EXT ==> extent[..][k].flags == f && extent[..][k].length >= l;
    }

    method IntersectExtent(b: nat, l: nat) returns (k: nat)
      requires Valid()
      ensures k == Intersect(extent[..], b, l)
    {
      k := 0;
      while k < MAX_EXT && !extent[k].Holds(b, l)
        invariant k <= MAX_EXT
        invariant forall j :: 0 <= j < k ==> !extent[..][j].Holds(b, l)
      {
        k := k + 1;
      }
      assert k < MAX_EXT ==> extent[..][k].Holds(b, l);
    }

    method FindFreeExtent(l: nat)
      requires Valid()
      modifies this`ifree
      ensures Valid() && State() == FindFree(old(State()), l)
    {
      var k := FindTypeExtent(l, Free);
      if k < MAX_EXT { ifree := k; }
    }

    method AddExtent(b: nat, l: nat, f: Class)
      requires Valid()
      modifies extent
      ensures State() == Extents.AddExtent(old(State()), b, l, f)
    {
      if l == 0 || f == Unset { return; }
      var pfree := extent[ifree];
      if f == Free && pfree.flags == Free && pfree.End() == b {
        extent[ifree] := pfree.(length := Wrap32(pfree.length + l));
        return;
      }
      var k := NextEmptyExtent();
      if k < MAX_EXT { extent[k] := Extent(f, b, l); }
    }

    /** The loop walks from the root, following or making one link a turn. */
    method SetTrieExtent(b: nat, l: nat, f: Class)
      requires Valid()
      modifies trie
      ensures trie[..] == Trie.Insert(old(trie[..]), 0, 32, b, f, l)
    {
      var scan: nat, index: nat := 32, 0;
      while scan > 12
        invariant index < Trie.MAX_TRIE
        invariant Trie.Insert(trie[..], index, scan, b, f, l) == Trie.Insert(old(trie[..]), 0, 32, b, f, l)
        decreases scan
      {
        index, scan := TrieTurn(index, scan, b, l, f);
      }
    }

    method TrieTurn(index: nat, scan: nat, b: nat, l: nat, f: Class) returns (index': nat, scan': nat)
      requires Valid() && index < Trie.MAX_TRIE && scan > 12
      modifies trie
      ensures (trie[..], index', scan') == Trie.Step(old(trie[..]), index, scan, b, f, l)
      ensures index' < Trie.MAX_TRIE && scan' < scan
    {
      hide Trie.Digit, Trie.FindDigit, Trie.FindFreeRef, Trie.FirstVacant, Trie.ChildKind, Trie.Pow2;
      var n := trie[index];
      var w := Trie.Width(n.kind);
      index', scan' := index, 0;
      if w > 0 {
        var digit := Trie.Digit(b, scan - w, w);
        var p := Trie.Position(n, digit);
        if p < 8 && n.ref[p] != 0 {
          index', scan' := (n.ref[p] + index) % Trie.MAX_TRIE, scan - w;
        } else if p < 8 {
          trie[index] := Trie.Mark(n, p, digit);
          var k := FirstVacantNode();
          if k < Trie.MAX_TRIE {
            trie[k] := Trie.NewChild(n.kind, scan - w, f, l);
            trie[index] := trie[index].(ref := trie[index].ref[p := (k - index) % Trie.MAX_TRIE]);
            index', scan' := k, scan - w;
          }
        }
      }
    }

    method FirstVacantNode() returns (k: nat)
      requires Valid()
      ensures k == Trie.FirstVacant(trie[..])
    {
      k := 0;
      while k < Trie.MAX_TRIE && trie[k].kind != Trie.Vacant
        invariant k <= Trie.MAX_TRIE
        invariant forall j :: 0 <= j < k ==> trie[..][j].kind != Trie.Vacant
      {
        k := k + 1;
      }
      assert k < Trie.MAX_TRIE ==> trie[..][k].kind == Trie.Vacant;
    }

    method SetExtent(b: nat, l: nat, f: Class)
      requires Valid()
      modifies this`ifree, extent, trie
      ensures Valid() && State() == Extents.SetExtent(old(State()), b, l, f)
      ensures trie[..] == Trie.Insert(old(trie[..]), 0, 32, b, f, l)
    {
      SetTrieExtent(b, l, f);
      ghost var s := extent[..];
      var p := IntersectExtent(b, l);
      if p < MAX_EXT {
        if b == extent[p].base {
          SetAtStart(p, b, l, f);
        } else {
          SetInside(p, b, l, f);
        }
      } else {
        AddExtent(b, l, f);
      }
      assert State() == Place(Table(s, ifree), b, l, f);
      if extent[ifree].flags != Free { FindFreeExtent(0); }
    }

    method SetInside(p: nat, b: nat, l: nat, f: Class)
      requires Valid() && p < MAX_EXT && extent[p].base <= b
      modifies extent
      ensures State() == Extents.SetInside(old(State()), p, b, l, f)
    {
      var adrm := (b - extent[p].base) / PAGE_SIZE;
      AddExtent(b, l, f);
      AddExtent(b + Bytes(l), Wrap32(extent[p].length - (l + adrm)), extent[p].flags);
      extent[p] := extent[p].(length := adrm);
    }

    method SetAtStart(p: nat, b: nat, l: nat, f: Class)
      requires Valid() && p < MAX_EXT
      modifies extent
      ensures State() == Extents.SetAtStart(old(State()), p, b, l, f)
    {
      var prev := MAX_EXT;
      if b >= PAGE_SIZE { prev := IntersectExtent(b - PAGE_SIZE, 1); }
      if prev < MAX_EXT && extent[prev].End() == b && extent[prev].flags == f {
        assert prev == MergeSlot(extent[..], b, f);
        MergeInto(prev, p, l);
      } else if extent[p].length > l {
        ShrinkSlot(p, l);
        AddExtent(b, l, f);
      } else {
        extent[p] := extent[p].(length := l, flags := f);
      }
    }

    /** Extent `prev` takes over the first `l` pages of extent `p`. */
    method MergeInto(prev: nat, p: nat, l: nat)
      requires Valid() && p < MAX_EXT && prev < MAX_EXT
      modifies extent
      ensures var s := old(extent[..])[prev := old(extent[prev]).(length := Wrap32(old(extent[prev]).length + l))];
        extent[..] == if s[p].length > l then Shrink(s, p, l) else s[p := s[p].(flags := Unset)]
    {
      extent[prev] := extent[prev].(length := Wrap32(extent[prev].length + l));
      if extent[p].length > l {
        ShrinkSlot(p, l);
      } else {
        extent[p] := extent[p].(flags := Unset);
      }
    }

    method ShrinkSlot(p: nat, l: nat)
      requires Valid() && p < MAX_EXT && extent[p].length >= l
      modifies extent
      ensures extent[..] == Shrink(old(extent[..]), p, l)
    {
      extent[p] := extent[p].(length := extent[p].length - l, base := extent[p].base + Bytes(l));
    }

    method AllocateRes(l: nat, f: Class) returns (mm: nat)
      requires Valid()
      modifies this`ifree, extent, trie
      ensures Valid() && (State(), mm) == Allocation.AllocateRes(old(State()), l, f)
    {
      var te := FindTypeExtent(l, Pre);
      if te < MAX_EXT && extent[te].length >= l {
        mm := extent[te].base;
        SetExtent(mm, l, f);
        return;
      }
      return 0;
    }

    method Allocate(l: nat, f: Class) returns (mm: nat)
      requires Valid()
      modifies this`ifree, extent, trie
      ensures Valid() && (State(), mm) == Allocation.Allocate(old(State()), l, f)
    {
      hide Extents.SetExtent, FirstOfType;
      if extent[ifree].flags != Free {
        FindFreeExtent(l);
        if extent[ifree].flags != Free { return 0; }
      }
      if extent[ifree].length >= l {
        mm := extent[ifree].base;
        SetExtent(mm, l, f);
        return;
      }
      FindFreeExtent(l);
      if extent[ifree].length >= l && extent[ifree].flags == Free {
        mm := extent[ifree].base;
        SetExtent(mm, l, f);
        return;
      }
      FindFreeExtent(0);
      return 0;
    }
  }
}
