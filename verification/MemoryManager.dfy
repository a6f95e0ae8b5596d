/** The memory manager (kernel/memory.cpp) in place: page directories and shadow index as arrays that
    `map_page` overwrites, and the two allocators. Every method is proved equal to the function of
    `Paging` or `Requests` that specifies it. */
module MemoryManagers {
  import opened Extents
  import opened Wrappers
  import opened PageAllocators
  import Allocation
  import Paging
  import Requests

  class MemoryManager {
    const vmm: PageAllocator
    const phymm: PageAllocator
    const dir: array<Paging.Entry>
    const idx: array<nat>
    var frames: map<nat, seq<Paging.Entry>>

    /** No page mapped: empty directories over two allocators. */
    constructor (virt: PageAllocator, phys: PageAllocator)
      requires virt.Valid() && phys.Valid() && virt != phys && virt.extent != phys.extent && virt.trie != phys.trie
      ensures Valid() && vmm == virt && phymm == phys && fresh(dir) && fresh(idx)
      ensures vmm.State() == old(virt.State()) && phymm.State() == old(phys.State())
      ensures forall t: nat :: t < LIMIT ==> Paging.HwWalk(Space(), t) == None
    {
      vmm, phymm, frames := virt, phys, map[];
      dir := new Paging.Entry[Paging.DIRS](i => Paging.NOT_PRESENT);
      idx := new nat[Paging.DIRS](i => 0);
    }

    ghost predicate Valid()
      reads this, vmm, phymm
    {
      && vmm.Valid() && phymm.Valid() && vmm != phymm
      && vmm.extent != phymm.extent && vmm.trie != phymm.trie
      && dir.Length == idx.Length == Paging.DIRS
    }

    ghost function Repr(): set<object> {
      {this, dir, idx, vmm, vmm.extent, vmm.trie, phymm, phymm.extent, phymm.trie}
    }

    ghost function Space(): (s: Paging.Space)
      reads this, dir, idx
    {
      Paging.Space(dir[..], idx[..], frames)
    }

    ghost function State(): (s: Requests.Sys)
      reads this, vmm, phymm
      reads Repr()
      ensures Valid() ==> Requests.Ready(s)
    {
      Requests.Sys(vmm.State(), phymm.State(), Space())
    }

    /** The hardware walk, which memory accesses through a virtual address go through. */
    method Walk(t: nat) returns (frame: Option<nat>)
      requires Valid() && t < LIMIT
      ensures frame == Paging.HwWalk(Space(), t)
    {
      var e := dir[Paging.Slot(t)];
      if !e.Present() { return None; }
      if e.Large() { return Some(e.addr + t % Paging.LARGE_SIZE / PAGE_SIZE * PAGE_SIZE); }
      var table := if e.addr in frames && |frames[e.addr]| == 512 then frames[e.addr] else Paging.Cleared();
      var p := table[Paging.TableOfs(t)];
      return if p.Present() then Some(p.addr) else None;
    }

    method ReadTable(ptr: nat) returns (table: seq<Paging.Entry>)
      requires Valid() && ptr < LIMIT
      ensures table == Paging.TableAt(Space(), ptr)
    {
      var frame := Walk(ptr);
      match frame
      case Some(m) =>
        table := if m in frames && |frames[m]| == 512 then frames[m] else Paging.Cleared();
      case None =>
        table := Paging.Cleared();
    }

    method WriteTable(ptr: nat, table: seq<Paging.Entry>)
      requires Valid() && ptr < LIMIT && |table| == 512
      modifies this`frames
      ensures Space() == Paging.StoreTable(old(Space()), ptr, table)
    {
      var frame := Walk(ptr);
      match frame
      case Some(m) => frames := frames[m := table];
      case None =>
    }

    method TranslatePage(t: nat) returns (r: nat)
      requires Valid() && t < LIMIT && idx[Paging.Slot(t)] < LIMIT
      ensures r == Paging.TranslatePage(Space(), t)
    {
      var ofs := Paging.Slot(t);
      var tablebase := dir[ofs];
      if !tablebase.Present() { return 0; }
      if tablebase.Large() { return Wrap32(tablebase.addr) / Paging.LARGE_SIZE * Paging.LARGE_SIZE + t % Paging.LARGE_SIZE; }
      var ptptr := idx[ofs];
      if ptptr == 0 { return 0; }
      var table := ReadTable(ptptr);
      return Wrap32(table[Paging.TableOfs(t)].addr) + t % PAGE_SIZE;
    }

    method EnsureTable(ofs: nat)
      requires Valid() && ofs < Paging.DIRS
      modifies this`frames, idx, vmm`ifree, vmm.extent, vmm.trie
      ensures Valid() && (vmm.State(), Space()) == Paging.EnsureTable(old(vmm.State()), old(Space()), ofs)
      ensures dir[..] == old(dir[..])
    {
      if idx[ofs] == 0 {
        var p := vmm.AllocateRes(1, Alloc);
        idx[ofs] := p;
        if p < LIMIT {
          var table := ReadTable(p);
          var x := 0;
          while x < 512
            invariant x <= 512 == |table|
            invariant forall k :: 0 <= k < x ==> table[k] == Paging.NOT_PRESENT
          {
            table := table[x := Paging.NOT_PRESENT];
            x := x + 1;
          }
          assert table == Paging.Cleared();
          WriteTable(p, table);
        }
      }
    }

    method MapPage(phy: nat, t: nat, f: nat)
      requires Valid() && t < LIMIT
      modifies this`frames, dir, idx, vmm`ifree, vmm.extent, vmm.trie
      ensures Valid() && (vmm.State(), Space()) == Paging.MapPage(old(vmm.State()), old(Space()), phy, t, f)
    {
      var ofs := Paging.Slot(t);
      var tablebase := dir[ofs];
      if tablebase.Present() && tablebase.Large() { return; }
      EnsureTable(ofs);
      var ptptr := idx[ofs];
      if ptptr >= LIMIT || idx[Paging.Slot(ptptr)] >= LIMIT { return; }
      if !tablebase.Present() {
        var frame := TranslatePage(ptptr);
        dir[ofs] := Paging.Entry(frame, Paging.PRESENT_WRITABLE);
      }
      var table := ReadTable(ptptr);
      WriteTable(ptptr, table[Paging.TableOfs(t) := Paging.Entry(phy, Paging.PteFlags(f))]);
    }

    /** One turn of either mapping loop. */
    method MapFresh(t: nat, f: nat) returns (ok: bool)
      requires Valid() && t < LIMIT
      modifies Repr()
      ensures Valid() && (State(), ok) == Requests.MapFresh(old(State()), t, f)
    {
      var ph := phymm.Allocate(1, Alloc);
      if ph == 0 { return false; }
      MapPage(ph, t, f);
      return true;
    }

    /** The loop that maps the new reserve. */
    method MapReserve(bu: nat, pgsr: nat) returns (ok: bool)
      requires Valid() && bu < LIMIT
      modifies Repr()
      ensures Valid() && (State(), ok) == Requests.MapRun(old(State()), bu, pgsr, Requests.WRITABLE)
    {
      hide Requests.MapRun, Requests.MapFresh;
      var t: nat, left: nat := bu, pgsr;
      while left > 0
        invariant Valid() && t < LIMIT
        invariant Requests.MapRun(State(), t, left, Requests.WRITABLE)
               == Requests.MapRun(old(State()), bu, pgsr, Requests.WRITABLE)
      {
        Requests.MapRunStep(State(), t, left, Requests.WRITABLE);
        ok := MapFresh(t, Requests.WRITABLE);
        if !ok { return; }
        t, left := Wrap32(t + PAGE_SIZE), left - 1;
      }
      Requests.RunNone(State(), t, Requests.WRITABLE);
      ok := true;
    }

    /** The loop that maps the pages asked for; it tests after each turn. */
    method MapRange(bega: nat, enda: nat, f: nat) returns (ok: bool)
      requires Valid() && bega <= enda < LIMIT && (enda - bega) % PAGE_SIZE == 0
      modifies Repr()
      ensures Valid()
      ensures (State(), ok) == Requests.MapRun(old(State()), bega, Requests.Turns(bega, enda), f)
    {
      hide Requests.MapRun, Requests.MapFresh;
      var t: nat, more := bega, true;
      ghost var left: nat := Requests.Turns(bega, enda);
      while more
        invariant Valid() && t < LIMIT && (more <==> left > 0)
        invariant more ==> Requests.Turns(t, enda) == left
        invariant more && bega == enda ==> t == bega || t < enda
        invariant (enda - t) % PAGE_SIZE == 0
        invariant Requests.MapRun(State(), t, left, f)
               == Requests.MapRun(old(State()), bega, Requests.Turns(bega, enda), f)
        decreases left
      {
        Requests.MapRunStep(State(), t, left, f);
        ok := MapFresh(t, f);
        if !ok { return; }
        t, left := Wrap32(t + PAGE_SIZE), left - 1;
        more := t < enda;
      }
      Requests.RunNone(State(), t, f);
      ok := true;
    }

    /** The part of `vmm_request` that chooses the virtual range. */
    method ChooseRange(sz: nat) returns (bega: nat, enda: nat)
      requires Valid()
      modifies vmm`ifree, vmm.extent, vmm.trie
      ensures Valid() && bega < LIMIT && enda < LIMIT && (enda - bega) % PAGE_SIZE == 0
      ensures var plan := Requests.PlanOf(old(State()), sz);
        State() == old(State()).(vmm := plan.v1) && bega == plan.bega && enda == plan.enda
    {
      hide Requests.CountPageStructs, Allocation.Allocate, Wrap32;
      var pgc := sz / PAGE_SIZE;
      if sz % PAGE_SIZE != 0 { pgc := pgc + 1; }
      bega := vmm.Allocate(pgc, Alloc);
      bega := Wrap32(bega);
      enda := Wrap32(bega + Bytes(pgc));
      Requests.WholePages(bega, pgc);
    }

    /** The part of `vmm_request` that maps new reserve pages for the page tables of the range. `s0` is
        the state before the request, `plan` what the request has to do there. */
    method GrowReserve(bega: nat, enda: nat, ghost s0: Requests.Sys, ghost sz: nat, ghost plan: Requests.Plan)
      returns (ok: bool)
      requires Valid() && Requests.Ready(s0) && plan == Requests.PlanOf(s0, sz)
      requires State() == s0.(vmm := plan.v1) && bega == plan.bega <= enda == plan.enda
      modifies Repr()
      ensures Valid()
      ensures ok && plan.grows ==> plan.bu != 0
      ensures ok ==> (State(), true) == Requests.MapRun(s0.(vmm := plan.v2), plan.bu, plan.count, Requests.WRITABLE)
      ensures !ok ==> (if plan.grows && plan.bu == 0 then State() == s0.(vmm := plan.v2)
        else (State(), false) == Requests.MapRun(s0.(vmm := plan.v2), plan.bu, plan.count, Requests.WRITABLE))
    {
      hide Requests.MapRun, Requests.CountPageStructs, Allocation.Allocate, FirstOfType, Wrap32;
      var pgsr := Requests.CountPageStructs(Paging.Space(dir[..], idx[..], frames), bega, (enda - bega) / PAGE_SIZE);
      if pgsr == 0 {
        Requests.RunNone(State(), 0, Requests.WRITABLE);
        return true;
      }
      var preext := vmm.FindTypeExtent(1, Pre);
      if preext == MAX_EXT { pgsr := Wrap32(pgsr + 8); }
      var bu := vmm.Allocate(pgsr, Pre);
      bu := Wrap32(bu);
      if bu == 0 { return false; }
      ok := MapReserve(bu, pgsr);
    }

    /** `vmm_request` for memory, neither large nor hinted. */
    method VmmRequest(sz: nat, flag: nat) returns (hint: nat)
      requires Valid()
      modifies Repr()
      ensures Valid() && (State(), hint) == Requests.VmmRequest(old(State()), sz, flag)
    {
      hide Requests.MapRun, Requests.PlanOf, Requests.Turns;
      var mapflag := 0;
      if Requests.Has(flag, Requests.RQ_RW) { mapflag := mapflag + 2; }
      if Requests.Has(flag, Requests.RQ_RCD) { mapflag := mapflag + 16; }
      if Requests.Has(flag, Requests.RQ_WCD) { mapflag := mapflag + 8; }
      ghost var s0, plan := State(), Requests.PlanOf(State(), sz);
      var bega, enda := ChooseRange(sz);
      if enda < bega { return 0; }
      hint := bega;
      var ok := GrowReserve(bega, enda, s0, sz, plan);
      if !ok { return 0; }
      ok := MapRange(bega, enda, mapflag);
      if !ok { return 0; }
    }
  }
}
