/** Where `vmm_request` (kernel/memory.cpp) does not do what one would expect, and exactly when it does: requests
    for no memory, page tables taken from pages not yet mapped, and requests that find no virtual range. */
module RequestFaults {
  import opened Extents
  import opened Wrappers
  import opened Allocation
  import opened Paging
  import opened Requests
  import opened RequestOutcomes

  // ----- A request for no memory -----

  /** Allocating no pages finds a FREE extent and takes nothing from it. */
  lemma NoPagesAllocated(v: Table) returns (k: nat)
    requires WellFormed(v) && ClassAt(v.slots, 0) == Unset && Allocate(v, 0, Alloc).1 != 0
    ensures k < |v.slots| && v.slots[k].flags == Free && v.slots[k].length > 0
    ensures Allocate(v, 0, Alloc) == (v.(ifree := k), v.slots[k].base)
    ensures IsPage(v.slots[k].base) && v.slots[k].base + PAGE_SIZE < LIMIT && ClassAt(v.slots, v.slots[k].base) == Free
  {
    FreeNotZero(v);
    var t1;
    k, t1 := Chosen(v, 0, Alloc);
    TakeNothing(t1, k, Alloc);
    assert v.slots[k].Sound();
    ClassOfCover(v.slots, k, v.slots[k].base);
  }

  lemma FreeIsMappable(s: Sys, t: nat)
    requires Sound(s, 0, 0) && IsPage(t) && View(s.vmm)(t) == Free
    ensures Mappable(Of(s), 0, 0, t)
  {
    assert !LargeAt(s.space, t);
    TablesAllocated(Of(s), 0, 0, t);
  }

  lemma PlanOfNothing(s: Sys) returns (k: nat)
    requires Sound(s, 0, 0) && !PlanOf(s, 0).grows && PlanOf(s, 0).bega != 0
    ensures k < |s.vmm.slots| && s.vmm.slots[k].flags == Free && s.vmm.slots[k].length > 0
    ensures var b := s.vmm.slots[k].base;
      && IsPage(b) && b + PAGE_SIZE < LIMIT && ClassAt(s.vmm.slots, b) == Free && !NeedsTable(s.space, b)
      && PlanOf(s, 0) == Plan(s.vmm.(ifree := k), b, b, false, 0, s.vmm.(ifree := k), 0)
  {
    assert Allocate(s.vmm, 0, Alloc).1 != 0;
    k := NoPagesAllocated(s.vmm);
    var b := s.vmm.slots[k].base;
    CountNothing(s, b);
    hide Allocate, CountPageStructs, Sound, NeedsTable;
    assert Wrap32(b) == b && PagesOf(0) == 0;
  }

  lemma CountNothing(s: Sys, b: nat)
    requires Sound(s, 0, 0) && IsPage(b) && b + PAGE_SIZE < LIMIT && View(s.vmm)(b) == Free
    ensures CountPageStructs(s.space, b, 0) == if NeedsTable(s.space, b) then 1 else 0
  {
    FreeIsMappable(s, b);
  }

  /** Why a request must be for some memory: one for no bytes that succeeds maps a page and returns
      it, yet the page stays FREE and is the very page the next one-page allocation hands out. */
  lemma ZeroSizeRequest(s: Sys, flag: nat)
    requires Sound(s, 0, 0) && !PlanOf(s, 0).grows && VmmRequest(s, 0, flag).1 != 0
    ensures var (r, b) := VmmRequest(s, 0, flag);
      && IsPage(b) && View(r.vmm)(b) == Free && HwWalk(r.space, b).Some?
      && Allocate(r.vmm, 1, Alloc).1 == b
  {
    var p, f := PlanOf(s, 0), MapFlag(flag);
    FillStarts(s, p, f);
    var k := PlanOfNothing(s);
    assert MapRun(s.(vmm := p.v1), p.bega, 1, f) == (VmmRequest(s, 0, flag).0, true);
    FreePageMapped(s, k, f);
  }

  /** FREE page `b`, the start of slot `k`, is mapped and stays FREE. */
  lemma FreePageMapped(s: Sys, k: nat, f: nat)
    requires Sound(s, 0, 0) && k < |s.vmm.slots| && s.vmm.slots[k].flags == Free && s.vmm.slots[k].length > 0
    requires var b := s.vmm.slots[k].base; IsPage(b) && b > 0 && b + PAGE_SIZE < LIMIT && ClassAt(s.vmm.slots, b) == Free
    requires !NeedsTable(s.space, s.vmm.slots[k].base)
    requires MapRun(s.(vmm := s.vmm.(ifree := k)), s.vmm.slots[k].base, 1, f).1
    ensures var b, s1 := s.vmm.slots[k].base, s.(vmm := s.vmm.(ifree := k)); var r := MapRun(s1, b, 1, f).0;
      View(r.vmm)(b) == Free && HwWalk(r.space, b).Some? && Allocate(r.vmm, 1, Alloc).1 == b
  {
    var b, s1 := s.vmm.slots[k].base, s.(vmm := s.vmm.(ifree := k));
    GrantSafe(Of(s), Of(s1), b, 0, Alloc, 0, 0);
    FreeIsMappable(s1, b);
    MapRunStep(s1, b, 1, f);
    RunNone(MapFresh(s1, b, f).0, Wrap32(b + PAGE_SIZE), f);
    hide MapRun, MapFresh;
    MapFreshExact(s1, 0, 0, 0, b, f);
    hide Sound, Safe;
    assert FreshFrame(Of(s1), Of(MapFresh(s1, b, f).0), b, f);
  }

  /** A page that is allocated only if it is a page table. */
  ghost predicate Unowned(s: Sys, b: nat)
    requires Ready(s)
  {
    ClassAt(s.vmm.slots, b) == Free || ClassAt(s.vmm.slots, b) == Pre
    || (ClassAt(s.vmm.slots, b) == Alloc && IsTable(s.space, b))
  }

  /** What `map_page` does to extent table and shadow index, mapped or not. */
  lemma TableTaken(v: Table, s: Space, phy: nat, t: nat, f: nat)
    requires Shaped(v) && Paging.Sized(s) && t < LIMIT
    ensures var (v1, r) := MapPage(v, s, phy, t, f); var p := AllocateRes(v, 1, Alloc).1;
      if NeedsTable(s, t) && !LargeAt(s, t) then v1 == AllocateRes(v, 1, Alloc).0 && r.idx == s.idx[Slot(t) := p]
      else v1 == v && r.idx == s.idx
  {
    hide AllocateRes, TableAt, TranslatePage;
  }

  /** The turn of the last loop for page `b` leaves it without an owner. */
  lemma LastTurn(s: Sys, b: nat, f: nat)
    requires Sound(s, 0, 0) && IsPage(b) && Unowned(s, b) && MapRun(s, b, 1, f).1
    requires NeedsTable(s.space, b) ==> ClassAt(s.vmm.slots, b) == Free && PageInReserve(s.vmm, 0, 0)
    ensures Unowned(MapRun(s, b, 1, f).0, b)
  {
    MapRunStep(s, b, 1, f);
    var s1 := MapFresh(s, b, f).0;
    RunNone(s1, Wrap32(b + PAGE_SIZE), f);
    TableTaken(s.vmm, s.space, Allocate(s.phy, 1, Alloc).1, b, f);
    hide MapRun, MapPage, AllocateRes, Allocate, Sound;
    if NeedsTable(s.space, b) && !LargeAt(s.space, b) {
      SoundParts(s);
      var v1 := TakenElsewhere(s.vmm, 0, 0, b);
    }
  }

  lemma SoundParts(s: Sys)
    requires Sound(s, 0, 0)
    ensures WellFormed(s.vmm) && ClassAt(s.vmm.slots, 0) == Unset
  {
    assert View(s.vmm)(0) == ClassAt(s.vmm.slots, 0);
  }

  /** A page FREE before the reserve grew is FREE or reserve now, or a page table; if it is not FREE, its
      directory slot has a table. */
  lemma UnownedAfterGrowth(s1: Sys, p: Plan, s2: Sys)
    requires Planned(s1, p) && Ready(s2) && IsPage(p.bega) && ClassAt(p.v1.slots, p.bega) == Free
    requires TakenAsTables(View(p.v2), View(s2.vmm), s1.space, s2.space) && PreTaken(View(p.v2), View(s2.vmm))
    requires Forecast(s2) == FetchAll(FirstSupply(s1, p), p.bu, p.count)
    ensures Unowned(s2, p.bega) && (NeedsTable(s2.space, p.bega) ==> ClassAt(s2.vmm.slots, p.bega) == Free)
  {
    var b := p.bega;
    assert View(p.v1)(b) == ClassAt(p.v1.slots, b) && View(p.v2)(b) == ClassAt(p.v2.slots, b);
    assert View(s2.vmm)(b) == ClassAt(s2.vmm.slots, b);
    assert ClassAt(p.v2.slots, b) == if p.grows && InRange(p.bu, p.count, b) then Pre else Free;
    if p.grows && InRange(p.bu, p.count, b) {
      FetchedSlots(FirstSupply(s1, p), p.bu, p.count, b);
      TablelessAt(s2.space, b);
    }
  }

  /** A request for no memory returns a page it does not own. */
  lemma NothingOwned(s: Sys, flag: nat)
    requires Sound(s, 0, 0) && Supplied(s, 0) && VmmRequest(s, 0, flag).1 != 0
    ensures var (r, b) := VmmRequest(s, 0, flag); Unowned(r, b)
  {
    var p, f := PlanOf(s, 0), MapFlag(flag);
    FillStarts(s, p, f);
    PlanGranted(s, 0);
    var k := NoPagesAllocated(s.vmm);
    assert View(s.vmm)(p.bega) == Free && View(p.v1)(p.bega) == ClassAt(p.v1.slots, p.bega);
    assert Turns(p.bega, p.enda) == 1;
    assert s.(vmm := p.v2) == s.(vmm := p.v1).(vmm := p.v2);
    GrownThenTurned(s.(vmm := p.v1), p, f);
  }

  lemma GrownThenTurned(s1: Sys, p: Plan, f: nat)
    requires Ready(s1) && Planned(s1, p) && TablesAtHand(s1, p, 1) && IsPage(p.bega) && ClassAt(p.v1.slots, p.bega) == Free
    requires Slotted(FirstSupply(s1, p), p.bu, p.count) && Slotted(SecondSupply(s1, p), p.bega, 1)
    requires var first := MapRun(s1.(vmm := p.v2), p.bu, p.count, WRITABLE);
      first.1 && MapRun(first.0, p.bega, 1, f).1
    ensures Unowned(MapRun(MapRun(s1.(vmm := p.v2), p.bu, p.count, WRITABLE).0, p.bega, 1, f).0, p.bega)
  {
    hide MapRun;
    var s2, j, lo, hi := GrowthRun(s1, p);
    UnownedAfterGrowth(s1, p, s2);
    FirstFetch(SecondSupply(s1, p), p.bega, 1, false);
    TablelessAt(s2.space, p.bega);
    LastTurn(s2, p.bega, f);
  }

  /** A request owns what it returns, rather than being given a FREE page, a reserve page or a page table,
      exactly when it is for some memory. */
  lemma OwnedIffSized(s: Sys, sz: nat, flag: nat)
    requires Sound(s, 0, 0) && Supplied(s, sz) && VmmRequest(s, sz, flag).1 != 0
    ensures var (r, b) := VmmRequest(s, sz, flag); View(r.vmm)(b) == Alloc && !IsTable(r.space, b) <==> sz > 0
  {
    if sz == 0 {
      NothingOwned(s, flag);
    } else {
      RequestServed(s, sz, flag);
    }
  }

  // ----- Page tables taken before they are mapped -----

  /** Every page that the turns take as a page table is one, and is mapped when it is taken. */
  ghost predicate TablesMapped(s: Sys, t: nat, n: nat, f: nat)
    requires Ready(s) && t < LIMIT
    decreases n
  {
    n == 0 || !MapFresh(s, t, f).1 ||
    (&& (NeedsTable(s.space, t) ==>
           var p := AllocateRes(s.vmm, 1, Alloc).1; 0 < p < LIMIT && HwWalk(s.space, p).Some?)
     && TablesMapped(MapFresh(s, t, f).0, Wrap32(t + PAGE_SIZE), n - 1, f))
  }

  /** No page of the range is mapped. */
  ghost predicate Unmapped(s: Space, t: nat, n: nat)
    requires Paging.Sized(s)
  {
    forall a: nat :: IsPage(a) && InRange(t, n, a) ==> HwWalk(s, a) == None
  }

  /** The page taken is mapped exactly if it is not pending. */
  lemma TakenIsMapped(s: Sys, lo: nat, hi: nat)
    requires Sound(s, lo, hi) && SlotAtHand(s.vmm)
    requires forall a: nat :: IsPage(a) && lo <= a < hi ==> HwWalk(s.space, a) == None
    ensures var p := AllocateRes(s.vmm, 1, Alloc).1;
      0 < p < LIMIT && HwWalk(s.space, p).Some? <==> TableAtHand(s.vmm, lo, hi)
  {
    var v := s.vmm;
    assert View(v)(0) == ClassAt(v.slots, 0);
    var k := FirstOfType(v.slots, 1, Pre);
    if k < |v.slots| {
      assert v.slots[k].Sound();
      if TableAtHand(v, lo, hi) { TakeReserve(v, lo, hi); }
    }
  }

  lemma MappedFirst(s: Sys, t: nat, n: nat, f: nat)
    requires Ready(s) && n > 0 && IsPage(t) && t + n * PAGE_SIZE < LIMIT && MapFresh(s, t, f).1
    ensures TablesMapped(s, t, n, f) <==>
      && (NeedsTable(s.space, t) ==>
            var p := AllocateRes(s.vmm, 1, Alloc).1; 0 < p < LIMIT && HwWalk(s.space, p).Some?)
      && TablesMapped(MapFresh(s, t, f).0, t + PAGE_SIZE, n - 1, f)
  {
    hide MapFresh, AllocateRes;
    assert Wrap32(t + PAGE_SIZE) == t + PAGE_SIZE;
  }

  lemma FedFirst(q: Supply, t: nat, n: nat, pre: bool)
    requires Shaped(q.v) && n > 0
    ensures Fed(q, t, n, pre) <==>
      && (t / LARGE_SIZE in q.missing ==> if pre then TableAtHand(q.v, t, t + n * PAGE_SIZE) else TableAtHand(q.v, 0, 0))
      && Fed(Fetch(q, t), t + PAGE_SIZE, n - 1, pre)
  {
    hide Fetch, TableAtHand;
  }

  /** The forecast is exact: told from the extent table and the directory before a run of turns, it says that
      every page table is mapped when taken if and only if that is so. */
  lemma {:induction false} FedIffMapped(s: Sys, lo: nat, hi: nat, t: nat, n: nat, f: nat, pre: bool)
    requires Ready(s) && Sound(s, lo, hi) && Runnable(Of(s), lo, hi, t, n, pre) && Slotted(Forecast(s), t, n)
    requires MapRun(s, t, n, f).1 && (pre ==> Unmapped(s.space, t, n) && f / 2 % 2 == 1)
    ensures Fed(Forecast(s), t, n, pre) <==> TablesMapped(s, t, n, f)
    decreases n
  {
    hide MapRun, MapFresh, Fed, Slotted, TablesMapped, Fetch, AllocateRes, TableAtHand, SlotAtHand, Forecast;
    if n > 0 {
      assert Slotted(Forecast(s), t, n);
      FedFirst(Forecast(s), t, n, pre);
      RunsOn(s, t, n, f);
      MappedFirst(s, t, n, f);
      ForecastSlot(s, t);
      SlottedFirst(Forecast(s), t, n);
      if NeedsTable(s.space, t) { TakenIsMapped(s, lo, hi); }
      if NeedsTable(s.space, t) ==> TableAtHand(s.vmm, lo, hi) {
        var lo1 := if pre then lo + PAGE_SIZE else lo;
        var s1 := NextTurn(s, lo, hi, lo1, t, n, f, pre);
        FedIffMapped(s1, lo1, hi, t + PAGE_SIZE, n - 1, f, pre);
      }
    } else {
      NoTurns(s, t, f, pre);
    }
  }

  lemma NoTurns(s: Sys, t: nat, f: nat, pre: bool)
    requires Ready(s) && t < LIMIT
    ensures Fed(Forecast(s), t, 0, pre) && TablesMapped(s, t, 0, f)
  {
  }

  lemma ForecastSlot(s: Sys, t: nat)
    requires Ready(s) && t < LIMIT
    ensures t / LARGE_SIZE in Forecast(s).missing <==> NeedsTable(s.space, t)
  {
    TablelessAt(s.space, t);
  }

  lemma SlottedFirst(q: Supply, t: nat, n: nat)
    requires Shaped(q.v) && n > 0 && Slotted(q, t, n)
    ensures (t / LARGE_SIZE in q.missing ==> SlotAtHand(q.v)) && Slotted(Fetch(q, t), t + PAGE_SIZE, n - 1)
  {
    hide Fetch, SlotAtHand;
  }

  lemma RunsOn(s: Sys, t: nat, n: nat, f: nat)
    requires Ready(s) && n > 0 && IsPage(t) && t + n * PAGE_SIZE < LIMIT && MapRun(s, t, n, f).1
    ensures MapFresh(s, t, f).1 && MapRun(MapFresh(s, t, f).0, t + PAGE_SIZE, n - 1, f).1
  {
    MapRunStep(s, t, n, f);
    hide MapRun, MapFresh;
    assert Wrap32(t + PAGE_SIZE) == t + PAGE_SIZE;
  }

  lemma NextTurn(s: Sys, lo: nat, hi: nat, lo1: nat, t: nat, n: nat, f: nat, pre: bool) returns (s1: Sys)
    requires n > 0 && Ready(s) && Sound(s, lo, hi) && Runnable(Of(s), lo, hi, t, n, pre) && MapFresh(s, t, f).1
    requires (NeedsTable(s.space, t) ==> PageInReserve(s.vmm, lo, hi)) && (pre ==> Unmapped(s.space, t, n))
    requires lo1 == (if pre then lo + PAGE_SIZE else lo) && (pre ==> f / 2 % 2 == 1)
    ensures s1 == MapFresh(s, t, f).0 && Ready(s1) && Sound(s1, lo1, hi) && Forecast(s1) == Fetch(Forecast(s), t)
    ensures Runnable(Of(s1), lo1, hi, t + PAGE_SIZE, n - 1, pre)
    ensures pre ==> Unmapped(s1.space, t + PAGE_SIZE, n - 1)
  {
    InRangeCons(t, n, t);
    assert Mappable(Of(s), lo, hi, t);
    MapFreshExact(s, lo, hi, lo1, t, f);
    s1 := MapFresh(s, t, f).0;
    hide MapFresh, Fetch, Forecast, PageInReserve;
    RunnableNext(Of(s), Of(s1), lo, lo1, hi, t, n, f, pre);
    if pre {
      forall a: nat | IsPage(a) && InRange(t + PAGE_SIZE, n - 1, a) ensures HwWalk(s1.space, a) == None {
        InRangeCons(t, n, a);
        assert SameWalk(Of(s), Of(s1), a);
      }
    }
  }

  /** All page tables that a request takes are mapped when they are taken. */
  ghost predicate AllTablesMapped(s: Sys, p: Plan, n: nat, f: nat)
    requires Ready(s) && Shaped(p.v2) && p.bu < LIMIT && p.bega < LIMIT
  {
    var g := s.(vmm := p.v2);
    TablesMapped(g, p.bu, p.count, WRITABLE) && TablesMapped(MapRun(g, p.bu, p.count, WRITABLE).0, p.bega, n, f)
  }

  /** A request takes page tables that are mapped exactly if it is supplied, which can be told before it: given
      slots for what it takes, and that no page of the new reserve has been mapped before. */
  lemma SuppliedIffMapped(s: Sys, sz: nat, flag: nat)
    requires Sound(s, 0, 0) && SlotsAtHand(s, sz) && sz > 0 && VmmRequest(s, sz, flag).1 != 0
    requires Unmapped(s.space, PlanOf(s, sz).bu, PlanOf(s, sz).count)
    ensures Supplied(s, sz) <==> AllTablesMapped(s, PlanOf(s, sz), PagesOf(sz), MapFlag(flag))
  {
    var p, n, f := PlanOf(s, sz), PagesOf(sz), MapFlag(flag);
    FillStarts(s, p, f);
    PlanGranted(s, sz);
    var s1 := s.(vmm := p.v1);
    assert s.(vmm := p.v2) == s1.(vmm := p.v2) && Turns(p.bega, p.enda) == n;
    PlanIffMapped(s, s1, p, n, f);
  }

  lemma PlanIffMapped(s: Sys, s1: Sys, p: Plan, n: nat, f: nat)
    requires Sound(s, 0, 0) && Ready(s1) && s1 == s.(vmm := p.v1) && Planned(s1, p) && n > 0 && p.bega < LIMIT
    requires Granted(View(s.vmm), View(p.v1), p.bega, n, Alloc) && Unmapped(s.space, p.bu, p.count)
    requires Slotted(FirstSupply(s, p), p.bu, p.count) && Slotted(SecondSupply(s, p), p.bega, n)
    requires var (s2, ok) := MapRun(s.(vmm := p.v2), p.bu, p.count, WRITABLE); ok && MapRun(s2, p.bega, n, f).1
    ensures TablesAtHand(s, p, n) <==> AllTablesMapped(s, p, n, f)
  {
    hide MapRun, TablesMapped, Fed, Slotted, FetchAll;
    FirstLoopIff(s1, p);
    assert FirstSupply(s1, p) == FirstSupply(s, p) && s1.(vmm := p.v2) == s.(vmm := p.v2);
    if Fed(FirstSupply(s, p), p.bu, p.count, true) {
      var s2, j, lo, hi := GrowthRun(s1, p);
      StillRunnable(Of(s), Of(s1), Of(s2), p.bega, n);
      FedIffMapped(s2, 0, 0, p.bega, n, f, false);
    }
  }

  lemma FirstLoopIff(s1: Sys, p: Plan)
    requires Ready(s1) && Planned(s1, p) && Unmapped(s1.space, p.bu, p.count)
    requires Slotted(FirstSupply(s1, p), p.bu, p.count) && MapRun(s1.(vmm := p.v2), p.bu, p.count, WRITABLE).1
    ensures Fed(FirstSupply(s1, p), p.bu, p.count, true) <==> TablesMapped(s1.(vmm := p.v2), p.bu, p.count, WRITABLE)
  {
    hide MapRun, Fed, Slotted, TablesMapped, Sound, Runnable, Forecast, FirstSupply, Unmapped;
    var g := s1.(vmm := p.v2);
    if p.grows {
      var g', hi := NewReserve(s1, p);
      hide Planned;
      FedIffMapped(g, p.bu, hi, p.bu, p.count, WRITABLE, true);
    } else {
      assert FirstSupply(s1, p) == Forecast(g) by { SameForecast(s1, p); }
      NoTurns(g, p.bu, WRITABLE, true);
    }
  }

  lemma SameForecast(s1: Sys, p: Plan)
    requires Ready(s1) && Shaped(p.v2)
    ensures FirstSupply(s1, p) == Forecast(s1.(vmm := p.v2))
  {
  }

  // ----- No reserve at all -----

  /** `map_page` with a page table that is not mapped: it is cleared nowhere, and the directory is told that
      the table is in frame 0. */
  lemma TableInFrameZero(m: Classes, v: Table, s: Space, lo: nat, hi: nat, phy: nat, t: nat, f: nat)
    requires Shaped(v) && Paged(m, s, lo, hi) && IsPage(t) && NeedsTable(s, t) && !LargeAt(s, t)
    requires var p := AllocateRes(v, 1, Alloc).1; p > 0 && IsPage(p) && HwWalk(s, p) == None
    ensures MapPage(v, s, phy, t, f).1.dir == s.dir[Slot(t) := Entry(0, PRESENT_WRITABLE)]
  {
    var d, p := Slot(t), AllocateRes(v, 1, Alloc).1;
    assert GoodDir(m, s, d);
    UnmappedTranslates(m, s, lo, hi, d, p);
  }

  lemma UnmappedTranslates(m: Classes, s: Space, lo: nat, hi: nat, d: nat, p: nat)
    requires Paged(m, s, lo, hi) && d < DIRS && s.idx[d] == 0 && !s.dir[d].Present() && IsPage(p) && HwWalk(s, p) == None
    ensures var s1 := s.(idx := s.idx[d := p]);
      StoreTable(s1, p, Cleared()) == s1 && s1.idx[Slot(p)] < LIMIT && TranslatePage(s1, p) == 0
  {
    var s1, c := s.(idx := s.idx[d := p]), Slot(p);
    assert GoodDir(m, s, c);
    if s.dir[c].Present() {
      assert c != d && HwWalk(s1, s.idx[c]) == HwWalk(s, s.idx[c]) == Some(s.dir[c].addr);
      assert GoodPte(TableIn(s, s.dir[c].addr)[TableOfs(p)]);
    }
  }

  /** A request that finds no reserve at all: it adds to the reserve, and takes the page table for the first new
      page from the new pages themselves, none of which is mapped. So the directory gets a table in frame 0. */
  lemma EmptyReserve(s: Sys, sz: nat)
    requires Sound(s, 0, 0) && SlotsAtHand(s, sz)
    requires var p := PlanOf(s, sz); p.bega > 0 && p.grows && p.bu > 0 && p.count > 0
    requires FirstOfType(PlanOf(s, sz).v1.slots, 1, Pre) == |PlanOf(s, sz).v1.slots|
    requires Unmapped(s.space, PlanOf(s, sz).bu, PlanOf(s, sz).count) && NeedsTable(s.space, PlanOf(s, sz).bu)
    requires MapFresh(s.(vmm := PlanOf(s, sz).v2), PlanOf(s, sz).bu, WRITABLE).1
    ensures var p := PlanOf(s, sz); var g := s.(vmm := p.v2);
      && !TablesMapped(g, p.bu, p.count, WRITABLE) && !Supplied(s, sz)
      && MapFresh(g, p.bu, WRITABLE).0.space.dir == s.space.dir[Slot(p.bu) := Entry(0, PRESENT_WRITABLE)]
  {
    var p := PlanOf(s, sz);
    PlanGranted(s, sz);
    TableFromNothing(s, s.(vmm := p.v1), p);
  }

  lemma TableFromNothing(s: Sys, s1: Sys, p: Plan)
    requires Ready(s) && Ready(s1) && s1 == s.(vmm := p.v1) && Planned(s1, p) && p.grows && p.count > 0
    requires FirstOfType(p.v1.slots, 1, Pre) == |p.v1.slots| && Unmapped(s.space, p.bu, p.count)
    requires NeedsTable(s.space, p.bu) && MapFresh(s.(vmm := p.v2), p.bu, WRITABLE).1
    ensures var g := s.(vmm := p.v2);
      && !TablesMapped(g, p.bu, p.count, WRITABLE) && !Fed(FirstSupply(s, p), p.bu, p.count, true)
      && MapFresh(g, p.bu, WRITABLE).0.space.dir == s.space.dir[Slot(p.bu) := Entry(0, PRESENT_WRITABLE)]
  {
    var g, hi := s.(vmm := p.v2), p.bu + p.count * PAGE_SIZE;
    FirstIsNew(p.v1, p.v2, p.bu, p.count);
    GrantSafe(Of(s1), Of(g), p.bu, p.count, Pre, p.bu, hi);
    GrantRunnable(Of(s1), Of(g), p.bu, p.count, Pre, p.bu, hi);
    InRangeCons(p.bu, p.count, p.bu);
    assert Mappable(Of(g), p.bu, hi, p.bu);
    var k := FirstOfType(p.v2.slots, 1, Pre);
    assert p.v2.slots[k].Sound();
    assert AllocateRes(p.v2, 1, Alloc).1 == p.v2.slots[k].base;
    TableInFrameZero(View(p.v2), p.v2, s.space, p.bu, hi, Allocate(s.phy, 1, Alloc).1, p.bu, WRITABLE);
    MappedFirst(g, p.bu, p.count, WRITABLE);
    FedFirst(FirstSupply(s, p), p.bu, p.count, true);
    ForecastSlot(g, p.bu);
  }

  lemma FirstIsNew(v: Table, v': Table, b: nat, l: nat)
    requires WellFormed(v) && WellFormed(v') && Granted(View(v), View(v'), b, l, Pre) && l > 0
    requires FirstOfType(v.slots, 1, Pre) == |v.slots|
    ensures var k := FirstOfType(v'.slots, 1, Pre); k < |v'.slots| && InRange(b, l, v'.slots[k].base)
  {
    var k := FirstOfType(v'.slots, 1, Pre);
    assert View(v')(b) == Pre == ClassAt(v'.slots, b);
    var j :| 0 <= j < |v'.slots| && v'.slots[j].Covers(b);
    ClassOfCover(v'.slots, j, b);
    assert v'.slots[k].Sound();
    var a := v'.slots[k].base;
    ClassOfCover(v'.slots, k, a);
    if !InRange(b, l, a) {
      assert View(v')(a) == View(v)(a) == ClassAt(v.slots, a);
      var i :| 0 <= i < |v.slots| && v.slots[i].Covers(a);
      ClassOfCover(v.slots, i, a);
    }
  }

  // ----- No virtual range -----

  /** A request for one page that finds no virtual range goes on with address 0: it maps page 0, and the frame
      is never given back, though the request fails. */
  lemma NoRangeMapsZero(s: Sys, sz: nat, flag: nat)
    requires Sound(s, 0, 0) && 0 < sz <= PAGE_SIZE && Allocate(s.vmm, 1, Alloc).1 == 0 && !Exhausted(s.phy)
    requires s.space.idx[0] != 0
    ensures var (r, b) := VmmRequest(s, sz, flag); b == 0 && FreshFrame(Of(s), Of(r), 0, MapFlag(flag))
  {
    var v1 := Allocate(s.vmm, 1, Alloc).0;
    PlanOfNoRange(s, sz);
    SameSlotsSound(s);
    PageZeroMapped(s, s.(vmm := v1), MapFlag(flag));
    hide PlanOf, MapRun, Exhausted, Sound, Allocate, FreshFrame, MapFlag;
    RunNone(s.(vmm := v1), 0, WRITABLE);
  }

  lemma PlanOfNoRange(s: Sys, sz: nat)
    requires Sound(s, 0, 0) && PagesOf(sz) == 1 && Allocate(s.vmm, 1, Alloc).1 == 0 && s.space.idx[0] != 0
    ensures var v1 := Allocate(s.vmm, 1, Alloc).0; PlanOf(s, sz) == Plan(v1, 0, PAGE_SIZE, false, 0, v1, 0)
  {
    assert GoodDir(View(s.vmm), s.space, 0);
    CountWithin(s.space, 0, 1);
    hide Allocate, CountPageStructs, Sound, PlanOf;
    PlainPlan(s, sz, Allocate(s.vmm, 1, Alloc).0, 0);
  }

  lemma PageZeroMapped(s: Sys, s1: Sys, f: nat)
    requires Sound(s1, 0, 0) && s1.space.idx[0] != 0 && !Exhausted(s1.phy) && s1.phy == s.phy
    ensures Paging.Sized(MapRun(s1, 0, 1, f).0.space) && FreshFrame(Of(s), Of(MapRun(s1, 0, 1, f).0), 0, f)
    ensures MapRun(s1, 0, 1, f).1
  {
    assert GoodDir(View(s1.vmm), s1.space, 0);
    MapRunStep(s1, 0, 1, f);
    RunNone(MapFresh(s1, 0, f).0, PAGE_SIZE, f);
    FrameFound(s1, 0, f);
    assert Mappable(Of(s1), 0, 0, 0);
    hide MapRun, MapFresh;
    MapFreshExact(s1, 0, 0, 0, 0, f);
  }

  lemma FrameFound(s: Sys, t: nat, f: nat)
    requires Sound(s, 0, 0) && !Exhausted(s.phy) && t < LIMIT
    ensures MapFresh(s, t, f).1
  {
    AllocateSoundComplete(s.phy, 1, Alloc);
  }

  lemma SameSlotsSound(s: Sys)
    requires Sound(s, 0, 0) && Allocate(s.vmm, 1, Alloc).1 == 0
    ensures Sound(s.(vmm := Allocate(s.vmm, 1, Alloc).0), 0, 0)
  {
    SoundParts(s);
    FreeNotZero(s.vmm);
    AllocateSoundComplete(s.vmm, 1, Alloc);
    var r := s.(vmm := Allocate(s.vmm, 1, Alloc).0);
    hide Allocate;
    GrantSafe(Of(s), Of(r), PAGE_SIZE, 0, Alloc, 0, 0);
  }
}
