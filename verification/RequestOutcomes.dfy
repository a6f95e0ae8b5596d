/** One `vmm_request` (kernel/memory.cpp) from a sound state: what it hands out, what it leaves alone, what
    it leaves behind when it fails, and when the page tables it takes are mapped. */
module RequestOutcomes {
  import opened Extents
  import opened Wrappers
  import opened Allocation
  import opened Paging
  import opened Requests

  // ----- Granting ranges -----

  /** FREE virtual pages given class `f` in `[b, b + l pages)`. */
  ghost predicate Granted(c: Classes, c': Classes, b: nat, l: nat, f: Class) {
    && b % PAGE_SIZE == 0 && b > 0 && b + l * PAGE_SIZE < LIMIT
    && (forall a: int {:trigger c'(a)} :: c'(a) == if InRange(b, l, a) then f else c(a))
    && (forall a: int {:trigger InRange(b, l, a)} :: InRange(b, l, a) ==> c(a) == Free)
  }

  lemma FreeNotZero(v: Table)
    requires WellFormed(v) && ClassAt(v.slots, 0) == Unset
    ensures Manages(v)
  {
    forall i | 0 <= i < |v.slots| && v.slots[i].flags == Free ensures v.slots[i].base > 0 {
      assert !v.slots[i].Covers(0);
    }
  }

  lemma GrantedBy(v: Table, l: nat, f: Class)
    requires WellFormed(v) && ClassAt(v.slots, 0) == Unset && Spare(v, l, f) && (f == Alloc || f == Pre)
    requires Allocate(v, l, f).1 != 0
    ensures var (v', b) := Allocate(v, l, f); WellFormed(v') && Granted(View(v), View(v'), b, l, f)
  {
    hide SetExtent, FindFree, UnsetSlots, Spare;
    FreeNotZero(v);
    var k, t1 := Chosen(v, l, f);
    assert v.slots[k].Sound();
    AllocateSoundComplete(v, l, f);
  }

  /** Granting FREE pages disturbs no page table; pages granted as reserve are pending. */
  lemma GrantSafe(x: Abs, x': Abs, b: nat, l: nat, f: Class, lo: nat, hi: nat)
    requires Safe(x, 0, 0) && Granted(x.c, x'.c, b, l, f) && (f == Alloc || f == Pre)
    requires x'.p == x.p && x'.space == x.space
    requires if f == Pre then lo == b && hi == b + l * PAGE_SIZE else lo == hi == 0
    ensures Safe(x', lo, hi)
  {
    var s := x.space;
    forall a: nat | Reserve(x'.c, lo, hi, a) ensures Usable(s, a) { assert Reserve(x.c, 0, 0, a); }
    forall a: nat | TablePage(x'.c, s, lo, hi, a) ensures TablePage(x.c, s, 0, 0, a) { }
    forall d: nat | d < DIRS ensures GoodDir(x'.c, s, d) { assert GoodDir(x.c, s, d); }
    forall a: nat, c: nat | SharesFrame(x'.c, s, lo, hi, a, c) ensures a == c { assert SharesFrame(x.c, s, 0, 0, a, c); }
  }

  lemma PendingOver(x: Abs, hi: nat)
    requires Safe(x, hi, hi)
    ensures Safe(x, 0, 0)
  {
    var s := x.space;
    forall a: nat | Reserve(x.c, 0, 0, a) ensures Usable(s, a) { assert Reserve(x.c, hi, hi, a); }
    forall a: nat | TablePage(x.c, s, 0, 0, a) ensures TablePage(x.c, s, hi, hi, a) { }
    forall a: nat, c: nat | SharesFrame(x.c, s, 0, 0, a, c) ensures a == c { assert SharesFrame(x.c, s, hi, hi, a, c); }
  }

  lemma TablesAllocated(x: Abs, lo: nat, hi: nat, a: nat)
    requires Safe(x, lo, hi)
    ensures IsTable(x.space, a) ==> x.c(a) == Alloc
  {
    forall d: nat | d < DIRS ensures x.space.idx[d] == a != 0 ==> x.c(a) == Alloc {
      assert GoodDir(x.c, x.space, d);
    }
  }

  /** A granted page may be mapped: it was FREE, so it is no page table and under no large page. */
  lemma GrantRunnable(x: Abs, x': Abs, b: nat, n: nat, f: Class, lo: nat, hi: nat)
    requires Safe(x, 0, 0) && Granted(x.c, x'.c, b, n, f) && (f == Alloc || f == Pre)
    requires x'.p == x.p && x'.space == x.space
    requires if f == Pre then lo == b && hi == b + n * PAGE_SIZE else lo == hi == 0
    ensures Runnable(x', lo, hi, b, n, f == Pre)
  {
    GrantSafe(x, x', b, n, f, lo, hi);
    forall a: nat | IsPage(a) && InRange(b, n, a) ensures Mappable(x', lo, hi, a) {
      assert x.c(a) == Free;
      assert !LargeAt(x.space, a);
      TablesAllocated(x, 0, 0, a);
    }
  }

  /** The plan of a request that needs no page table. */
  lemma PlainPlan(s: Sys, sz: nat, v1: Table, b: nat)
    requires Ready(s) && Shaped(v1) && Allocate(s.vmm, PagesOf(sz), Alloc) == (v1, b)
    requires IsPage(b) && b + PagesOf(sz) * PAGE_SIZE < LIMIT && CountPageStructs(s.space, b, PagesOf(sz)) == 0
    ensures PlanOf(s, sz) == Plan(v1, b, b + PagesOf(sz) * PAGE_SIZE, false, 0, v1, 0)
  {
    hide Allocate, CountPageStructs;
    var n := PagesOf(sz);
    assert Bytes(n) == n * PAGE_SIZE && Wrap32(b) == b && Wrap32(b + Bytes(n)) == b + n * PAGE_SIZE;
    assert (b + n * PAGE_SIZE - b) / PAGE_SIZE == n;
  }

  // ----- Growing the reserve -----

  /** Pages that have become ALLOC are page tables. */
  ghost predicate NewAreTables(x: Abs, r: Abs) {
    forall a: nat {:trigger r.c(a)} :: IsPage(a) && x.c(a) != Alloc && r.c(a) == Alloc ==> IsTable(r.space, a)
  }

  /** What growing the reserve leaves alone, whether or not frames last. */
  ghost predicate Grown(x: Abs, x2: Abs)
    requires Paging.Sized(x.space) && Paging.Sized(x2.space)
  {
    && OnlyTaken(x.p, x2.p)
    && (forall a: nat {:trigger SameWalk(x, x2, a)} :: IsPage(a) && x.c(a) != Free ==> SameWalk(x, x2, a))
    && (forall a: int {:trigger x2.c(a)} :: x.c(a) == Alloc ==> x2.c(a) == Alloc)
    && (forall a: int {:trigger x2.c(a)} :: x2.c(a) == Pre ==> x.c(a) == Pre || x.c(a) == Free)
    && (forall a: nat {:trigger IsTable(x2.space, a)} ::
          IsTable(x2.space, a) ==> IsTable(x.space, a) || x.c(a) == Pre || x.c(a) == Free)
    && (forall a: nat {:trigger LargeAt(x2.space, a)} :: a < LIMIT ==> LargeAt(x2.space, a) == LargeAt(x.space, a))
    && NewAreTables(x, x2)
  }

  lemma GrowsReserve(x: Abs, g: Abs, x2: Abs, bu: nat, count: nat, lo: nat, hi: nat, j: nat, f: nat)
    requires Safe(x, 0, 0) && Granted(x.c, g.c, bu, count, Pre) && g.p == x.p && g.space == x.space
    requires Paging.Sized(x2.space) && RunOutcome(g, x2, lo, hi, bu, j, f) && j <= count
    ensures Grown(x, x2)
  {
    forall a: nat | IsPage(a) && x.c(a) != Free ensures SameWalk(x, x2, a) {
      assert !InRange(bu, count, a) && !InRange(bu, j, a);
      assert SameWalk(g, x2, a);
    }
    forall a: nat | IsTable(x2.space, a) ensures IsTable(x.space, a) || x.c(a) == Pre || x.c(a) == Free {
      assert IsTable(g.space, a) || g.c(a) == Pre;
    }
    forall a: nat | a < LIMIT ensures LargeAt(x2.space, a) == LargeAt(x.space, a) {
      assert LargeAt(x2.space, a) == LargeAt(g.space, a);
    }
  }

  /** The pages of a request may still be mapped after the reserve has grown. */
  lemma StillRunnable(x: Abs, x1: Abs, x2: Abs, b: nat, n: nat)
    requires Safe(x, 0, 0) && Granted(x.c, x1.c, b, n, Alloc) && x1.p == x.p && x1.space == x.space
    requires Safe(x2, 0, 0) && Grown(x1, x2)
    ensures Runnable(x2, 0, 0, b, n, false)
  {
    GrantRunnable(x, x1, b, n, Alloc, 0, 0);
    forall a: nat | IsPage(a) && InRange(b, n, a) ensures Mappable(x2, 0, 0, a) {
      assert Mappable(x1, 0, 0, a) && x1.c(a) == Alloc && x2.c(a) == Alloc;
      assert LargeAt(x2.space, a) == LargeAt(x1.space, a);
      assert !IsTable(x2.space, a);
    }
  }

  /** The supply with which the reserve is grown, and the one left for the pages asked for. */
  function FirstSupply(s: Sys, p: Plan): (q: Supply)
    requires Ready(s) && Shaped(p.v2)
    ensures q.v == p.v2
  {
    Supply(p.v2, Tableless(s.space))
  }

  function SecondSupply(s: Sys, p: Plan): (q: Supply)
    requires Ready(s) && Shaped(p.v2)
    ensures Shaped(q.v)
  {
    FetchAll(FirstSupply(s, p), p.bu, p.count)
  }

  /** Page tables at hand for both loops of a planned request that maps `n` pages. */
  ghost predicate TablesAtHand(s: Sys, p: Plan, n: nat)
    requires Ready(s) && Shaped(p.v2)
  {
    Fed(FirstSupply(s, p), p.bu, p.count, true) && Fed(SecondSupply(s, p), p.bega, n, false)
  }

  /** Slots at hand for what the request takes: its ranges and its page tables. */
  ghost predicate SlotsAtHand(s: Sys, sz: nat)
    requires Ready(s)
  {
    var p := PlanOf(s, sz);
    && Spare(s.vmm, PagesOf(sz), Alloc) && (p.grows ==> Spare(p.v1, p.count, Pre))
    && Slotted(FirstSupply(s, p), p.bu, p.count) && Slotted(SecondSupply(s, p), p.bega, MappedPages(sz))
  }

  /** Pages that the last mapping loop maps: one even for a request for none. */
  function MappedPages(sz: nat): nat { if PagesOf(sz) == 0 then 1 else PagesOf(sz) }

  /** A request finds what it takes, told from the extent table and the directory before it. */
  ghost predicate Supplied(s: Sys, sz: nat)
    requires Ready(s)
  {
    SlotsAtHand(s, sz) && TablesAtHand(s, PlanOf(s, sz), MappedPages(sz))
  }

  /** State `s1` of a request whose virtual range is granted and whose reserve range, if any, is planned. */
  ghost predicate Planned(s1: Sys, p: Plan) {
    && Sound(s1, 0, 0) && s1.vmm == p.v1 && Shaped(p.v2) && WellFormed(p.v2) && p.bu < LIMIT
    && if p.grows then p.bu != 0 && Granted(View(p.v1), View(p.v2), p.bu, p.count, Pre)
       else p.v2 == p.v1 && p.bu == p.count == 0
  }

  /** The virtual range of a request, if there is one, was FREE and is ALLOC now. */
  lemma PlanGranted(s: Sys, sz: nat)
    requires Sound(s, 0, 0) && SlotsAtHand(s, sz) && PlanOf(s, sz).bega > 0
    ensures var p, n := PlanOf(s, sz), PagesOf(sz); var s1 := s.(vmm := p.v1);
      && Granted(View(s.vmm), View(p.v1), p.bega, n, Alloc) && p.enda == p.bega + n * PAGE_SIZE
      && Sound(s1, 0, 0) && (p.grows && p.bu == 0 ==> Sound(s.(vmm := p.v2), 0, 0) && p.v2.slots == p.v1.slots)
      && (p.grows ==> p.bu == 0 || Planned(s1, p)) && (!p.grows ==> Planned(s1, p))
  {
    var p, n := PlanOf(s, sz), PagesOf(sz);
    GrantedBy(s.vmm, n, Alloc);
    assert Granted(View(s.vmm), View(p.v1), p.bega, n, Alloc);
    assert View(s.vmm)(0) == Unset && !InRange(p.bega, n, 0);
    assert View(p.v1)(0) == Unset;
    var s1 := s.(vmm := p.v1);
    GrantSafe(Of(s), Of(s1), p.bega, n, Alloc, 0, 0);
    if p.grows { ReservePlanned(s1, p); }
  }

  lemma ReservePlanned(s1: Sys, p: Plan)
    requires Sound(s1, 0, 0) && s1.vmm == p.v1 && Spare(p.v1, p.count, Pre) && p.grows && p.bega > 0 && IsPage(p.bega)
    requires var (v2, bu) := Allocate(p.v1, p.count, Pre); p.v2 == v2 && p.bu == Wrap32(bu)
    ensures p.bu != 0 ==> Planned(s1, p)
    ensures p.bu == 0 ==> Sound(s1.(vmm := p.v2), 0, 0) && p.v2.slots == p.v1.slots
  {
    FreeNotZero(p.v1);
    var b := Allocate(p.v1, p.count, Pre).1;
    if b != 0 {
      GrantedBy(p.v1, p.count, Pre);
    } else {
      NothingGranted(p.v1, p.count);
      GrantSafe(Of(s1), Of(s1.(vmm := p.v2)), p.bega, 0, Alloc, 0, 0);
    }
  }

  lemma NothingGranted(v: Table, l: nat)
    requires Manages(v) && Allocate(v, l, Pre).1 == 0
    ensures var r := Allocate(v, l, Pre).0; r.slots == v.slots && WellFormed(r)
  {
  }

  /** Eight more pages are asked for exactly if there is no page in reserve. */
  lemma ReserveSized(v: Table, pgsr: nat)
    requires WellFormed(v) && pgsr + 8 < LIMIT
    ensures ReserveSize(v, pgsr) == pgsr + if exists a :: ClassAt(v.slots, a) == Pre then 0 else 8
  {
    var k := FirstOfType(v.slots, 1, Pre);
    if k < |v.slots| {
      assert v.slots[k].Sound();
      ClassOfCover(v.slots, k, v.slots[k].base);
    }
    if a :| ClassAt(v.slots, a) == Pre {
      var i :| 0 <= i < |v.slots| && v.slots[i].Covers(a);
      ClassOfCover(v.slots, i, a);
      assert v.slots[i].Sound() && k <= i;
    }
  }

  // ----- The two loops -----

  /** The loop that maps the new reserve: each page table it takes is mapped by then. */
  lemma GrowthRun(s1: Sys, p: Plan) returns (s2: Sys, j: nat, lo: nat, hi: nat)
    requires Planned(s1, p) && Fed(FirstSupply(s1, p), p.bu, p.count, true) && Slotted(FirstSupply(s1, p), p.bu, p.count)
    ensures s2 == MapRun(s1.(vmm := p.v2), p.bu, p.count, WRITABLE).0 && j <= p.count
    ensures if MapRun(s1.(vmm := p.v2), p.bu, p.count, WRITABLE).1 then j == p.count && lo == hi == 0 else Exhausted(s2.phy)
    ensures Sound(s2, lo, hi) && Grown(Of(s1), Of(s2)) && Forecast(s2) == FetchAll(FirstSupply(s1, p), p.bu, j)
    ensures TakenAsTables(View(p.v2), View(s2.vmm), s1.space, s2.space) && PreTaken(View(p.v2), View(s2.vmm))
  {
    if p.grows {
      s2, j, lo, hi := NewReserveRun(s1, p);
    } else {
      s2, j, lo, hi := s1, 0, 0, 0;
      assert s1.(vmm := p.v2) == s1;
    }
  }

  lemma NewReserveRun(s1: Sys, p: Plan) returns (s2: Sys, j: nat, lo: nat, hi: nat)
    requires Ready(s1) && Shaped(p.v2) && Planned(s1, p) && p.bu < LIMIT && p.grows
    requires Fed(FirstSupply(s1, p), p.bu, p.count, true) && Slotted(FirstSupply(s1, p), p.bu, p.count)
    ensures s2 == MapRun(s1.(vmm := p.v2), p.bu, p.count, WRITABLE).0 && j <= p.count
    ensures if MapRun(s1.(vmm := p.v2), p.bu, p.count, WRITABLE).1 then j == p.count && lo == hi == 0 else Exhausted(s2.phy)
    ensures Sound(s2, lo, hi) && Grown(Of(s1), Of(s2)) && Forecast(s2) == FetchAll(FirstSupply(s1, p), p.bu, j)
    ensures TakenAsTables(View(p.v2), View(s2.vmm), s1.space, s2.space) && PreTaken(View(p.v2), View(s2.vmm))
  {
    hide MapRun, Fed, Slotted, FetchAll, Exhausted, Sound, Runnable, RunOutcome, Planned, Forecast, FirstSupply, Grown,
         TakenAsTables, PreTaken, View;
    var g;
    g, hi := NewReserve(s1, p);
    s2, j, lo := MapRunExact(g, p.bu, hi, p.bu, p.count, WRITABLE, true);
    NewReserveGrown(s1, p, g, s2, lo, hi, j);
    if j == p.count {
      NonePending(s2, hi);
      lo, hi := 0, 0;
    }
  }

  /** The new reserve range granted: its pages are pending and may be mapped. */
  lemma NewReserve(s1: Sys, p: Plan) returns (g: Sys, hi: nat)
    requires Planned(s1, p) && p.grows
    ensures Ready(s1) && g == s1.(vmm := p.v2) && hi == p.bu + p.count * PAGE_SIZE && Forecast(g) == FirstSupply(s1, p)
    ensures Sound(g, p.bu, hi) && Runnable(Of(g), p.bu, hi, p.bu, p.count, true)
  {
    g, hi := s1.(vmm := p.v2), p.bu + p.count * PAGE_SIZE;
    GrantSafe(Of(s1), Of(g), p.bu, p.count, Pre, p.bu, hi);
    GrantRunnable(Of(s1), Of(g), p.bu, p.count, Pre, p.bu, hi);
  }

  lemma NewReserveGrown(s1: Sys, p: Plan, g: Sys, s2: Sys, lo: nat, hi: nat, j: nat)
    requires Ready(s1) && Planned(s1, p) && p.grows && g == s1.(vmm := p.v2) && Sound(s2, lo, hi) && j <= p.count
    requires Paging.Sized(g.space) && Paging.Sized(s2.space) && RunOutcome(Of(g), Of(s2), lo, hi, p.bu, j, WRITABLE)
    ensures Grown(Of(s1), Of(s2))
    ensures TakenAsTables(View(p.v2), View(s2.vmm), s1.space, s2.space) && PreTaken(View(p.v2), View(s2.vmm))
  {
    GrowsReserve(Of(s1), Of(g), Of(s2), p.bu, p.count, lo, hi, j, WRITABLE);
  }

  lemma NonePending(s: Sys, hi: nat)
    requires Sound(s, hi, hi)
    ensures Sound(s, 0, 0)
  {
    PendingOver(Of(s), hi);
  }

  // ----- One request -----

  /** What a request leaves alone, succeed or fail: translations of pages in use, pages that are allocated,
      and, of page tables, all pages but FREE and reserve ones. */
  ghost predicate Kept(x: Abs, r: Abs)
    requires Paging.Sized(x.space) && Paging.Sized(r.space)
  {
    && OnlyTaken(x.p, r.p)
    && (forall a: nat {:trigger SameWalk(x, r, a)} :: IsPage(a) && x.c(a) != Free ==> SameWalk(x, r, a))
    && (forall a: int {:trigger r.c(a)} :: x.c(a) == Alloc ==> r.c(a) == Alloc)
    && (forall a: nat {:trigger IsTable(r.space, a)} ::
          IsTable(r.space, a) ==> IsTable(x.space, a) || x.c(a) == Pre || x.c(a) == Free)
  }

  /** The pages of the range were FREE and belong to the request now, and no others do. */
  ghost predicate Given(x: Abs, r: Abs, b: nat, n: nat) {
    && IsPage(b) && b + n * PAGE_SIZE < LIMIT
    && (forall a: int {:trigger InRange(b, n, a)} :: InRange(b, n, a) ==> x.c(a) == Free && r.c(a) == Alloc)
    && (forall a: nat {:trigger IsTable(r.space, a)} :: IsTable(r.space, a) ==> !InRange(b, n, a))
    && (forall a: nat {:trigger r.c(a)} :: IsPage(a) && x.c(a) != Alloc && r.c(a) == Alloc ==> InRange(b, n, a) || IsTable(r.space, a))
  }

  /** ... and are in distinct frames that were FREE. */
  ghost predicate Served(x: Abs, r: Abs, b: nat, n: nat, f: nat)
    requires Paging.Sized(x.space) && Paging.Sized(r.space)
  {
    && Kept(x, r) && Given(x, r, b, n)
    && (forall a: nat {:trigger FreshFrame(x, r, a, f)} :: IsPage(a) && InRange(b, n, a) ==> FreshFrame(x, r, a, f))
    && (forall a: nat, c: nat {:trigger Collide(r, b, n, a, c)} :: Collide(r, b, n, a, c) ==> a == c)
  }

  /** From a state in which the virtual range is granted (`x1`), through the growth of the reserve (`x2`). */
  lemma GrownKept(x: Abs, x1: Abs, x2: Abs, b: nat, n: nat)
    requires Safe(x, 0, 0) && Granted(x.c, x1.c, b, n, Alloc) && x1.p == x.p && x1.space == x.space
    requires Paging.Sized(x2.space) && Grown(x1, x2)
    ensures Kept(x, x2) && Given(x, x2, b, n)
  {
    forall a: int | InRange(b, n, a) ensures x.c(a) == Free && x2.c(a) == Alloc { assert x1.c(a) == Alloc; }
    forall a: int | x.c(a) == Alloc ensures x2.c(a) == Alloc { assert x1.c(a) == Alloc; }
    forall a: nat | IsPage(a) && x.c(a) != Free ensures SameWalk(x, x2, a) {
      assert x1.c(a) != Free && SameWalk(x1, x2, a);
    }
    forall a: nat | IsTable(x2.space, a)
      ensures !InRange(b, n, a) && (IsTable(x.space, a) || x.c(a) == Pre || x.c(a) == Free)
    {
      TablesAllocated(x, 0, 0, a);
    }
    forall a: nat | IsPage(a) && x.c(a) != Alloc && x2.c(a) == Alloc ensures InRange(b, n, a) || IsTable(x2.space, a) {
      assert x1.c(a) == Alloc || IsTable(x2.space, a);
    }
  }

  /** ... and the first `j` turns of the last loop. */
  lemma FilledKept(x: Abs, x1: Abs, x2: Abs, r: Abs, b: nat, n: nat, j: nat, f: nat)
    requires Safe(x, 0, 0) && Granted(x.c, x1.c, b, n, Alloc) && x1.p == x.p && x1.space == x.space
    requires Safe(x2, 0, 0) && Grown(x1, x2) && Paging.Sized(r.space) && RunOutcome(x2, r, 0, 0, b, j, f) && j <= n
    ensures Kept(x, r) && Given(x, r, b, n) && (j == n ==> Served(x, r, b, n, f))
  {
    GrownKept(x, x1, x2, b, n);
    forall a: int | x2.c(a) == Alloc ensures r.c(a) == Alloc { }
    forall a: nat | IsPage(a) && x.c(a) != Free ensures SameWalk(x, r, a) {
      assert !InRange(b, n, a) && !InRange(b, j, a);
      assert SameWalk(x, x2, a) && SameWalk(x2, r, a);
    }
    forall a: nat | IsTable(r.space, a)
      ensures !InRange(b, n, a) && (IsTable(x.space, a) || x.c(a) == Pre || x.c(a) == Free)
    {
      if !IsTable(x2.space, a) {
        assert x2.c(a) == Pre;
        assert x1.c(a) == Pre || x1.c(a) == Free;
      }
    }
    forall a: nat | IsPage(a) && x.c(a) != Alloc && r.c(a) == Alloc ensures InRange(b, n, a) || IsTable(r.space, a) {
      assert x2.c(a) == Alloc || x2.c(a) == Pre;
    }
    if j == n {
      forall a: nat | IsPage(a) && InRange(b, n, a) ensures FreshFrame(x, r, a, f) { assert FreshFrame(x2, r, a, f); }
    }
  }

  /** A sound state, or one in which the frames ran out while the reserve was growing. */
  ghost predicate Settled(s: Sys, lo: nat, hi: nat) { Sound(s, lo, hi) && (lo == hi == 0 || Exhausted(s.phy)) }

  // ----- In bytes -----

  /** The `sz` bytes from `b` were FREE and are allocated, and lie in no page table; of pages that have been allocated
      and are no page tables, all begin among them. */
  ghost predicate Handed(x: Abs, r: Abs, b: nat, sz: nat) {
    && IsPage(b) && b + sz < LIMIT
    && (forall a: int {:trigger r.c(a)} :: b <= a < b + sz ==> x.c(a) == Free && r.c(a) == Alloc)
    && (forall a: nat {:trigger IsTable(r.space, a)} :: IsTable(r.space, a) ==> a + PAGE_SIZE <= b || b + sz <= a)
    && (forall a: nat {:trigger r.c(a)} :: IsPage(a) && x.c(a) != Alloc && r.c(a) == Alloc ==> b <= a < b + sz || IsTable(r.space, a))
  }

  /** The rights of a page as asked for: present, for the kernel alone, and written and cached as the bits RQ_RW,
      RQ_WCD and RQ_RCD say. */
  predicate Rights(flags: nat, flag: nat) {
    && flags < 32 && flags % 2 == 1 && flags / 4 % 2 == 0
    && (flags / 2 % 2 == 1 <==> flag / 0x2 % 2 == 1)
    && (flags / 8 % 2 == 1 <==> flag / 0x400 % 2 == 1)
    && (flags / 16 % 2 == 1 <==> flag / 0x800 % 2 == 1)
  }

  /** Byte `a` is mapped with the rights asked for, and to a frame that was FREE. */
  ghost predicate Fresh(x: Abs, r: Abs, a: nat, flag: nat)
    requires Paging.Sized(r.space)
  {
    a < LIMIT && Rights(HwFlags(r.space, a), flag)
    && match HwWalk(r.space, a)
       case None => false
       case Some(frame) => IsPage(frame) && frame != 0 && x.p(frame) == Free && r.p(frame) == Alloc
  }

  /** Every byte of the range is, and no two pages of it share a frame. */
  ghost predicate Filled(x: Abs, r: Abs, b: nat, sz: nat, flag: nat)
    requires Paging.Sized(r.space) && b + sz < LIMIT
  {
    && (forall a: nat {:trigger Fresh(x, r, a, flag)} :: b <= a < b + sz ==> Fresh(x, r, a, flag))
    && (forall a: nat, c: nat {:trigger HwWalk(r.space, a), HwWalk(r.space, c)} ::
          b <= a < b + sz && b <= c < b + sz && HwWalk(r.space, a) == HwWalk(r.space, c) ==> PageOf(a) == PageOf(c))
  }

  lemma PageInRange(b: nat, sz: nat, a: nat)
    requires IsPage(b) && sz > 0
    ensures b <= a < b + sz ==> InRange(b, PagesOf(sz), a) && InRange(b, PagesOf(sz), PageOf(a))
    ensures IsPage(a) && InRange(b, PagesOf(sz), a) ==> b <= a < b + sz
  {
    PagesHold(sz);
    var n, k, m := PagesOf(sz), b / PAGE_SIZE, a / PAGE_SIZE;
    assert b == k * PAGE_SIZE && PageOf(a) == m * PAGE_SIZE;
    hide PagesOf;
    if b <= a < b + sz { assert k <= m < k + n; }
    if a == m * PAGE_SIZE && InRange(b, n, a) { assert m <= k + n - 1; }
  }

  lemma GivenBytes(x: Abs, r: Abs, b: nat, sz: nat)
    requires Given(x, r, b, PagesOf(sz)) && sz > 0 && forall a: nat {:trigger IsTable(r.space, a)} :: IsTable(r.space, a) ==> IsPage(a)
    ensures Handed(x, r, b, sz)
  {
    PagesHold(sz);
    hide PagesOf;
    forall a: int | b <= a < b + sz ensures x.c(a) == Free && r.c(a) == Alloc { PageInRange(b, sz, a); }
    forall a: nat | IsPage(a) && x.c(a) != Alloc && r.c(a) == Alloc && !IsTable(r.space, a) ensures b <= a < b + sz {
      PageInRange(b, sz, a);
    }
    forall a: nat | IsTable(r.space, a) ensures a + PAGE_SIZE <= b || b + sz <= a {
      PageInRange(b, sz, a);
      if a < b { NextToPage(a, b); }
    }
  }

  lemma NextToPage(a: nat, b: nat)
    requires IsPage(a) && IsPage(b) && a < b
    ensures a + PAGE_SIZE <= b
  {
  }

  lemma RightsAsked(flag: nat)
    ensures Rights(PteFlags(MapFlag(flag)), flag)
  {
    var w, t, c := if Has(flag, RQ_RW) then 1 else 0, if Has(flag, RQ_WCD) then 1 else 0, if Has(flag, RQ_RCD) then 1 else 0;
    assert MapFlag(flag) == 2 * w + 8 * t + 16 * c;
    FiveBits(w, t, c);
  }

  lemma FiveBits(w: nat, t: nat, c: nat)
    requires w < 2 && t < 2 && c < 2
    ensures PteFlags(2 * w + 8 * t + 16 * c) == 1 + 2 * w + 8 * t + 16 * c
  {
  }

  lemma ServedBytes(x: Abs, r: Abs, b: nat, sz: nat, flag: nat)
    requires Paging.Sized(x.space) && Paging.Sized(r.space) && Served(x, r, b, PagesOf(sz), MapFlag(flag)) && sz > 0 && b + sz < LIMIT
    ensures Filled(x, r, b, sz, flag)
  {
    var f := MapFlag(flag);
    RightsAsked(flag);
    assert IsPage(b);
    hide PagesOf, MapFlag, PteFlags, Rights, HwWalk, HwFlags, Kept, Given;
    forall a: nat | b <= a < b + sz ensures Fresh(x, r, a, flag) {
      PageInRange(b, sz, a);
      WalkOfPage(r.space, a);
      assert FreshFrame(x, r, PageOf(a), f);
    }
    forall a: nat, c: nat | b <= a < b + sz && b <= c < b + sz && HwWalk(r.space, a) == HwWalk(r.space, c)
      ensures PageOf(a) == PageOf(c)
    {
      PageInRange(b, sz, a);
      PageInRange(b, sz, c);
      WalkOfPage(r.space, a);
      WalkOfPage(r.space, c);
      assert Collide(r, b, PagesOf(sz), PageOf(a), PageOf(c));
    }
  }

  // ----- One request in bytes -----

  /** A request that succeeds has a virtual range and, if it wanted one, a reserve range. */
  lemma FillStarts(s: Sys, p: Plan, f: nat)
    requires Ready(s) && Shaped(p.v1) && Shaped(p.v2) && p.bega < LIMIT && p.bu < LIMIT && Fill(s, p, f).1 != 0
    ensures 0 < p.bega == Fill(s, p, f).1 <= p.enda && (p.grows ==> p.bu > 0)
    ensures var first := MapRun(s.(vmm := p.v2), p.bu, p.count, WRITABLE);
      first.1 && MapRun(first.0, p.bega, Turns(p.bega, p.enda), f) == (Fill(s, p, f).0, true)
  {
    hide MapRun;
  }

  /** The same told in pages. */
  lemma PagesServed(s: Sys, sz: nat, flag: nat) returns (lo: nat, hi: nat)
    requires Sound(s, 0, 0) && Supplied(s, sz) && sz > 0 && PlanOf(s, sz).bega > 0
    ensures var (r, b) := VmmRequest(s, sz, flag); var p, n := PlanOf(s, sz), PagesOf(sz);
      && Settled(r, lo, hi) && Kept(Of(s), Of(r)) && Given(Of(s), Of(r), p.bega, n)
      && (b != 0 ==> lo == hi == 0 && b == p.bega && Served(Of(s), Of(r), b, n, MapFlag(flag)))
  {
    var p, n, f := PlanOf(s, sz), PagesOf(sz), MapFlag(flag);
    PlanGranted(s, sz);
    var s1 := s.(vmm := p.v1);
    if p.grows && p.bu == 0 {
      var g := s.(vmm := p.v2);
      SameClasses(Of(s1), Of(g));
      GrownKept(Of(s), Of(s1), Of(g), p.bega, n);
      lo, hi := 0, 0;
    } else {
      assert s.(vmm := p.v2) == s1.(vmm := p.v2);
      var s2, j;
      s2, j, lo, hi := GrowthRun(s1, p);
      GrownKept(Of(s), Of(s1), Of(s2), p.bega, n);
      if MapRun(s1.(vmm := p.v2), p.bu, p.count, WRITABLE).1 {
        StillRunnable(Of(s), Of(s1), Of(s2), p.bega, n);
        assert Turns(p.bega, p.enda) == n;
        var r;
        r, j, lo := MapRunExact(s2, 0, 0, p.bega, n, f, false);
        FilledKept(Of(s), Of(s1), Of(s2), Of(r), p.bega, n, j, f);
      }
    }
  }

  lemma SameClasses(x: Abs, r: Abs)
    requires Paging.Sized(x.space) && r.p == x.p && r.space == x.space && forall a: int {:trigger r.c(a)} :: r.c(a) == x.c(a)
    ensures Grown(x, r)
  {
  }

  lemma TablesArePages(s: Sys, lo: nat, hi: nat)
    requires Sound(s, lo, hi)
    ensures forall a: nat {:trigger IsTable(s.space, a)} :: IsTable(s.space, a) ==> IsPage(a)
  {
    forall a: nat | IsTable(s.space, a) ensures IsPage(a) {
      var d :| 0 <= d < |s.space.idx| && s.space.idx[d] == a;
      assert GoodDir(View(s.vmm), s.space, d);
    }
  }

  /** A request that found a virtual range leaves every page in use as it was, succeed or fail, and has allocated
      exactly its bytes, to whole pages, and page tables. If it succeeds, its bytes are mapped as asked for, in fresh
      frames, one for each page; if it fails, its range stays allocated, and mostly unmapped. */
  lemma RequestOutcome(s: Sys, sz: nat, flag: nat) returns (lo: nat, hi: nat)
    requires Sound(s, 0, 0) && Supplied(s, sz) && sz > 0 && PlanOf(s, sz).bega > 0
    ensures var (r, b) := VmmRequest(s, sz, flag); var bega := PlanOf(s, sz).bega;
      && Settled(r, lo, hi) && Kept(Of(s), Of(r)) && Handed(Of(s), Of(r), bega, sz)
      && (b != 0 ==> lo == hi == 0 && b == bega && Filled(Of(s), Of(r), b, sz, flag))
  {
    hide VmmRequest, PlanOf, Supplied, Kept, Given, Served, Exhausted, PagesOf;
    lo, hi := PagesServed(s, sz, flag);
    var (r, b) := VmmRequest(s, sz, flag);
    TablesArePages(r, lo, hi);
    GivenBytes(Of(s), Of(r), PlanOf(s, sz).bega, sz);
    if b != 0 { ServedBytes(Of(s), Of(r), b, sz, flag); }
  }

  /** A successful request, whatever happens inside, returns `sz` bytes that were FREE, mapped as asked for, in fresh
      frames, and no page more than they need; every other page that was in use is as it was. */
  lemma RequestServed(s: Sys, sz: nat, flag: nat)
    requires Sound(s, 0, 0) && sz > 0 && Supplied(s, sz) && VmmRequest(s, sz, flag).1 != 0
    ensures var (r, b) := VmmRequest(s, sz, flag);
      Sound(r, 0, 0) && Kept(Of(s), Of(r)) && Handed(Of(s), Of(r), b, sz) && Filled(Of(s), Of(r), b, sz, flag)
  {
    FillStarts(s, PlanOf(s, sz), MapFlag(flag));
    hide Kept, Handed, Filled, Supplied, PlanOf, MapFlag, Fill;
    var lo, hi := RequestOutcome(s, sz, flag);
  }
}
