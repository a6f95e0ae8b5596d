/** `vmm_request` (kernel/memory.cpp) for memory requests that are neither large nor hinted: virtual
    pages from one allocator, frames from another, page tables from the PRE reserve.

    The main result joins all layers: over any run of requests that succeed, no two pages handed out
    share a frame, and no page handed out earlier is ever translated differently. */
module Requests {
  import opened Extents
  import opened Wrappers
  import opened Allocation
  import opened Paging

  datatype Sys = Sys(vmm: Table, phy: Table, space: Space)

  const WRITABLE := 2

  /** `count_page_structs`: directory entries crossed, plus one if the first has no table. */
  function CountPageStructs(s: Space, t: nat, npg: nat): nat
    requires Paging.Sized(s) && t < LIMIT
  {
    var eos := Wrap32(t + Bytes(npg));
    var res := Wrap32(eos / LARGE_SIZE % 512 - t / LARGE_SIZE % 512 + (eos / 0x4000_0000 - t / 0x4000_0000));
    if LargeAt(s, t) then 0 else if s.idx[Slot(t)] == 0 then Wrap32(res + 1) else res
  }

  function Slots(a: nat, b: nat): (r: set<nat>)
    ensures forall d :: d in r <==> a <= d < b
    ensures |r| == if a <= b then b - a else 0
    decreases b
  {
    if a >= b then {} else Slots(a, b - 1) + {b - 1}
  }

  /** Directory slots that `n` pages from `t` touch, and those of them without a page table. */
  function Touched(t: nat, n: nat): set<nat>
    requires n > 0
  {
    Slots(t / LARGE_SIZE, (t + n * PAGE_SIZE - 1) / LARGE_SIZE + 1)
  }

  function MissingTables(s: Space, t: nat, n: nat): set<nat>
    requires Paging.Sized(s) && n > 0
  {
    set d | d in Touched(t, n) && d < DIRS && s.idx[d] == 0
  }

  lemma CountWithin(s: Space, t: nat, n: nat)
    requires Paging.Sized(s) && t + n * PAGE_SIZE < LIMIT && !LargeAt(s, t)
    requires t / 0x4000_0000 == (t + n * PAGE_SIZE) / 0x4000_0000
    ensures CountPageStructs(s, t, n) ==
      (t + n * PAGE_SIZE) / LARGE_SIZE - t / LARGE_SIZE + if s.idx[Slot(t)] == 0 then 1 else 0
  {
    var a, b := t / LARGE_SIZE, (t + n * PAGE_SIZE) / LARGE_SIZE;
    assert a / 512 == t / 0x4000_0000 && b / 512 == (t + n * PAGE_SIZE) / 0x4000_0000;
  }

  /** Within one gigabyte `count_page_structs` counts enough page tables for a range, and at most one more than the
      directory slots it touches. */
  lemma CountSuffices(s: Space, t: nat, n: nat)
    requires Paging.Sized(s) && n > 0 && t + n * PAGE_SIZE < LIMIT && !LargeAt(s, t)
    requires t / 0x4000_0000 == (t + n * PAGE_SIZE) / 0x4000_0000
    ensures |MissingTables(s, t, n)| <= CountPageStructs(s, t, n) <= |Touched(t, n)| + 1
  {
    CountWithin(s, t, n);
    MissingFew(s, t, n);
    hide CountPageStructs, MissingTables;
    var a, b, z := t / LARGE_SIZE, (t + n * PAGE_SIZE) / LARGE_SIZE, (t + n * PAGE_SIZE - 1) / LARGE_SIZE;
    assert a <= z <= b <= z + 1;
  }

  lemma MissingFew(s: Space, t: nat, n: nat)
    requires Paging.Sized(s) && n > 0 && t + n * PAGE_SIZE < LIMIT
    ensures var a, z := Slot(t), (t + n * PAGE_SIZE - 1) / LARGE_SIZE;
      a <= z && |MissingTables(s, t, n)| <= z - a + if s.idx[a] == 0 then 1 else 0
  {
    var a, z := Slot(t), (t + n * PAGE_SIZE - 1) / LARGE_SIZE;
    var rest := Slots(a + 1, z + 1);
    if s.idx[a] == 0 {
      assert |{a} + rest| == 1 + |rest|;
      SubsetSize(MissingTables(s, t, n), {a} + rest);
    } else {
      SubsetSize(MissingTables(s, t, n), rest);
    }
  }

  predicate Ready(s: Sys) { Shaped(s.vmm) && Shaped(s.phy) && Paging.Sized(s.space) }

  /** One turn of the mapping loops: a frame is allocated for page `t`. */
  function MapFresh(s: Sys, t: nat, f: nat): (r: (Sys, bool))
    requires Ready(s) && t < LIMIT
    ensures Ready(r.0)
  {
    var (p1, ph) := Allocate(s.phy, 1, Alloc);
    if ph == 0 then (s.(phy := p1), false)
    else
      var (v1, space1) := MapPage(s.vmm, s.space, ph, t, f);
      (Sys(v1, p1, space1), true)
  }

  function MapRun(s: Sys, t: nat, n: nat, f: nat): (r: (Sys, bool))
    requires Ready(s) && t < LIMIT
    ensures Ready(r.0)
    decreases n
  {
    if n == 0 then (s, true)
    else
      var (s1, ok) := MapFresh(s, t, f);
      if ok then MapRun(s1, Wrap32(t + PAGE_SIZE), n - 1, f) else (s1, false)
  }

  lemma RunNone(s: Sys, t: nat, f: nat)
    requires Ready(s) && t < LIMIT
    ensures MapRun(s, t, 0, f) == (s, true)
  {
  }

  lemma MapRunStep(s: Sys, t: nat, n: nat, f: nat)
    requires Ready(s) && t < LIMIT && n > 0
    ensures var (s1, ok) := MapFresh(s, t, f);
      MapRun(s, t, n, f) == if ok then MapRun(s1, Wrap32(t + PAGE_SIZE), n - 1, f) else (s1, false)
  {
  }

  /** Reserve pages to add for `pgsr` page structures: eight more if there is no reserve at all. */
  function ReserveSize(v: Table, pgsr: nat): nat {
    if FirstOfType(v.slots, 1, Pre) < |v.slots| then pgsr else Wrap32(pgsr + 8)
  }

  function PagesOf(sz: nat): nat { sz / PAGE_SIZE + if sz % PAGE_SIZE != 0 then 1 else 0 }

  /** That many pages hold `sz` bytes, and no fewer do. */
  lemma PagesHold(sz: nat)
    ensures PagesOf(sz) * PAGE_SIZE >= sz
    ensures sz > 0 ==> (PagesOf(sz) - 1) * PAGE_SIZE < sz
  {
  }

  /** The virtual range of a request and, if it `grows` the reserve, the range added to that. */
  datatype Plan = Plan(v1: Table, bega: nat, enda: nat, grows: bool, count: nat, v2: Table, bu: nat)

  function PlanOf(s: Sys, sz: nat): (p: Plan)
    requires Ready(s)
    ensures Shaped(p.v1) && Shaped(p.v2) && p.bega < LIMIT && p.bu < LIMIT
  {
    var pgc := PagesOf(sz);
    var (v1, b) := Allocate(s.vmm, pgc, Alloc);
    var bega := Wrap32(b);
    var enda := Wrap32(bega + Bytes(pgc));
    var pgsr := CountPageStructs(s.space, bega, (if enda < bega then 0 else enda - bega) / PAGE_SIZE);
    if pgsr == 0 then Plan(v1, bega, enda, false, 0, v1, 0)
    else
      var count := ReserveSize(v1, pgsr);
      var (v2, bu) := Allocate(v1, count, Pre);
      Plan(v1, bega, enda, true, count, v2, Wrap32(bu))
  }

  /** The range is a whole number of pages, even where its end wraps. */
  lemma WholePages(b: nat, l: nat)
    requires b < LIMIT
    ensures Wrap32(b + Bytes(l)) < LIMIT && (Wrap32(b + Bytes(l)) - b) % PAGE_SIZE == 0
  {
  }

  /** Turns of the last loop: it tests only after a turn, so it runs once on an empty range, and all
      the way round the address space if that one turn wraps. */
  function Turns(bega: nat, enda: nat): nat {
    if bega < enda then (enda - bega) / PAGE_SIZE else if bega + PAGE_SIZE < LIMIT then 1 else 0x10_0000
  }

  /** The mapping loops of a request whose ranges are planned. */
  function Fill(s: Sys, p: Plan, f: nat): (r: (Sys, nat))
    requires Ready(s) && Shaped(p.v1) && Shaped(p.v2) && p.bega < LIMIT && p.bu < LIMIT
    ensures Ready(r.0)
  {
    if p.enda < p.bega then (s.(vmm := p.v1), 0)
    else if p.grows && p.bu == 0 then (s.(vmm := p.v2), 0)
    else
      var (s2, ok) := MapRun(s.(vmm := p.v2), p.bu, p.count, WRITABLE);
      if !ok then (s2, 0)
      else
        var (s3, ok3) := MapRun(s2, p.bega, Turns(p.bega, p.enda), f);
        (s3, if ok3 then p.bega else 0)
  }

  const RQ_RW := 0x2
  const RQ_WCD := 0x400
  const RQ_RCD := 0x800

  predicate Has(flag: nat, bit: nat)
    requires bit > 0
  {
    flag / bit % 2 == 1
  }

  /** The mapping flags that a request asks for. */
  function MapFlag(flag: nat): nat {
    (if Has(flag, RQ_RW) then 2 else 0) + (if Has(flag, RQ_WCD) then 8 else 0) + (if Has(flag, RQ_RCD) then 16 else 0)
  }

  /** `vmm_request` with RQ_ALLOC, but neither RQ_LARGE nor RQ_HINT. A result of 0 is a null pointer. */
  function VmmRequest(s: Sys, sz: nat, flag: nat): (r: (Sys, nat))
    requires Ready(s)
    ensures Ready(r.0)
  {
    Fill(s, PlanOf(s, sz), MapFlag(flag))
  }

  // ----- What the layers above the extent tables see -----

  /** The class of every virtual address and of every physical one, and the page tables. */
  datatype Abs = Abs(c: Classes, p: Classes, space: Space)

  ghost function Of(s: Sys): Abs { Abs(View(s.vmm), View(s.phy), s.space) }

  /** The page tables are sound, and the frames of page tables and reserve pages are not FREE. */
  ghost predicate Safe(x: Abs, lo: nat, hi: nat) {
    && Paged(x.c, x.space, lo, hi)
    && forall a: nat {:trigger TablePage(x.c, x.space, lo, hi, a)} ::
         TablePage(x.c, x.space, lo, hi, a) && HwWalk(x.space, a).Some? ==> x.p(HwWalk(x.space, a).value) != Free
  }

  ghost predicate Sound(s: Sys, lo: nat, hi: nat) {
    Ready(s) && WellFormed(s.vmm) && Funded(s.phy, Alloc) && Safe(Of(s), lo, hi)
  }

  /** Page `t` may be mapped now. */
  ghost predicate Mappable(x: Abs, lo: nat, hi: nat, t: nat)
    requires Paging.Sized(x.space)
  {
    IsPage(t) && !TablePage(x.c, x.space, lo, hi, t) && !LargeAt(x.space, t)
  }

  /** Physical pages only ever go from FREE to ALLOC. */
  ghost predicate OnlyTaken(p: Classes, p': Classes) {
    forall a: int {:trigger p'(a)} :: p'(a) == p(a) || (p(a) == Free && p'(a) == Alloc)
  }

  lemma TableIsPage(x: Abs, lo: nat, hi: nat, a: nat)
    requires Paged(x.c, x.space, lo, hi) && TablePage(x.c, x.space, lo, hi, a)
    ensures IsPage(a)
  {
    if d: nat :| d < |x.space.idx| && x.space.idx[d] == a { assert GoodDir(x.c, x.space, d); }
  }

  // ----- The supply of page tables -----

  /** What decides where page tables come from: the extent table, and the directory slots without one. */
  datatype Supply = Supply(v: Table, missing: set<nat>)

  function Tableless(s: Space): set<nat>
    requires Paging.Sized(s)
  {
    set d: nat | d < DIRS && s.idx[d] == 0
  }

  function Forecast(s: Sys): (q: Supply)
    requires Ready(s)
    ensures q.v == s.vmm
  {
    Supply(s.vmm, Tableless(s.space))
  }

  /** The supply after a turn for page `t`. */
  function Fetch(q: Supply, t: nat): (r: Supply)
    requires Shaped(q.v)
    ensures Shaped(r.v)
  {
    if t / LARGE_SIZE in q.missing then Supply(AllocateRes(q.v, 1, Alloc).0, q.missing - {t / LARGE_SIZE}) else q
  }

  function FetchAll(q: Supply, t: nat, n: nat): (r: Supply)
    requires Shaped(q.v)
    ensures Shaped(r.v)
    decreases n
  {
    if n == 0 then q else FetchAll(Fetch(q, t), t + PAGE_SIZE, n - 1)
  }

  /** Every page table that the turns for `n` pages from `t` take is a reserve page that is mapped by
      then: if the pages are themselves new reserve (`pre`), those before the turn are. */
  ghost predicate Fed(q: Supply, t: nat, n: nat, pre: bool)
    requires Shaped(q.v)
    decreases n
  {
    n == 0 ||
    (&& (t / LARGE_SIZE in q.missing ==> if pre then TableAtHand(q.v, t, t + n * PAGE_SIZE) else TableAtHand(q.v, 0, 0))
     && Fed(Fetch(q, t), t + PAGE_SIZE, n - 1, pre))
  }

  /** ... and the extent table can record that it is taken. */
  ghost predicate Slotted(q: Supply, t: nat, n: nat)
    requires Shaped(q.v)
    decreases n
  {
    n == 0 || ((t / LARGE_SIZE in q.missing ==> SlotAtHand(q.v)) && Slotted(Fetch(q, t), t + PAGE_SIZE, n - 1))
  }

  lemma FirstFetch(q: Supply, t: nat, n: nat, pre: bool)
    requires Shaped(q.v) && n > 0 && Slotted(q, t, n)
    ensures Slotted(Fetch(q, t), t + PAGE_SIZE, n - 1)
    ensures FetchAll(q, t, n) == FetchAll(Fetch(q, t), t + PAGE_SIZE, n - 1)
    ensures Fed(q, t, n, pre) ==> Fed(Fetch(q, t), t + PAGE_SIZE, n - 1, pre)
    ensures Fed(q, t, n, pre) && t / LARGE_SIZE in q.missing ==>
      if pre then PageInReserve(q.v, t, t + n * PAGE_SIZE) else PageInReserve(q.v, 0, 0)
  {
    hide Fetch, TableAtHand, SlotAtHand;
  }

  lemma NoFetch(q: Supply, t: nat)
    requires Shaped(q.v)
    ensures FetchAll(q, t, 0) == q
  {
  }

  /** Slots once given a table keep it, and those of all pages mapped have one. */
  lemma {:induction false} FetchedSlots(q: Supply, t: nat, n: nat, a: nat)
    requires Shaped(q.v) && t % PAGE_SIZE == 0 && a % PAGE_SIZE == 0
    requires InRange(t, n, a) || a / LARGE_SIZE !in q.missing
    ensures a / LARGE_SIZE !in FetchAll(q, t, n).missing
    decreases n
  {
    hide AllocateRes;
    if n > 0 {
      assert InRange(t, n, a) ==> a == t || InRange(t + PAGE_SIZE, n - 1, a);
      FetchedSlots(Fetch(q, t), t + PAGE_SIZE, n - 1, a);
    }
  }

  /** A page taken from the reserve leaves one in `[lo, hi)` in its class, and one that is not PRE. */
  lemma TakenElsewhere(v: Table, lo: nat, hi: nat, a: nat) returns (v1: Table)
    requires ReserveReady(v, lo, hi) && IsPage(a) && (lo <= a < hi || ClassAt(v.slots, a) != Pre)
    ensures Shaped(v) && v1 == AllocateRes(v, 1, Alloc).0
    ensures Shaped(v1) && WellFormed(v1) && ClassAt(v1.slots, 0) == Unset && ClassAt(v1.slots, a) == ClassAt(v.slots, a)
  {
    TakeReserve(v, lo, hi);
    assert Shaped(v);
    v1 := AllocateRes(v, 1, Alloc).0;
    hide AllocateRes, WellFormed, PageInReserve, ClassAt;
    assert View(v)(a) == ClassAt(v.slots, a) && View(v1)(a) == ClassAt(v1.slots, a);
    assert View(v)(0) == ClassAt(v.slots, 0) && View(v1)(0) == ClassAt(v1.slots, 0);
    OtherPage(View(v), View(v1), lo, hi, AllocateRes(v, 1, Alloc).1, a);
    OtherPage(View(v), View(v1), lo, hi, AllocateRes(v, 1, Alloc).1, 0);
  }

  lemma OtherPage(m: Classes, m': Classes, lo: nat, hi: nat, p: nat, a: nat)
    requires Reserve(m, lo, hi, p) && TakenPage(m, m', p) && IsPage(a) && (lo <= a < hi || m(a) != Pre)
    ensures m'(a) == m(a)
  {
  }

  // ----- One turn of the mapping loops -----

  ghost predicate SameWalk(x: Abs, r: Abs, a: nat)
    requires Paging.Sized(x.space) && Paging.Sized(r.space) && a < LIMIT
  {
    HwWalk(r.space, a) == HwWalk(x.space, a) && HwFlags(r.space, a) == HwFlags(x.space, a)
  }

  /** The page of `a` is mapped with flags `f` to a frame that was FREE and is now ALLOC. */
  ghost predicate FreshFrame(x: Abs, r: Abs, a: nat, f: nat)
    requires Paging.Sized(r.space) && a < LIMIT
  {
    match HwWalk(r.space, a)
    case None => false
    case Some(frame) =>
      IsPage(frame) && frame != 0 && x.p(frame) == Free && r.p(frame) == Alloc && HwFlags(r.space, a) == PteFlags(f)
  }

  /** `x1` is `x` after page `t` was mapped to a fresh frame with flags `f`. */
  ghost predicate Turned(x: Abs, x1: Abs, lo: nat, lo1: nat, hi: nat, t: nat, f: nat)
    requires Paging.Sized(x.space) && t < LIMIT
  {
    && Safe(x1, lo1, hi) && PreTaken(x.c, x1.c) && OnlyTaken(x.p, x1.p) && FreshFrame(x, x1, t, f)
    && (forall a: nat {:trigger SameWalk(x, x1, a)} :: IsPage(a) && a != t ==> SameWalk(x, x1, a))
    && (forall a: nat {:trigger LargeAt(x1.space, a)} :: a < LIMIT ==> LargeAt(x1.space, a) == LargeAt(x.space, a))
    && (forall a: nat {:trigger TablePage(x1.c, x1.space, lo1, hi, a)} ::
          TablePage(x1.c, x1.space, lo1, hi, a) ==> a == t || TablePage(x.c, x.space, lo, hi, a))
    && (forall c: nat {:trigger x1.space.idx[c]} :: c < DIRS ==>
          (x1.space.idx[c] == 0 <==> x.space.idx[c] == 0 && c != Slot(t)))
    && TablesFromReserve(x.c, x.space, x1.space) && TakenAsTables(x.c, x1.c, x.space, x1.space)
  }

  lemma FrameAllocated(t: Table)
    requires Funded(t, Alloc)
    ensures var (r, ph) := Allocate(t, 1, Alloc);
      && Funded(r, Alloc) && OnlyTaken(View(t), View(r)) && (ph == 0 ==> r.slots == t.slots)
      && (ph != 0 ==> IsPage(ph) && ClassAt(t.slots, ph) == Free && ClassAt(r.slots, ph) == Alloc)
  {
    AllocateFunded(t, 1, Alloc);
  }

  lemma RemappedTurned(x: Abs, x1: Abs, lo: nat, lo1: nat, hi: nat, t: nat, ph: nat, f: nat)
    requires Safe(x, lo, hi) && IsPage(t) && IsPage(ph) && ph != 0
    requires Remapped(x.c, x.space, lo, x1.c, x1.space, lo1, hi, ph, t, f)
    requires PreTaken(x.c, x1.c) && OnlyTaken(x.p, x1.p) && x.p(ph) == Free && x1.p(ph) == Alloc
    ensures Turned(x, x1, lo, lo1, hi, t, f)
  {
    forall a: nat | TablePage(x1.c, x1.space, lo1, hi, a) && HwWalk(x1.space, a).Some?
      ensures x1.p(HwWalk(x1.space, a).value) != Free
    {
      TableIsPage(x1, lo1, hi, a);
    }
  }

  lemma MapFreshExact(s: Sys, lo: nat, hi: nat, lo1: nat, t: nat, f: nat)
    requires Sound(s, lo, hi) && Mappable(Of(s), lo, hi, t) && MapsReserve(lo, lo1, t, f) && MapFresh(s, t, f).1
    requires NeedsTable(s.space, t) ==> PageInReserve(s.vmm, lo, hi)
    ensures var s1 := MapFresh(s, t, f).0;
      Sound(s1, lo1, hi) && Turned(Of(s), Of(s1), lo, lo1, hi, t, f) && Forecast(s1) == Fetch(Forecast(s), t)
  {
    var (p1, ph) := Allocate(s.phy, 1, Alloc);
    FrameAllocated(s.phy);
    assert MayMap(View(s.vmm), s.space, lo, hi, ph, t);
    MapPageExact(s.vmm, s.space, lo, hi, lo1, ph, t, f);
    var s1 := MapFresh(s, t, f).0;
    RemappedTurned(Of(s), Of(s1), lo, lo1, hi, t, ph, f);
    TablelessAfter(s.space, s1.space, t);
  }

  lemma TablelessAt(s: Space, t: nat)
    requires Paging.Sized(s) && t < LIMIT
    ensures t / LARGE_SIZE in Tableless(s) <==> NeedsTable(s, t)
  {
  }

  lemma TablelessAfter(s: Space, r: Space, t: nat)
    requires Paging.Sized(s) && Paging.Sized(r) && t < LIMIT
    requires forall c: nat :: c < DIRS ==> (r.idx[c] == 0 <==> s.idx[c] == 0 && c != Slot(t))
    ensures Tableless(r) == Tableless(s) - {Slot(t)} && (Slot(t) in Tableless(s) <==> NeedsTable(s, t))
  {
  }

  // ----- A run of turns -----

  /** The pages `[t, t + n pages)`. */
  predicate InRange(t: nat, n: nat, a: int) { t <= a < t + n * PAGE_SIZE }

  /** Two pages of the range are in one frame. */
  ghost predicate Collide(r: Abs, t: nat, n: nat, a: nat, b: nat)
    requires Paging.Sized(r.space)
  {
    IsPage(a) && IsPage(b) && InRange(t, n, a) && InRange(t, n, b) && HwWalk(r.space, a) == HwWalk(r.space, b)
  }

  /** `n` pages from `t` have been given distinct fresh frames; nothing else is translated anew. */
  ghost predicate Mapped(x: Abs, r: Abs, t: nat, n: nat, f: nat)
    requires Paging.Sized(x.space) && Paging.Sized(r.space)
  {
    && OnlyTaken(x.p, r.p)
    && (forall a: nat {:trigger SameWalk(x, r, a)} :: IsPage(a) && !InRange(t, n, a) ==> SameWalk(x, r, a))
    && (forall a: nat {:trigger FreshFrame(x, r, a, f)} :: IsPage(a) && InRange(t, n, a) ==> FreshFrame(x, r, a, f))
    && (forall a: nat, b: nat {:trigger Collide(r, t, n, a, b)} :: Collide(r, t, n, a, b) ==> a == b)
  }

  lemma InRangeCons(t: nat, n: nat, a: nat)
    requires IsPage(t) && IsPage(a) && n > 0
    ensures InRange(t, n, a) <==> a == t || InRange(t + PAGE_SIZE, n - 1, a)
    ensures !InRange(t + PAGE_SIZE, n - 1, t)
  {
  }

  lemma MappedCons(x: Abs, x1: Abs, r: Abs, lo: nat, lo1: nat, hi: nat, t: nat, n: nat, f: nat)
    requires Paging.Sized(x.space) && Paging.Sized(r.space) && IsPage(t) && n > 0
    requires Turned(x, x1, lo, lo1, hi, t, f) && Mapped(x1, r, t + PAGE_SIZE, n - 1, f)
    ensures Mapped(x, r, t, n, f)
  {
    InRangeCons(t, n, t);
    assert SameWalk(x1, r, t);
    forall a: nat | IsPage(a) && !InRange(t, n, a) ensures SameWalk(x, r, a) {
      InRangeCons(t, n, a);
      assert SameWalk(x, x1, a) && SameWalk(x1, r, a);
    }
    forall a: nat | IsPage(a) && InRange(t, n, a)
      ensures FreshFrame(x, r, a, f) && (a != t ==> HwWalk(r.space, a) != HwWalk(r.space, t))
    {
      InRangeCons(t, n, a);
      if a != t { assert FreshFrame(x1, r, a, f); }
    }
    forall a: nat, b: nat | Collide(r, t, n, a, b) ensures a == b {
      InRangeCons(t, n, a);
      InRangeCons(t, n, b);
      if a != t && b != t { assert Collide(r, t + PAGE_SIZE, n - 1, a, b); }
    }
  }

  /** The pages of a run may be mapped: reserve pages not yet mapped (`pre`), or pages that are no
      part of the reserve, with nothing pending. */
  ghost predicate Runnable(x: Abs, lo: nat, hi: nat, t: nat, n: nat, pre: bool) {
    && Safe(x, lo, hi) && IsPage(t) && t + n * PAGE_SIZE < LIMIT
    && (if pre then lo == t && hi == t + n * PAGE_SIZE else lo == hi == 0)
    && (forall a: nat {:trigger Mappable(x, lo, hi, a)} :: IsPage(a) && InRange(t, n, a) ==> Mappable(x, lo, hi, a))
  }

  /** What a run of turns leaves behind, apart from the mapping itself. */
  ghost predicate RunDone(x: Abs, r: Abs, lo': nat, hi: nat)
    requires Paging.Sized(x.space)
  {
    && Safe(r, lo', hi) && PreTaken(x.c, r.c)
    && (forall a: nat {:trigger LargeAt(r.space, a)} :: a < LIMIT ==> LargeAt(r.space, a) == LargeAt(x.space, a))
    && TablesFromReserve(x.c, x.space, r.space) && TakenAsTables(x.c, r.c, x.space, r.space)
  }

  lemma RunnableNext(x: Abs, x1: Abs, lo: nat, lo1: nat, hi: nat, t: nat, n: nat, f: nat, pre: bool)
    requires n > 0 && Runnable(x, lo, hi, t, n, pre) && lo1 == (if pre then lo + PAGE_SIZE else lo)
    requires Turned(x, x1, lo, lo1, hi, t, f)
    ensures Runnable(x1, lo1, hi, t + PAGE_SIZE, n - 1, pre)
  {
    assert Paging.Sized(x.space) && Paging.Sized(x1.space);
    NextPage(t, n);
    hide Safe, LargeAt, HwWalk, Reserve, IsTable, Mappable, InRange, IsPage, Turned;
    forall a: nat | IsPage(a) && InRange(t + PAGE_SIZE, n - 1, a) ensures Mappable(x1, lo1, hi, a) {
      InRangeCons(t, n, a);
      InRangeCons(t, n, t);
      StillMappable(x, x1, lo, lo1, hi, t, f, a);
    }
  }

  lemma NextPage(t: nat, n: nat)
    requires IsPage(t) && n > 0 && t + n * PAGE_SIZE < LIMIT
    ensures t + PAGE_SIZE + (n - 1) * PAGE_SIZE == t + n * PAGE_SIZE && IsPage(t + PAGE_SIZE)
  {
  }

  lemma StillMappable(x: Abs, x1: Abs, lo: nat, lo1: nat, hi: nat, t: nat, f: nat, a: nat)
    requires Paging.Sized(x.space) && t < LIMIT && Turned(x, x1, lo, lo1, hi, t, f) && Mappable(x, lo, hi, a) && a != t
    ensures Paging.Sized(x1.space) && Mappable(x1, lo1, hi, a)
  {
    assert Paging.Sized(x1.space);
    hide Safe, HwWalk, Reserve, IsTable;
    assert LargeAt(x1.space, a) == LargeAt(x.space, a);
  }

  lemma RunDoneCons(x: Abs, x1: Abs, r: Abs, lo: nat, lo1: nat, lo': nat, hi: nat, t: nat, f: nat)
    requires Paging.Sized(x.space) && IsPage(t)
    requires Turned(x, x1, lo, lo1, hi, t, f) && RunDone(x1, r, lo', hi)
    ensures RunDone(x, r, lo', hi)
  {
    forall a: nat | a < LIMIT ensures LargeAt(r.space, a) == LargeAt(x.space, a) {
      assert LargeAt(x1.space, a) == LargeAt(x.space, a);
    }
    forall a: nat | IsTable(r.space, a) ensures IsTable(x.space, a) || x.c(a) == Pre {
      assert IsTable(x1.space, a) || x1.c(a) == Pre;
    }
    TakenCons(x, x1, r);
  }

  lemma TakenCons(x: Abs, x1: Abs, r: Abs)
    requires PreTaken(x.c, x1.c) && TakenAsTables(x.c, x1.c, x.space, x1.space) && TakenAsTables(x1.c, r.c, x1.space, r.space)
    ensures TakenAsTables(x.c, r.c, x.space, r.space)
  {
    hide IsTable;
    forall a: nat | IsPage(a) && x.c(a) == Pre && r.c(a) == Alloc ensures IsTable(r.space, a) {
      assert x1.c(a) == Pre || IsTable(x1.space, a);
    }
    forall a: nat | IsTable(x.space, a) ensures IsTable(r.space, a) { assert IsTable(x1.space, a); }
  }

  /** The outcome of `n` turns: exactly their pages are mapped, to distinct fresh frames. */
  ghost predicate RunOutcome(x: Abs, r: Abs, lo': nat, hi: nat, t: nat, n: nat, f: nat)
    requires Paging.Sized(x.space) && Paging.Sized(r.space)
  {
    Mapped(x, r, t, n, f) && RunDone(x, r, lo', hi)
  }

  lemma OutcomeCons(x: Abs, x1: Abs, r: Abs, lo: nat, lo1: nat, lo': nat, hi: nat, t: nat, n: nat, f: nat)
    requires Paging.Sized(x.space) && Paging.Sized(r.space) && IsPage(t) && n > 0
    requires Turned(x, x1, lo, lo1, hi, t, f) && RunOutcome(x1, r, lo', hi, t + PAGE_SIZE, n - 1, f)
    ensures RunOutcome(x, r, lo', hi, t, n, f)
  {
    MappedCons(x, x1, r, lo, lo1, hi, t, n, f);
    RunDoneCons(x, x1, r, lo, lo1, lo', hi, t, f);
  }

  lemma OutcomeNone(x: Abs, r: Abs, lo: nat, hi: nat, t: nat, f: nat)
    requires Safe(x, lo, hi) && r.c == x.c && r.space == x.space && forall a: int {:trigger r.p(a)} :: r.p(a) == x.p(a)
    ensures RunOutcome(x, r, lo, hi, t, 0, f)
  {
  }

  /** No frame is left: nothing is ever mapped again. */
  predicate Exhausted(v: Table) { Shaped(v) && !Satisfiable(v.slots, 1) }

  lemma NoFrame(v: Table)
    requires Exhausted(v)
    ensures Allocate(v, 1, Alloc).1 == 0 && Exhausted(Allocate(v, 1, Alloc).0)
  {
    var t1 := if v.slots[v.ifree].flags != Free then FindFree(v, 1) else v;
    assert !Candidate(v.slots, t1.ifree, 1) && !Candidate(v.slots, FindFree(t1, 1).ifree, 1);
  }

  /** Pages mapped when the frames run out, or all of them. */
  lemma {:induction false} MapRunExact(s: Sys, lo: nat, hi: nat, t: nat, n: nat, f: nat, pre: bool)
    returns (r: Sys, j: nat, lo': nat)
    requires Sound(s, lo, hi) && Runnable(Of(s), lo, hi, t, n, pre)
    requires Fed(Forecast(s), t, n, pre) && Slotted(Forecast(s), t, n) && (pre ==> f / 2 % 2 == 1)
    ensures r == MapRun(s, t, n, f).0 && j <= n && (if MapRun(s, t, n, f).1 then j == n else Exhausted(r.phy))
    ensures lo' == (if pre then lo + j * PAGE_SIZE else lo) && Sound(r, lo', hi)
    ensures RunOutcome(Of(s), Of(r), lo', hi, t, j, f) && Forecast(r) == FetchAll(Forecast(s), t, j)
    decreases n
  {
    hide MapRun, MapFresh, Safe, AllocateRes, Turned, RunOutcome, FetchAll, Forecast, Fed, Slotted, Exhausted;
    if n == 0 {
      RunNone(s, t, f);
      OutcomeNone(Of(s), Of(s), lo, hi, t, f);
      NoFetch(Forecast(s), t);
      r, j, lo' := s, 0, lo;
    } else if !MapFresh(s, t, f).1 {
      r := FailedTurn(s, lo, hi, t, n, f);
      j, lo' := 0, lo;
    } else {
      var lo1 := if pre then lo + PAGE_SIZE else lo;
      var s1 := FirstTurn(s, lo, hi, lo1, t, n, f, pre);
      r, j, lo' := MapRunExact(s1, lo1, hi, t + PAGE_SIZE, n - 1, f, pre);
      OneMore(s, s1, r, lo, lo1, lo', hi, t, f, j);
      j := j + 1;
    }
  }

  /** A turn, and those after it. */
  lemma OneMore(s: Sys, s1: Sys, r: Sys, lo: nat, lo1: nat, lo': nat, hi: nat, t: nat, f: nat, j: nat)
    requires Ready(s) && Ready(s1) && Ready(r) && IsPage(t)
    requires Turned(Of(s), Of(s1), lo, lo1, hi, t, f) && RunOutcome(Of(s1), Of(r), lo', hi, t + PAGE_SIZE, j, f)
    requires Forecast(s1) == Fetch(Forecast(s), t) && Forecast(r) == FetchAll(Forecast(s1), t + PAGE_SIZE, j)
    ensures RunOutcome(Of(s), Of(r), lo', hi, t, j + 1, f) && Forecast(r) == FetchAll(Forecast(s), t, j + 1)
  {
    hide Turned, RunOutcome, Fetch, FetchAll, Forecast;
    FetchedFirst(Forecast(s), t, j + 1);
    OutcomeCons(Of(s), Of(s1), Of(r), lo, lo1, lo', hi, t, j + 1, f);
  }

  lemma FetchedFirst(q: Supply, t: nat, n: nat)
    requires Shaped(q.v) && n > 0
    ensures FetchAll(q, t, n) == FetchAll(Fetch(q, t), t + PAGE_SIZE, n - 1)
  {
    hide Fetch;
  }

  lemma FailedTurn(s: Sys, lo: nat, hi: nat, t: nat, n: nat, f: nat) returns (r: Sys)
    requires Sound(s, lo, hi) && t < LIMIT && n > 0 && !MapFresh(s, t, f).1
    ensures MapRun(s, t, n, f) == (r, false) && Exhausted(r.phy) && Sound(r, lo, hi)
    ensures RunOutcome(Of(s), Of(r), lo, hi, t, 0, f) && Forecast(r) == FetchAll(Forecast(s), t, 0)
  {
    MapRunStep(s, t, n, f);
    FrameAllocated(s.phy);
    AllocateSoundComplete(s.phy, 1, Alloc);
    r := MapFresh(s, t, f).0;
    assert r == s.(phy := Allocate(s.phy, 1, Alloc).0);
    hide MapRun, MapFresh, Allocate;
    NoFetch(Forecast(s), t);
    OutcomeNone(Of(s), Of(r), lo, hi, t, f);
    SameFrames(Of(s), Of(r), lo, hi);
  }

  lemma SameFrames(x: Abs, r: Abs, lo: nat, hi: nat)
    requires Safe(x, lo, hi) && r.c == x.c && r.space == x.space && forall a: int {:trigger r.p(a)} :: r.p(a) == x.p(a)
    ensures Safe(r, lo, hi)
  {
  }

  lemma FirstTurn(s: Sys, lo: nat, hi: nat, lo1: nat, t: nat, n: nat, f: nat, pre: bool)
    returns (s1: Sys)
    requires n > 0 && Sound(s, lo, hi) && Runnable(Of(s), lo, hi, t, n, pre) && MapFresh(s, t, f).1
    requires Fed(Forecast(s), t, n, pre) && Slotted(Forecast(s), t, n)
    requires lo1 == (if pre then lo + PAGE_SIZE else lo) && (pre ==> f / 2 % 2 == 1)
    ensures Sound(s1, lo1, hi) && Turned(Of(s), Of(s1), lo, lo1, hi, t, f)
    ensures Runnable(Of(s1), lo1, hi, t + PAGE_SIZE, n - 1, pre)
    ensures Forecast(s1) == Fetch(Forecast(s), t)
    ensures Fed(Forecast(s1), t + PAGE_SIZE, n - 1, pre) && Slotted(Forecast(s1), t + PAGE_SIZE, n - 1)
    ensures MapRun(s, t, n, f) == MapRun(s1, t + PAGE_SIZE, n - 1, f)
  {
    hide MapRun, MapFresh, Fed, Slotted, AllocateRes, PageInReserve, Turned;
    InRangeCons(t, n, t);
    assert Mappable(Of(s), lo, hi, t);
    FirstFetch(Forecast(s), t, n, pre);
    TablelessAt(s.space, t);
    MapFreshExact(s, lo, hi, lo1, t, f);
    s1 := MapFresh(s, t, f).0;
    MapRunStep(s, t, n, f);
    NextPage(t, n);
    assert Wrap32(t + PAGE_SIZE) == t + PAGE_SIZE;
    hide Forecast, Fetch, Sound;
    RunnableNext(Of(s), Of(s1), lo, lo1, hi, t, n, f, pre);
  }
}
