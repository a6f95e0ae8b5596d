/** A state from which requests can be served (kernel/memory.cpp): one page table, which maps itself and one page of
    reserve, memory to hand out above them, and frames. */
module RequestStart {
  import opened Extents
  import opened Wrappers
  import opened Allocation
  import opened Paging
  import opened Requests
  import opened RequestOutcomes

  const TABLE: nat := 0x20_0000
  const RESERVE: nat := 0x20_1000
  const MEMORY: nat := 0x20_2000
  const TABLE_FRAME: nat := 0x1000
  const RESERVE_FRAME: nat := 0x2000
  const FRAMES: nat := 0x1_0000

  const UNSET := Extent(Unset, 0, 0)

  function Virtual(): (v: Table)
    ensures Shaped(v) && |v.slots| == MAX_EXT
  {
    Table(seq(MAX_EXT, i => if i == 0 then Extent(Free, MEMORY, 16) else if i == 1 then Extent(Pre, RESERVE, 1)
                            else if i == 2 then Extent(Alloc, TABLE, 1) else UNSET), 0)
  }

  function Physical(): (v: Table)
    ensures Shaped(v) && |v.slots| == MAX_EXT
  {
    Table(seq(MAX_EXT, i => if i == 0 then Extent(Free, FRAMES, 16) else UNSET), 0)
  }

  function FirstTable(): (t: seq<Entry>)
    ensures |t| == 512
  {
    seq(512, i => if i == 0 then Entry(TABLE_FRAME, PRESENT_WRITABLE)
                  else if i == 1 then Entry(RESERVE_FRAME, PRESENT_WRITABLE) else NOT_PRESENT)
  }

  function StartSpace(): (s: Space)
    ensures Paging.Sized(s)
  {
    Space(seq(DIRS, d => if d == 1 then Entry(TABLE_FRAME, PRESENT_WRITABLE) else NOT_PRESENT),
          seq(DIRS, d => if d == 1 then TABLE else 0), map[TABLE_FRAME := FirstTable()])
  }

  function Start(): (s: Sys)
    ensures Ready(s)
  {
    Sys(Virtual(), Physical(), StartSpace())
  }

  lemma TablesWellFormed()
    ensures WellFormed(Virtual()) && WellFormed(Physical())
  {
    forall i: int, j: int, a: int | Overlap(Virtual().slots, i, j, a) ensures i == j { }
  }

  /** The class of a virtual address. */
  lemma VirtualClass(a: int)
    ensures ClassAt(Virtual().slots, a) ==
      if TABLE <= a < RESERVE then Alloc else if RESERVE <= a < MEMORY then Pre
      else if MEMORY <= a < MEMORY + 0x1_0000 then Free else Unset
  {
    var s := Virtual().slots;
    TablesWellFormed();
    if MEMORY <= a < MEMORY + 0x1_0000 { ClassOfCover(s, 0, a); }
    if RESERVE <= a < MEMORY { ClassOfCover(s, 1, a); }
    if TABLE <= a < RESERVE { ClassOfCover(s, 2, a); }
  }

  lemma PhysicalClass(a: int)
    ensures ClassAt(Physical().slots, a) == if FRAMES <= a < FRAMES + 0x1_0000 then Free else Unset
  {
    TablesWellFormed();
    if FRAMES <= a < FRAMES + 0x1_0000 { ClassOfCover(Physical().slots, 0, a); }
  }

  /** What is mapped: page table and reserve page. */
  lemma Walks(a: nat)
    requires IsPage(a)
    ensures HwWalk(StartSpace(), a) ==
      if a == TABLE then Some(TABLE_FRAME) else if a == RESERVE then Some(RESERVE_FRAME) else None
    ensures a == RESERVE ==> Usable(StartSpace(), a)
  {
  }

  lemma StartDir(d: nat)
    requires d < DIRS
    ensures GoodDir(View(Virtual()), StartSpace(), d)
  {
    var m, s := View(Virtual()), StartSpace();
    VirtualClass(TABLE);
    Walks(TABLE);
    assert m(TABLE) == ClassAt(Virtual().slots, TABLE);
    assert TableIn(s, TABLE_FRAME) == FirstTable();
    hide Virtual, View, HwWalk;
    assert d == 1 || s.idx[d] == 0;
  }

  lemma StartTablePage(a: nat)
    requires TablePage(View(Virtual()), StartSpace(), 0, 0, a)
    ensures a == TABLE || a == RESERVE
  {
    VirtualClass(a);
    assert View(Virtual())(a) == ClassAt(Virtual().slots, a);
  }

  lemma StartPaged()
    ensures Paged(View(Virtual()), StartSpace(), 0, 0)
  {
    var m, s := View(Virtual()), StartSpace();
    VirtualClass(0);
    assert m(0) == Unset;
    Walks(TABLE);
    Walks(RESERVE);
    hide Virtual, View, HwWalk, HwFlags, GoodDir, TablePage;
    forall d: nat | d < DIRS ensures GoodDir(m, s, d) { StartDir(d); }
    forall a: nat | TablePage(m, s, 0, 0, a) ensures a == TABLE || a == RESERVE { StartTablePage(a); }
    forall a: nat | Reserve(m, 0, 0, a) ensures Usable(s, a) { ReserveIsTablePage(a); }
  }

  lemma ReserveIsTablePage(a: nat)
    requires Reserve(View(Virtual()), 0, 0, a)
    ensures TablePage(View(Virtual()), StartSpace(), 0, 0, a)
  {
  }

  lemma StartFunded()
    ensures Funded(Physical(), Alloc)
  {
    var s := Physical().slots;
    TablesWellFormed();
    assert Unpreceded(s, Alloc) <= {0};
    SubsetSize(Unpreceded(s, Alloc), {0});
    assert 1 in UnsetSlots(s);
    SubsetSize({1}, UnsetSlots(s));
  }

  /** The state is sound, with a mapped page in reserve. */
  lemma StartIsSound()
    ensures Sound(Start(), 0, 0) && Reserve(View(Start().vmm), 0, 0, RESERVE) && HwWalk(Start().space, RESERVE).Some?
  {
    StartPaged();
    StartFunded();
    TablesWellFormed();
    VirtualClass(RESERVE);
    Walks(RESERVE);
    var x := Of(Start());
    forall a: nat | TablePage(x.c, x.space, 0, 0, a) && HwWalk(x.space, a).Some?
      ensures x.p(HwWalk(x.space, a).value) != Free
    {
      VirtualClass(a);
      assert a == TABLE || a == RESERVE;
      Walks(a);
      PhysicalClass(HwWalk(x.space, a).value);
    }
  }

  lemma StartPlan(sz: nat) returns (v1: Table)
    requires PagesOf(sz) == 1
    ensures Shaped(v1) && Allocate(Start().vmm, 1, Alloc) == (v1, MEMORY)
    ensures PlanOf(Start(), sz) == Plan(v1, MEMORY, MEMORY + PAGE_SIZE, false, 0, v1, 0)
  {
    v1 := StartRange();
    StartCounts();
    hide Allocate, CountPageStructs, PlanOf, Virtual, StartSpace, Physical;
    PlainPlan(Start(), sz, v1, MEMORY);
  }

  lemma StartRange() returns (v1: Table)
    ensures Shaped(v1) && Allocate(Virtual(), 1, Alloc) == (v1, MEMORY)
  {
    v1 := Allocate(Virtual(), 1, Alloc).0;
    assert Virtual().slots[0] == Extent(Free, MEMORY, 16);
    hide SetExtent;
  }

  lemma StartCounts()
    ensures CountPageStructs(StartSpace(), MEMORY, 1) == 0
  {
    assert StartSpace().idx[1] == TABLE;
  }

  /** A request for up to a page finds all it takes, and is served. */
  lemma StartServes(sz: nat, flag: nat)
    requires 0 < sz <= PAGE_SIZE
    ensures Supplied(Start(), sz) && VmmRequest(Start(), sz, flag).1 == MEMORY
  {
    StartIsSound();
    var v1 := StartPlan(sz);
    StartSupplied(sz, v1);
    var s1 := Start().(vmm := v1);
    StartTurn(s1, MapFlag(flag));
    hide PlanOf, MapRun, Start, MapFlag;
    RunNone(s1, 0, WRITABLE);
    assert Turns(MEMORY, MEMORY + PAGE_SIZE) == 1;
  }

  lemma StartTurn(s1: Sys, f: nat)
    requires Ready(s1) && s1.phy == Physical()
    ensures MapRun(s1, MEMORY, 1, f).1
  {
    MapRunStep(s1, MEMORY, 1, f);
    StartFunded();
    assert Candidate(s1.phy.slots, 0, 1);
    AllocateSoundComplete(s1.phy, 1, Alloc);
    hide Allocate, MapRun;
    RunNone(MapFresh(s1, MEMORY, f).0, MEMORY + PAGE_SIZE, f);
  }

  lemma StartSupplied(sz: nat, v1: Table)
    requires PagesOf(sz) == 1 && Shaped(v1) && Sound(Start(), 0, 0) && Allocate(Start().vmm, 1, Alloc) == (v1, MEMORY)
    requires PlanOf(Start(), sz) == Plan(v1, MEMORY, MEMORY + PAGE_SIZE, false, 0, v1, 0)
    ensures Supplied(Start(), sz)
  {
    StartSpare(v1);
    StartHasTable();
    hide PlanOf, Allocate, Spare, Start, Sound;
    PlainSupply(FirstSupply(Start(), PlanOf(Start(), sz)));
  }

  lemma PlainSupply(q: Supply)
    requires Shaped(q.v) && 1 !in q.missing
    ensures Fed(q, 0, 0, true) && Slotted(q, 0, 0) && Fed(FetchAll(q, 0, 0), MEMORY, 1, false) && Slotted(FetchAll(q, 0, 0), MEMORY, 1)
  {
    NoFetch(q, 0);
    assert MEMORY / LARGE_SIZE == 1;
  }

  lemma StartHasTable()
    ensures 1 !in Tableless(Start().space)
  {
    assert StartSpace().idx[1] == TABLE;
  }

  lemma StartSpare(v1: Table)
    requires Sound(Start(), 0, 0) && Allocate(Start().vmm, 1, Alloc) == (v1, MEMORY)
    ensures Spare(Start().vmm, 1, Alloc)
  {
    var v := Start().vmm;
    VirtualClass(0);
    assert View(v)(0) == Unset;
    assert 3 in UnsetSlots(v.slots);
    hide Virtual, Physical, StartSpace, Allocate, ClassAt, Safe;
    FreeNotZero(v);
    SubsetSize({3}, UnsetSlots(v.slots));
    AllocateSoundComplete(v, 1, Alloc);
  }
}
