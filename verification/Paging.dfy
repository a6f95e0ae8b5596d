/** PAE page tables with a software shadow index (kernel/memory.cpp). `dir` is the four page
    directories laid end to end, so the entry for address `t` is number `t / 2 MB`; `idx` holds, for
    each entry, the virtual address of its page table, or 0. Page tables live in physical frames: a
    table is written through its virtual address and read by the hardware through its frame. */
module Paging {
  import opened Extents
  import opened Wrappers
  import opened Allocation

  const LARGE_SIZE := 0x20_0000
  const DIRS := 2048

  /** A 64-bit entry: page-aligned address bits and the low 12 flag bits. */
  datatype Entry = Entry(addr: nat, flags: nat) {
    predicate Present() { flags % 2 == 1 }
    predicate Large() { flags / 128 % 2 == 1 }
    predicate Writable() { flags / 2 % 2 == 1 }
  }

  const NOT_PRESENT := Entry(0, 0)
  const PRESENT_WRITABLE := 3

  datatype Space = Space(dir: seq<Entry>, idx: seq<nat>, frames: map<nat, seq<Entry>>)

  predicate Sized(s: Space) { |s.dir| == |s.idx| == DIRS }

  predicate IsPage(t: nat) { t % PAGE_SIZE == 0 && t < LIMIT }

  function Slot(t: nat): (d: nat)
    requires t < LIMIT
    ensures d < DIRS
  {
    t / LARGE_SIZE
  }

  function TableOfs(t: nat): (i: nat)
    ensures i < 512
  {
    t / PAGE_SIZE % 512
  }

  /** A page table with nothing in it. */
  function Cleared(): (r: seq<Entry>)
    ensures |r| == 512
  {
    seq(512, i => NOT_PRESENT)
  }

  /** The page table held in a frame, all clear if the frame has not been used as one. */
  function TableIn(s: Space, frame: nat): (r: seq<Entry>)
    ensures |r| == 512
  {
    if frame in s.frames && |s.frames[frame]| == 512 then s.frames[frame] else Cleared()
  }

  /** The hardware walk: the frame address of the page of `t`. */
  function HwWalk(s: Space, t: nat): Option<nat>
    requires Sized(s) && t < LIMIT
  {
    var e := s.dir[Slot(t)];
    if !e.Present() then None
    else if e.Large() then Some(e.addr + t % LARGE_SIZE / PAGE_SIZE * PAGE_SIZE)
    else
      var p := TableIn(s, e.addr)[TableOfs(t)];
      if p.Present() then Some(p.addr) else None
  }

  /** The flags of the entry that maps the page of `t`, none if it is not mapped. */
  function HwFlags(s: Space, t: nat): nat
    requires Sized(s) && t < LIMIT
  {
    var e := s.dir[Slot(t)];
    if !e.Present() then 0
    else if e.Large() then e.flags
    else
      var p := TableIn(s, e.addr)[TableOfs(t)];
      if p.Present() then p.flags else 0
  }

  /** The page table that virtual address `ptr` reaches. */
  function TableAt(s: Space, ptr: nat): (r: seq<Entry>)
    requires Sized(s) && ptr < LIMIT
    ensures |r| == 512
  {
    match HwWalk(s, ptr)
    case Some(frame) => TableIn(s, frame)
    case None => Cleared()
  }

  /** `translate_page`: the walk by shadow index. The masks are 32 bits wide. */
  function TranslatePage(s: Space, t: nat): nat
    requires Sized(s) && t < LIMIT && s.idx[Slot(t)] < LIMIT
  {
    var e := s.dir[Slot(t)];
    if !e.Present() then 0
    else if e.Large() then Wrap32(e.addr) / LARGE_SIZE * LARGE_SIZE + t % LARGE_SIZE
    else if s.idx[Slot(t)] == 0 then 0
    else Wrap32(TableAt(s, s.idx[Slot(t)])[TableOfs(t)].addr) + t % PAGE_SIZE
  }

  /** A whole table written through `ptr`. A write through an unmapped pointer would fault; the
      invariant below rules it out. */
  function StoreTable(s: Space, ptr: nat, table: seq<Entry>): (r: Space)
    requires Sized(s) && ptr < LIMIT && |table| == 512
    ensures Sized(r) && r.dir == s.dir && r.idx == s.idx
  {
    match HwWalk(s, ptr)
    case Some(frame) => s.(frames := s.frames[frame := table])
    case None => s
  }

  function PteFlags(f: nat): nat {
    f % 32 / 2 * 2 + 1
  }

  /** The part of `map_page` that makes sure slot `d` has a page table: a page of the PRE reserve is
      taken, cleared and entered in the shadow index. */
  function EnsureTable(v: Table, s: Space, d: nat): (r: (Table, Space))
    requires Shaped(v) && Sized(s) && d < DIRS
    ensures Shaped(r.0) && Sized(r.1) && r.1.dir == s.dir
  {
    if s.idx[d] != 0 then (v, s)
    else
      var (v', p) := AllocateRes(v, 1, Alloc);
      var s1 := s.(idx := s.idx[d := p]);
      (v', if p < LIMIT then StoreTable(s1, p, Cleared()) else s1)
  }

  /** `map_page` for a page that is not large. */
  function MapPage(v: Table, s: Space, phy: nat, t: nat, f: nat): (r: (Table, Space))
    requires Shaped(v) && Sized(s) && t < LIMIT
    ensures Shaped(r.0) && Sized(r.1)
  {
    var d := Slot(t);
    var e := s.dir[d];
    if e.Present() && e.Large() then (v, s)
    else
      var (v1, s1) := EnsureTable(v, s, d);
      var ptr := s1.idx[d];
      if ptr >= LIMIT || s1.idx[Slot(ptr)] >= LIMIT then (v1, s1)
      else
        var s2 := if e.Present() then s1
                  else s1.(dir := s1.dir[d := Entry(TranslatePage(s1, ptr), PRESENT_WRITABLE)]);
        (v1, StoreTable(s2, ptr, TableAt(s2, ptr)[TableOfs(t) := Entry(phy, PteFlags(f))]))
  }

  // ----- The invariant -----

  /** The class of every virtual address. */
  type Classes = int -> Class

  ghost predicate IsTable(s: Space, a: nat) {
    a != 0 && exists d :: 0 <= d < |s.idx| && s.idx[d] == a
  }

  /** A page of the PRE reserve that has been mapped: all of it but the part `[lo, hi)`. */
  ghost predicate Reserve(m: Classes, lo: nat, hi: nat, a: nat) {
    IsPage(a) && m(a) == Pre && !(lo <= a < hi)
  }

  /** Entry `e` of a page table: clear, or present with a 32-bit page-aligned frame. */
  predicate GoodPte(e: Entry) {
    e == NOT_PRESENT || (e.Present() && IsPage(e.addr))
  }

  /** Directory entry `d` and its shadow agree: no table, a large page, or a table whose frame is
      the one its virtual address reaches. */
  ghost predicate GoodDir(m: Classes, s: Space, d: nat)
    requires Sized(s) && d < DIRS
  {
    var e := s.dir[d];
    && IsPage(s.idx[d])
    && (s.idx[d] != 0 <==> e.Present() && !e.Large())
    && (e.Present() && e.Large() ==> e.addr % LARGE_SIZE == 0 && e.addr < LIMIT)
    && (s.idx[d] != 0 ==>
          && HwWalk(s, s.idx[d]) == Some(e.addr) && IsPage(e.addr) && m(s.idx[d]) == Alloc && e.Writable()
          && forall i :: 0 <= i < 512 ==> GoodPte(TableIn(s, e.addr)[i]))
  }

  /** Page `a` is mapped for reading and writing. */
  predicate Usable(s: Space, a: nat)
    requires Sized(s)
  {
    a < LIMIT && HwWalk(s, a).Some? && HwFlags(s, a) / 2 % 2 == 1
  }

  /** Page tables and reserve pages are mapped, the latter writable, in distinct frames; a FREE page is under no
      large mapping. */
  ghost predicate Paged(m: Classes, s: Space, lo: nat, hi: nat) {
    && Sized(s) && m(0) == Unset
    && (forall d: nat {:trigger GoodDir(m, s, d)} :: d < DIRS ==> GoodDir(m, s, d))
    && (forall d: nat, c: nat {:trigger SharesTable(s, d, c)} :: SharesTable(s, d, c) ==> d == c)
    && (forall a: nat {:trigger Reserve(m, lo, hi, a)} :: Reserve(m, lo, hi, a) ==> Usable(s, a))
    && (forall a: nat, b: nat {:trigger SharesFrame(m, s, lo, hi, a, b)} :: SharesFrame(m, s, lo, hi, a, b) ==> a == b)
    && (forall a: nat {:trigger LargeAt(s, a)} :: IsPage(a) && m(a) == Free ==> !LargeAt(s, a))
  }

  predicate SharesTable(s: Space, d: nat, c: nat)
    requires Sized(s)
  {
    d < DIRS && c < DIRS && s.idx[d] == s.idx[c] != 0
  }

  ghost predicate SharesFrame(m: Classes, s: Space, lo: nat, hi: nat, a: nat, b: nat)
    requires Sized(s)
  {
    TablePage(m, s, lo, hi, a) && TablePage(m, s, lo, hi, b) && HwWalk(s, a).Some? && HwWalk(s, a) == HwWalk(s, b)
  }

  ghost predicate TablePage(m: Classes, s: Space, lo: nat, hi: nat, a: nat) {
    a < LIMIT && (IsTable(s, a) || Reserve(m, lo, hi, a))
  }

  predicate LargeAt(s: Space, a: nat)
    requires Sized(s) && a < LIMIT
  {
    s.dir[Slot(a)].Present() && s.dir[Slot(a)].Large()
  }

  lemma LargeFrame(addr: nat, t: nat)
    requires addr % LARGE_SIZE == 0 && addr < LIMIT
    ensures Wrap32(addr) / LARGE_SIZE * LARGE_SIZE + t % LARGE_SIZE == addr + t % LARGE_SIZE / PAGE_SIZE * PAGE_SIZE + t % PAGE_SIZE
  {
    assert t % LARGE_SIZE % PAGE_SIZE == t % PAGE_SIZE;
  }

  /** `translate_page` agrees with the hardware walk on every address that is mapped. For one that is not it gives 0,
      unless a page table lies over it: then it gives the offset in the page, which is 0 for page addresses. */
  lemma TranslateIsHwWalk(m: Classes, s: Space, lo: nat, hi: nat, t: nat)
    requires Paged(m, s, lo, hi) && t < LIMIT
    ensures s.idx[Slot(t)] < LIMIT
    ensures TranslatePage(s, t) == match HwWalk(s, t)
      case Some(frame) => frame + t % PAGE_SIZE
      case None => if s.idx[Slot(t)] != 0 then t % PAGE_SIZE else 0
  {
    var d := Slot(t);
    assert GoodDir(m, s, d);
    var e := s.dir[d];
    if e.Present() && e.Large() {
      LargeFrame(e.addr, t);
    } else if e.Present() {
      var pte := TableIn(s, e.addr)[TableOfs(t)];
      assert GoodPte(pte);
      assert TableAt(s, s.idx[d]) == TableIn(s, e.addr);
    }
  }

  /** The page that holds an address; what maps it maps the address. */
  function PageOf(t: nat): (a: nat)
    ensures a <= t < a + PAGE_SIZE && (t < LIMIT ==> IsPage(a))
  {
    t - t % PAGE_SIZE
  }

  lemma WalkOfPage(s: Space, t: nat)
    requires Sized(s) && t < LIMIT
    ensures HwWalk(s, t) == HwWalk(s, PageOf(t)) && HwFlags(s, t) == HwFlags(s, PageOf(t))
  {
    var a, k := PageOf(t), t / PAGE_SIZE;
    assert a == k * PAGE_SIZE && t == a + t % PAGE_SIZE;
    assert Slot(t) == k / 512 == Slot(a) && TableOfs(t) == k % 512 == TableOfs(a);
    assert t % LARGE_SIZE / PAGE_SIZE == k % 512 == a % LARGE_SIZE / PAGE_SIZE;
  }

  // ----- Making sure a slot has a table -----

  /** Page `t` lies in a directory slot without a page table. */
  predicate NeedsTable(s: Space, t: nat)
    requires Sized(s) && t < LIMIT
  {
    s.idx[Slot(t)] == 0
  }

  /** The page at `p` has become ALLOC, and nothing else has changed. */
  ghost predicate TakenPage(m: Classes, m': Classes, p: nat) {
    forall a: int {:trigger m'(a)} :: m'(a) == if p <= a < p + PAGE_SIZE then Alloc else m(a)
  }

  /** The space after slot `d` has been given a table at reserve page `p` in frame `frame`. */
  function WithTable(s: Space, d: nat, p: nat, frame: nat): Space
    requires Sized(s) && d < DIRS
  {
    Space(s.dir[d := Entry(frame, PRESENT_WRITABLE)], s.idx[d := p], s.frames[frame := Cleared()])
  }

  lemma FramePage(m: Classes, s: Space, lo: nat, hi: nat, t: nat)
    requires Paged(m, s, lo, hi) && IsPage(t) && HwWalk(s, t).Some?
    ensures IsPage(HwWalk(s, t).value)
  {
    var d := Slot(t);
    assert GoodDir(m, s, d);
    if s.dir[d].Large() {
      PageOfLarge(s.dir[d].addr, t);
    } else {
      assert GoodPte(TableIn(s, s.dir[d].addr)[TableOfs(t)]);
    }
  }

  lemma PageOfLarge(addr: nat, t: nat)
    requires addr % LARGE_SIZE == 0 && addr < LIMIT
    ensures IsPage(addr + t % LARGE_SIZE / PAGE_SIZE * PAGE_SIZE)
  {
  }

  /** The frame of a reserve page is page-aligned, 32-bit, and no page table's. */
  lemma ReserveFrame(m: Classes, s: Space, lo: nat, hi: nat, p: nat)
    requires Paged(m, s, lo, hi) && Reserve(m, lo, hi, p)
    ensures HwWalk(s, p).Some? && IsPage(HwWalk(s, p).value) && !IsTable(s, p)
    ensures forall d :: 0 <= d < DIRS && s.idx[d] != 0 ==> s.dir[d].addr != HwWalk(s, p).value
  {
    FramePage(m, s, lo, hi, p);
    forall d: nat | d < DIRS ensures s.idx[d] != p || p == 0 { assert GoodDir(m, s, d); }
    forall d | 0 <= d < DIRS && s.idx[d] != 0 ensures s.dir[d].addr != HwWalk(s, p).value {
      assert GoodDir(m, s, d) && IsTable(s, s.idx[d]);
      assert !SharesFrame(m, s, lo, hi, p, s.idx[d]);
    }
  }

  /** Giving an empty slot a cleared table changes no translation. */
  lemma WithTableWalks(m: Classes, s: Space, lo: nat, hi: nat, d: nat, p: nat, a: nat)
    requires Paged(m, s, lo, hi) && Reserve(m, lo, hi, p) && d < DIRS && !s.dir[d].Present() && a < LIMIT
    ensures HwWalk(WithTable(s, d, p, HwWalk(s, p).value), a) == HwWalk(s, a)
    ensures HwFlags(WithTable(s, d, p, HwWalk(s, p).value), a) == HwFlags(s, a)
  {
    ReserveFrame(m, s, lo, hi, p);
    var r := WithTable(s, d, p, HwWalk(s, p).value);
    var c := Slot(a);
    assert GoodDir(m, s, c);
    if c != d && s.dir[c].Present() && !s.dir[c].Large() {
      assert TableIn(r, s.dir[c].addr) == TableIn(s, s.dir[c].addr);
    }
  }

  lemma WithTableGoodDir(m: Classes, m': Classes, s: Space, lo: nat, hi: nat, d: nat, p: nat, c: nat)
    requires Paged(m, s, lo, hi) && Reserve(m, lo, hi, p) && p != 0 && d < DIRS && !s.dir[d].Present() && c < DIRS
    requires TakenPage(m, m', p)
    ensures GoodDir(m', WithTable(s, d, p, HwWalk(s, p).value), c)
  {
    var frame := HwWalk(s, p).value;
    var r := WithTable(s, d, p, frame);
    ReserveFrame(m, s, lo, hi, p);
    assert GoodDir(m, s, c);
    if c == d {
      WithTableWalks(m, s, lo, hi, d, p, p);
      assert TableIn(r, frame) == Cleared();
    } else if s.idx[c] != 0 {
      WithTableWalks(m, s, lo, hi, d, p, s.idx[c]);
      assert TableIn(r, s.dir[c].addr) == TableIn(s, s.dir[c].addr);
    }
  }

  lemma WithTablePaged(m: Classes, m': Classes, s: Space, lo: nat, hi: nat, d: nat, p: nat)
    requires Paged(m, s, lo, hi) && Reserve(m, lo, hi, p) && p != 0 && d < DIRS && !s.dir[d].Present()
    requires TakenPage(m, m', p)
    ensures Paged(m', WithTable(s, d, p, HwWalk(s, p).value), lo, hi)
    ensures forall a: nat :: TablePage(m', WithTable(s, d, p, HwWalk(s, p).value), lo, hi, a) <==> TablePage(m, s, lo, hi, a)
  {
    var r := WithTable(s, d, p, HwWalk(s, p).value);
    ReserveFrame(m, s, lo, hi, p);
    assert GoodDir(m, s, d);
    forall c: nat | c < DIRS ensures GoodDir(m', r, c) { WithTableGoodDir(m, m', s, lo, hi, d, p, c); }
    forall a: nat ensures TablePage(m', r, lo, hi, a) <==> TablePage(m, s, lo, hi, a) {
      SameTablePages(m, m', s, r, lo, hi, d, p, a);
    }
    assert forall c :: 0 <= c < DIRS ==> s.idx[c] != p;
    forall c: nat, c': nat | SharesTable(r, c, c') ensures c == c' {
      if c != d && c' != d { assert SharesTable(s, c, c'); }
    }
    forall a: nat | Reserve(m', lo, hi, a) ensures Usable(r, a) {
      assert Reserve(m, lo, hi, a);
      WithTableWalks(m, s, lo, hi, d, p, a);
    }
    forall a: nat, b: nat | SharesFrame(m', r, lo, hi, a, b) ensures a == b {
      WithTableWalks(m, s, lo, hi, d, p, a);
      WithTableWalks(m, s, lo, hi, d, p, b);
      assert SharesFrame(m, s, lo, hi, a, b);
    }
    forall a: nat | IsPage(a) && m'(a) == Free ensures !LargeAt(r, a) { assert !LargeAt(s, a); }
  }

  /** The page moves from the reserve to the tables, so together they stay the same. */
  lemma SameTablePages(m: Classes, m': Classes, s: Space, r: Space, lo: nat, hi: nat, d: nat, p: nat, a: nat)
    requires |s.idx| == DIRS && d < DIRS && s.idx[d] == 0 && r.idx == s.idx[d := p] && p != 0
    requires Reserve(m, lo, hi, p) && TakenPage(m, m', p)
    ensures TablePage(m', r, lo, hi, a) <==> TablePage(m, s, lo, hi, a)
  {
    if IsTable(s, a) {
      var c :| 0 <= c < DIRS && s.idx[c] == a;
      assert r.idx[c] == a;
    }
    if IsTable(r, a) && a != p {
      var c :| 0 <= c < DIRS && r.idx[c] == a;
      assert s.idx[c] == a;
    }
    assert r.idx[d] == p;
  }

  // ----- Writing one page table entry -----

  /** The space after entry `i` of the table in `frame` becomes `e`. */
  function WithEntry(s: Space, frame: nat, i: nat, e: Entry): Space
    requires i < 512
  {
    s.(frames := s.frames[frame := TableIn(s, frame)[i := e]])
  }

  lemma SamePage(a: nat, t: nat)
    requires IsPage(a) && IsPage(t) && Slot(a) == Slot(t) && TableOfs(a) == TableOfs(t)
    ensures a == t
  {
  }

  /** Writing the entry of page `t` changes the translation of that page only. */
  lemma WithEntryWalks(m: Classes, s: Space, lo: nat, hi: nat, t: nat, phy: nat, f: nat, a: nat)
    requires Paged(m, s, lo, hi) && IsPage(t) && IsPage(a) && s.idx[Slot(t)] != 0
    ensures HwWalk(WithEntry(s, s.dir[Slot(t)].addr, TableOfs(t), Entry(phy, PteFlags(f))), a)
              == if a == t then Some(phy) else HwWalk(s, a)
    ensures HwFlags(WithEntry(s, s.dir[Slot(t)].addr, TableOfs(t), Entry(phy, PteFlags(f))), a)
              == if a == t then PteFlags(f) else HwFlags(s, a)
  {
    var d, c := Slot(t), Slot(a);
    assert GoodDir(m, s, d) && GoodDir(m, s, c);
    if s.idx[c] != 0 && s.dir[c].addr == s.dir[d].addr {
      assert IsTable(s, s.idx[c]) && IsTable(s, s.idx[d]);
      assert SharesFrame(m, s, lo, hi, s.idx[c], s.idx[d]);
      assert SharesTable(s, c, d);
      if TableOfs(a) == TableOfs(t) { SamePage(a, t); }
    }
  }

  lemma WithEntryGoodDir(m: Classes, s: Space, lo: nat, hi: nat, t: nat, phy: nat, f: nat, c: nat)
    requires Paged(m, s, lo, hi) && IsPage(t) && IsPage(phy) && s.idx[Slot(t)] != 0 && c < DIRS && !IsTable(s, t)
    ensures GoodDir(m, WithEntry(s, s.dir[Slot(t)].addr, TableOfs(t), Entry(phy, PteFlags(f))), c)
  {
    var r := WithEntry(s, s.dir[Slot(t)].addr, TableOfs(t), Entry(phy, PteFlags(f)));
    assert GoodDir(m, s, c);
    if s.idx[c] != 0 {
      assert s.idx[c] != t;
      WithEntryWalks(m, s, lo, hi, t, phy, f, s.idx[c]);
      forall i | 0 <= i < 512 ensures GoodPte(TableIn(r, r.dir[c].addr)[i]) {
        assert GoodPte(TableIn(s, s.dir[c].addr)[i]);
      }
    }
  }

  /** A page may be given the frame `phy`: it is no page table, no mapped reserve page, and no page
      table or reserve page is in that frame. */
  ghost predicate MayMap(m: Classes, s: Space, lo: nat, hi: nat, phy: nat, t: nat)
    requires Sized(s)
  {
    && IsPage(t) && IsPage(phy) && !TablePage(m, s, lo, hi, t) && !LargeAt(s, t)
    && forall a: nat {:trigger TablePage(m, s, lo, hi, a)} :: TablePage(m, s, lo, hi, a) ==> HwWalk(s, a) != Some(phy)
  }

  /** `[lo', hi)` is `[lo, hi)` without page `t`, or the same. */
  predicate Narrows(lo: nat, lo': nat, t: nat) {
    lo' == lo || (lo == t && lo' == t + PAGE_SIZE)
  }

  /** ... and the page that leaves it is writable. */
  predicate MapsReserve(lo: nat, lo': nat, t: nat, f: nat) { Narrows(lo, lo', t) && (lo' == lo || f / 2 % 2 == 1) }

  /** How page `a` of tables or reserve is mapped after page `t` has been given frame `phy`. */
  ghost predicate Moved(m: Classes, s: Space, r: Space, lo: nat, hi: nat, t: nat, phy: nat, f: nat, a: nat)
    requires Sized(s) && Sized(r) && a < LIMIT
  {
    && HwWalk(r, a) == (if a == t then Some(phy) else HwWalk(s, a)) && (a == t || TablePage(m, s, lo, hi, a))
    && HwFlags(r, a) == (if a == t then PteFlags(f) else HwFlags(s, a))
  }

  /** Writing the entry of page `t` keeps every other page of tables and reserve in its frame. */
  lemma WithEntryTables(m: Classes, s: Space, lo: nat, hi: nat, lo': nat, t: nat, phy: nat, f: nat) returns (r: Space)
    requires Paged(m, s, lo, hi) && MayMap(m, s, lo, hi, phy, t) && s.idx[Slot(t)] != 0 && Narrows(lo, lo', t)
    ensures r == WithEntry(s, s.dir[Slot(t)].addr, TableOfs(t), Entry(phy, PteFlags(f)))
    ensures forall a: nat {:trigger TablePage(m, r, lo', hi, a)} ::
      TablePage(m, r, lo', hi, a) ==> Moved(m, s, r, lo, hi, t, phy, f, a)
  {
    r := WithEntry(s, s.dir[Slot(t)].addr, TableOfs(t), Entry(phy, PteFlags(f)));
    forall c: nat | c < DIRS ensures IsPage(s.idx[c]) { assert GoodDir(m, s, c); }
    forall a: nat | TablePage(m, r, lo', hi, a) ensures Moved(m, s, r, lo, hi, t, phy, f, a) {
      TablePagesKept(m, s, r, lo, hi, lo', t, a);
      WithEntryWalks(m, s, lo, hi, t, phy, f, a);
    }
  }

  lemma ReserveNarrows(m: Classes, lo: nat, hi: nat, lo': nat, t: nat, a: nat)
    requires Reserve(m, lo', hi, a) && Narrows(lo, lo', t) && IsPage(t) && a != t
    ensures Reserve(m, lo, hi, a)
  {
  }

  lemma MovedReserve(m: Classes, s: Space, r: Space, lo: nat, hi: nat, lo': nat, t: nat, phy: nat, f: nat, a: nat)
    requires Paged(m, s, lo, hi) && Sized(r) && MayMap(m, s, lo, hi, phy, t) && MapsReserve(lo, lo', t, f)
    requires Reserve(m, lo', hi, a) && Moved(m, s, r, lo, hi, t, phy, f, a)
    ensures Usable(r, a)
  {
    if a != t { ReserveNarrows(m, lo, hi, lo', t, a); } else { assert !TablePage(m, s, lo, hi, t); }
  }

  lemma MovedFrames(m: Classes, s: Space, r: Space, lo: nat, hi: nat, lo': nat, t: nat, phy: nat, f: nat, a: nat, b: nat)
    requires Paged(m, s, lo, hi) && Sized(r) && MayMap(m, s, lo, hi, phy, t) && SharesFrame(m, r, lo', hi, a, b)
    requires a < LIMIT && b < LIMIT && Moved(m, s, r, lo, hi, t, phy, f, a) && Moved(m, s, r, lo, hi, t, phy, f, b)
    ensures a == b
  {
    if a != t && b != t { assert SharesFrame(m, s, lo, hi, a, b); }
  }

  lemma WithEntryPaged(m: Classes, s: Space, lo: nat, hi: nat, lo': nat, t: nat, phy: nat, f: nat)
    requires Paged(m, s, lo, hi) && MayMap(m, s, lo, hi, phy, t) && s.idx[Slot(t)] != 0 && MapsReserve(lo, lo', t, f)
    ensures var r := WithEntry(s, s.dir[Slot(t)].addr, TableOfs(t), Entry(phy, PteFlags(f)));
      Paged(m, r, lo', hi) && forall a: nat :: TablePage(m, r, lo', hi, a) ==> a == t || TablePage(m, s, lo, hi, a)
  {
    var r := WithEntryTables(m, s, lo, hi, lo', t, phy, f);
    hide HwWalk, HwFlags, PteFlags, GoodDir, IsTable;
    forall c: nat | c < DIRS ensures GoodDir(m, r, c) { WithEntryGoodDir(m, s, lo, hi, t, phy, f, c); }
    forall c: nat, c': nat | SharesTable(r, c, c') ensures c == c' { assert SharesTable(s, c, c'); }
    forall a: nat | Reserve(m, lo', hi, a) ensures Usable(r, a) {
      assert TablePage(m, r, lo', hi, a);
      MovedReserve(m, s, r, lo, hi, lo', t, phy, f, a);
    }
    forall a: nat, b: nat | SharesFrame(m, r, lo', hi, a, b) ensures a == b {
      assert TablePage(m, r, lo', hi, a) && TablePage(m, r, lo', hi, b);
      MovedFrames(m, s, r, lo, hi, lo', t, phy, f, a, b);
    }
    forall a: nat | IsPage(a) && m(a) == Free ensures !LargeAt(r, a) { assert !LargeAt(s, a); }
  }

  lemma TablePagesKept(m: Classes, s: Space, r: Space, lo: nat, hi: nat, lo': nat, t: nat, a: nat)
    requires Sized(s) && r.idx == s.idx && Narrows(lo, lo', t) && IsPage(t) && TablePage(m, r, lo', hi, a)
    requires forall d: nat :: d < DIRS ==> IsPage(s.idx[d])
    ensures IsPage(a) && (a == t || TablePage(m, s, lo, hi, a))
  {
    if IsTable(r, a) {
      var d :| 0 <= d < DIRS && r.idx[d] == a;
      assert IsTable(s, a);
    }
  }

  /** `translate_page` finds the frame of the table just cleared. */
  lemma ClearedTable(m: Classes, s: Space, lo: nat, hi: nat, d: nat, p: nat)
    requires Paged(m, s, lo, hi) && d < DIRS && s.idx[d] == 0 && !s.dir[d].Present() && Reserve(m, lo, hi, p)
    ensures HwWalk(s, p).Some?
    ensures var frame := HwWalk(s, p).value; var s1 := s.(idx := s.idx[d := p], frames := s.frames[frame := Cleared()]);
      StoreTable(s.(idx := s.idx[d := p]), p, Cleared()) == s1 && s1.idx[Slot(p)] < LIMIT && TranslatePage(s1, p) == frame
  {
    ReserveFrame(m, s, lo, hi, p);
    TranslateIsHwWalk(m, s, lo, hi, p);
    var frame, c := HwWalk(s, p).value, Slot(p);
    var s1 := s.(idx := s.idx[d := p], frames := s.frames[frame := Cleared()]);
    assert s.dir[c].Present() && c != d;
    assert GoodDir(m, s, c);
    if s.idx[c] != 0 {
      OtherSlotWalks(m, s, s1, lo, hi, d, p, s.idx[c]);
      assert TableIn(s1, s.dir[c].addr) == TableIn(s, s.dir[c].addr);
    }
  }

  lemma OtherSlotWalks(m: Classes, s: Space, s1: Space, lo: nat, hi: nat, d: nat, p: nat, a: nat)
    requires Paged(m, s, lo, hi) && Reserve(m, lo, hi, p) && d < DIRS && !s.dir[d].Present() && a < LIMIT
    requires s1.dir == s.dir && s1.frames == s.frames[HwWalk(s, p).value := Cleared()] && Sized(s1)
    ensures HwWalk(s1, a) == HwWalk(s, a)
  {
    ReserveFrame(m, s, lo, hi, p);
    var c := Slot(a);
    assert GoodDir(m, s, c);
    if s.dir[c].Present() && !s.dir[c].Large() {
      assert TableIn(s1, s.dir[c].addr) == TableIn(s, s.dir[c].addr);
    }
  }

  /** `(m', r)` is `(m, s)` with page `t` in frame `phy` with flags `f`, everything else mapped as before. */
  ghost predicate Remapped(m: Classes, s: Space, lo: nat, m': Classes, r: Space, lo': nat, hi: nat, phy: nat, t: nat, f: nat)
    requires Sized(s) && t < LIMIT
  {
    && Paged(m', r, lo', hi)
    && (forall a: nat {:trigger HwWalk(r, a)} :: IsPage(a) ==> HwWalk(r, a) == if a == t then Some(phy) else HwWalk(s, a))
    && (forall a: nat {:trigger HwFlags(r, a)} :: IsPage(a) ==> HwFlags(r, a) == if a == t then PteFlags(f) else HwFlags(s, a))
    && (forall a: nat {:trigger LargeAt(r, a)} :: a < LIMIT ==> LargeAt(r, a) == LargeAt(s, a))
    && (forall a: nat {:trigger TablePage(m', r, lo', hi, a)} ::
          TablePage(m', r, lo', hi, a) ==> a == t || TablePage(m, s, lo, hi, a))
    && (forall c: nat {:trigger r.idx[c]} :: c < DIRS ==> (r.idx[c] == 0 <==> s.idx[c] == 0 && c != Slot(t)))
    && TablesFromReserve(m, s, r) && TakenAsTables(m, m', s, r)
  }

  /** Pages taken from the reserve have become page tables, and page tables stay. */
  ghost predicate TakenAsTables(m: Classes, m': Classes, s: Space, r: Space) {
    && (forall a: nat {:trigger m'(a)} :: IsPage(a) && m(a) == Pre && m'(a) == Alloc ==> IsTable(r, a))
    && (forall a: nat {:trigger IsTable(r, a)} :: IsTable(s, a) ==> IsTable(r, a))
  }

  /** New page tables are pages of the reserve. */
  ghost predicate TablesFromReserve(m: Classes, s: Space, r: Space) {
    forall a: nat {:trigger IsTable(r, a)} :: IsTable(r, a) ==> IsTable(s, a) || m(a) == Pre
  }

  lemma MapsWithTable(m: Classes, s: Space, lo: nat, hi: nat, lo': nat, phy: nat, t: nat, f: nat)
    requires Paged(m, s, lo, hi) && MayMap(m, s, lo, hi, phy, t) && MapsReserve(lo, lo', t, f) && !NeedsTable(s, t)
    ensures Remapped(m, s, lo, m, WithEntry(s, s.dir[Slot(t)].addr, TableOfs(t), Entry(phy, PteFlags(f))), lo', hi, phy, t, f)
  {
    WithEntryPaged(m, s, lo, hi, lo', t, phy, f);
    assert forall a: nat :: IsTable(WithEntry(s, s.dir[Slot(t)].addr, TableOfs(t), Entry(phy, PteFlags(f))), a) ==> IsTable(s, a);
    forall a: nat | IsPage(a)
      ensures HwWalk(WithEntry(s, s.dir[Slot(t)].addr, TableOfs(t), Entry(phy, PteFlags(f))), a)
                == if a == t then Some(phy) else HwWalk(s, a)
      ensures HwFlags(WithEntry(s, s.dir[Slot(t)].addr, TableOfs(t), Entry(phy, PteFlags(f))), a)
                == if a == t then PteFlags(f) else HwFlags(s, a)
    {
      WithEntryWalks(m, s, lo, hi, t, phy, f, a);
    }
  }

  lemma MapsWithNewTable(m: Classes, m': Classes, s: Space, lo: nat, hi: nat, lo': nat, p: nat, phy: nat, t: nat, f: nat)
    requires Paged(m, s, lo, hi) && MayMap(m, s, lo, hi, phy, t) && MapsReserve(lo, lo', t, f) && NeedsTable(s, t)
    requires p != 0 && Reserve(m, lo, hi, p) && HwWalk(s, p).Some?
    requires TakenPage(m, m', p) && !s.dir[Slot(t)].Present()
    ensures var s1 := WithTable(s, Slot(t), p, HwWalk(s, p).value);
      Remapped(m, s, lo, m', WithEntry(s1, s1.dir[Slot(t)].addr, TableOfs(t), Entry(phy, PteFlags(f))), lo', hi, phy, t, f)
  {
    var d := Slot(t);
    var s1 := WithTable(s, d, p, HwWalk(s, p).value);
    WithTablePaged(m, m', s, lo, hi, d, p);
    forall a: nat | a < LIMIT ensures HwWalk(s1, a) == HwWalk(s, a) && HwFlags(s1, a) == HwFlags(s, a) {
      WithTableWalks(m, s, lo, hi, d, p, a);
    }
    assert MayMap(m', s1, lo, hi, phy, t);
    MapsWithTable(m', s1, lo, hi, lo', phy, t, f);
    forall a: nat | IsTable(s1, a) ensures IsTable(s, a) || m(a) == Pre {
      if a != p {
        var c :| 0 <= c < DIRS && s1.idx[c] == a;
        assert s.idx[c] == a;
      }
    }
    NewTable(m, m', s, s1, d, p);
  }

  lemma NewTable(m: Classes, m': Classes, s: Space, r: Space, d: nat, p: nat)
    requires Sized(s) && d < DIRS && s.idx[d] == 0 && r.idx == s.idx[d := p] && p != 0 && IsPage(p) && TakenPage(m, m', p)
    ensures TakenAsTables(m, m', s, r)
  {
    assert r.idx[d] == p;
    forall a: nat | IsTable(s, a) ensures IsTable(r, a) {
      var c :| 0 <= c < DIRS && s.idx[c] == a;
      assert r.idx[c] == a;
    }
  }

  // ----- map_page -----

  /** The map of classes that an extent table stands for. */
  ghost function View(v: Table): Classes {
    (a: int) => ClassAt(v.slots, a)
  }

  /** The page `EnsureTable` would take is in the reserve and not pending. */
  ghost predicate TableAtHand(v: Table, lo: nat, hi: nat) {
    var k := FirstOfType(v.slots, 1, Pre);
    k < |v.slots| && !(lo <= v.slots[k].base < hi)
  }

  /** The extent table has the unset slot, if one is needed, for taking that page. */
  ghost predicate SlotAtHand(v: Table)
    requires Shaped(v)
  {
    var k := FirstOfType(v.slots, 1, Pre);
    k < |v.slots| ==> |UnsetSlots(v.slots)| >= Need(v, v.slots[k].base, 1, Alloc)
  }

  ghost predicate PageInReserve(v: Table, lo: nat, hi: nat)
    requires Shaped(v)
  {
    TableAtHand(v, lo, hi) && SlotAtHand(v)
  }

  ghost predicate ReserveReady(v: Table, lo: nat, hi: nat) {
    WellFormed(v) && ClassAt(v.slots, 0) == Unset && PageInReserve(v, lo, hi)
  }

  /** Virtual pages only go from PRE to ALLOC. */
  ghost predicate PreTaken(m: Classes, m': Classes) {
    forall a: int {:trigger m'(a)} :: m'(a) == m(a) || (m(a) == Pre && m'(a) == Alloc)
  }

  /** Taking a page from the reserve: that page alone becomes ALLOC. */
  lemma TakeReserve(v: Table, lo: nat, hi: nat)
    requires ReserveReady(v, lo, hi)
    ensures var (v', p) := AllocateRes(v, 1, Alloc);
      && p != 0 && Reserve(View(v), lo, hi, p) && WellFormed(v') && TakenPage(View(v), View(v'), p)
      && PreTaken(View(v), View(v'))
  {
    var k := FirstOfType(v.slots, 1, Pre);
    var p := v.slots[k].base;
    TakeFromStart(v, k, 1, Alloc);
    SetExtentRefines(v, p, 1, Alloc);
    forall a: int | p <= a < p + Bytes(1) ensures ClassAt(v.slots, a) == Pre { ClassOfCover(v.slots, k, a); }
  }

  /** What `map_page` has done to the reserve: taken its first page as a table, or nothing. */
  ghost predicate TookTable(v: Table, v': Table, needed: bool) {
    if needed then Shaped(v) && v' == AllocateRes(v, 1, Alloc).0 && WellFormed(v') && PreTaken(View(v), View(v')) else v' == v
  }

  /** With a table in place, `map_page` writes one entry. */
  lemma MapPageWithTable(v: Table, s: Space, lo: nat, hi: nat, phy: nat, t: nat, f: nat)
    requires Shaped(v) && Paged(View(v), s, lo, hi) && IsPage(t) && !LargeAt(s, t) && !NeedsTable(s, t)
    ensures MapPage(v, s, phy, t, f) == (v, WithEntry(s, s.dir[Slot(t)].addr, TableOfs(t), Entry(phy, PteFlags(f))))
  {
    assert GoodDir(View(v), s, Slot(t));
    assert GoodDir(View(v), s, Slot(s.idx[Slot(t)]));
  }

  /** Without one, it takes a page from the reserve, clears it through its own address, enters its
      frame in the directory, and then writes the entry. */
  lemma MapPageFresh(v: Table, s: Space, lo: nat, hi: nat, phy: nat, t: nat, f: nat)
    requires Paged(View(v), s, lo, hi) && IsPage(t) && !LargeAt(s, t) && NeedsTable(s, t) && ReserveReady(v, lo, hi)
    ensures var (v1, p) := AllocateRes(v, 1, Alloc);
      && Reserve(View(v), lo, hi, p) && HwWalk(s, p).Some? && !s.dir[Slot(t)].Present()
      && var s1 := WithTable(s, Slot(t), p, HwWalk(s, p).value);
        MapPage(v, s, phy, t, f) == (v1, WithEntry(s1, s1.dir[Slot(t)].addr, TableOfs(t), Entry(phy, PteFlags(f))))
  {
    var d := Slot(t);
    assert GoodDir(View(v), s, d);
    TakeReserve(v, lo, hi);
    var (v1, p) := AllocateRes(v, 1, Alloc);
    ClearedTable(View(v), s, lo, hi, d, p);
    WithTablePaged(View(v), View(v1), s, lo, hi, d, p);
    assert GoodDir(View(v1), WithTable(s, d, p, HwWalk(s, p).value), d);
  }

  /** `translate_page` shows page `t` in frame `phy` and every other page as before. */
  predicate TranslatesTo(s: Space, r: Space, a: nat, phy: nat, t: nat)
    requires Sized(s) && Sized(r)
  {
    && a < LIMIT && r.idx[Slot(a)] < LIMIT && s.idx[Slot(a)] < LIMIT
    && TranslatePage(r, a) == if a == t then phy else TranslatePage(s, a)
  }

  /** `map_page` gives its page the new frame, leaves the translation of every other page as it was,
      and keeps page tables and shadow index in step. */
  lemma MapPageExact(v: Table, s: Space, lo: nat, hi: nat, lo': nat, phy: nat, t: nat, f: nat)
    requires Shaped(v) && Paged(View(v), s, lo, hi) && MayMap(View(v), s, lo, hi, phy, t) && MapsReserve(lo, lo', t, f)
    requires NeedsTable(s, t) ==> ReserveReady(v, lo, hi)
    ensures var (v', r) := MapPage(v, s, phy, t, f);
      TookTable(v, v', NeedsTable(s, t)) && Remapped(View(v), s, lo, View(v'), r, lo', hi, phy, t, f)
  {
    if NeedsTable(s, t) {
      TakeReserve(v, lo, hi);
      MapPageFresh(v, s, lo, hi, phy, t, f);
      var (v1, p) := AllocateRes(v, 1, Alloc);
      MapsWithNewTable(View(v), View(v1), s, lo, hi, lo', p, phy, t, f);
    } else {
      MapPageWithTable(v, s, lo, hi, phy, t, f);
      MapsWithTable(View(v), s, lo, hi, lo', phy, t, f);
    }
  }

  /** Seen through `translate_page`: the new frame for that page, every other page as before. */
  lemma MapPageTranslates(v: Table, s: Space, lo: nat, hi: nat, lo': nat, phy: nat, t: nat, f: nat, a: nat)
    requires Shaped(v) && Paged(View(v), s, lo, hi) && MayMap(View(v), s, lo, hi, phy, t) && MapsReserve(lo, lo', t, f)
    requires NeedsTable(s, t) ==> ReserveReady(v, lo, hi)
    requires IsPage(a)
    ensures TranslatesTo(s, MapPage(v, s, phy, t, f).1, a, phy, t)
  {
    MapPageExact(v, s, lo, hi, lo', phy, t, f);
    var (v', r) := MapPage(v, s, phy, t, f);
    TranslateIsHwWalk(View(v), s, lo, hi, a);
    TranslateIsHwWalk(View(v'), r, lo', hi, a);
  }
}
