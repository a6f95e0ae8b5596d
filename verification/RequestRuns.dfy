/** Runs of requests (kernel/memory.cpp), of which any may fail: no two bytes handed out ever share an address in
    memory, and none is ever translated or mapped differently. */
module RequestRuns {
  import opened Extents
  import opened Wrappers
  import opened Allocation
  import opened Paging
  import opened Requests
  import opened RequestOutcomes

  datatype Call = Call(size: nat, flags: nat)

  /** A range handed out: base address and size in bytes; none by a request that fails. */
  datatype Region = Region(base: nat, size: nat)

  function RegionOf(call: Call, b: nat): Region { if b == 0 then Region(0, 0) else Region(b, call.size) }

  function Serve(s: Sys, calls: seq<Call>): (r: (Sys, seq<Region>))
    requires Ready(s)
    ensures Ready(r.0) && |r.1| == |calls|
    decreases |calls|
  {
    if calls == [] then (s, [])
    else
      var k := |calls| - 1;
      var (s1, rs) := Serve(s, calls[..k]);
      var (s2, b) := VmmRequest(s1, calls[k].size, calls[k].flags);
      (s2, rs + [RegionOf(calls[k], b)])
  }

  /** Nothing can be mapped any more, or the request is for some memory, finds a virtual range, and has slots
      and page tables at hand. */
  ghost predicate MayServe(s: Sys, call: Call)
    requires Ready(s)
  {
    Exhausted(s.phy) || (call.size > 0 && Supplied(s, call.size) && PlanOf(s, call.size).bega > 0)
  }

  ghost predicate MayRun(s: Sys, calls: seq<Call>)
    requires Ready(s)
    decreases |calls|
  {
    calls == [] ||
    (var k := |calls| - 1; MayRun(s, calls[..k]) && MayServe(Serve(s, calls[..k]).0, calls[k]))
  }

  /** Byte `a` belongs to range `i`. */
  predicate Within(rs: seq<Region>, i: nat, a: nat) {
    i < |rs| && rs[i].base <= a < rs[i].base + rs[i].size
  }

  /** The page of byte `a` is allocated, is no page table, and has an allocated frame. */
  ghost predicate Backed(x: Abs, a: nat)
    requires Paging.Sized(x.space)
  {
    && a < LIMIT && x.c(PageOf(a)) == Alloc && !IsTable(x.space, PageOf(a))
    && match HwWalk(x.space, a)
       case None => false
       case Some(frame) => frame != 0 && IsPage(frame) && x.p(frame) == Alloc
  }

  /** Bytes `a` and `c` of ranges `i` and `j` are in one frame. */
  ghost predicate Clash(x: Abs, rs: seq<Region>, i: nat, j: nat, a: nat, c: nat)
    requires Paging.Sized(x.space)
  {
    Within(rs, i, a) && Within(rs, j, c) && a < LIMIT && c < LIMIT && HwWalk(x.space, a) == HwWalk(x.space, c)
  }

  ghost predicate AllBacked(x: Abs, rs: seq<Region>)
    requires Paging.Sized(x.space)
  {
    && (forall i: nat, a: nat {:trigger Within(rs, i, a)} :: Within(rs, i, a) ==> Backed(x, a))
    && (forall i: nat, j: nat, a: nat, c: nat {:trigger Clash(x, rs, i, j, a, c)} ::
          Clash(x, rs, i, j, a, c) ==> i == j && PageOf(a) == PageOf(c))
  }

  // ----- One request of a run -----

  /** A byte of an earlier range keeps its frame and its rights. */
  lemma StillBacked(x: Abs, r: Abs, rs: seq<Region>, i: nat, a: nat)
    requires Paging.Sized(x.space) && Paging.Sized(r.space) && Kept(x, r) && AllBacked(x, rs) && Within(rs, i, a)
    ensures Backed(x, a) && Backed(r, a) && SameWalk(x, r, a)
  {
    assert Backed(x, a);
    var p := PageOf(a);
    WalkOfPage(x.space, a);
    WalkOfPage(r.space, a);
    assert SameWalk(x, r, p);
    assert r.c(p) == Alloc;
  }

  /** A request that fails keeps the bytes handed out before it as they are. */
  lemma BackedKept(x: Abs, r: Abs, rs: seq<Region>)
    requires Paging.Sized(x.space) && Paging.Sized(r.space) && Kept(x, r) && AllBacked(x, rs)
    ensures AllBacked(r, rs + [Region(0, 0)])
  {
    var rs' := rs + [Region(0, 0)];
    forall i: nat, a: nat | Within(rs', i, a) ensures Backed(r, a) && Within(rs, i, a) { StillBacked(x, r, rs, i, a); }
    forall i: nat, j: nat, a: nat, c: nat | Clash(r, rs', i, j, a, c) ensures i == j && PageOf(a) == PageOf(c) {
      StillBacked(x, r, rs, i, a);
      StillBacked(x, r, rs, j, c);
      assert Clash(x, rs, i, j, a, c);
    }
  }

  /** One that succeeds adds its own. */
  ghost predicate Extends(x: Abs, r: Abs, b: nat, sz: nat, flag: nat)
    requires Paging.Sized(x.space) && Paging.Sized(r.space)
  {
    Kept(x, r) && Handed(x, r, b, sz) && Filled(x, r, b, sz, flag)
  }

  lemma BackedStep(x: Abs, r: Abs, rs: seq<Region>, b: nat, sz: nat, flag: nat)
    requires Paging.Sized(x.space) && Paging.Sized(r.space) && Extends(x, r, b, sz, flag) && AllBacked(x, rs)
    ensures AllBacked(r, rs + [Region(b, sz)])
  {
    hide Extends, AllBacked, Backed;
    var rs' := rs + [Region(b, sz)];
    forall i: nat, a: nat | Within(rs', i, a) ensures Backed(r, a) { NewBacked(x, r, rs, b, sz, flag, i, a); }
    forall i: nat, j: nat, a: nat, c: nat | Clash(r, rs', i, j, a, c) ensures i == j && PageOf(a) == PageOf(c) {
      NewClash(x, r, rs, b, sz, flag, i, j, a, c);
    }
    assert AllBacked(r, rs') by { MakeBacked(r, rs'); }
  }

  lemma MakeBacked(x: Abs, rs: seq<Region>)
    requires Paging.Sized(x.space)
    requires forall i: nat, a: nat {:trigger Within(rs, i, a)} :: Within(rs, i, a) ==> Backed(x, a)
    requires forall i: nat, j: nat, a: nat, c: nat {:trigger Clash(x, rs, i, j, a, c)} ::
      Clash(x, rs, i, j, a, c) ==> i == j && PageOf(a) == PageOf(c)
    ensures AllBacked(x, rs)
  {
  }

  lemma NewClash(x: Abs, r: Abs, rs: seq<Region>, b: nat, sz: nat, flag: nat, i: nat, j: nat, a: nat, c: nat)
    requires Paging.Sized(x.space) && Paging.Sized(r.space) && Extends(x, r, b, sz, flag) && AllBacked(x, rs)
    requires Clash(r, rs + [Region(b, sz)], i, j, a, c)
    ensures i == j && PageOf(a) == PageOf(c)
  {
    NewBacked(x, r, rs, b, sz, flag, i, a);
    NewBacked(x, r, rs, b, sz, flag, j, c);
    if i < |rs| && j < |rs| { assert Clash(x, rs, i, j, a, c); }
  }

  lemma NewBacked(x: Abs, r: Abs, rs: seq<Region>, b: nat, sz: nat, flag: nat, i: nat, a: nat)
    requires Paging.Sized(x.space) && Paging.Sized(r.space) && Extends(x, r, b, sz, flag) && AllBacked(x, rs)
    requires Within(rs + [Region(b, sz)], i, a)
    ensures Backed(r, a)
    ensures if i < |rs| then
              Within(rs, i, a) && HwWalk(r.space, a) == HwWalk(x.space, a) && x.p(HwWalk(r.space, a).value) == Alloc
            else i == |rs| && b <= a < b + sz && x.p(HwWalk(r.space, a).value) == Free
  {
    if i < |rs| {
      assert Within(rs, i, a);
      StillBacked(x, r, rs, i, a);
    } else {
      assert Fresh(x, r, a, flag);
      FirstByte(x, r, b, sz, a);
    }
  }

  /** The page of a byte of the range begins in the range. */
  lemma FirstByte(x: Abs, r: Abs, b: nat, sz: nat, a: nat)
    requires Handed(x, r, b, sz) && b <= a < b + sz
    ensures b <= PageOf(a) && r.c(PageOf(a)) == Alloc && !IsTable(r.space, PageOf(a))
  {
    var p := PageOf(a);
    assert b <= p by { if p < b { NextToPage(p, b); } }
    assert r.c(p) == Alloc;
  }

  /** Once no frame is left, requests fail and leave directory and page tables as they are. */
  lemma FrozenRequest(s: Sys, sz: nat, flag: nat)
    requires Ready(s) && Exhausted(s.phy)
    ensures var (r, b) := VmmRequest(s, sz, flag); b == 0 && r.space == s.space && Exhausted(r.phy)
  {
    var p := PlanOf(s, sz);
    SomeTurn(s, sz);
    hide PlanOf, MapRun, Turns, Exhausted, MapFlag;
    FrozenRun(s.(vmm := p.v2), p.bu, p.count, WRITABLE);
    var s2 := MapRun(s.(vmm := p.v2), p.bu, p.count, WRITABLE).0;
    FrozenRun(s2, p.bega, Turns(p.bega, p.enda), MapFlag(flag));
  }

  lemma SomeTurn(s: Sys, sz: nat)
    requires Ready(s)
    ensures var p := PlanOf(s, sz); Turns(p.bega, p.enda) > 0
  {
    hide Allocate, CountPageStructs;
    WholePages(PlanOf(s, sz).bega, PagesOf(sz));
  }

  lemma FrozenRun(s: Sys, t: nat, n: nat, f: nat)
    requires Ready(s) && Exhausted(s.phy) && t < LIMIT
    ensures var (r, ok) := MapRun(s, t, n, f); (ok <==> n == 0) && r.space == s.space && Exhausted(r.phy)
  {
    NoFrame(s.phy);
    if n > 0 { MapRunStep(s, t, n, f); }
  }

  // ----- Runs -----

  /** What a run keeps: a sound state with directory and page tables as they are now, in which all ranges handed
      out are backed. It is the present state, or the one in which the frames ran out. */
  ghost predicate Behind(w: Sys, r: Sys, rs: seq<Region>, lo: nat, hi: nat) {
    && Sound(w, lo, hi) && AllBacked(Of(w), rs) && w.space == r.space
    && ((w == r && lo == hi == 0) || Exhausted(r.phy))
  }

  lemma {:induction false} RunBacked(s: Sys, calls: seq<Call>) returns (w: Sys, lo: nat, hi: nat)
    requires Ready(s) && Sound(s, 0, 0) && MayRun(s, calls)
    ensures var (r, rs) := Serve(s, calls); Behind(w, r, rs, lo, hi)
    decreases |calls|
  {
    if calls == [] {
      w, lo, hi := s, 0, 0;
    } else {
      var k := |calls| - 1;
      var (s1, rs) := Serve(s, calls[..k]);
      w, lo, hi := RunBacked(s, calls[..k]);
      w, lo, hi := BehindStep(w, s1, rs, lo, hi, calls[k]);
    }
  }

  /** Address `a` is mapped to the same frame with the same rights. */
  ghost predicate SameMapping(x: Space, y: Space, a: nat)
    requires Paging.Sized(x) && Paging.Sized(y) && a < LIMIT
  {
    HwWalk(y, a) == HwWalk(x, a) && HwFlags(y, a) == HwFlags(x, a)
  }

  lemma BehindStep(w: Sys, s: Sys, rs: seq<Region>, lo: nat, hi: nat, call: Call) returns (w': Sys, lo': nat, hi': nat)
    requires Ready(s) && Behind(w, s, rs, lo, hi) && MayServe(s, call)
    ensures var (r, b) := VmmRequest(s, call.size, call.flags); Behind(w', r, rs + [RegionOf(call, b)], lo', hi')
    ensures var r := VmmRequest(s, call.size, call.flags).0;
      forall i: nat, a: nat {:trigger Within(rs, i, a)} :: Within(rs, i, a) ==> a < LIMIT && SameMapping(s.space, r.space, a)
  {
    hide VmmRequest, PlanOf, Supplied, Kept, Handed, Filled, Backed, Clash;
    var (r, b) := VmmRequest(s, call.size, call.flags);
    BackedBelow(Of(w), rs);
    if Exhausted(s.phy) {
      FrozenRequest(s, call.size, call.flags);
      NoneAdded(Of(w), rs);
      w', lo', hi' := w, lo, hi;
    } else {
      lo', hi' := RequestOutcome(s, call.size, call.flags);
      w' := r;
      hide Sound, Exhausted;
      if b != 0 { BackedStep(Of(s), Of(r), rs, b, call.size, call.flags); } else { BackedKept(Of(s), Of(r), rs); }
      forall i: nat, a: nat | Within(rs, i, a) ensures a < LIMIT && SameMapping(s.space, r.space, a) {
        StillBacked(Of(s), Of(r), rs, i, a);
      }
    }
  }

  lemma BackedBelow(x: Abs, rs: seq<Region>)
    requires Paging.Sized(x.space) && AllBacked(x, rs)
    ensures forall i: nat, a: nat {:trigger Within(rs, i, a)} :: Within(rs, i, a) ==> a < LIMIT
  {
    forall i: nat, a: nat | Within(rs, i, a) ensures a < LIMIT { assert Backed(x, a); }
  }

  lemma NoneAdded(x: Abs, rs: seq<Region>)
    requires Paging.Sized(x.space) && AllBacked(x, rs)
    ensures AllBacked(x, rs + [Region(0, 0)])
  {
    var rs' := rs + [Region(0, 0)];
    forall i: nat, a: nat | Within(rs', i, a) ensures Backed(x, a) && Within(rs, i, a) { assert Within(rs, i, a); }
    forall i: nat, j: nat, a: nat, c: nat | Clash(x, rs', i, j, a, c) ensures i == j && PageOf(a) == PageOf(c) {
      assert Clash(x, rs, i, j, a, c);
    }
  }

  /** `translate_page`, as the hardware walk of a sound state. */
  lemma Translates(s: Sys, lo: nat, hi: nat, a: nat)
    requires Sound(s, lo, hi) && a < LIMIT && HwWalk(s.space, a).Some?
    ensures s.space.idx[Slot(a)] < LIMIT && TranslatePage(s.space, a) == HwWalk(s.space, a).value + a % PAGE_SIZE
  {
    TranslateIsHwWalk(View(s.vmm), s.space, lo, hi, a);
  }

  /** Frame and offset tell addresses in memory apart. */
  lemma FrameAndOffset(f: nat, g: nat, a: nat, c: nat)
    requires IsPage(f) && IsPage(g)
    ensures f + a % PAGE_SIZE == g + c % PAGE_SIZE ==> f == g && a % PAGE_SIZE == c % PAGE_SIZE
  {
  }

  /** No two bytes handed out over a run share an address in memory: `translate_page` gives every byte of every range
      an address, and different bytes different addresses. */
  lemma NoSharedFrames(s: Sys, calls: seq<Call>, i: nat, j: nat, a: nat, c: nat)
    requires Sound(s, 0, 0) && MayRun(s, calls)
    requires var rs := Serve(s, calls).1; Within(rs, i, a) && Within(rs, j, c)
    ensures var r := Serve(s, calls).0.space;
      && a < LIMIT && c < LIMIT && r.idx[Slot(a)] < LIMIT && r.idx[Slot(c)] < LIMIT
      && TranslatePage(r, a) != 0 && TranslatePage(r, c) != 0
      && (TranslatePage(r, a) == TranslatePage(r, c) ==> i == j && a == c)
  {
    var (r, rs) := Serve(s, calls);
    var w, lo, hi := RunBacked(s, calls);
    hide Serve, MayRun, TranslatePage, Sound, Exhausted;
    assert Backed(Of(w), a) && Backed(Of(w), c);
    Translates(w, lo, hi, a);
    Translates(w, lo, hi, c);
    hide HwWalk;
    FrameAndOffset(HwWalk(w.space, a).value, HwWalk(w.space, c).value, a, c);
    if HwWalk(w.space, a) == HwWalk(w.space, c) { assert Clash(Of(w), rs, i, j, a, c); }
  }

  /** `translate_page` gives `a` the same answer in both states, and it is mapped with the same rights. */
  ghost predicate SameTranslation(x: Space, y: Space, a: nat)
    requires Paging.Sized(x) && Paging.Sized(y) && a < LIMIT
  {
    && x.idx[Slot(a)] < LIMIT && y.idx[Slot(a)] < LIMIT && TranslatePage(x, a) == TranslatePage(y, a)
    && HwFlags(x, a) == HwFlags(y, a)
  }

  /** Byte `a` of range `i` of the first `k` requests is translated after all of them as after those. */
  ghost predicate StillTranslated(s: Sys, calls: seq<Call>, k: nat, i: nat, a: nat)
    requires Ready(s) && k <= |calls| && a < LIMIT
  {
    var (y, rs) := Serve(s, calls);
    Within(rs, i, a) && SameTranslation(Serve(s, calls[..k]).0.space, y.space, a)
  }

  /** A translation once handed out never changes: later requests, succeed or fail, leave every earlier byte as
      it was. */
  lemma {:induction false} TranslationsLast(s: Sys, calls: seq<Call>, k: nat, i: nat, a: nat)
    requires Ready(s) && Sound(s, 0, 0) && MayRun(s, calls) && k <= |calls| && Within(Serve(s, calls[..k]).1, i, a)
    ensures a < LIMIT && StillTranslated(s, calls, k, i, a)
    decreases |calls|
  {
    hide Serve, VmmRequest, TranslatePage, MayRun, Sound, Within, Ready;
    if k == |calls| {
      SameAtOnce(s, calls, i, a);
    } else {
      assert calls[..|calls| - 1][..k] == calls[..k];
      RunsBefore(s, calls);
      TranslationsLast(s, calls[..|calls| - 1], k, i, a);
      LastRequest(s, calls, k, i, a);
    }
  }

  lemma RunsBefore(s: Sys, calls: seq<Call>)
    requires Ready(s) && MayRun(s, calls) && calls != []
    ensures MayRun(s, calls[..|calls| - 1]) && MayServe(Serve(s, calls[..|calls| - 1]).0, calls[|calls| - 1])
  {
    hide Serve, MayServe, Ready;
  }

  lemma SameAtOnce(s: Sys, calls: seq<Call>, i: nat, a: nat)
    requires Ready(s) && Sound(s, 0, 0) && MayRun(s, calls) && Within(Serve(s, calls[..|calls|]).1, i, a)
    ensures a < LIMIT && StillTranslated(s, calls, |calls|, i, a)
  {
    assert calls[..|calls|] == calls;
    hide MayRun;
    var w, lo, hi := RunBacked(s, calls);
    assert Backed(Of(w), a);
    Translates(w, lo, hi, a);
  }

  /** The last request of a run leaves the earlier bytes translated as they were. */
  lemma LastRequest(s: Sys, calls: seq<Call>, k: nat, i: nat, a: nat)
    requires Ready(s) && Sound(s, 0, 0) && MayRun(s, calls) && k < |calls| && a < LIMIT
    requires StillTranslated(s, calls[..|calls| - 1], k, i, a)
    ensures StillTranslated(s, calls, k, i, a)
  {
    hide Serve, MayRun, MayServe, VmmRequest, Sound, Ready, TranslatePage, Behind;
    var m := |calls| - 1;
    var (z, rs) := Serve(s, calls[..m]);
    assert calls[..m][..k] == calls[..k];
    RunsBefore(s, calls);
    var w, lo, hi := RunBacked(s, calls[..m]);
    OneRequest(w, z, rs, lo, hi, calls[m], i, a);
    LastServed(s, calls);
    assert Serve(s, calls).1[i] == rs[i];
  }

  lemma LastServed(s: Sys, calls: seq<Call>)
    requires Ready(s) && calls != []
    ensures var call := calls[|calls| - 1]; var (z, rs) := Serve(s, calls[..|calls| - 1]);
      var (y, b) := VmmRequest(z, call.size, call.flags); Serve(s, calls) == (y, rs + [RegionOf(call, b)])
  {
    hide VmmRequest, Ready;
  }

  lemma OneRequest(w: Sys, z: Sys, rs: seq<Region>, lo: nat, hi: nat, call: Call, i: nat, a: nat)
    requires Ready(z) && Behind(w, z, rs, lo, hi) && MayServe(z, call) && Within(rs, i, a)
    ensures a < LIMIT && SameTranslation(z.space, VmmRequest(z, call.size, call.flags).0.space, a)
  {
    hide MayServe, VmmRequest, TranslatePage;
    var w', lo', hi' := BehindStep(w, z, rs, lo, hi, call);
    assert Backed(Of(w), a);
    Translates(w', lo', hi', a);
    Translates(w, lo, hi, a);
  }

  // ----- Rights -----

  lemma {:induction false} ServedBefore(s: Sys, calls: seq<Call>, k: nat)
    requires Ready(s) && MayRun(s, calls) && k <= |calls|
    ensures MayRun(s, calls[..k]) && forall i :: 0 <= i < k ==> Serve(s, calls).1[i] == Serve(s, calls[..k]).1[i]
    decreases |calls|
  {
    hide Serve, MayServe, MayRun, Ready;
    if k == |calls| {
      assert calls[..k] == calls;
    } else {
      var front := calls[..|calls| - 1];
      assert front[..k] == calls[..k];
      RunsBefore(s, calls);
      ServedBefore(s, front, k);
      LastServed(s, calls);
    }
  }

  /** The bytes that the last request of a run hands out have the rights it asked for. */
  lemma LastRights(s: Sys, calls: seq<Call>, a: nat)
    requires Ready(s) && Sound(s, 0, 0) && MayRun(s, calls) && calls != [] && Within(Serve(s, calls).1, |calls| - 1, a)
    ensures a < LIMIT && Rights(HwFlags(Serve(s, calls).0.space, a), calls[|calls| - 1].flags)
  {
    hide Serve, MayRun, VmmRequest, Ready, Rights, AllBacked, Handed, Kept, Supplied, PlanOf;
    var k := |calls| - 1;
    var (z, rs) := Serve(s, calls[..k]);
    var call := calls[k];
    RunsBefore(s, calls);
    LastServed(s, calls);
    var w, lo, hi := RunBacked(s, calls[..k]);
    if Exhausted(z.phy) {
      FrozenRequest(z, call.size, call.flags);
    } else {
      var lo', hi' := RequestOutcome(z, call.size, call.flags);
      assert Fresh(Of(z), Of(VmmRequest(z, call.size, call.flags).0), a, call.flags);
    }
  }

  /** After any run every byte handed out is mapped with the rights that its request asked for. */
  lemma RightsLast(s: Sys, calls: seq<Call>, i: nat, a: nat)
    requires Ready(s) && Sound(s, 0, 0) && MayRun(s, calls) && Within(Serve(s, calls).1, i, a)
    ensures a < LIMIT && Rights(HwFlags(Serve(s, calls).0.space, a), calls[i].flags)
  {
    hide Serve, MayRun, Ready, Rights;
    ServedBefore(s, calls, i + 1);
    assert Within(Serve(s, calls[..i + 1]).1, i, a);
    LastRights(s, calls[..i + 1], a);
    TranslationsLast(s, calls, i + 1, i, a);
  }
}
