/** Packets between the network layer and the e1000 driver (kernel/dev/e1000.cpp, kernel/dev/e1000.hpp,
    kernel/ktypes.hpp, kernel/arraylist.hpp): a pool of reference-counted packets, held by the slots of
    two descriptor rings, by DHCP offers and by local handles. Driver, network card and senders take
    turns in any order; each turn is one step. */
module NicModel {
  import opened Wrappers

  const POOL := 340
  const RING := 128
  const MAX_OFFERS := 4
  const MIN_FRAME := 42

  // ----- Rings -----

  /** Slots and descriptor status bits; the driver adds at `tail` and takes from `head`. */
  datatype Ring = Ring(head: nat, tail: nat, slots: seq<Option<nat>>, done: seq<bool>)

  function Next(c: nat): nat { if c + 1 >= RING then 0 else c + 1 }

  predicate Full(r: Ring) { Next(r.tail) == r.head }

  predicate Empty(r: Ring) { r.tail == r.head }

  /** How far slot `i` is from `h`, going up. */
  function Off(h: nat, i: nat): int { if h <= i then i - h else i + RING - h }

  /** The slot `k` places from `h`. */
  function At(h: nat, k: nat): nat { if h + k < RING then h + k else h + k - RING }

  function Used(r: Ring): int { Off(r.head, r.tail) }

  predicate Sized(r: Ring) { r.head < RING && r.tail < RING && |r.slots| == |r.done| == RING }

  /** Slots hold packets exactly on the circular range from `head` to `tail`, except that the one at the
      head may have been moved out to a local handle. */
  predicate RingOk(r: Ring, moved: bool) {
    && Sized(r) && (moved ==> !Empty(r))
    && forall i: nat {:trigger r.slots[i]} :: i < RING ==>
         (r.slots[i].Some? <==> Off(r.head, i) < Used(r) && !(moved && i == r.head))
  }

  function Push(r: Ring, p: nat): (r': Ring)
    requires Sized(r)
    ensures Sized(r')
  {
    Ring(r.head, Next(r.tail), r.slots[r.tail := Some(p)], r.done[r.tail := false])
  }

  /** The slot at `head` given up. */
  function Vacate(r: Ring): (r': Ring)
    requires Sized(r)
    ensures Sized(r')
  {
    r.(slots := r.slots[r.head := None])
  }

  function Pop(r: Ring): (r': Ring)
    requires Sized(r)
    ensures Sized(r')
  {
    r.(head := Next(r.head))
  }

  lemma PushOk(r: Ring, moved: bool, p: nat)
    requires RingOk(r, moved) && !Full(r)
    ensures RingOk(Push(r, p), moved) && Used(Push(r, p)) == Used(r) + 1 && r.slots[r.tail] == None
  {
  }

  /** A ring is full when all slots but one are in use. */
  lemma FullIff(r: Ring)
    requires Sized(r)
    ensures Full(r) <==> Used(r) == RING - 1
  {
  }

  lemma TakeOk(r: Ring)
    requires RingOk(r, false) && !Empty(r)
    ensures RingOk(Vacate(r), true) && r.slots[r.head].Some?
    ensures RingOk(Pop(Vacate(r)), false) && Used(Pop(Vacate(r))) == Used(r) - 1
  {
    PopOk(Vacate(r));
  }

  lemma PopOk(r: Ring)
    requires RingOk(r, true)
    ensures RingOk(Pop(r), false) && Used(Pop(r)) == Used(r) - 1
  {
  }

  // ----- Handles -----

  function One(h: Option<nat>): multiset<nat> { match h case None => multiset{} case Some(p) => multiset{p} }

  /** The packets held by slots. */
  function Held(s: seq<Option<nat>>): multiset<nat>
    decreases |s|
  {
    if s == [] then multiset{} else Held(s[..|s| - 1]) + One(s[|s| - 1])
  }

  lemma Carry(a: multiset<nat>, b: multiset<nat>, c: multiset<nat>, d: multiset<nat>, e: multiset<nat>)
    requires a + b == c + d
    ensures (a + e) + b == (c + e) + d && (e + a) + b == (e + c) + d
  {
    assert (a + e) + b == (a + b) + e;
    assert (c + e) + d == (c + d) + e;
    assert e + a == a + e && e + c == c + e;
  }

  lemma {:induction false} HeldUpdate(s: seq<Option<nat>>, i: nat, h: Option<nat>)
    requires i < |s|
    ensures Held(s[i := h]) + One(s[i]) == Held(s) + One(h)
    decreases |s|
  {
    hide One;
    var k, r := |s| - 1, s[i := h];
    assert Held(r) == Held(r[..k]) + One(r[k]) && Held(s) == Held(s[..k]) + One(s[k]);
    if i < k {
      HeldUpdate(s[..k], i, h);
      assert r[..k] == s[..k][i := h] && r[k] == s[k] && s[..k][i] == s[i];
      Carry(Held(r[..k]), One(s[i]), Held(s[..k]), One(h), One(s[k]));
    } else {
      assert r[..k] == s[..k];
      Carry(One(h), One(s[k]), One(s[k]), One(h), Held(s[..k]));
    }
  }

  lemma {:induction false} HeldNothing(s: seq<Option<nat>>)
    requires forall i :: 0 <= i < |s| ==> s[i] == None
    ensures Held(s) == multiset{}
    decreases |s|
  {
    if s != [] { HeldNothing(s[..|s| - 1]); }
  }

  /** An empty slot leaves room: fewer packets than slots. */
  lemma {:induction false} HeldSize(s: seq<Option<nat>>, k: nat)
    requires k <= |s| && (k < |s| ==> s[k] == None)
    ensures |Held(s)| <= if k < |s| then |s| - 1 else |s|
    decreases |s|
  {
    if s != [] {
      var n := |s| - 1;
      HeldSize(s[..n], if k < n then k else n);
      assert |Held(s)| == |Held(s[..n])| + |One(s[n])|;
      hide Held;
    }
  }

  lemma {:induction false} HeldIs(s: seq<Option<nat>>, i: nat)
    requires i < |s| && s[i].Some?
    ensures s[i].value in Held(s)
    decreases |s|
  {
    if i < |s| - 1 { HeldIs(s[..|s| - 1], i); }
  }

  // ----- The network's packets -----

  /** Reference counts; both rings, and whether the packet at the head of the receive ring is in a local
      handle; the DHCP offers kept; and of the frames accepted for sending, in
      order, which ones the card has finished, and how many the driver has released. */
  datatype Net = Net(refs: seq<int>, rx: Ring, moved: bool, tx: Ring, offers: seq<Option<nat>>, count: nat,
                     log: seq<nat>, finished: seq<bool>, released: nat)

  function InUse(n: Net): multiset<nat> { Held(n.rx.slots) + Held(n.tx.slots) + Held(n.offers) }

  /** Every count is the number of times the packet is held. */
  ghost predicate Counts(refs: seq<int>, m: multiset<nat>) {
    && |refs| == POOL
    && (forall p: nat {:trigger refs[p]} :: p < POOL ==> refs[p] == m[p])
    && forall p: nat {:trigger m[p]} :: m[p] > 0 ==> p < POOL
  }

  /** Frame `k` of those not released sits `k` places from the head; its status bit tells whether the
      card has finished it. */
  predicate Frame(tx: Ring, log: seq<nat>, finished: seq<bool>, released: nat, k: nat)
    requires Sized(tx)
  {
    && k < RING && released + k < |log| == |finished|
    && tx.slots[At(tx.head, k)] == Some(log[released + k]) && tx.done[At(tx.head, k)] == finished[released + k]
  }

  /** The transmit ring holds the frames not yet released, oldest at the head, and a status bit is set
      exactly if the card has finished that very frame; all released ones were finished. */
  predicate InOrder(tx: Ring, log: seq<nat>, finished: seq<bool>, released: nat) {
    && RingOk(tx, false) && released + Used(tx) == |log| == |finished|
    && (forall k: nat {:trigger Frame(tx, log, finished, released, k)} :: k < Used(tx) ==> Frame(tx, log, finished, released, k))
    && forall k: nat {:trigger finished[k]} :: k < released ==> finished[k]
  }

  predicate Shaped(n: Net) {
    && RingOk(n.rx, n.moved) && InOrder(n.tx, n.log, n.finished, n.released) && |n.offers| == MAX_OFFERS && n.count <= MAX_OFFERS
    && forall i :: 0 <= i < MAX_OFFERS ==> (n.offers[i].Some? <==> i < n.count)
  }

  /** The reference counts are those of slots, offers and the local handles `l`. */
  ghost predicate Good(n: Net, l: multiset<nat>) { Shaped(n) && Counts(n.refs, InUse(n) + l) }

  predicate Single(m: multiset<nat>) { forall p :: p in m ==> m[p] == 1 }

  /** Between steps: no local handles, and no packet held twice. */
  ghost predicate Sound(n: Net) { Good(n, multiset{}) && !n.moved && Single(InUse(n)) }

  function Below(n: nat): (s: set<nat>)
    ensures |s| == n && forall p: nat :: p in s <==> p < n
  {
    if n == 0 then {} else Below(n - 1) + {n - 1}
  }

  /** A multiset that contains every number below `n` has at least that many elements. */
  lemma Pigeonhole(m: multiset<nat>, n: nat)
    requires forall p: nat {:trigger m[p]} :: p < n ==> m[p] > 0
    ensures |m| >= n
  {
    var all := multiset(Below(n));
    assert all <= m;
    assert m == all + (m - all);
  }

  /** The first packet that nothing holds, or the size of the pool. */
  function FirstFree(refs: seq<int>): (p: nat)
    ensures p <= |refs| && (p < |refs| ==> refs[p] == 0) && forall j :: 0 <= j < p ==> refs[j] != 0
  {
    if refs == [] || refs[0] == 0 then 0 else 1 + FirstFree(refs[1..])
  }

  /** `request_packet` never fails: at most 127 packets are in each ring and 4 kept as offers, so with a
      few local handles the pool of 340 has one free. */
  lemma RequestSucceeds(n: Net, l: multiset<nat>)
    requires Good(n, l) && |l| <= 3
    ensures FirstFree(n.refs) < POOL
  {
    HeldSize(n.rx.slots, n.rx.tail);
    HeldSize(n.tx.slots, n.tx.tail);
    HeldSize(n.offers, MAX_OFFERS);
    assert |InUse(n) + l| <= 127 + 127 + 4 + 3;
    if FirstFree(n.refs) == POOL {
      forall p: nat | p < POOL ensures (InUse(n) + l)[p] > 0 { assert n.refs[p] != 0; }
      Pigeonhole(InUse(n) + l, POOL);
      assert false;
    }
  }

  // ----- Reference-counted handles -----

  function AddRef(n: Net, p: nat): Net
    requires p < |n.refs|
  {
    n.(refs := n.refs[p := n.refs[p] + 1])
  }

  function DeRef(n: Net, p: nat): Net
    requires p < |n.refs|
  {
    n.(refs := n.refs[p := n.refs[p] - 1])
  }

  function Release(n: Net, h: Option<nat>): Net
    requires h.Some? ==> h.value < |n.refs|
  {
    match h case None => n case Some(p) => DeRef(n, p)
  }

  lemma CountsUp(refs: seq<int>, m: multiset<nat>, p: nat)
    requires Counts(refs, m) && p < POOL
    ensures Counts(refs[p := refs[p] + 1], m + multiset{p})
  {
  }

  lemma CountsDown(refs: seq<int>, m: multiset<nat>, p: nat)
    requires Counts(refs, m) && p in m
    ensures Counts(refs[p := refs[p] - 1], m - multiset{p})
  {
  }

  /** Counts and receive ring aside, nothing has changed. */
  predicate RxOnly(n: Net, r: Net) { Others(r) == Others(n) }

  /** What is not counts and receive ring. */
  datatype Rest = Rest(moved: bool, tx: Ring, offers: seq<Option<nat>>, count: nat,
                       log: seq<nat>, finished: seq<bool>, released: nat)

  function Others(n: Net): Rest { Rest(n.moved, n.tx, n.offers, n.count, n.log, n.finished, n.released) }

  predicate CountsOnly(n: Net, r: Net) { RxOnly(n, r) && r.rx == n.rx }

  /** `request_packet` into handle `h`: the first packet that nothing holds is taken, and what `h` held
      let go. */
  function Request(n: Net, h: Option<nat>): (r: (Net, Option<nat>))
    requires h.Some? ==> h.value < |n.refs|
    ensures CountsOnly(n, r.0) && |r.0.refs| == |n.refs| && (r.1.Some? ==> r.1.value < |n.refs|)
  {
    var p := FirstFree(n.refs);
    if p < |n.refs| then (Release(AddRef(n, p), h), Some(p)) else (Release(n, h), None)
  }

  lemma HandedOver(base: multiset<nat>, l: multiset<nat>, h: Option<nat>, p: nat)
    ensures base + (l + One(h)) + multiset{p} - One(h) == base + (l + multiset{p})
  {
  }

  lemma RequestCounts(n: Net, m: multiset<nat>, h: Option<nat>)
    requires Counts(n.refs, m) && FirstFree(n.refs) < POOL && One(h) <= m
    ensures h.Some? ==> h.value < |n.refs|
    ensures var (r, q) := Request(n, h);
      q == Some(FirstFree(n.refs)) && q.value !in m && Counts(r.refs, m + multiset{q.value} - One(h))
  {
    if h.Some? { assert m[h.value] > 0; }
    var p := FirstFree(n.refs);
    assert n.refs[p] == 0 && m[p] == 0;
    CountsUp(n.refs, m, p);
    if h.Some? {
      CountsDown(n.refs[p := n.refs[p] + 1], m + multiset{p}, h.value);
    } else {
      assert m + multiset{p} - One(h) == m + multiset{p};
    }
  }

  /** It always succeeds, with a packet that nothing held. */
  lemma RequestGood(n: Net, l: multiset<nat>, h: Option<nat>)
    requires Good(n, l + One(h)) && |l + One(h)| <= 3
    ensures h.Some? ==> h.value < |n.refs|
    ensures var (r, q) := Request(n, h);
      && q.Some? && q.value !in InUse(n) + (l + One(h)) && InUse(r) == InUse(n) && Good(r, l + multiset{q.value})
  {
    hide InUse, InOrder, RingOk;
    RequestSucceeds(n, l + One(h));
    RequestCounts(n, InUse(n) + (l + One(h)), h);
    HandedOver(InUse(n), l, h, FirstFree(n.refs));
    SameRings(n, Request(n, h).0);
  }

  /** Counts alone do not matter to rings and offers. */
  lemma SameRings(n: Net, r: Net)
    requires CountsOnly(n, r)
    ensures InUse(r) == InUse(n) && (Shaped(n) ==> Shaped(r))
  {
  }

  // ----- Adding to the rings -----

  /** A packet stored in the slot at the tail of the receive ring. */
  function StoreRx(n: Net, p: nat): Net
    requires p < |n.refs| && Sized(n.rx) && (n.rx.slots[n.rx.tail].Some? ==> n.rx.slots[n.rx.tail].value < |n.refs|)
  {
    Release(AddRef(n, p), n.rx.slots[n.rx.tail]).(rx := Push(n.rx, p))
  }

  function StoreTx(n: Net, p: nat): Net
    requires p < |n.refs| && Sized(n.tx) && (n.tx.slots[n.tx.tail].Some? ==> n.tx.slots[n.tx.tail].value < |n.refs|)
  {
    Release(AddRef(n, p), n.tx.slots[n.tx.tail])
      .(tx := Push(n.tx, p), log := n.log + [p], finished := n.finished + [false])
  }

  /** Slots name packets of the pool. */
  predicate Named(n: Net) {
    && Sized(n.rx) && Sized(n.tx) && |n.refs| == POOL
    && (forall i :: 0 <= i < RING ==> (n.rx.slots[i].Some? ==> n.rx.slots[i].value < POOL))
    && (forall i :: 0 <= i < RING ==> (n.tx.slots[i].Some? ==> n.tx.slots[i].value < POOL))
    && (forall i :: 0 <= i < |n.offers| ==> (n.offers[i].Some? ==> n.offers[i].value < POOL))
  }

  lemma GoodIsNamed(n: Net, l: multiset<nat>)
    requires Good(n, l)
    ensures Named(n)
  {
    var m := InUse(n) + l;
    forall i | 0 <= i < RING && n.rx.slots[i].Some? ensures n.rx.slots[i].value < POOL {
      HeldIs(n.rx.slots, i);
      assert m[n.rx.slots[i].value] > 0;
    }
    forall i | 0 <= i < RING && n.tx.slots[i].Some? ensures n.tx.slots[i].value < POOL {
      HeldIs(n.tx.slots, i);
      assert m[n.tx.slots[i].value] > 0;
    }
    forall i | 0 <= i < |n.offers| && n.offers[i].Some? ensures n.offers[i].value < POOL {
      HeldIs(n.offers, i);
      assert m[n.offers[i].value] > 0;
    }
  }

  /** `addreceive`: its parameter is one more handle while it runs. */
  function AddReceive(n: Net, p: nat): (r: Net)
    requires Named(n) && p < POOL
    ensures Named(r) && r.offers == n.offers
  {
    var a := AddRef(n, p);
    if Full(a.rx) then DeRef(a, p) else DeRef(StoreRx(a, p), p)
  }

  /** `transmit`: a frame too small, or one too many, is dropped. */
  function Transmit(n: Net, p: nat, size: nat): (r: Net)
    requires Named(n) && p < POOL
    ensures Named(r) && r.offers == n.offers
  {
    var a := AddRef(n, p);
    if size < MIN_FRAME || Full(a.tx) then DeRef(a, p) else DeRef(StoreTx(a, p), p)
  }

  lemma AddThenDrop(refs: seq<int>, p: nat)
    requires p < |refs|
    ensures refs[p := refs[p] + 1][p := refs[p := refs[p] + 1][p] - 1] == refs
  {
  }

  lemma HeldPush(r: Ring, moved: bool, p: nat)
    requires RingOk(r, moved) && !Full(r)
    ensures Held(Push(r, p).slots) == Held(r.slots) + multiset{p}
  {
    HeldUpdate(r.slots, r.tail, Some(p));
  }

  lemma ThirdUp(a: multiset<nat>, b: multiset<nat>, c: multiset<nat>, p: nat)
    ensures (a + multiset{p}) + b + c == a + b + c + multiset{p}
    ensures a + (b + multiset{p}) + c == a + b + c + multiset{p}
    ensures a + b + (c + multiset{p}) == a + b + c + multiset{p}
  {
  }

  lemma OneMore(m: multiset<nat>, l: multiset<nat>, p: nat)
    ensures m + l + multiset{p} == m + multiset{p} + l
  {
  }

  lemma AddReceiveIs(n: Net, p: nat)
    requires Named(n) && p < POOL && (Full(n.rx) || n.rx.slots[n.rx.tail] == None)
    ensures AddReceive(n, p) == if Full(n.rx) then n
                                else n.(refs := n.refs[p := n.refs[p] + 1], rx := Push(n.rx, p))
  {
    AddThenDrop(n.refs, p);
    AddThenDrop(n.refs[p := n.refs[p] + 1], p);
  }

  lemma TransmitIs(n: Net, p: nat, size: nat)
    requires Named(n) && p < POOL && (Full(n.tx) || n.tx.slots[n.tx.tail] == None)
    ensures Transmit(n, p, size) ==
      if size < MIN_FRAME || Full(n.tx) then n
      else n.(refs := n.refs[p := n.refs[p] + 1], tx := Push(n.tx, p), log := n.log + [p], finished := n.finished + [false])
  {
    AddThenDrop(n.refs, p);
    AddThenDrop(n.refs[p := n.refs[p] + 1], p);
  }

  /** The packet is in the receive ring afterwards, or the ring was full and nothing changes. */
  lemma AddReceiveGood(n: Net, l: multiset<nat>, p: nat)
    requires Good(n, l) && p < POOL
    ensures Named(n)
    ensures var r := AddReceive(n, p);
      && Good(r, l) && r == n.(refs := r.refs, rx := r.rx)
      && if Full(n.rx) then r == n else InUse(r) == InUse(n) + multiset{p} && r.rx == Push(n.rx, p)
  {
    hide AddReceive, Push, Full, Held, Counts, Named;
    GoodIsNamed(n, l);
    if !Full(n.rx) {
      PushOk(n.rx, n.moved, p);
      HeldPush(n.rx, n.moved, p);
      ThirdUp(Held(n.rx.slots), Held(n.tx.slots), Held(n.offers), p);
      CountsUp(n.refs, InUse(n) + l, p);
      OneMore(InUse(n), l, p);
    }
    AddReceiveIs(n, p);
  }

  lemma PushInOrder(tx: Ring, log: seq<nat>, finished: seq<bool>, released: nat, p: nat)
    requires InOrder(tx, log, finished, released) && !Full(tx)
    ensures InOrder(Push(tx, p), log + [p], finished + [false], released)
  {
    PushOk(tx, false, p);
    var r := Push(tx, p);
    forall k: nat | k < Used(r) ensures Frame(r, log + [p], finished + [false], released, k) {
      if k < Used(tx) {
        assert Frame(tx, log, finished, released, k);
        assert At(tx.head, k) != tx.tail;
      } else {
        assert At(tx.head, k) == tx.tail;
      }
    }
  }

  /** The packet is in the transmit ring afterwards, last in order, or it is dropped and nothing changes. */
  lemma TransmitGood(n: Net, l: multiset<nat>, p: nat, size: nat)
    requires Good(n, l) && p < POOL
    ensures Named(n)
    ensures var r := Transmit(n, p, size);
      && Good(r, l) && r == n.(refs := r.refs, tx := r.tx, log := r.log, finished := r.finished)
      && if size < MIN_FRAME || Full(n.tx) then r == n
         else InUse(r) == InUse(n) + multiset{p} && r.log == n.log + [p]
  {
    hide Transmit, Push, Full, Held, Counts, Named, Frame;
    GoodIsNamed(n, l);
    if !Full(n.tx) {
      PushOk(n.tx, false, p);
      PushInOrder(n.tx, n.log, n.finished, n.released, p);
      HeldPush(n.tx, false, p);
      ThirdUp(Held(n.rx.slots), Held(n.tx.slots), Held(n.offers), p);
      CountsUp(n.refs, InUse(n) + l, p);
      OneMore(InUse(n), l, p);
    }
    TransmitIs(n, p, size);
  }

  // ----- Senders -----

  /** A sender: a packet requested, filled and transmitted, through one local handle. */
  function SendNew(n: Net, size: nat): (r: Net)
    requires Named(n)
    ensures Named(r) && r.offers == n.offers
  {
    var (a, h) := Request(n, None);
    match h
    case None => a
    case Some(p) => DeRef(Transmit(a, p, size), p)
  }

  lemma HandleGone(n: Net, l: multiset<nat>, p: nat)
    requires Good(n, l + multiset{p})
    ensures p < |n.refs| && Good(DeRef(n, p), l) && InUse(DeRef(n, p)) == InUse(n)
  {
    var m := InUse(n) + (l + multiset{p});
    assert m[p] > 0;
    CountsDown(n.refs, m, p);
    assert m - multiset{p} == InUse(n) + l;
    SameRings(n, DeRef(n, p));
  }

  lemma NoHandle(l: multiset<nat>)
    ensures l + One(None) == l
  {
  }

  /** A packet that nothing held is in the transmit ring afterwards (`sent`), or nothing changes. */
  lemma SendGood(n: Net, l: multiset<nat>, size: nat) returns (sent: Option<nat>)
    requires Good(n, l) && |l| <= 2
    ensures Named(n)
    ensures var r := SendNew(n, size);
      && Good(r, l) && InUse(r) == InUse(n) + One(sent) && r.rx == n.rx && r.offers == n.offers && r.count == n.count
      && n.log <= r.log && r.released == n.released
    ensures sent.Some? ==> sent.value !in InUse(n) + l
  {
    hide Transmit, Request, Counts, Shaped, Named, InUse;
    GoodIsNamed(n, l);
    NoHandle(l);
    RequestGood(n, l, None);
    var (a, h) := Request(n, None);
    var p := h.value;
    TransmitGood(a, l + multiset{p}, p, size);
    HandleGone(Transmit(a, p, size), l, p);
    sent := if size < MIN_FRAME || Full(a.tx) then None else Some(p);
  }

  // ----- Reclaiming sent frames -----

  /** The frame at the head of the transmit ring released. */
  function ReleaseHead(n: Net): (r: Net)
    requires Named(n)
    ensures Named(r)
  {
    Release(n, n.tx.slots[n.tx.head]).(tx := Pop(Vacate(n.tx)), released := n.released + 1)
  }

  /** The transmit part of `processqueues`: frames are released while the card has finished them. */
  function Reclaim(n: Net): (r: Net)
    requires Named(n)
    ensures Named(r)
    decreases Used(n.tx) + RING
  {
    if Empty(n.tx) || !n.tx.done[n.tx.head] then n else Reclaim(ReleaseHead(n))
  }

  lemma ReleaseInOrder(n: Net)
    requires InOrder(n.tx, n.log, n.finished, n.released) && !Empty(n.tx) && n.tx.done[n.tx.head]
    ensures InOrder(Pop(Vacate(n.tx)), n.log, n.finished, n.released + 1)
    ensures n.tx.slots[n.tx.head] == Some(n.log[n.released]) && n.finished[n.released]
  {
    TakeOk(n.tx);
    assert Frame(n.tx, n.log, n.finished, n.released, 0);
    var r, g := Pop(Vacate(n.tx)), n.released + 1;
    forall k: nat | k < Used(r) ensures Frame(r, n.log, n.finished, g, k) {
      assert Frame(n.tx, n.log, n.finished, n.released, k + 1);
      assert At(n.tx.head, k + 1) == At(r.head, k) && At(n.tx.head, k + 1) != n.tx.head;
    }
  }

  lemma HeldTake(r: Ring)
    requires RingOk(r, false) && !Empty(r)
    ensures r.slots[r.head].Some? && Held(Vacate(r).slots) + multiset{r.slots[r.head].value} == Held(r.slots)
  {
    TakeOk(r);
    HeldUpdate(r.slots, r.head, None);
  }

  /** The frame released is the oldest, and the card had finished it. */
  lemma ReleaseGood(n: Net, l: multiset<nat>)
    requires Good(n, l) && !Empty(n.tx) && n.tx.done[n.tx.head]
    ensures Named(n)
    ensures var r := ReleaseHead(n);
      && Good(r, l) && InUse(n) == InUse(r) + multiset{n.log[n.released]} && n.finished[n.released]
      && r == n.(refs := r.refs, tx := r.tx, released := n.released + 1)
  {
    hide Counts, Frame, Held, Pop, Vacate;
    GoodIsNamed(n, l);
    ReleaseInOrder(n);
    HeldTake(n.tx);
    var p, r := n.log[n.released], ReleaseHead(n);
    ThirdUp(Held(r.rx.slots), Held(r.tx.slots), Held(r.offers), p);
    PopSlots(n.tx);
    OneMore(InUse(r), l, p);
    CountsDown(n.refs, InUse(n) + l, p);
    assert InUse(n) + l - multiset{p} == InUse(r) + l;
  }

  lemma PopSlots(r: Ring)
    requires Sized(r)
    ensures Pop(Vacate(r)).slots == Vacate(r).slots
  {
  }

  /** Every frame up to the first that the card has not finished is released. */
  lemma {:induction false} ReclaimGood(n: Net, l: multiset<nat>)
    requires Good(n, l)
    ensures Named(n)
    ensures var r := Reclaim(n);
      && Good(r, l) && InUse(r) <= InUse(n) && n.released <= r.released <= |r.log| == |r.finished|
      && (r.released == |r.log| || !r.finished[r.released])
      && r == n.(refs := r.refs, tx := r.tx, released := r.released)
    decreases Used(n.tx) + RING
  {
    GoodIsNamed(n, l);
    if !Empty(n.tx) && n.tx.done[n.tx.head] {
      ReleaseGood(n, l);
      hide Good, InUse;
      ReclaimGood(ReleaseHead(n), l);
    } else {
      HeadFrame(n);
    }
  }

  /** The status bit at the head is that of the oldest frame not released. */
  lemma HeadFrame(n: Net)
    requires InOrder(n.tx, n.log, n.finished, n.released)
    ensures n.released <= |n.log| == |n.finished| && (Empty(n.tx) <==> n.released == |n.log|)
    ensures !Empty(n.tx) ==> n.tx.done[n.tx.head] == n.finished[n.released]
  {
    if !Empty(n.tx) { assert Frame(n.tx, n.log, n.finished, n.released, 0); }
  }

  // ----- Offers -----

  const NO_OFFERS: seq<Option<nat>> := [None, None, None, None]

  function LetGo(refs: seq<int>, s: seq<Option<nat>>): (r: seq<int>)
    ensures |r| == |refs|
    decreases |s|
  {
    if s == [] then refs
    else
      var r := LetGo(refs, s[..|s| - 1]);
      match s[|s| - 1] case None => r case Some(p) => if p < |r| then r[p := r[p] - 1] else r
  }

  lemma LetGoStart(refs: seq<int>, s: seq<Option<nat>>)
    ensures LetGo(refs, s[..0]) == refs
  {
  }

  /** One more offer let go. */
  lemma LetGoNext(n: Net, refs: seq<int>, s: seq<Option<nat>>, i: nat)
    requires i < |s| == MAX_OFFERS && n.refs == LetGo(refs, s[..i]) && n.offers == NO_OFFERS[..i] + s[i..] && Named(n)
    ensures n.offers[i] == s[i] && n.offers[i := None] == NO_OFFERS[..i + 1] + s[i + 1..]
    ensures s[i].Some? ==> s[i].value < |n.refs|
    ensures Release(n, s[i]).refs == LetGo(refs, s[..i + 1]) && Release(n, s[i]) == n.(refs := LetGo(refs, s[..i + 1]))
  {
    assert s[..i + 1][..i] == s[..i];
    assert n.offers[i] == s[i];
  }

  /** The DHCP client's offers reset. */
  function DropOffers(n: Net): (r: Net)
    ensures |r.offers| == MAX_OFFERS && (Named(n) ==> Named(r))
  {
    n.(refs := LetGo(n.refs, n.offers), offers := NO_OFFERS, count := 0)
  }

  /** An offer kept, if there is room. */
  function KeepOffer(n: Net, p: nat): (r: Net)
    requires p < |n.refs| && |n.offers| == MAX_OFFERS
    ensures |r.offers| == MAX_OFFERS && (Named(n) ==> Named(r))
  {
    if n.count < MAX_OFFERS then AddRef(n, p).(offers := n.offers[n.count := Some(p)], count := n.count + 1) else n
  }

  lemma {:induction false} LetGoCounts(refs: seq<int>, m: multiset<nat>, s: seq<Option<nat>>)
    requires Counts(refs, m + Held(s))
    ensures Counts(LetGo(refs, s), m)
    decreases |s|
  {
    if s == [] {
      assert m + Held(s) == m;
    } else {
      var k := |s| - 1;
      assert m + Held(s) == m + One(s[k]) + Held(s[..k]);
      LetGoCounts(refs, m + One(s[k]), s[..k]);
      if s[k].Some? {
        var p, m1 := s[k].value, m + One(s[k]);
        assert m1[p] > 0;
        CountsDown(LetGo(refs, s[..k]), m1, p);
        assert m1 - multiset{p} == m;
      } else {
        assert m + One(s[k]) == m;
      }
    }
  }

  lemma LastOut(a: multiset<nat>, b: multiset<nat>, c: multiset<nat>, l: multiset<nat>)
    ensures (a + b + c) + l == (a + b + l) + c && a + b + multiset{} <= a + b + c && a + b + l + multiset{} == a + b + l
  {
  }

  lemma DropGood(n: Net, l: multiset<nat>)
    requires Good(n, l)
    ensures var r := DropOffers(n);
      && Good(r, l) && InUse(r) <= InUse(n) && r == n.(refs := r.refs, offers := r.offers, count := r.count)
      && r.count == 0 && forall i :: 0 <= i < |r.offers| ==> r.offers[i] == None
  {
    hide Counts, Held, InOrder, RingOk, LetGo;
    HeldNothing(NO_OFFERS);
    var a, b := Held(n.rx.slots), Held(n.tx.slots);
    LastOut(a, b, Held(n.offers), l);
    LastOut(a, b, multiset{}, l);
    LetGoCounts(n.refs, a + b + l, n.offers);
  }

  lemma HeldFill(s: seq<Option<nat>>, i: nat, p: nat)
    requires i < |s| && s[i] == None
    ensures Held(s[i := Some(p)]) == Held(s) + multiset{p}
  {
    HeldUpdate(s, i, Some(p));
    assert Held(s[i := Some(p)]) + multiset{} == Held(s[i := Some(p)]);
  }

  lemma KeepShaped(n: Net, p: nat)
    requires Shaped(n) && p < |n.refs| && n.count < MAX_OFFERS
    ensures Shaped(KeepOffer(n, p)) && InUse(KeepOffer(n, p)) == InUse(n) + multiset{p}
  {
    hide Held, InOrder, RingOk;
    HeldFill(n.offers, n.count, p);
    ThirdUp(Held(n.rx.slots), Held(n.tx.slots), Held(n.offers), p);
  }

  lemma KeepGood(n: Net, l: multiset<nat>, p: nat)
    requires Good(n, l) && p < POOL
    ensures var r := KeepOffer(n, p);
      && Good(r, l) && r == n.(refs := r.refs, offers := r.offers, count := r.count)
      && if n.count < MAX_OFFERS then
           InUse(r) == InUse(n) + multiset{p} && r.count == n.count + 1 && r.offers == n.offers[n.count := Some(p)]
         else r == n
  {
    if n.count < MAX_OFFERS {
      assert KeepOffer(n, p).refs == n.refs[p := n.refs[p] + 1];
      KeepShaped(n, p);
      hide InUse, Shaped, KeepOffer, Counts;
      CountsUp(n.refs, InUse(n) + l, p);
      OneMore(InUse(n), l, p);
    }
  }

  // ----- Received frames -----

  /** What the network layer does with a frame: nothing that matters here, keep it as an offer, drop the
      offers kept, or answer with a packet of its own. */
  datatype Handling = Ignore | Keep | Drop | Answer(size: nat)

  function Handle(n: Net, p: nat, h: Handling): (r: Net)
    requires Named(n) && p < POOL && |n.offers| == MAX_OFFERS
    ensures Named(r) && |r.offers| == MAX_OFFERS
  {
    match h
    case Ignore => n
    case Keep => KeepOffer(n, p)
    case Drop => DropOffers(n)
    case Answer(size) => SendNew(n, size)
  }

  /** The frame at the head of the receive ring, moved to a local handle, is passed on. */
  function Received(n: Net, h: Handling): (r: Net)
    requires Named(n) && |n.offers| == MAX_OFFERS && n.rx.slots[n.rx.head].Some?
    ensures Named(r) && |r.offers| == MAX_OFFERS
  {
    Handle(MoveHead(n), n.rx.slots[n.rx.head].value, h)
  }

  /** If the frame was kept, another packet is taken in its place. The handle left is then added to the
      receive ring again, unless that is full: the frame taken is still counted there. */
  function Recycled(n: Net, p: nat): (r: (Net, Option<nat>))
    requires p < POOL && Named(n)
    ensures Named(r.0) && r.0.offers == n.offers && (r.1.Some? ==> r.1.value < POOL)
  {
    if n.refs[p] != 1 then Request(n, Some(p)) else (n, Some(p))
  }

  /** One turn of the receive loop of `processqueues`. Without a packet the source would follow a null
      pointer; it always gets one. */
  function ReceiveOne(n: Net, h: Handling): (r: Net)
    requires Named(n) && |n.offers| == MAX_OFFERS && n.rx.slots[n.rx.head].Some?
    ensures Named(r) && |r.offers| == MAX_OFFERS
  {
    var p := n.rx.slots[n.rx.head].value;
    var (b, q) := Recycled(Received(n, h), p);
    match q
    case None => b
    case Some(x) => var c := AddReceive(b, x); DeRef(c.(rx := Pop(c.rx), moved := false), x)
  }

  /** The packet at the head of the receive ring in a local handle. */
  function MoveHead(n: Net): Net
    requires Sized(n.rx)
  {
    n.(rx := Vacate(n.rx), moved := true)
  }

  lemma HeadMoved(n: Net)
    requires Good(n, multiset{}) && !n.moved && !Empty(n.rx)
    ensures n.rx.slots[n.rx.head].Some?
    ensures var p, a := n.rx.slots[n.rx.head].value, MoveHead(n);
      InUse(a) + multiset{p} == InUse(n) && Good(a, multiset{p}) && p < POOL
  {
    TakeOk(n.rx);
    HeldTake(n.rx);
    var p, a := n.rx.slots[n.rx.head].value, MoveHead(n);
    hide Counts, Held, RingOk, InOrder;
    ThirdUp(Held(a.rx.slots), Held(n.tx.slots), Held(n.offers), p);
    assert InUse(n) + multiset{} == InUse(n);
    GoodIsNamed(n, multiset{});
  }

  lemma SingleMore(m: multiset<nat>, p: nat)
    requires Single(m) && p !in m
    ensures Single(m + multiset{p})
  {
  }

  lemma SingleLess(m: multiset<nat>, k: multiset<nat>, p: nat)
    requires Single(k) && m + multiset{p} == k
    ensures Single(m) && p !in m
  {
    assert p in k && k[p] == m[p] + 1;
    forall q | q in m ensures m[q] == 1 { assert q in k && k[q] >= m[q]; }
  }

  /** One local handle, to a packet that nothing else holds, and no packet held twice. */
  ghost predicate Alone(n: Net, p: nat) { Good(n, multiset{p}) && Single(InUse(n)) && p !in InUse(n) && p < POOL }

  /** The same handle, perhaps no longer alone; the receive ring as it was. */
  ghost predicate Handled(n: Net, r: Net, p: nat) {
    Good(r, multiset{p}) && Single(InUse(r)) && r.rx == n.rx && r.moved == n.moved && Later(n, r)
  }

  lemma KeepHandled(n: Net, p: nat)
    requires Alone(n, p)
    ensures Handled(n, KeepOffer(n, p), p)
  {
    KeepGood(n, multiset{p}, p);
    SingleMore(InUse(n), p);
  }

  lemma AnswerHandled(n: Net, p: nat, size: nat)
    requires Alone(n, p)
    ensures Named(n) && Handled(n, SendNew(n, size), p)
  {
    var sent := SendGood(n, multiset{p}, size);
    SingleSent(InUse(n), sent);
    SendUnmoved(n, size);
  }

  lemma DropHandled(n: Net, p: nat)
    requires Alone(n, p)
    ensures Handled(n, DropOffers(n), p)
  {
    DropGood(n, multiset{p});
    SinglePart(InUse(DropOffers(n)), InUse(n));
  }

  /** Handling a frame held by the local handle `p` alone keeps every other packet single. */
  lemma HandleGood(n: Net, p: nat, h: Handling)
    requires Alone(n, p)
    ensures Named(n) && |n.offers| == MAX_OFFERS && Handled(n, Handle(n, p, h), p)
  {
    GoodIsNamed(n, multiset{p});
    match h
    case Ignore =>
    case Keep => KeepHandled(n, p);
    case Drop => DropHandled(n, p);
    case Answer(size) => AnswerHandled(n, p, size);
  }

  lemma SinglePart(m: multiset<nat>, k: multiset<nat>)
    requires Single(k) && m <= k
    ensures Single(m)
  {
    forall q | q in m ensures m[q] == 1 { assert q in k && k[q] >= m[q]; }
  }

  lemma SingleSent(m: multiset<nat>, sent: Option<nat>)
    requires Single(m) && (sent.Some? ==> sent.value !in m)
    ensures Single(m + One(sent))
  {
    match sent
    case None => assert m + One(sent) == m;
    case Some(p) => SingleMore(m, p);
  }

  /** After recycling the local handle holds a packet that no slot and no offer holds. */
  lemma RecycledGood(n: Net, p: nat)
    requires Good(n, multiset{p}) && p < POOL
    ensures Named(n)
    ensures var (r, q) := Recycled(n, p);
      && q.Some? && q.value !in InUse(r) && InUse(r) == InUse(n) && Good(r, multiset{q.value})
      && r == n.(refs := r.refs)
  {
    GoodIsNamed(n, multiset{p});
    assert n.refs[p] == (InUse(n) + multiset{p})[p];
    if n.refs[p] != 1 {
      assert multiset{} + One(Some(p)) == multiset{p};
      RequestGood(n, multiset{}, Some(p));
      var q := Request(n, Some(p)).1.value;
      assert multiset{} + multiset{q} == multiset{q};
      assert q !in InUse(n) + multiset{p};
    }
  }

  lemma PopGood(n: Net, q: nat)
    requires Good(n, multiset{q}) && n.moved
    ensures q < |n.refs| && Sized(n.rx)
    ensures var r := DeRef(n.(rx := Pop(n.rx), moved := false), q);
      Good(r, multiset{}) && InUse(r) == InUse(n) && Used(r.rx) == Used(n.rx) - 1
  {
    PopOk(n.rx);
    assert Pop(n.rx).slots == n.rx.slots;
    assert multiset{} + multiset{q} == multiset{q};
    hide Counts, Held;
    HandleGone(n.(rx := Pop(n.rx), moved := false), multiset{}, q);
  }

  /** A received frame goes through the network layer and its packet, or one in its place, back to the
      ring. If the ring is full, which it stays until the frame is taken off it, the packet is let go and
      the ring is one shorter. */
  lemma ReceiveGood(n: Net, h: Handling)
    requires Sound(n) && !Empty(n.rx)
    ensures Named(n) && n.rx.slots[n.rx.head].Some?
    ensures var r := ReceiveOne(n, h);
      Sound(r) && Later(n, r) && Used(r.rx) == if Full(n.rx) then Used(n.rx) - 1 else Used(n.rx)
  {
    var p, c, q := PassedOn(n, h);
    AddReceiveGood(c, multiset{q}, q);
    var d := AddReceive(c, q);
    assert RingOk(n.rx, false) && c.rx == Vacate(n.rx) && d.moved;
    hide Counts, InUse, Shaped, Named, Single, Handle, Recycled, AddReceive, Push, Pop, Vacate, Full, Received;
    SingleMore(InUse(c), q);
    PopGood(d, q);
    FullStays(n.rx, c.rx, d.rx, q);
  }

  /** The frame handled and recycled: the local handle holds a packet that nothing else does. */
  lemma PassedOn(n: Net, h: Handling) returns (p: nat, c: Net, q: nat)
    requires Sound(n) && !Empty(n.rx)
    ensures Named(n) && n.rx.slots[n.rx.head] == Some(p) && p < POOL && Recycled(Received(n, h), p) == (c, Some(q))
    ensures Good(c, multiset{q}) && Single(InUse(c)) && q !in InUse(c) && q < POOL && Named(c)
    ensures c.rx == Vacate(n.rx) && c.moved && Later(n, c)
  {
    GoodIsNamed(n, multiset{});
    HeadMoved(n);
    var a := MoveHead(n);
    p := n.rx.slots[n.rx.head].value;
    SingleLess(InUse(a), InUse(n), p);
    hide Counts, InUse, Shaped, Named, Single, Handle, Recycled, Vacate;
    HandleGood(a, p, h);
    var b := Handle(a, p, h);
    RecycledGood(b, p);
    c := Recycled(b, p).0;
    q := Recycled(b, p).1.value;
    GoodIsNamed(c, multiset{q});
  }

  lemma FullStays(rx: Ring, moved: Ring, r: Ring, q: nat)
    requires RingOk(rx, false) && !Empty(rx) && moved == Vacate(rx) && r == if Full(moved) then moved else Push(moved, q)
    ensures Used(r) == if Full(rx) then Used(rx) else Used(rx) + 1
  {
  }

  // ----- Filling the receive ring -----

  /** A packet requested into handle `h` and added to the receive ring. */
  function RefillOne(n: Net, h: Option<nat>): (r: (Net, Option<nat>))
    requires Named(n) && (h.Some? ==> h.value < POOL)
    ensures Named(r.0) && (r.1.Some? ==> r.1.value < POOL)
  {
    var (a, q) := Request(n, h);
    match q
    case None => (a, None)
    case Some(x) => (AddReceive(a, x), q)
  }

  /** That `k` times over, and the handle let go. */
  function Refill(n: Net, k: nat, h: Option<nat>): (r: Net)
    requires Named(n) && (h.Some? ==> h.value < POOL)
    ensures Named(r)
    decreases k
  {
    if k == 0 then Release(n, h)
    else var (a, q) := RefillOne(n, h); if q.None? then a else Refill(a, k - 1, q)
  }

  /** Only the receive ring has been added to, and `h` is the one local handle. */
  ghost predicate Refilled(n: Net, r: Net, h: Option<nat>) { Refillable(r, h) && RxOnly(n, r) }

  /** Slots in use with `k` packets more, as far as there is room. */
  function More(r: Ring, k: nat): int { if Used(r) + k < RING then Used(r) + k else RING - 1 }

  ghost predicate Refillable(n: Net, h: Option<nat>) {
    Good(n, One(h)) && Single(InUse(n)) && (h.Some? ==> h.value < POOL)
  }

  lemma RefillTurn(n: Net, h: Option<nat>)
    requires Refillable(n, h)
    ensures Named(n)
    ensures var (r, q) := RefillOne(n, h); q.Some? && Refilled(n, r, q) && r.rx == if Full(n.rx) then n.rx else Push(n.rx, q.value)
  {
    hide Counts, InUse, Shaped, Single, AddReceive, Request, Push, Full;
    GoodIsNamed(n, One(h));
    assert multiset{} + One(h) == One(h);
    RequestGood(n, multiset{}, h);
    var (a, q) := Request(n, h);
    NotHeld(InUse(n), One(h), q.value);
    assert multiset{} + multiset{q.value} == One(q);
    AddReceiveGood(a, One(q), q.value);
    SingleMore(InUse(n), q.value);
  }

  lemma OneAdded(r: Ring, moved: bool, p: nat)
    requires RingOk(r, moved)
    ensures Used(if Full(r) then r else Push(r, p)) == More(r, 1)
  {
    FullIff(r);
    if !Full(r) { PushOk(r, moved, p); }
  }

  lemma LastHandleGone(n: Net, h: Option<nat>)
    requires Refillable(n, h)
    ensures Named(n) && Refilled(n, Release(n, h), None)
  {
    GoodIsNamed(n, One(h));
    assert multiset{} + One(h) == One(h) && One(None) == multiset{};
    if h.Some? { HandleGone(n, multiset{}, h.value); }
  }

  lemma NotHeld(m: multiset<nat>, l: multiset<nat>, p: nat)
    requires p !in m + (multiset{} + l)
    ensures p !in m
  {
  }

  lemma RefilledOn(n: Net, r: Net, z: Net, q: Option<nat>)
    requires Refilled(n, r, q) && Refilled(r, z, None)
    ensures Refilled(n, z, None)
  {
  }

  lemma RefillNext(n: Net, k: nat, h: Option<nat>)
    requires Named(n) && (h.Some? ==> h.value < POOL)
    ensures k == 0 ==> Refill(n, k, h) == Release(n, h)
    ensures k > 0 ==> var (a, q) := RefillOne(n, h); q.Some? ==> Named(a) && q.value < POOL && Refill(n, k, h) == Refill(a, k - 1, q)
  {
    hide RefillOne, Release, Named;
  }

  lemma {:induction false} RefillGood(n: Net, k: nat, h: Option<nat>)
    requires Refillable(n, h)
    ensures Named(n)
    ensures Refilled(n, Refill(n, k, h), None) && Used(Refill(n, k, h).rx) == More(n.rx, k)
    decreases k
  {
    hide Refillable, Refilled, RefillOne, Refill, Release, Named;
    RefillNamed(n, h);
    RefillNext(n, k, h);
    if k == 0 {
      NoneMore(n, h);
      LastHandleGone(n, h);
    } else {
      var r, q := RefillTurned(n, h);
      RefillGood(r, k - 1, q);
      RefilledOn(n, r, Refill(r, k - 1, q), q);
    }
  }

  lemma RefilledIs(n: Net, r: Net, h: Option<nat>)
    requires Refilled(n, r, h)
    ensures Refillable(r, h)
  {
  }

  lemma NoneMore(n: Net, h: Option<nat>)
    requires Refillable(n, h) && (h.Some? ==> h.value < |n.refs|)
    ensures Used(n.rx) == More(n.rx, 0) && Release(n, h).rx == n.rx
  {
    assert RingOk(n.rx, n.moved);
  }

  lemma RefillTurned(n: Net, h: Option<nat>) returns (r: Net, q: Option<nat>)
    requires Refillable(n, h) && Named(n) && (h.Some? ==> h.value < POOL)
    ensures (r, q) == RefillOne(n, h) && q.Some? && Refilled(n, r, q) && Refillable(r, q) && q.value < POOL
    ensures Used(r.rx) == More(n.rx, 1)
  {
    hide RefillOne, Refilled, Counts, InUse, Full, Push, More, Single;
    RefillTurn(n, h);
    r, q := RefillOne(n, h).0, RefillOne(n, h).1;
    assert Refillable(r, q) by { RefilledIs(n, r, q); }
    OneAdded(n.rx, n.moved, q.value);
  }

  lemma RefillNamed(n: Net, h: Option<nat>)
    requires Refillable(n, h)
    ensures Named(n) && (h.Some? ==> h.value < POOL)
  {
    GoodIsNamed(n, One(h));
  }

  // ----- The network card -----

  /** The card finishes the frame `k` places from the head of the transmit ring. */
  function CardSends(n: Net, k: nat): Net
    requires Sized(n.tx) && n.released + k < |n.finished| && k < RING
  {
    n.(tx := n.tx.(done := n.tx.done[At(n.tx.head, k) := true]), finished := n.finished[n.released + k := true])
  }

  /** The card fills the packet `k` places from the head of the receive ring. */
  function CardReceives(n: Net, k: nat): Net
    requires Sized(n.rx) && k < RING
  {
    n.(rx := n.rx.(done := n.rx.done[At(n.rx.head, k) := true]))
  }

  lemma CardSendsGood(n: Net, l: multiset<nat>, k: nat)
    requires Good(n, l) && k < Used(n.tx)
    ensures Good(CardSends(n, k), l) && InUse(CardSends(n, k)) == InUse(n)
  {
    var r := CardSends(n, k);
    forall j: nat | j < Used(r.tx) ensures Frame(r.tx, r.log, r.finished, r.released, j) {
      assert Frame(n.tx, n.log, n.finished, n.released, j);
      assert At(n.tx.head, j) == At(n.tx.head, k) <==> j == k;
    }
  }

  // ----- Runs -----

  /** A turn of the sender, the card, the driver or the DHCP client. */
  datatype Event =
    | Sends(size: nat) | CardSent(k: nat) | CardReceived(k: nat)
    | Reclaims | Receives(h: Handling) | Refills(k: nat) | ResetsOffers

  function Step(n: Net, e: Event): (r: Net)
    requires Named(n) && Shaped(n)
  {
    match e
    case Sends(size) => SendNew(n, size)
    case CardSent(k) => if k < Used(n.tx) then CardSends(n, k) else n
    case CardReceived(k) => if k < Used(n.rx) then CardReceives(n, k) else n
    case Reclaims => Reclaim(n)
    case Receives(h) => if !n.moved && !Empty(n.rx) && n.rx.done[n.rx.head] then ReceiveOne(n, h) else n
    case Refills(k) => Refill(n, k, None)
    case ResetsOffers => DropOffers(n)
  }

  /** `r` is later than `n`: frames are only added to the log, and released in order. */
  predicate Later(n: Net, r: Net) { n.log <= r.log && n.released <= r.released }

  lemma SendSound(n: Net, size: nat)
    requires Sound(n)
    ensures Named(n) && Sound(SendNew(n, size)) && Later(n, SendNew(n, size))
  {
    hide Counts, InUse, Single, SendNew, Shaped, Named;
    var sent := SendGood(n, multiset{}, size);
    SingleSent(InUse(n), sent);
    SendUnmoved(n, size);
  }

  lemma SendUnmoved(n: Net, size: nat)
    requires Named(n)
    ensures SendNew(n, size).moved == n.moved
  {
  }

  lemma ReclaimSound(n: Net)
    requires Sound(n)
    ensures Named(n) && Sound(Reclaim(n)) && Later(n, Reclaim(n))
  {
    hide Counts, InUse, Single, Reclaim, Shaped, Named;
    ReclaimGood(n, multiset{});
    SinglePart(InUse(Reclaim(n)), InUse(n));
  }

  lemma RefillSound(n: Net, k: nat)
    requires Sound(n)
    ensures Named(n) && Sound(Refill(n, k, None)) && Later(n, Refill(n, k, None))
  {
    hide Counts, InUse, Single, Refill, Shaped, Named;
    RefillGood(n, k, None);
  }

  lemma ResetSound(n: Net)
    requires Sound(n)
    ensures Sound(DropOffers(n)) && Later(n, DropOffers(n))
  {
    hide Counts, InUse, Single, Shaped;
    DropGood(n, multiset{});
    SinglePart(InUse(DropOffers(n)), InUse(n));
  }

  lemma CardSound(n: Net, k: nat)
    requires Sound(n)
    ensures k < Used(n.tx) ==> Sound(CardSends(n, k)) && Later(n, CardSends(n, k))
    ensures k < Used(n.rx) ==> Sound(CardReceives(n, k)) && Later(n, CardReceives(n, k))
  {
    if k < Used(n.tx) { CardSendsGood(n, multiset{}, k); }
    if k < Used(n.rx) { CardReceivesGood(n, multiset{}, k); }
  }

  lemma StepSound(n: Net, e: Event)
    requires Sound(n)
    ensures Named(n) && Sound(Step(n, e)) && Later(n, Step(n, e))
  {
    hide Sound, Named, Shaped, SendNew, Reclaim, Refill, ReceiveOne, DropOffers, CardSends, CardReceives, InUse, Used, Sized, Later;
    SoundIsNamed(n);
    match e
    case Sends(size) => SendSound(n, size);
    case CardSent(k) => CardSentSound(n, k);
    case CardReceived(k) => CardReceivedSound(n, k);
    case Reclaims => ReclaimSound(n);
    case Receives(h) => ReceivesSound(n, h);
    case Refills(k) => RefillSound(n, k);
    case ResetsOffers => ResetSound(n);
  }

  lemma SoundIsNamed(n: Net)
    requires Sound(n)
    ensures Named(n) && Shaped(n)
  {
    GoodIsNamed(n, multiset{});
  }

  lemma CardSentSound(n: Net, k: nat)
    requires Sound(n) && Named(n) && Shaped(n)
    ensures Sound(Step(n, CardSent(k))) && Later(n, Step(n, CardSent(k)))
  {
    CardFits(n);
    CardSound(n, k);
    hide Good, Single, Shaped, Named, CardSends, InUse;
  }

  lemma CardReceivedSound(n: Net, k: nat)
    requires Sound(n) && Named(n) && Shaped(n)
    ensures Sound(Step(n, CardReceived(k))) && Later(n, Step(n, CardReceived(k)))
  {
    CardFits(n);
    CardSound(n, k);
    hide Good, Single, Shaped, Named, CardReceives, InUse;
  }

  lemma ReceivesSound(n: Net, h: Handling)
    requires Sound(n) && Named(n) && Shaped(n)
    ensures Sound(Step(n, Receives(h))) && Later(n, Step(n, Receives(h)))
  {
    hide Good, Single, Shaped, ReceiveOne, InUse;
    if !n.moved && !Empty(n.rx) && n.rx.done[n.rx.head] { ReceiveGood(n, h); }
  }

  lemma CardFits(n: Net)
    requires Sound(n)
    ensures Sized(n.rx) && Sized(n.tx) && n.released + Used(n.tx) == |n.finished| && Used(n.tx) < RING && Used(n.rx) < RING
  {
  }

  lemma CardReceivesGood(n: Net, l: multiset<nat>, k: nat)
    requires Good(n, l) && k < Used(n.rx)
    ensures Good(CardReceives(n, k), l) && InUse(CardReceives(n, k)) == InUse(n)
  {
  }

  ghost function Run(n: Net, events: seq<Event>): (r: Net)
    requires Sound(n)
    ensures Sound(r)
    decreases |events|
  {
    if events == [] then n
    else
      var a := Run(n, events[..|events| - 1]);
      StepSound(a, events[|events| - 1]);
      Step(a, events[|events| - 1])
  }

  /** In every state that is reached, however senders, card and driver take turns: every reference count
      is the number of slots and offers that hold the packet, and at most 1; a request finds a packet; and
      frames leave in the order they were accepted, each only after the card finished that very frame. */
  lemma {:induction false} RunsAreSound(n: Net, events: seq<Event>)
    requires Sound(n)
    ensures var r := Run(n, events);
      && (forall p: nat {:trigger r.refs[p]} :: p < POOL ==> |r.refs| == POOL && r.refs[p] == InUse(r)[p] <= 1)
      && FirstFree(r.refs) < POOL && Later(n, r)
      && r.released <= |r.log| == |r.finished| && forall k: nat {:trigger r.finished[k]} :: k < r.released ==> r.finished[k]
    decreases |events|
  {
    var r := Run(n, events);
    RequestSucceeds(r, multiset{});
    assert InUse(r) + multiset{} == InUse(r);
    forall p: nat | p < POOL ensures r.refs[p] == InUse(r)[p] <= 1 {
      if InUse(r)[p] > 0 { assert p in InUse(r); }
    }
    if events != [] {
      var before := events[..|events| - 1];
      RunsAreSound(n, before);
      StepSound(Run(n, before), events[|events| - 1]);
    }
  }

  const EMPTY_RING := Ring(0, 0, seq(RING, i => None), seq(RING, i => false))

  /** After `net::init`: all packets free, nothing queued. */
  const START := Net(seq(POOL, i => 0), EMPTY_RING, false, EMPTY_RING, NO_OFFERS, 0, [], [], 0)

  lemma StartIsSound()
    ensures Sound(START)
  {
    HeldNothing(EMPTY_RING.slots);
    HeldNothing(NO_OFFERS);
  }

  /** The receive part of `processqueues`: turns of the loop while the card has filled the packet at the
      head; `hs` tells what the network layer does with each. */
  function ReceiveAll(n: Net, hs: seq<Handling>): (r: Net)
    requires Named(n) && |n.offers| == MAX_OFFERS
    ensures Named(r) && |r.offers| == MAX_OFFERS
    decreases |hs|
  {
    if hs == [] || Empty(n.rx) || !n.rx.done[n.rx.head] || n.rx.slots[n.rx.head] == None then n
    else ReceiveAll(ReceiveOne(n, hs[0]), hs[1..])
  }

  /** Packets from the one `k` places from the head on that the card has filled, up to the first that it has not. */
  function Filled(r: Ring, k: nat): (n: nat)
    requires Sized(r)
    decreases Used(r) - k
  {
    if k < Used(r) && r.done[At(r.head, k)] then 1 + Filled(r, k + 1) else 0
  }

  /** After a turn of the loop the filled packets are those that were behind the head. */
  lemma {:induction false} FilledNext(r: Ring, r': Ring, k: nat)
    requires Sized(r) && Sized(r') && !Empty(r) && k <= Used(r')
    requires r'.head == Next(r.head) && Used(r) - 1 <= Used(r') <= Used(r)
    requires Used(r') == Used(r) ==> !r'.done[At(r'.head, Used(r') - 1)]
    requires forall j: nat :: j < Used(r) - 1 ==> r'.done[At(r'.head, j)] == r.done[At(r.head, j + 1)]
    ensures Filled(r', k) == Filled(r, k + 1)
    decreases Used(r') - k
  {
    if k < Used(r') { FilledNext(r, r', k + 1); }
  }

  lemma TurnFilled(r: Ring, q: nat)
    requires RingOk(r, false) && !Empty(r)
    ensures var a := Vacate(r); Filled(Pop(if Full(a) then a else Push(a, q)), 0) == Filled(r, 1)
  {
    var a := Vacate(r);
    var r' := Pop(if Full(a) then a else Push(a, q));
    assert !Full(a) ==> At(r'.head, Used(r') - 1) == r.tail;
    forall j: nat | j < Used(r) - 1 ensures r'.done[At(r'.head, j)] == r.done[At(r.head, j + 1)] {
      assert At(r'.head, j) == At(r.head, j + 1) != r.tail;
    }
    FilledNext(r, r', 0);
  }

  lemma ReceiveOneFilled(n: Net, h: Handling)
    requires Sound(n) && !Empty(n.rx)
    ensures Named(n) && n.rx.slots[n.rx.head].Some?
    ensures var r := ReceiveOne(n, h); Sized(n.rx) && Sized(r.rx) && Filled(r.rx, 0) == Filled(n.rx, 1)
  {
    var p, c, q := PassedOn(n, h);
    AddReceiveGood(c, multiset{q}, q);
    assert RingOk(n.rx, false);
    TurnFilled(n.rx, q);
    hide Filled, Counts, InUse, Single, Handle, Recycled, AddReceive, Push, Pop, Vacate, Full, Received;
  }

  /** The loop passes on every packet filled by then, oldest first, and stops at the first that is not. */
  lemma {:induction false} ReceiveAllDone(n: Net, hs: seq<Handling>)
    requires Sound(n) && Sized(n.rx) && |hs| >= Filled(n.rx, 0)
    ensures Named(n) && Sound(ReceiveAll(n, hs)) && Sized(ReceiveAll(n, hs).rx) && Filled(ReceiveAll(n, hs).rx, 0) == 0
    decreases |hs|
  {
    SoundIsNamed(n);
    if !Empty(n.rx) && n.rx.done[n.rx.head] {
      FirstFilled(n.rx);
      ReceiveGood(n, hs[0]);
      ReceiveOneFilled(n, hs[0]);
      hide Sound, ReceiveOne, Filled;
      ReceiveAllDone(ReceiveOne(n, hs[0]), hs[1..]);
      ReceiveAllNext(n, hs);
    } else {
      NoneFilled(n.rx);
    }
  }

  lemma ReceiveAllNext(n: Net, hs: seq<Handling>)
    requires Sound(n) && Named(n) && hs != [] && !Empty(n.rx) && n.rx.done[n.rx.head] && n.rx.slots[n.rx.head].Some?
    ensures ReceiveAll(n, hs) == ReceiveAll(ReceiveOne(n, hs[0]), hs[1..])
  {
    hide ReceiveOne, Sound;
  }

  lemma FirstFilled(r: Ring)
    requires RingOk(r, false) && !Empty(r) && r.done[r.head]
    ensures Filled(r, 0) == 1 + Filled(r, 1)
  {
  }

  lemma NoneFilled(r: Ring)
    requires Sized(r) && (Empty(r) || !r.done[r.head])
    ensures Filled(r, 0) == 0
  {
  }

  lemma {:induction false} ReceiveAllSound(n: Net, hs: seq<Handling>)
    requires Sound(n)
    ensures Named(n) && Sound(ReceiveAll(n, hs)) && Later(n, ReceiveAll(n, hs))
    decreases |hs|
  {
    GoodIsNamed(n, multiset{});
    if hs != [] && !Empty(n.rx) && n.rx.done[n.rx.head] {
      ReceiveGood(n, hs[0]);
      ReceiveAllSound(ReceiveOne(n, hs[0]), hs[1..]);
    }
  }
}
