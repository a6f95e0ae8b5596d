/** The packet pool, the rings and their driver in place (kernel/dev/e1000.cpp, kernel/dev/e1000.hpp,
    kernel/ktypes.hpp, kernel/net/queue.cpp): every method is proved equal to the function of `NicModel`
    that specifies it. */
module NicDriver {
  import opened NicModel
  import opened Wrappers

  /** `RingPointer`, with the slots and status bits of the descriptors it points into. */
  class RingBuffer {
    const slots: array<Option<nat>>
    const done: array<bool>
    var head: nat
    var tail: nat

    ghost predicate Valid()
      reads this
    {
      slots.Length == done.Length == RING && head < RING && tail < RING
    }

    ghost function State(): (r: Ring)
      reads this, slots, done
      ensures Valid() ==> Sized(r)
    {
      Ring(head, tail, slots[..], done[..])
    }

    constructor ()
      ensures Valid() && fresh(slots) && fresh(done) && State() == EMPTY_RING
    {
      slots := new Option<nat>[RING](i => None);
      done := new bool[RING](i => false);
      head, tail := 0, 0;
    }

    /** `next`: the slot to fill; the tail moves on. */
    method Advance() returns (c: nat)
      requires Valid()
      modifies `tail
      ensures Valid() && c == old(tail) && tail == Next(c)
    {
      c := tail;
      var n := c + 1;
      if n >= RING { n := 0; }
      tail := n;
    }

    method IsFull() returns (b: bool)
      requires Valid()
      ensures b == Full(State())
    {
      var n := tail + 1;
      if n >= RING { n := 0; }
      b := n == head;
    }

    /** A packet put in the slot at the tail, its descriptor not yet done. */
    method Put(p: nat)
      requires Valid()
      modifies `tail, slots, done
      ensures Valid() && State() == Push(old(State()), p)
    {
      var c := Advance();
      slots[c] := Some(p);
      done[c] := false;
    }

    /** `pop`: the head moves on. */
    method Take() returns (n: nat)
      requires Valid()
      modifies `head
      ensures Valid() && State() == Pop(old(State())) && n == head
    {
      var c := head;
      n := c + 1;
      if n >= RING { n := 0; }
      head := n;
    }
  }

  class Network {
    const refs: array<int>
    const rx: RingBuffer
    const tx: RingBuffer
    const offers: array<Option<nat>>
    var count: nat
    ghost var moved: bool
    ghost var log: seq<nat>
    ghost var finished: seq<bool>
    ghost var released: nat

    ghost predicate Valid()
      reads this, rx, tx, rx.slots, tx.slots, rx.done, tx.done, offers, refs
    {
      && rx.Valid() && tx.Valid() && rx != tx && rx.done != tx.done
      && rx.slots != tx.slots && offers != rx.slots && offers != tx.slots
      && refs.Length == POOL && offers.Length == MAX_OFFERS && count <= MAX_OFFERS && Named(State())
    }

    ghost function Repr(): set<object> {
      {this, rx, tx, rx.slots, tx.slots, rx.done, tx.done, offers, refs}
    }

    ghost function State(): (n: Net)
      reads this, rx, tx, rx.slots, tx.slots, rx.done, tx.done, offers, refs
    {
      Net(refs[..], rx.State(), moved, tx.State(), offers[..], count, log, finished, released)
    }

    constructor ()
      ensures Valid() && fresh(Repr()) && State() == START
    {
      refs := new int[POOL](i => 0);
      rx := new RingBuffer();
      tx := new RingBuffer();
      offers := new Option<nat>[MAX_OFFERS](i => None);
      count, moved, log, finished, released := 0, false, [], [], 0;
      new;
      assert offers[..] == NO_OFFERS;
      assert refs[..] == START.refs;
    }

    method AddReference(p: nat)
      requires Valid() && p < POOL
      modifies refs
      ensures Valid() && State() == AddRef(old(State()), p)
    {
      refs[p] := refs[p] + 1;
    }

    method DropReference(p: nat)
      requires Valid() && p < POOL
      modifies refs
      ensures Valid() && State() == DeRef(old(State()), p)
    {
      refs[p] := refs[p] - 1;
    }

    method LetGoOf(h: Option<nat>)
      requires Valid() && (h.Some? ==> h.value < POOL)
      modifies refs
      ensures Valid() && State() == Release(old(State()), h)
    {
      if h.Some? { DropReference(h.value); }
    }

    /** `request_packet`: handle `h` is reset to the first packet that nothing holds. */
    method RequestPacket(h: Option<nat>) returns (q: Option<nat>)
      requires Valid() && (h.Some? ==> h.value < POOL)
      modifies refs
      ensures Valid() && (State(), q) == Request(old(State()), h)
    {
      var i := 0;
      while i < POOL && refs[i] != 0
        invariant i <= POOL && i + FirstFree(refs[..][i..]) == FirstFree(refs[..])
      {
        assert refs[..][i..][1..] == refs[..][i + 1..];
        i := i + 1;
      }
      if i < POOL {
        AddReference(i);
        LetGoOf(h);
        return Some(i);
      }
      LetGoOf(h);
      return None;
    }

    /** `addreceive`. */
    method AddToReceive(p: nat)
      requires Valid() && p < POOL
      modifies refs, rx, rx.slots, rx.done
      ensures Valid() && State() == AddReceive(old(State()), p)
    {
      AddReference(p);
      var full := rx.IsFull();
      if !full { StoreReceived(p); }
      DropReference(p);
    }

    method StoreReceived(p: nat)
      requires Valid() && p < POOL
      modifies refs, rx, rx.slots, rx.done
      ensures Valid() && State() == StoreRx(old(State()), p)
    {
      var h := rx.slots[rx.tail];
      AddReference(p);
      LetGoOf(h);
      rx.Put(p);
    }

    /** `transmit`. */
    method TransmitPacket(p: nat, size: nat)
      requires Valid() && p < POOL
      modifies this, refs, tx, tx.slots, tx.done
      ensures Valid() && State() == Transmit(old(State()), p, size)
    {
      AddReference(p);
      var full := tx.IsFull();
      if size >= MIN_FRAME && !full { StoreToSend(p); }
      DropReference(p);
    }

    method StoreToSend(p: nat)
      requires Valid() && p < POOL
      modifies this, refs, tx, tx.slots, tx.done
      ensures Valid() && State() == StoreTx(old(State()), p)
    {
      var h := tx.slots[tx.tail];
      AddReference(p);
      LetGoOf(h);
      tx.Put(p);
      log, finished := log + [p], finished + [false];
    }

    method SendPacket(size: nat)
      requires Valid()
      modifies this, refs, tx, tx.slots, tx.done
      ensures Valid() && State() == SendNew(old(State()), size)
    {
      var h := RequestPacket(None);
      if h.Some? {
        TransmitPacket(h.value, size);
        DropReference(h.value);
      }
    }

    /** The transmit part of `processqueues`. */
    method ReclaimSent()
      requires Valid()
      modifies this, refs, tx, tx.slots
      ensures Valid() && State() == Reclaim(old(State()))
    {
      while tx.tail != tx.head && tx.done[tx.head]
        invariant Valid() && Reclaim(State()) == Reclaim(old(State()))
        decreases Used(State().tx) + RING
      {
        ReleaseOldest();
      }
    }

    method ReleaseOldest()
      requires Valid()
      modifies this, refs, tx, tx.slots
      ensures Valid() && State() == ReleaseHead(old(State()))
    {
      LetGoOf(tx.slots[tx.head]);
      tx.slots[tx.head] := None;
      var c := tx.Take();
      released := released + 1;
    }

    /** The loops of `state` and `recv` that reset all offers. */
    method ResetAllOffers()
      requires Valid()
      modifies refs, offers, `count
      ensures Valid() && State() == DropOffers(old(State()))
    {
      hide Named, LetGo, Release;
      var i := 0;
      ghost var n := State();
      LetGoStart(n.refs, n.offers);
      while i < MAX_OFFERS
        invariant i <= MAX_OFFERS && Valid() && |n.offers| == MAX_OFFERS
        invariant State() == n.(refs := LetGo(n.refs, n.offers[..i]), offers := NO_OFFERS[..i] + n.offers[i..])
      {
        LetGoNext(State(), n.refs, n.offers, i);
        ResetOffer(i);
        i := i + 1;
      }
      assert n.offers[..MAX_OFFERS] == n.offers && NO_OFFERS[..MAX_OFFERS] + n.offers[MAX_OFFERS..] == NO_OFFERS;
      count := 0;
      assert State() == DropOffers(n);
    }

    method ResetOffer(i: nat)
      requires Valid() && i < MAX_OFFERS
      modifies refs, offers
      ensures Valid() && State() == Release(old(State()), old(offers[i])).(offers := old(offers[..])[i := None])
    {
      LetGoOf(offers[i]);
      offers[i] := None;
    }

    method KeepFrame(p: nat)
      requires Valid() && p < POOL
      modifies refs, offers, `count
      ensures Valid() && State() == KeepOffer(old(State()), p)
    {
      if count < MAX_OFFERS {
        AddReference(p);
        offers[count] := Some(p);
        count := count + 1;
      }
    }

    method HandleFrame(p: nat, h: Handling)
      requires Valid() && p < POOL
      modifies this, refs, tx, tx.slots, tx.done, offers
      ensures Valid() && State() == Handle(old(State()), p, h)
    {
      match h
      case Ignore =>
      case Keep => KeepFrame(p);
      case Drop => ResetAllOffers();
      case Answer(size) => SendPacket(size);
    }

    /** The frame at the head of the receive ring, moved to a local handle, is passed on. */
    method PassOn(h: Handling) returns (p: nat)
      requires Valid() && rx.slots[rx.head].Some?
      modifies this, refs, rx.slots, tx, tx.slots, tx.done, offers
      ensures Valid() && p == old(rx.slots[rx.head].value) && p < POOL && State() == Received(old(State()), h)
    {
      ghost var n := State();
      p := rx.slots[rx.head].value;
      rx.slots[rx.head] := None;
      moved := true;
      assert State() == MoveHead(n);
      HandleFrame(p, h);
    }

    method Recycle(p: nat) returns (q: Option<nat>)
      requires Valid() && p < POOL
      modifies refs
      ensures Valid() && (State(), q) == Recycled(old(State()), p)
    {
      q := Some(p);
      if refs[p] != 1 { q := RequestPacket(q); }
    }

    /** One turn of the receive loop, on a slot that holds a packet. */
    method ReceiveFrame(h: Handling)
      requires Valid() && rx.slots[rx.head].Some?
      modifies Repr()
      ensures Valid() && State() == ReceiveOne(old(State()), h)
    {
      var p := PassOn(h);
      var q := Recycle(p);
      if q.Some? { PutBack(q.value); }
    }

    /** The packet goes to the tail of the ring, and the frame is taken off its head. */
    method PutBack(q: nat)
      requires Valid() && q < POOL
      modifies this, refs, rx, rx.slots, rx.done
      ensures Valid()
      ensures var c := AddReceive(old(State()), q); State() == DeRef(c.(rx := Pop(c.rx), moved := false), q)
    {
      AddToReceive(q);
      var c := rx.Take();
      moved := false;
      DropReference(q);
    }

    /** The receive part of `processqueues`. */
    method ReceiveFrames(hs: seq<Handling>)
      requires Valid()
      modifies Repr()
      ensures Valid() && State() == ReceiveAll(old(State()), hs)
    {
      var i := 0;
      while i < |hs| && rx.tail != rx.head && rx.done[rx.head] && rx.slots[rx.head].Some?
        invariant i <= |hs| && Valid() && ReceiveAll(State(), hs[i..]) == ReceiveAll(old(State()), hs)
      {
        assert hs[i..][0] == hs[i] && hs[i..][1..] == hs[i + 1..];
        ReceiveFrame(hs[i]);
        i := i + 1;
      }
    }

    method RefillTurn(h: Option<nat>) returns (q: Option<nat>)
      requires Valid() && (h.Some? ==> h.value < POOL)
      modifies refs, rx, rx.slots, rx.done
      ensures Valid() && (State(), q) == RefillOne(old(State()), h)
    {
      q := RequestPacket(h);
      if q.Some? { AddToReceive(q.value); }
    }

    /** The loops that request packets for the receive ring. */
    method RefillRing(k: nat)
      requires Valid()
      modifies refs, rx, rx.slots, rx.done
      ensures Valid() && State() == Refill(old(State()), k, None)
    {
      hide RefillOne, Named;
      var p: Option<nat>, left: nat := None, k;
      while left > 0
        invariant Valid() && (p.Some? ==> p.value < POOL)
        invariant Refill(State(), left, p) == Refill(old(State()), k, None)
      {
        p := RefillTurn(p);
        if p.None? { return; }
        left := left - 1;
      }
      LetGoOf(p);
    }
  }
}
