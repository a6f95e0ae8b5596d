/** The DHCP client (kernel/net/queue.cpp), a state machine driven by ticks of a tenth of a second and
    by messages (RFC 2131 section 4.4). States: 1 and 2 start, 3 waits for offers, 5 for an ACK, 6 and 7
    hold a lease, 8 renews it. Counters are 32 bits wide. Random transaction numbers are parameters of
    the ticks that draw them; what a tick sends is part of its result. */
module DhcpClients {
  import opened Arp
  import opened DhcpMessages
  import opened DhcpOptions
  import opened Wrappers

  const FOREVER := 0xffff_ffff
  const MAX_OFFERS := 4

  function Wrap(x: int): nat { x % LIMIT32 }

  /** An offer kept: the address offered, the server, and the notes on its options as a number. */
  datatype Offer = Offer(yip: Addr, sid: Addr, has: nat)

  /** A request: address, server and receiver, where given. */
  datatype Send = Nothing | Discover | Request(reqip: Addr, sid: Option<Addr>, dst: Option<Addr>)

  datatype Client = Client(
    transaction: nat, runtime: nat, subtime: nat, runstate: nat, timeout: nat, retry: nat,
    offers: seq<Option<Offer>>, count: nat,
    lease: Addr, serv: Addr, leaseTime: nat, t1: nat, t2: nat,
    system: Addr)

  const NO_OFFERS: seq<Option<Offer>> := [None, None, None, None]

  /** As the constructor leaves it. */
  const FRESH := Client(0, 0, 0, 0, 0, 0, NO_OFFERS, 0, NO_ADDR, NO_ADDR, 0, 0, 0, NO_ADDR)

  // ----- The state machine -----

  function Cleared(c: Client): Client { c.(offers := NO_OFFERS, count := 0) }

  /** `state`: entering state `s`. */
  function Enter(c: Client, s: nat): Client {
    var c1 := c.(runstate := s);
    if s == 0 then Cleared(c1)
    else if s == 1 then Cleared(c1.(subtime := 0, runtime := 0, lease := NO_ADDR, system := NO_ADDR))
    else if s == 2 then Cleared(c1.(subtime := 0, runtime := 0))
    else if s == 3 || s == 5 then c1.(timeout := Wrap(c.runtime + 5))
    else if s == 4 then Cleared(c1.(timeout := 300, subtime := 0, runtime := 0, lease := NO_ADDR, system := NO_ADDR))
    else if s == 6 then c1.(timeout := Wrap(c.runtime + 30))
    else if s == 8 then c1.(runtime := 0, subtime := 0, timeout := Wrap(Pow2(c.retry)))
    else c1
  }

  function Pow2(n: nat): nat { if n == 0 then 1 else 2 * Pow2(n - 1) }

  /** The offer with the greatest notes, the first of equals; none if none has any. */
  function Best(offers: seq<Option<Offer>>, n: nat): (r: Option<Offer>)
    requires n <= |offers|
    decreases n
  {
    if n == 0 then None
    else
      var b := Best(offers, n - 1);
      match offers[n - 1]
      case None => b
      case Some(o) => if o.has > (match b case None => 0 case Some(x) => x.has) then Some(o) else b
  }

  /** `verify`: take up an offer, renew a lease, or start over. */
  function Verified(c: Client): (r: (Client, Send))
    requires c.count <= |c.offers|
  {
    if c.count == 0 then
      if c.lease == NO_ADDR then
        var c1 := c.(retry := c.retry + 1);
        (Enter(c1, if c1.retry > 6 then 0 else 2), Nothing)
      else (c, Request(c.lease, None, if c.leaseTime <= c.t2 then None else Some(c.serv)))
    else
      match Best(c.offers, c.count)
      case None => (Enter(c, 5), Nothing)
      case Some(o) => (Enter(c, 5), Request(o.yip, Some(o.sid), None))
  }

  /** The clock of `run`. */
  function Clock(c: Client): Client {
    var s := Wrap(c.subtime + 1);
    if s >= 10 then
      c.(subtime := 0, runtime := Wrap(c.runtime + 1),
         leaseTime := if c.leaseTime == 0 || c.leaseTime == FOREVER then c.leaseTime else c.leaseTime - 1)
    else c.(subtime := s)
  }

  /** The check of states 6 and 7: time to renew? */
  function Renew(c: Client, rnd: nat): Client {
    if c.leaseTime < c.t1 then Enter(c.(retry := 0, transaction := rnd), 8) else c
  }

  /** State 8: the lease has run out, or it is time for another try. */
  function Renewed(c: Client, rnd: nat): (r: (Client, Send))
    requires c.count <= |c.offers|
  {
    if c.leaseTime == 0 then (Enter(c, 1), Nothing)
    else if c.runtime < c.timeout then (c, Nothing)
    else if c.retry + 1 > 6 then Verified(Enter(c.(retry := 0, transaction := rnd), 8))
    else Verified(c.(retry := c.retry + 1))
  }

  /** `run`: one tick. */
  function Tick(c0: Client, rnd: nat): (r: (Client, Send))
    requires c0.count <= |c0.offers|
  {
    var c := Clock(c0);
    if c.runstate == 1 then (if c.runtime > 10 then Enter(c, 2).(transaction := rnd, retry := 0) else c, Nothing)
    else if c.runstate == 2 then (Enter(c, 3), Discover)
    else if c.runstate == 3 then (if c.runtime >= c.timeout then Verified(c) else (c, Nothing))
    else if c.runstate == 4 then (if c.runtime > c.timeout then Enter(c, 1) else c, Nothing)
    else if c.runstate == 5 then
      if c.runtime < c.timeout then (c, Nothing)
      else if c.retry + 1 > 6 then (Enter(c.(retry := c.retry + 1), 1), Nothing)
      else Verified(c.(retry := c.retry + 1))
    else if c.runstate == 6 then (Renew(if c.runtime >= c.timeout then Enter(c, 7) else c, rnd), Nothing)
    else if c.runstate == 7 then (Renew(c, rnd), Nothing)
    else if c.runstate == 8 then Renewed(c, rnd)
    else (c, Nothing)
  }

  // ----- Messages -----

  /** The notes on a message as the number `recv` keeps: a bit for each code noted. */
  function Bits(has: set<Octet>): nat {
    (if 51 in has then 1 else 0) + (if 1 in has then 2 else 0) + (if 3 in has then 4 else 0)
    + (if 6 in has then 8 else 0) + (if 2 in has then 16 else 0) + (if 4 in has then 32 else 0)
    + (if 15 in has then 64 else 0) + (if 31 in has then 128 else 0) + (if 54 in has then 256 else 0)
  }

  const OFFER: Octet := 2
  const ACK: Octet := 5
  const NAK: Octet := 6

  /** A lease taken up: `yip` for `time` seconds, from server `sid`. */
  function Leased(c: Client, yip: Addr, sid: Addr, time: nat): Client {
    Enter(Cleared(c).(lease := yip, serv := sid, leaseTime := time, t1 := time / 2, t2 := time / 8, system := yip), 6)
  }

  /** `recv`. */
  function Recv(c: Client, m: Message, mac: Mac): Client
    requires m.Whole() && |c.offers| == MAX_OFFERS
  {
    if !m.ForUs(c.transaction, mac) then c
    else
      match Check(NOTHING, m.Options())
      case None => c
      case Some(s) =>
        if !(MIN_OPTIONS <= s.has) then c
        else if c.runstate == 3 then
          if s.mtype != OFFER || c.count >= MAX_OFFERS then c
          else c.(offers := c.offers[c.count := Some(Offer(m.AddrAt(16), Sid(s), Bits(s.has)))], count := c.count + 1)
        else if c.runstate == 5 || c.runstate == 8 then
          if s.mtype == NAK then Enter(c, 1)
          else if s.mtype != ACK then c
          else
            match Apply(UNSET, m.Options()).lease
            case None => c
            case Some(time) => Leased(c, m.AddrAt(16), Sid(s), time)
        else c
  }

  function Sid(s: Seen): Addr { if |s.sid| == 4 then s.sid else NO_ADDR }

  // ----- The invariant -----

  /** Offers are kept exactly below the count; waiting for an ACK takes one, and the other states have
      none; a lease is held only in states 6 to 8; and the system address is the leased one. */
  predicate Inv(c: Client) {
    && |c.offers| == MAX_OFFERS && c.count <= MAX_OFFERS
    && (forall i :: 0 <= i < MAX_OFFERS ==> (c.offers[i].Some? <==> i < c.count))
    && (forall i :: 0 <= i < c.count ==> c.offers[i].Some? && c.offers[i].value.has > 0)
    && (c.runstate == 5 ==> c.count > 0)
    && (c.runstate in {0, 1, 2, 6, 7, 8} ==> c.count == 0)
    && (c.lease != NO_ADDR ==> c.runstate in {6, 7, 8})
    && c.system == c.lease
    && c.runstate in {0, 1, 2, 3, 5, 6, 7, 8} && c.subtime < 10
  }

  lemma {:induction false} BestIsSome(offers: seq<Option<Offer>>, n: nat) returns (k: nat)
    requires 0 < n <= |offers| && forall i :: 0 <= i < n ==> offers[i].Some? && offers[i].value.has > 0
    ensures k < n && Best(offers, n) == offers[k]
    ensures forall i :: 0 <= i < n ==> offers[i].value.has <= offers[k].value.has
    ensures forall i :: 0 <= i < k ==> offers[i].value.has < offers[k].value.has
    decreases n
  {
    k := n - 1;
    if n > 1 {
      var j := BestIsSome(offers, n - 1);
      if offers[n - 1].value.has <= offers[j].value.has { k := j; }
    }
  }

  /** The request is for the address of an offer with the most notes, the first of those, from its server. */
  predicate AsksFor(c: Client, out: Send)
    requires Inv(c)
  {
    out.Request? && exists i ::
      && 0 <= i < c.count && out == Request(c.offers[i].value.yip, Some(c.offers[i].value.sid), None)
      && (forall j :: 0 <= j < c.count ==> c.offers[j].value.has <= c.offers[i].value.has)
      && (forall j :: 0 <= j < i ==> c.offers[j].value.has < c.offers[i].value.has)
  }

  /** `verify` keeps the invariant, and with offers at hand asks for the best of them. */
  lemma VerifyKeeps(c: Client)
    requires Inv(c) && c.runstate in {3, 5, 8}
    ensures var (r, out) := Verified(c);
      && Inv(r)
      && (c.count > 0 ==> r.runstate == 5 && AsksFor(c, out))
  {
    if c.count > 0 {
      var k := BestIsSome(c.offers, c.count);
      assert Verified(c).1 == Request(c.offers[k].value.yip, Some(c.offers[k].value.sid), None);
    }
  }

  lemma TickKeeps(c: Client, rnd: nat)
    requires Inv(c)
    ensures Inv(Tick(c, rnd).0)
  {
    var c1 := Clock(c);
    assert Inv(c1);
    if c.runstate == 3 { VerifyKeeps(c1); }
    if c.runstate == 5 { VerifyKeeps(c1.(retry := c1.retry + 1)); }
    if c.runstate == 8 {
      VerifyKeeps(c1.(retry := c1.retry + 1));
      VerifyKeeps(Enter(c1.(retry := 0, transaction := rnd), 8));
    }
  }

  lemma BitsPositive(has: set<Octet>)
    requires MIN_OPTIONS <= has
    ensures Bits(has) > 0
  {
    assert 51 in has;
  }

  lemma RecvKeeps(c: Client, m: Message, mac: Mac)
    requires Inv(c) && m.Whole()
    ensures Inv(Recv(c, m, mac))
  {
    var s := Check(NOTHING, m.Options());
    if s.Some? && MIN_OPTIONS <= s.value.has { BitsPositive(s.value.has); }
  }

  datatype Event = Ticked(rnd: nat) | Came(m: Message)

  predicate Possible(e: Event) { e.Came? ==> e.m.Whole() }

  predicate Sized(c: Client) { |c.offers| == MAX_OFFERS && c.count <= MAX_OFFERS }

  function Step(c: Client, e: Event, mac: Mac): (r: Client)
    requires Possible(e) && Sized(c)
    ensures Sized(r)
  {
    match e
    case Ticked(rnd) => Tick(c, rnd).0
    case Came(m) => Recv(c, m, mac)
  }

  predicate AllPossible(events: seq<Event>) { forall i :: 0 <= i < |events| ==> Possible(events[i]) }

  function Run(c: Client, events: seq<Event>, mac: Mac): (r: Client)
    requires AllPossible(events) && Sized(c)
    ensures Sized(r)
    decreases |events|
  {
    if events == [] then c else Step(Run(c, events[..|events| - 1], mac), events[|events| - 1], mac)
  }

  lemma StepKeeps(c: Client, e: Event, mac: Mac)
    requires Possible(e) && Inv(c)
    ensures Inv(Step(c, e, mac))
  {
    match e
    case Ticked(rnd) => TickKeeps(c, rnd);
    case Came(m) => RecvKeeps(c, m, mac);
  }

  lemma {:induction false} RunKeeps(c: Client, events: seq<Event>, mac: Mac)
    requires AllPossible(events) && Inv(c)
    ensures Inv(Run(c, events, mac))
    decreases |events|
  {
    if events != [] {
      RunKeeps(c, events[..|events| - 1], mac);
      StepKeeps(Run(c, events[..|events| - 1], mac), events[|events| - 1], mac);
    }
  }

  /** Whatever ticks and messages follow the start, in whatever order, the invariant holds. */
  lemma ReachableClients(events: seq<Event>, mac: Mac)
    requires AllPossible(events)
    ensures Inv(Run(Enter(FRESH, 1), events, mac))
  {
    RunKeeps(Enter(FRESH, 1), events, mac);
  }

  // ----- What a message does -----

  ghost predicate Says(m: Message, kind: Octet)
    requires m.Whole()
  {
    Data(m.Options(), 53) == Some([kind])
  }

  /** One more offer is kept, and nothing else changes. */
  ghost predicate Keeps(c: Client, o: Offer, r: Client) {
    c.count < |c.offers| && r == c.(offers := c.offers[c.count := Some(o)], count := c.count + 1)
  }

  /** Back at the start: lease, address and offers are gone, and the clocks begin anew. */
  ghost predicate Restarted(c: Client, r: Client) {
    && r.runstate == 1 && r.lease == NO_ADDR && r.system == NO_ADDR && r.count == 0
    && (forall i :: 0 <= i < |r.offers| ==> r.offers[i] == None)
    && r.runtime == 0 && r.subtime == 0
  }

  /** The lease in message `m` with fields `h` is taken up. */
  ghost predicate TakesUp(c: Client, m: Message, h: Bootp, r: Client)
    requires m.Whole()
  {
    && r.runstate == 6 && r.lease == h.yiaddr && r.system == h.yiaddr && r.serv == Server(m) && r.count == 0
    && r.leaseTime == LeaseTime(m) && r.t1 == LeaseTime(m) / 2 && r.t2 == LeaseTime(m) / 8
    && (r.runtime, r.subtime) == (c.runtime, c.subtime) && r.timeout == (c.runtime + 30) % LIMIT32
  }

  /** An accepted OFFER is kept while the client waits for offers and has room; an accepted NAK takes it back to
      the start, and an accepted ACK gives it the lease in it, while it waits for one or renews; any other message
      changes nothing. */
  lemma MessageExact(c: Client, m: Message, h: Bootp, mac: Mac)
    requires Inv(c) && Carries(m, h)
    ensures var r := Recv(c, m, mac);
      if !Accepted(m, h, c.transaction, mac) then r == c
      else if c.runstate == 3 && c.count < MAX_OFFERS && Says(m, OFFER) then
        Keeps(c, Offer(h.yiaddr, Server(m), Bits(Codes(m))), r)
      else if c.runstate in {5, 8} && Says(m, NAK) then Restarted(c, r)
      else if c.runstate in {5, 8} && Says(m, ACK) then TakesUp(c, m, h, r)
      else r == c
  {
    AcceptedIff(m, h, c.transaction, mac);
    hide Accepted, Message.ForUs, Check, Data, Codes, Server, Bits, Message.Options;
    if Accepted(m, h, c.transaction, mac) {
      FieldsAt(m, h);
      AcceptedSetsAll(m.Options());
      TimeRead(m);
      Kinds(m, Check(NOTHING, m.Options()).value.mtype);
    }
  }

  lemma Kinds(m: Message, kind: Octet)
    requires m.Whole() && match Data(m.Options(), 53) case None => kind == 0 case Some(d) => d == [kind]
    ensures kind != 0 ==> Says(m, kind)
    ensures forall k :: Says(m, k) ==> k == kind
  {
    forall k: Octet | Says(m, k) ensures k == kind { assert Data(m.Options(), 53).value[0] == k; }
  }

  lemma TimeRead(m: Message)
    requires m.Whole() && Leading(m.Options(), 51).Some?
    ensures Number(Leading(m.Options(), 51).value) == LeaseTime(m)
  {
  }

  // ----- Giving up a lease -----

  /** Ticks from entering state 8 with `k` seconds of lease left: sixteen for every second but the
      last, for the client stays in a second until its retries have run out. */
  function Renewal(k: nat): nat { if k == 0 then 1 else 16 * (k - 1) + 10 }

  /** A lease that time will end: held (6, 7), in renewal (8), or between two tries there. */
  predicate Ending(c: Client) {
    && Sized(c) && c.lease != NO_ADDR && c.count == 0 && c.subtime < 10 && c.leaseTime < FOREVER
    && if c.runstate == 8 then
         && c.timeout == 1
         && (c.runtime == 1 ==> 1 <= c.retry <= 6 && c.subtime == c.retry - 1 && c.leaseTime > 0)
         && (c.runtime != 1 ==> c.runtime == 0 && c.retry == 0)
       else c.runstate in {6, 7} && 1 <= c.t1 <= c.leaseTime
  }

  /** The tick that ends it. */
  function TicksLeft(c: Client): (n: nat)
    requires Ending(c)
    ensures n > 0
  {
    if c.runstate != 8 then 10 * (c.leaseTime - c.t1 + 1) - c.subtime + Renewal(c.t1 - 1)
    else if c.runtime == 1 then 7 - c.retry + Renewal(c.leaseTime)
    else if c.leaseTime == 0 then 1
    else 10 - c.subtime + if c.leaseTime == 1 then 0 else 6 + Renewal(c.leaseTime - 1)
  }

  /** One tick brings the end one tick nearer. */
  predicate Nearer(c: Client, r: Client)
    requires Ending(c)
  {
    if TicksLeft(c) == 1 then r.runstate == 1 && r.lease == NO_ADDR
    else Ending(r) && r.lease == c.lease && TicksLeft(r) == TicksLeft(c) - 1
  }

  lemma HeldCountsDown(c: Client, rnd: nat)
    requires Ending(c) && c.runstate != 8
    ensures Nearer(c, Tick(c, rnd).0)
  {
    hide Verified, Renewed, Best;
    assert Pow2(0) == 1;
    if c.subtime < 9 { assert Clock(c) == c.(subtime := c.subtime + 1); }
  }

  lemma RenewalCountsDown(c: Client, rnd: nat)
    requires Ending(c) && c.runstate == 8
    ensures Nearer(c, Tick(c, rnd).0)
  {
    hide Best;
    assert Pow2(0) == 1;
    if c.subtime < 9 { assert Clock(c) == c.(subtime := c.subtime + 1); }
  }

  /** Every message in the run is one that changes nothing. */
  predicate Quiet(c: Client, events: seq<Event>, mac: Mac)
    requires AllPossible(events) && Sized(c)
    decreases |events|
  {
    events != [] ==>
      var k := |events| - 1;
      && Quiet(c, events[..k], mac)
      && (events[k].Came? ==> Run(c, events, mac) == Run(c, events[..k], mac))
  }

  function Ticks(events: seq<Event>): nat
    decreases |events|
  {
    if events == [] then 0
    else Ticks(events[..|events| - 1]) + if events[|events| - 1].Ticked? then 1 else 0
  }

  /** With no further message accepted, a lease is held up to its last tick, and given up with it. */
  lemma {:induction false} LeaseEnds(c: Client, events: seq<Event>, mac: Mac)
    requires AllPossible(events) && Ending(c) && Quiet(c, events, mac) && Ticks(events) <= TicksLeft(c)
    ensures var r := Run(c, events, mac);
      if Ticks(events) < TicksLeft(c) then
        Ending(r) && r.lease == c.lease && TicksLeft(r) == TicksLeft(c) - Ticks(events)
      else r.runstate == 1 && r.lease == NO_ADDR
    decreases |events|
  {
    assert Sized(c);
    hide Tick, TicksLeft, Ending, Recv, Possible;
    if events != [] {
      var k := |events| - 1;
      LeaseEnds(c, events[..k], mac);
      var c1 := Run(c, events[..k], mac);
      if events[k].Ticked? { CountsDown(c1, events[k].rnd); }
    }
  }

  lemma CountsDown(c: Client, rnd: nat)
    requires Ending(c)
    ensures Nearer(c, Tick(c, rnd).0)
  {
    hide Tick;
    if c.runstate == 8 { RenewalCountsDown(c, rnd); } else { HeldCountsDown(c, rnd); }
  }

  /** A lease of `time` seconds taken up at a nonzero address ends within `16 * time` ticks, unless it is
      for ever or for less than two seconds. */
  lemma LeaseBound(c: Client, yip: Addr, sid: Addr, time: nat)
    requires Inv(c) && yip != NO_ADDR && 2 <= time < FOREVER
    ensures var r := Leased(c, yip, sid, time); Ending(r) && TicksLeft(r) <= 16 * time
  {
  }

  /** Held with no time at which to renew. */
  predicate Endless(c: Client) {
    && Sized(c) && c.lease != NO_ADDR && c.runstate in {6, 7} && c.subtime < 10
    && (c.t1 == 0 || (c.leaseTime == FOREVER && c.t1 <= FOREVER))
  }

  lemma {:induction false} LeaseStays(c: Client, events: seq<Event>, mac: Mac)
    requires AllPossible(events) && Endless(c) && Quiet(c, events, mac)
    ensures Endless(Run(c, events, mac)) && Run(c, events, mac).lease == c.lease
    decreases |events|
  {
    if events != [] {
      LeaseStays(c, events[..|events| - 1], mac);
      hide Verified, Renewed, Recv;
    }
  }

  /** A run in which the lease is given up by time alone. */
  ghost predicate GivesUp(c: Client, events: seq<Event>, mac: Mac)
    requires Sized(c)
  {
    AllPossible(events) && Quiet(c, events, mac) && Run(c, events, mac).lease == NO_ADDR
  }

  lemma {:induction false} OnlyTicks(c: Client, n: nat, mac: Mac) returns (events: seq<Event>)
    requires Sized(c)
    ensures AllPossible(events) && Quiet(c, events, mac) && Ticks(events) == n
    decreases n
  {
    if n == 0 {
      events := [];
    } else {
      var before := OnlyTicks(c, n - 1, mac);
      events := before + [Ticked(0)];
      assert events[..|events| - 1] == before;
    }
  }

  /** A lease is ever given up by time alone exactly when it is for at least two seconds and not for
      ever: the client does not give up leases of 0 and 1 seconds. */
  lemma GivenUpIff(c: Client, yip: Addr, sid: Addr, time: nat, mac: Mac)
    requires Inv(c) && yip != NO_ADDR && time <= FOREVER
    ensures (exists events :: GivesUp(Leased(c, yip, sid, time), events, mac)) <==> 2 <= time < FOREVER
  {
    var r := Leased(c, yip, sid, time);
    if 2 <= time < FOREVER {
      LeaseBound(c, yip, sid, time);
      var events := OnlyTicks(r, TicksLeft(r), mac);
      LeaseEnds(r, events, mac);
      assert GivesUp(r, events, mac);
    } else {
      forall events ensures !GivesUp(r, events, mac) {
        if AllPossible(events) && Quiet(r, events, mac) { LeaseStays(r, events, mac); }
      }
    }
  }

  // ----- The client in place -----

  class DhcpClient {
    const arp: ArpLayer
    const mac: Mac
    const offers: array<Option<Offer>>
    var transaction: nat
    var runtime: nat
    var subtime: nat
    var runstate: nat
    var timeout: nat
    var retry: nat
    var count: nat
    var lease: Addr
    var serv: Addr
    var leaseTime: nat
    var t1: nat
    var t2: nat

    ghost predicate Valid()
      reads this
    {
      offers.Length == MAX_OFFERS && count <= MAX_OFFERS
    }

    ghost function State(): (c: Client)
      reads this, offers, arp
      ensures Valid() ==> Sized(c)
    {
      Client(transaction, runtime, subtime, runstate, timeout, retry, offers[..], count,
             lease, serv, leaseTime, t1, t2, arp.system)
    }

    constructor (layer: ArpLayer, address: Mac)
      requires layer.system == NO_ADDR
      ensures Valid() && arp == layer && mac == address && fresh(offers) && State() == FRESH
    {
      arp, mac := layer, address;
      offers := new Option<Offer>[MAX_OFFERS](i => None);
      transaction, runtime, subtime, runstate, timeout, retry, count := 0, 0, 0, 0, 0, 0, 0;
      lease, serv, leaseTime, t1, t2 := NO_ADDR, NO_ADDR, 0, 0, 0;
      new;
      assert offers[..] == NO_OFFERS;
    }

    method Start()
      requires Valid()
      modifies this, offers, arp
      ensures Valid() && State() == Enter(old(State()), 1)
    {
      EnterState(1);
    }

    method ClearOffers()
      requires Valid()
      modifies offers, `count
      ensures Valid() && State() == Cleared(old(State()))
    {
      var i := 0;
      while i < MAX_OFFERS
        invariant i <= MAX_OFFERS && offers[..i] == NO_OFFERS[..i] && count == old(count)
      {
        offers[i] := None;
        i := i + 1;
      }
      assert offers[..] == NO_OFFERS;
      count := 0;
    }

    /** `state`. */
    method EnterState(s: nat)
      requires Valid()
      modifies this, offers, arp
      ensures Valid() && State() == Enter(old(State()), s)
    {
      runstate := s;
      if s == 4 { timeout := 300; }
      if s == 4 || s == 1 {
        Restart();
      } else if s == 2 {
        subtime, runtime := 0, 0;
      } else if s == 3 || s == 5 {
        timeout := Wrap(runtime + 5);
      } else if s == 6 {
        timeout := Wrap(runtime + 30);
      } else if s == 8 {
        runtime, subtime, timeout := 0, 0, Wrap(Pow2(retry));
      }
      if s == 0 || s == 1 || s == 2 || s == 4 { ClearOffers(); }
    }

    /** Clocks and lease cleared, for a start from nothing. */
    method Restart()
      requires Valid()
      modifies `subtime, `runtime, `lease, arp
      ensures State() == old(State()).(subtime := 0, runtime := 0, lease := NO_ADDR, system := NO_ADDR)
    {
      subtime, runtime, lease := 0, 0, NO_ADDR;
      arp.AssignIp4(NO_ADDR, mac);
    }

    /** `verify`. */
    method Verify() returns (out: Send)
      requires Valid()
      modifies this, offers, arp
      ensures Valid() && (State(), out) == Verified(old(State()))
    {
      if count == 0 {
        if lease == NO_ADDR {
          retry := retry + 1;
          EnterState(if retry > 6 then 0 else 2);
          return Nothing;
        }
        return Request(lease, None, if leaseTime <= t2 then None else Some(serv));
      }
      var best: Option<Offer>, selected, i := None, 0, 0;
      while i < count
        invariant i <= count && best == Best(offers[..], i)
        invariant selected == match best case None => 0 case Some(o) => o.has
      {
        var offer := offers[i];
        if offer.Some? && offer.value.has > selected { best, selected := offer, offer.value.has; }
        i := i + 1;
      }
      out := if best.Some? then Request(best.value.yip, Some(best.value.sid), None) else Nothing;
      EnterState(5);
    }

    /** The clock of `run`. */
    method Advance()
      requires Valid()
      modifies `subtime, `runtime, `leaseTime
      ensures Valid() && State() == Clock(old(State()))
    {
      subtime := Wrap(subtime + 1);
      if subtime >= 10 {
        runtime := Wrap(runtime + 1);
        subtime := 0;
        if leaseTime != 0 && leaseTime != FOREVER { leaseTime := leaseTime - 1; }
      }
    }

    /** States 6 and 7. */
    method HoldLease(rnd: nat)
      requires Valid()
      modifies this, offers, arp
      ensures Valid() && State() == Renew(old(State()), rnd)
    {
      if leaseTime < t1 {
        retry, transaction := 0, rnd;
        EnterState(8);
      }
    }

    /** State 8. */
    method RenewLease(rnd: nat) returns (out: Send)
      requires Valid() && runstate == 8
      modifies this, offers, arp
      ensures Valid() && (State(), out) == Renewed(old(State()), rnd)
    {
      out := Nothing;
      if leaseTime == 0 {
        EnterState(1);
      } else if runtime >= timeout {
        retry := retry + 1;
        if retry > 6 {
          retry, transaction := 0, rnd;
          EnterState(8);
        }
        out := Verify();
      }
    }

    /** `run`. */
    method Run(rnd: nat) returns (out: Send)
      requires Valid()
      modifies this, offers, arp
      ensures Valid() && (State(), out) == Tick(old(State()), rnd)
    {
      hide Enter, Verified, Renewed, Renew, Clock;
      out := Nothing;
      Advance();
      match runstate
      case 1 =>
        if runtime > 10 {
          EnterState(2);
          transaction, retry := rnd, 0;
        }
      case 2 =>
        out := Discover;
        EnterState(3);
      case 3 =>
        if runtime >= timeout { out := Verify(); }
      case 4 =>
        if runtime > timeout { EnterState(1); }
      case 5 =>
        if runtime >= timeout {
          retry := retry + 1;
          if retry > 6 {
            EnterState(1);
          } else {
            out := Verify();
          }
        }
      case 6 =>
        if runtime >= timeout { EnterState(7); }
        HoldLease(rnd);
      case 7 => HoldLease(rnd);
      case 8 => out := RenewLease(rnd);
      case _ =>
    }

    /** `recv`. */
    method Receive(m: Message)
      requires Valid() && m.Whole()
      modifies this, offers, arp
      ensures Valid() && State() == Recv(old(State()), m, mac)
    {
      if !m.ForUs(transaction, mac) { return; }
      var seen := Scan(m.buf, m.ofs + 240, m.ofs + m.len);
      if seen.None? || !(MIN_OPTIONS <= seen.value.has) { return; }
      var s := seen.value;
      if runstate == 3 && s.mtype != OFFER { return; }
      if (runstate == 5 || runstate == 8) && s.mtype == NAK {
        EnterState(1);
        return;
      }
      if (runstate == 5 || runstate == 8) && s.mtype != ACK { return; }
      if runstate == 3 {
        if count < MAX_OFFERS {
          offers[count] := Some(Offer(m.AddrAt(16), Sid(s), Bits(s.has)));
          count := count + 1;
        }
      } else if runstate == 5 || runstate == 8 {
        AcceptedSetsAll(m.Options());
        var settings := Settle(m.buf, m.ofs + 240, m.ofs + m.len);
        TakeLease(m.AddrAt(16), Sid(s), settings.lease.value);
      }
    }

    method TakeLease(yip: Addr, sid: Addr, time: nat)
      requires Valid()
      modifies this, offers, arp
      ensures Valid() && State() == Leased(old(State()), yip, sid, time)
    {
      ClearOffers();
      lease, serv, leaseTime := yip, sid, time;
      t1, t2 := leaseTime / 2, leaseTime / 8;
      arp.AssignIp4(yip, mac);
      EnterState(6);
    }
  }
}
