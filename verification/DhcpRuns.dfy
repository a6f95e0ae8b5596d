/** Runs of the DHCP client (kernel/net/queue.cpp): where its offers and its lease come from, what its requests
    name, and what it does while no one answers. */
module DhcpRuns {
  import opened Arp
  import opened DhcpClients
  import opened DhcpMessages
  import opened DhcpOptions
  import opened Wrappers

  const START := Enter(FRESH, 1)

  function After(events: seq<Event>, mac: Mac): (c: Client)
    requires AllPossible(events)
    ensures Sized(c)
  {
    Run(START, events, mac)
  }

  lemma AfterSnoc(events: seq<Event>, mac: Mac) returns (before: seq<Event>, e: Event)
    requires AllPossible(events) && events != []
    ensures before == events[..|events| - 1] && e == events[|events| - 1] && AllPossible(before) && Possible(e)
    ensures Inv(After(before, mac)) && Inv(After(events, mac)) && After(events, mac) == Step(After(before, mac), e, mac)
  {
    before, e := events[..|events| - 1], events[|events| - 1];
    ReachableClients(before, mac);
    ReachableClients(events, mac);
  }

  // ----- Where offers come from -----

  /** In state `c` message `e` is an OFFER that the client accepts, and `o` is its offer. */
  ghost predicate OfferIn(c: Client, e: Event, h: Bootp, mac: Mac, o: Offer) {
    && e.Came? && Carries(e.m, h) && c.runstate == 3 && Accepted(e.m, h, c.transaction, mac) && Says(e.m, OFFER)
    && o == Offer(h.yiaddr, Server(e.m), Bits(Codes(e.m)))
  }

  /** A tick leaves the offers and the transaction alone, or has done with them. */
  lemma TickOffers(c: Client, rnd: nat)
    requires Inv(c)
    ensures var r := Tick(c, rnd).0; r.count == 0 || (r.count == c.count && r.offers == c.offers && r.transaction == c.transaction)
  {
    hide Best;
  }

  /** Every offer kept came in a message: an OFFER accepted in state 3, in answer to the request still current. The
      address is the one that message offers, and the server the one it names. */
  lemma {:induction false} OfferCameIn(events: seq<Event>, mac: Mac, i: nat) returns (k: nat, h: Bootp)
    requires AllPossible(events) && i < After(events, mac).count
    ensures k < |events| && AllPossible(events[..k])
    ensures var c, b := After(events, mac), After(events[..k], mac);
      c.offers[i].Some? && OfferIn(b, events[k], h, mac, c.offers[i].value) && b.count == i && b.transaction == c.transaction
    decreases |events|
  {
    assert events != [];
    var before, e := AfterSnoc(events, mac);
    var b := After(before, mac);
    hide Recv, Tick, Inv, OfferIn;
    var known := i < b.count;
    if e.Ticked? {
      TickOffers(b, e.rnd);
    } else {
      h := HasFields(e.m);
      known := OffersStep(b, e, h, mac, i);
    }
    if known {
      k, h := OfferCameIn(before, mac, i);
      assert before[..k] == events[..k];
    } else {
      k := |before|;
    }
  }

  /** A message adds at most its own offer. */
  lemma OffersStep(c: Client, e: Event, h: Bootp, mac: Mac, i: nat) returns (known: bool)
    requires Inv(c) && e.Came? && Carries(e.m, h) && Inv(Recv(c, e.m, mac)) && i < Recv(c, e.m, mac).count
    ensures var r := Recv(c, e.m, mac);
      && r.transaction == c.transaction && r.offers[i].Some?
      && (known ==> i < c.count && r.offers[i] == c.offers[i])
      && (!known ==> i == c.count && OfferIn(c, e, h, mac, r.offers[i].value))
  {
    MessageExact(c, e.m, h, mac);
    hide Recv, Accepted, Data, Codes, Server, Bits;
    known := i < c.count;
  }

  /** Whether the options of `a` are preferred to those of `b`: the first that only one of them has, of router
      discovery, domain name, time servers and time offset, is in `a`. */
  predicate Preferred(a: set<Octet>, b: set<Octet>) {
    if (31 in a) != (31 in b) then 31 in a
    else if (15 in a) != (15 in b) then 15 in a
    else if (4 in a) != (4 in b) then 4 in a
    else 2 in a && 2 !in b
  }

  /** Every accepted message has the other options. */
  lemma MoreNotes(a: set<Octet>, b: set<Octet>)
    requires MIN_OPTIONS <= a && MIN_OPTIONS <= b
    ensures Bits(a) > Bits(b) <==> Preferred(a, b)
  {
    forall c | c in MIN_OPTIONS ensures c in a && c in b { }
    assert 51 in a && 1 in a && 3 in a && 6 in a && 54 in a;
  }

  lemma CodesComplete(m: Message)
    requires m.Whole() && Complete(m.Options())
    ensures MIN_OPTIONS <= Codes(m)
  {
  }

  // ----- Where the lease comes from -----

  /** In state `b` message `e` is an ACK that the client accepts, and `c` holds the lease in it. */
  ghost predicate LeaseIn(b: Client, e: Event, h: Bootp, mac: Mac, c: Client) {
    && e.Came? && Carries(e.m, h) && b.runstate in {5, 8} && Accepted(e.m, h, b.transaction, mac) && Says(e.m, ACK)
    && c.lease == h.yiaddr && c.serv == Server(e.m) && c.leaseTime <= LeaseTime(e.m)
    && c.t1 == LeaseTime(e.m) / 2 && c.t2 == LeaseTime(e.m) / 8
  }

  /** A tick leaves the lease alone but for the time left, or gives it up. */
  predicate SameLease(c: Client, r: Client) {
    (r.lease, r.serv, r.t1, r.t2) == (c.lease, c.serv, c.t1, c.t2) && r.leaseTime <= c.leaseTime
  }

  lemma TickLease(c: Client, rnd: nat)
    requires Inv(c)
    ensures var r := Tick(c, rnd).0; r.lease == NO_ADDR || SameLease(c, r)
  {
    hide Best;
  }

  lemma MessageLease(c: Client, e: Event, h: Bootp, mac: Mac) returns (known: bool)
    requires Inv(c) && e.Came? && Carries(e.m, h)
    ensures var r := Recv(c, e.m, mac); r.lease == NO_ADDR || (if known then SameLease(c, r) else LeaseIn(c, e, h, mac, r))
  {
    MessageExact(c, e.m, h, mac);
    hide Recv, Accepted, Data, Codes, Server, Bits, LeaseTime;
    known := c.runstate == 3 || SameLease(c, Recv(c, e.m, mac));
  }

  /** A lease held came in a message: an ACK accepted in state 5 or 8, which names its address, server and time. */
  lemma {:induction false} LeaseCameIn(events: seq<Event>, mac: Mac) returns (k: nat, h: Bootp)
    requires AllPossible(events) && After(events, mac).lease != NO_ADDR
    ensures k < |events| && AllPossible(events[..k])
    ensures LeaseIn(After(events[..k], mac), events[k], h, mac, After(events, mac))
    decreases |events|
  {
    hide Recv, Tick, Inv, LeaseIn, SameLease;
    assert events != [];
    var before, e := AfterSnoc(events, mac);
    var b, c := After(before, mac), After(events, mac);
    var known := true;
    if e.Ticked? {
      TickLease(b, e.rnd);
    } else {
      h := HasFields(e.m);
      known := MessageLease(b, e, h, mac);
    }
    if known {
      assert b.lease != NO_ADDR by { hide *; LeaseHeld(b, c); }
      k, h := LeaseCameIn(before, mac);
      assert before[..k] == events[..k];
      LeaseKept(After(events[..k], mac), events[k], h, mac, b, c);
    } else {
      k := |before|;
    }
  }

  lemma LeaseHeld(b: Client, c: Client)
    requires SameLease(b, c) && c.lease != NO_ADDR
    ensures b.lease != NO_ADDR
  {
  }

  lemma LeaseKept(b: Client, e: Event, h: Bootp, mac: Mac, c: Client, r: Client)
    requires LeaseIn(b, e, h, mac, c) && SameLease(c, r)
    ensures LeaseIn(b, e, h, mac, r)
  {
    hide Accepted, LeaseTime, Server, Says, Carries;
  }

  // ----- What requests name -----

  /** A tick sends a request only for the best of the offers kept, or to renew the lease held; the latter goes to the
      server while more than an eighth of the time is left, and to anyone after that. */
  lemma RequestExact(c: Client, rnd: nat)
    requires Inv(c)
    ensures var (r, out) := Tick(c, rnd);
      && (out.Request? && c.count > 0 ==> AsksFor(c, out) && r.runstate == 5)
      && (out.Request? && c.count == 0 ==>
            && c.lease != NO_ADDR && r.lease == c.lease
            && out == Request(c.lease, None, if r.leaseTime <= c.t2 then None else Some(c.serv)))
  {
    var c1 := Clock(c);
    assert Inv(c1);
    hide Best;
    if c.runstate == 3 { VerifyKeeps(c1); }
    if c.runstate == 5 { VerifyKeeps(c1.(retry := c1.retry + 1)); }
  }

  /** A request for an offer, in any run, names address and server of an OFFER accepted in it. */
  lemma RequestNamesOffer(events: seq<Event>, mac: Mac, rnd: nat) returns (k: nat, h: Bootp)
    requires AllPossible(events) && After(events, mac).count > 0 && Tick(After(events, mac), rnd).1.Request?
    ensures k < |events| && AllPossible(events[..k]) && events[k].Came? && Carries(events[k].m, h)
    ensures var m, b := events[k].m, After(events[..k], mac);
      && b.runstate == 3 && Accepted(m, h, b.transaction, mac) && Says(m, OFFER)
      && Tick(After(events, mac), rnd).1 == Request(h.yiaddr, Some(Server(m)), None)
  {
    hide Tick, Accepted, Says, Server, Inv;
    var c := After(events, mac);
    ReachableClients(events, mac);
    RequestExact(c, rnd);
    var out := Tick(c, rnd).1;
    var i := Asked(c, out);
    k, h := OfferCameIn(events, mac, i);
  }

  lemma Asked(c: Client, out: Send) returns (i: nat)
    requires Inv(c) && AsksFor(c, out)
    ensures i < c.count && c.offers[i].Some? && out == Request(c.offers[i].value.yip, Some(c.offers[i].value.sid), None)
  {
    i :| 0 <= i < c.count && out == Request(c.offers[i].value.yip, Some(c.offers[i].value.sid), None);
  }

  /** A request to renew names the address of an ACK accepted in the run; it goes to the server of that ACK while more
      than an eighth of its time is left. */
  lemma RenewalNamesLease(events: seq<Event>, mac: Mac, rnd: nat) returns (k: nat, h: Bootp)
    requires AllPossible(events) && After(events, mac).count == 0 && Tick(After(events, mac), rnd).1.Request?
    ensures k < |events| && AllPossible(events[..k]) && events[k].Came? && Carries(events[k].m, h)
    ensures var m, b := events[k].m, After(events[..k], mac);
      && b.runstate in {5, 8} && Accepted(m, h, b.transaction, mac) && Says(m, ACK)
      && var (r, out) := Tick(After(events, mac), rnd);
        out == Request(h.yiaddr, None, if r.leaseTime <= LeaseTime(m) / 8 then None else Some(Server(m)))
  {
    hide Tick, Accepted, Says, Server, Inv, LeaseTime;
    ReachableClients(events, mac);
    RequestExact(After(events, mac), rnd);
    k, h := LeaseCameIn(events, mac);
  }

  // ----- While no one answers -----

  /** The clocks between two tries. */
  predicate Paced(c: Client) {
    && (c.runstate == 1 ==> c.runtime <= 10)
    && (c.runstate == 2 ==> c.runtime == 0 && c.subtime == 0 && c.retry <= 6)
    && (c.runstate == 3 ==> c.timeout == 5 && c.runtime < 5 && c.retry <= 6 && c.runtime + c.subtime > 0)
    && (c.runstate == 5 ==> c.retry <= 6 && c.runtime < c.timeout <= c.runtime + 5 && c.timeout <= 10 + 5 * c.retry)
  }

  /** The clock of a client that seeks. */
  lemma Clocked(c: Client) returns (c1: Client)
    requires Inv(c) && c.runtime < 100
    ensures c1 == Clock(c) && Inv(c1) && (c1.runstate, c1.count, c1.retry, c1.timeout) == (c.runstate, c.count, c.retry, c.timeout)
    ensures (c1.offers, c1.lease) == (c.offers, c.lease)
    ensures c1.subtime == (if c.subtime == 9 then 0 else c.subtime + 1) && c1.runtime == c.runtime + if c.subtime == 9 then 1 else 0
  {
    c1 := Clock(c);
  }

  lemma PacedElsewhere(c: Client, rnd: nat)
    requires Inv(c) && c.runstate in {0, 6, 7, 8}
    ensures Paced(Tick(c, rnd).0)
  {
    hide Best;
    assert Clock(c).runstate == c.runstate && Clock(c).count == 0;
    hide Clock;
    assert c.runstate == 8 ==> Paced(Renewed(Clock(c), rnd).0);
    hide Renewed, Verified;
  }

  lemma PacedKeeps(c: Client, rnd: nat)
    requires Inv(c) && Paced(c)
    ensures Paced(Tick(c, rnd).0)
  {
    if c.runstate in {0, 6, 7, 8} {
      PacedElsewhere(c, rnd);
    } else {
      var c1 := Clocked(c);
      hide Best, Inv, Clock, Renewed, Renew;
    }
  }

  lemma MessagePaced(c: Client, m: Message, mac: Mac)
    requires Inv(c) && m.Whole() && Paced(c)
    ensures Paced(Recv(c, m, mac))
  {
    var h := HasFields(m);
    MessageExact(c, m, h, mac);
    hide Recv, Accepted, Says, Carries;
  }

  lemma {:induction false} ReachablePaced(events: seq<Event>, mac: Mac)
    requires AllPossible(events)
    ensures Paced(After(events, mac))
    decreases |events|
  {
    if events != [] {
      var before, e := AfterSnoc(events, mac);
      hide Recv, Tick, Inv, Paced;
      ReachablePaced(before, mac);
      match e
      case Ticked(rnd) => PacedKeeps(After(before, mac), rnd);
      case Came(m) => MessagePaced(After(before, mac), m, mac);
    }
  }

  /** Looking for a server, or for the answer of one. */
  predicate Seeking(c: Client) { Inv(c) && Paced(c) && c.runstate in {1, 2, 3, 5} }

  /** Ticks until the client gives that up. */
  function Patience(c: Client): int {
    if c.runstate == 1 then 10 * (11 - c.runtime) - c.subtime + 350
    else if c.runstate == 2 then 50 * (7 - c.retry)
    else if c.runstate == 3 then 50 * (7 - c.retry) - (10 * c.runtime + c.subtime) + if c.count > 0 then 50 else 0
    else 10 * (c.timeout - c.runtime) - c.subtime + 50 * (6 - c.retry)
  }

  /** Packets it sends in that time. */
  function Tries(c: Client): int {
    if c.runstate == 1 then 7
    else if c.runstate == 2 || (c.runstate == 3 && c.count > 0) then 7 - c.retry
    else 6 - c.retry
  }

  /** With offers kept these are requests for the best of them, and without any they are DISCOVERs. */
  predicate IsTry(c: Client, out: Send)
    requires Inv(c)
  {
    if c.count > 0 then AsksFor(c, out) else out == Discover && c.runstate == 2
  }

  function Given(out: Send): nat { if out == Nothing then 0 else 1 }

  /** One tick of it: the end is one tick nearer. */
  predicate Counted(c: Client, r: Client, out: Send) {
    && Patience(c) > 0
    && if Patience(c) == 1 then r.runstate == (if c.count > 0 then 1 else 0) && Tries(c) == 0 && out == Nothing
       else r.runstate in {1, 2, 3, 5} && Patience(r) == Patience(c) - 1 && Tries(r) == Tries(c) - Given(out) && (r.count > 0 <==> c.count > 0)
  }

  lemma SeekStart(c: Client, rnd: nat)
    requires Seeking(c) && c.runstate in {1, 2}
    ensures var (r, out) := Tick(c, rnd); Counted(c, r, out) && (out != Nothing ==> IsTry(c, out))
  {
    hide Best, Verified, Renewed, Renew;
    if c.subtime < 9 { assert Clock(c) == c.(subtime := c.subtime + 1); }
  }

  /** `verify` as it ends a wait without and with offers. */
  lemma Verifies(c: Client)
    requires Inv(c) && c.runstate in {3, 5}
    ensures var (r, out) := Verified(c);
      && (c.count == 0 ==> out == Nothing && r.retry == c.retry + 1 && r.count == 0)
      && (c.count == 0 && c.retry < 6 ==> r.runstate == 2)
      && (c.count == 0 && c.retry >= 6 ==> r.runstate == 0)
      && (c.count > 0 ==> AsksFor(c, out) && r == c.(runstate := 5, timeout := Wrap(c.runtime + 5)))
  {
    VerifyKeeps(c);
    hide Best, AsksFor;
  }

  lemma SeekOffer(c: Client, rnd: nat)
    requires Seeking(c) && c.runstate == 3
    ensures var (r, out) := Tick(c, rnd); Counted(c, r, out) && (out != Nothing ==> IsTry(c, out))
  {
    var c1 := Clocked(c);
    hide Clock;
    Verifies(c1);
    hide Inv, Verified, Renewed, Renew;
  }

  lemma SeekAnswer(c: Client, rnd: nat)
    requires Seeking(c) && c.runstate == 5
    ensures var (r, out) := Tick(c, rnd); Counted(c, r, out) && (out != Nothing ==> IsTry(c, out))
  {
    hide Clock, Verified, Renewed, Renew, AsksFor;
    var c1 := Clocked(c);
    var c2 := c1.(retry := c1.retry + 1);
    assert Inv(c2) && c.count > 0;
    Verifies(c2);
    SameAsk(c, c2, Verified(c2).1);
  }

  lemma SameAsk(c: Client, c2: Client, out: Send)
    requires Inv(c) && Inv(c2) && (c2.offers, c2.count) == (c.offers, c.count) && AsksFor(c2, out)
    ensures AsksFor(c, out)
  {
  }

  lemma SeekStep(c: Client, rnd: nat)
    requires Seeking(c)
    ensures var (r, out) := Tick(c, rnd);
      Counted(c, r, out) && (out != Nothing ==> IsTry(c, out)) && (Patience(c) > 1 ==> Seeking(r))
  {
    hide Tick, Paced;
    TickKeeps(c, rnd);
    PacedKeeps(c, rnd);
    if c.runstate == 3 { SeekOffer(c, rnd); } else if c.runstate == 5 { SeekAnswer(c, rnd); } else { SeekStart(c, rnd); }
  }

  /** Packets sent in a run from `c`. */
  function Sent(c: Client, events: seq<Event>, mac: Mac): nat
    requires AllPossible(events) && Sized(c)
    decreases |events|
  {
    if events == [] then 0
    else
      var k := |events| - 1;
      Sent(c, events[..k], mac) + if events[k].Ticked? then Given(Tick(Run(c, events[..k], mac), events[k].rnd).1) else 0
  }

  /** After `n` ticks: patience and tries are used up alike, and at the end of patience the client shuts down, or starts
      anew if it had offers. */
  predicate Worn(c: Client, r: Client, n: nat, sent: nat) {
    if n < Patience(c) then
      && Seeking(r) && (r.count > 0 <==> c.count > 0)
      && Patience(r) == Patience(c) - n && sent == Tries(c) - Tries(r)
    else r.runstate == (if c.count > 0 then 1 else 0) && sent == Tries(c)
  }

  lemma WornStep(c: Client, r: Client, n: nat, sent: nat, rnd: nat)
    requires Worn(c, r, n, sent) && n < Patience(c)
    ensures Worn(c, Tick(r, rnd).0, n + 1, sent + Given(Tick(r, rnd).1))
  {
    hide Tick, Inv, Paced, Patience, Tries, IsTry;
    SeekStep(r, rnd);
  }

  /** With no message accepted, a client that seeks goes on up to its last tick and then gives up. By then it has sent
      exactly its tries. */
  lemma {:induction false} Unanswered(c: Client, events: seq<Event>, mac: Mac)
    requires AllPossible(events) && Seeking(c) && Quiet(c, events, mac) && Ticks(events) <= Patience(c)
    ensures Worn(c, Run(c, events, mac), Ticks(events), Sent(c, events, mac))
    decreases |events|
  {
    assert Sized(c);
    SeekStep(c, 0);
    hide Tick, Recv, Possible, Given, Worn, Patience;
    if events == [] {
      assert Worn(c, c, 0, 0) by { hide *; WornAtOnce(c); }
    } else {
      var k := |events| - 1;
      Unanswered(c, events[..k], mac);
      if events[k].Ticked? { WornStep(c, Run(c, events[..k], mac), Ticks(events[..k]), Sent(c, events[..k], mac), events[k].rnd); }
    }
  }

  lemma WornAtOnce(c: Client)
    requires Seeking(c)
    ensures Worn(c, c, 0, 0)
  {
    SeekStep(c, 0);
  }

  /** From the start that takes 460 ticks and 7 DISCOVERs, the first of them with tick 111. */
  lemma NoServer(events: seq<Event>, mac: Mac)
    requires AllPossible(events) && Quiet(START, events, mac)
    ensures Ticks(events) <= 110 ==> Sent(START, events, mac) == 0
    ensures Ticks(events) == 111 ==> Sent(START, events, mac) == 1
    ensures Ticks(events) == 460 ==> Sent(START, events, mac) == 7 && After(events, mac).runstate == 0
  {
    hide Tick, Recv, Possible;
    ReachableClients([], mac);
    assert Seeking(START) && Patience(START) == 460 && Tries(START) == 7;
    if Ticks(events) <= 460 { Unanswered(START, events, mac); }
    var r := After(events, mac);
    if Ticks(events) <= 111 {
      assert Patience(r) == 460 - Ticks(events) && Sent(START, events, mac) == 7 - Tries(r);
    }
  }

  /** A client shut down stays so. */
  lemma ShutDown(c: Client, e: Event, mac: Mac)
    requires Inv(c) && Possible(e) && c.runstate == 0
    ensures Step(c, e, mac).runstate == 0
  {
    if e.Came? {
      var h := HasFields(e.m);
      MessageExact(c, e.m, h, mac);
    }
  }
}
