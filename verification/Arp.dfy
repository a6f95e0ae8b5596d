/** The ARP table (kernel/net/queue.cpp): which link address belongs to an IP address. */
module Arp {
  import opened Wrappers

  type Addr = s: seq<Octet> | |s| == 4 witness [0, 0, 0, 0]
  type Mac = s: seq<Octet> | |s| == 6 witness [0, 0, 0, 0, 0, 0]

  const NO_ADDR: Addr := [0, 0, 0, 0]
  const PRESENT := 0x1000
  const ASSIGNED := 0x1000 + 0x8000 + 2

  /** `info` is a 16-bit field: a count, the bit PRESENT, and a status in the top three bits, the lowest
      of which is set when the link address is known. */
  datatype ArpEntry = ArpEntry(ip: Addr, lla: Mac, info: nat) {
    predicate Present() { info / PRESENT % 2 == 1 }
    predicate Known() { info / 0x2000 % 2 == 1 }
    predicate Active() { info / 0x2000 % 8 == 5 }
    predicate Is(p: Addr) { Present() && ip == p }
  }

  /** The entry for an address, or the size of the table. */
  function FindIp(table: seq<ArpEntry>, ip: Addr): (i: nat)
    ensures i <= |table| && (i < |table| ==> table[i].Is(ip))
    ensures forall j :: 0 <= j < i ==> !table[j].Is(ip)
  {
    if table == [] || table[0].Is(ip) then 0 else 1 + FindIp(table[1..], ip)
  }

  function FindAbsent(table: seq<ArpEntry>): (i: nat)
    ensures i <= |table| && (i < |table| ==> !table[i].Present())
    ensures forall j :: 0 <= j < i ==> table[j].Present()
  {
    if table == [] || !table[0].Present() then 0 else 1 + FindAbsent(table[1..])
  }

  const BLANK := ArpEntry(NO_ADDR, [0, 0, 0, 0, 0, 0], 0)

  /** `add`: the table with a slot to fill, and its number; `limit` if there is none. */
  function Add(table: seq<ArpEntry>, limit: nat): (r: (seq<ArpEntry>, nat)) {
    var i := FindAbsent(table);
    if i < |table| then (table[i := table[i].(info := 0)], i)
    else if |table| >= limit then (table, limit)
    else (table + [BLANK], i)
  }

  /** There is an entry for the address, or a slot for one. */
  predicate Room(table: seq<ArpEntry>, limit: nat, ip: Addr) {
    FindIp(table, ip) < |table| || FindAbsent(table) < |table| || |table| < limit
  }

  /** `assign_ip4`: table and system address afterwards. Without room the source would write outside
      the table; that is left out here. */
  function Assign(table: seq<ArpEntry>, limit: nat, system: Addr, ip: Addr, mac: Mac): (seq<ArpEntry>, Addr) {
    if ip == system then (table, system)
    else
      var f := FindIp(table, ip);
      var (t, i) := if f < |table| then (table, f) else Add(table, limit);
      if i >= |t| then (t, ip)
      else
        var e := if t[i].Active() then t[i] else t[i].(info := ASSIGNED, lla := mac);
        (t[i := e.(ip := ip)], ip)
  }

  /** The system address is the one assigned, and while there is room it can be found. */
  lemma AssignFinds(table: seq<ArpEntry>, limit: nat, system: Addr, ip: Addr, mac: Mac)
    requires Room(table, limit, ip) && ip != system
    ensures var (t, s) := Assign(table, limit, system, ip, mac); s == ip && FindIp(t, ip) < |t|
  {
    var (t, s) := Assign(table, limit, system, ip, mac);
    var f := FindIp(table, ip);
    var i := if f < |table| then f else FindAbsent(table);
    assert t[i].Is(ip);
  }

  /** The entries of all other addresses stay where they are. */
  lemma AssignKeepsOthers(table: seq<ArpEntry>, limit: nat, system: Addr, ip: Addr, mac: Mac, other: Addr)
    requires other != ip && |table| <= limit
    ensures var t := Assign(table, limit, system, ip, mac).0;
      var i := FindIp(table, other);
      if i < |table| then i < |t| && FindIp(t, other) == i && t[i] == table[i] else FindIp(t, other) == |t|
  {
    var t := Assign(table, limit, system, ip, mac).0;
    var i, j := FindIp(table, other), FindIp(t, other);
    assert |t| >= |table| && forall k :: 0 <= k < |table| ==> (table[k].Is(other) <==> t[k].Is(other));
    assert |t| > |table| ==> !t[|table|].Is(other);
    if i < |table| { assert t[i].Is(other); }
    if j < |t| { assert t[j].Is(other); }
  }

  class ArpLayer {
    const limit: nat
    var table: seq<ArpEntry>
    var system: Addr

    constructor (n: nat)
      ensures limit == n && table == [] && system == NO_ADDR
    {
      limit, table, system := n, [], NO_ADDR;
    }

    method Find(ip: Addr) returns (i: nat)
      ensures i == FindIp(table, ip)
    {
      i := 0;
      while i < |table| && !table[i].Is(ip)
        invariant i <= |table| && i + FindIp(table[i..], ip) == FindIp(table, ip)
      {
        assert table[i..][1..] == table[i + 1..];
        i := i + 1;
      }
    }

    method AddSlot() returns (i: nat)
      modifies `table
      ensures (table, i) == Add(old(table), limit)
    {
      i := 0;
      while i < |table| && table[i].Present()
        invariant i <= |table| && i + FindAbsent(table[i..]) == FindAbsent(table)
      {
        assert table[i..][1..] == table[i + 1..];
        i := i + 1;
      }
      if i < |table| {
        table := table[i := table[i].(info := 0)];
      } else if |table| >= limit {
        i := limit;
      } else {
        table := table + [BLANK];
      }
    }

    method AssignIp4(ip: Addr, mac: Mac)
      modifies this
      ensures (table, system) == Assign(old(table), limit, old(system), ip, mac)
    {
      if ip == system { return; }
      var i := Find(ip);
      if i >= |table| { i := AddSlot(); }
      if i < |table| {
        var arp := table[i];
        if !arp.Active() { arp := arp.(info := ASSIGNED, lla := mac); }
        table := table[i := arp.(ip := ip)];
      }
      system := ip;
    }
  }
}
