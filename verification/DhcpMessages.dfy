/** DHCP messages as they stand in a packet (RFC 2131 section 2): the fields before the options, where
    `recv` of kernel/net/queue.cpp reads them, and which messages it acts on. */
module DhcpMessages {
  import opened Arp
  import opened DhcpOptions
  import opened Wrappers

  const LIMIT32 := 0x1_0000_0000

  /** A message: a packet, where its BOOTP part starts, and how long that is. */
  datatype Message = Message(buf: seq<Octet>, ofs: nat, len: nat) {
    /** Within the packet, with a byte after it. */
    predicate Whole() { ofs + len < |buf| && ofs + 240 < |buf| }

    function AddrAt(i: nat): Addr
      requires Whole() && i + 4 <= 240
    {
      buf[ofs + i..ofs + i + 4]
    }

    /** A reply over Ethernet to the request `xid` of `mac`, with the DHCP mark before its options. */
    predicate ForUs(xid: nat, mac: Mac)
      requires Whole()
    {
      && len >= 240 && Little(AddrAt(4)) == xid
      && buf[ofs..ofs + 3] == [2, 1, 6]
      && (buf[ofs + 10] == 0 || buf[ofs + 10] == 0x80) && buf[ofs + 11] == 0
      && buf[ofs + 28..ofs + 34] == mac
      && AddrAt(236) == [0x63, 0x82, 0x53, 0x63]
    }

    function Options(): seq<Opt>
      requires Whole()
    {
      Walk(buf, ofs + 240, ofs + len)
    }
  }

  /** The number of a 32-bit field as the machine reads it. */
  function Little(s: Addr): nat {
    ((s[3] as nat * 256 + s[2] as nat) * 256 + s[1] as nat) * 256 + s[0] as nat
  }

  // ----- The fields of a message -----

  const REQUEST: Octet := 1
  const REPLY: Octet := 2
  const ETHERNET: Octet := 1
  const COOKIE: Addr := [0x63, 0x82, 0x53, 0x63]

  /** The fields before the options, in the order they are sent. */
  datatype Bootp = Bootp(
    op: Octet, htype: Octet, hlen: Octet, hops: Octet, xid: Addr, secs: seq<Octet>, flags: seq<Octet>,
    ciaddr: Addr, yiaddr: Addr, siaddr: Addr, giaddr: Addr,
    chaddr: Mac, padding: seq<Octet>, sname: seq<Octet>, file: seq<Octet>, cookie: Addr)
  {
    predicate Fits() { |secs| == |flags| == 2 && |padding| == 10 && |sname| == 64 && |file| == 128 }

    function Bytes(): (s: seq<Octet>)
      requires Fits()
      ensures |s| == 240
    {
      Front() + (chaddr + padding + sname + file + cookie)
    }

    function Front(): (s: seq<Octet>)
      requires Fits()
      ensures |s| == 28
    {
      [op, htype, hlen, hops] + xid + secs + flags + ciaddr + yiaddr + siaddr + giaddr
    }

    /** A reply to the request `number` of `mac`, with no flag set but that for broadcast. */
    predicate Answers(number: nat, mac: Mac) {
      && op == REPLY && htype == ETHERNET && hlen == 6 && chaddr == mac && cookie == COOKIE
      && (flags == [0, 0] || flags == [0x80, 0])
      && number == xid[0] as nat + 0x100 * xid[1] as nat + 0x1_0000 * xid[2] as nat + 0x100_0000 * xid[3] as nat
    }
  }

  /** Message `m` carries the fields `h`. */
  predicate Carries(m: Message, h: Bootp) { m.Whole() && h.Fits() && At(m.buf, m.ofs, h.Bytes()) }

  lemma Slice(buf: seq<Octet>, o: nat, n: nat, i: nat, j: nat)
    requires i <= j <= n && o + n <= |buf|
    ensures buf[o..o + n][i..j] == buf[o + i..o + j]
  {
    var s, a, b := buf[o..o + n], buf[o..o + n][i..j], buf[o + i..o + j];
    assert |a| == |b|;
    assert forall k :: 0 <= k < |a| ==> a[k] == s[i + k] == b[k];
  }

  lemma Joined(s: seq<Octet>, i: nat, j: nat)
    requires i <= j <= |s|
    ensures s[..i] + s[i..j] == s[..j]
  {
  }

  /** Every message carries some fields. */
  lemma HasFields(m: Message) returns (h: Bootp)
    requires m.Whole()
    ensures Carries(m, h)
  {
    var b: seq<Octet> := m.buf[m.ofs..m.ofs + 240];
    h := Bootp(b[0], b[1], b[2], b[3], m.AddrAt(4), b[8..10], b[10..12], m.AddrAt(12), m.AddrAt(16), m.AddrAt(20),
               m.AddrAt(24), m.buf[m.ofs + 28..m.ofs + 34], b[34..44], b[44..108], b[108..236], m.AddrAt(236));
    assert h.Front() == b[..28] by { FrontOf(m, h, b); }
    assert h.chaddr + h.padding + h.sname + h.file + h.cookie == b[28..] by { BackOf(m, h, b); }
    assert h.Bytes() == b[..28] + b[28..] == b;
  }

  lemma FrontOf(m: Message, h: Bootp, b: seq<Octet>)
    requires m.Whole() && b == m.buf[m.ofs..m.ofs + 240] && h.Fits()
    requires [h.op, h.htype, h.hlen, h.hops] == b[..4] && h.xid == m.AddrAt(4) && h.secs == b[8..10] && h.flags == b[10..12]
    requires h.ciaddr == m.AddrAt(12) && h.yiaddr == m.AddrAt(16) && h.siaddr == m.AddrAt(20) && h.giaddr == m.AddrAt(24)
    ensures h.Front() == b[..28]
  {
    forall i: nat | i <= 236 ensures m.AddrAt(i) == b[i..i + 4] { Slice(m.buf, m.ofs, 240, i, i + 4); }
    Joined(b, 4, 8);
    Joined(b, 8, 10);
    Joined(b, 10, 12);
    Joined(b, 12, 16);
    Joined(b, 16, 20);
    Joined(b, 20, 24);
    Joined(b, 24, 28);
  }

  lemma BackOf(m: Message, h: Bootp, b: seq<Octet>)
    requires m.Whole() && b == m.buf[m.ofs..m.ofs + 240]
    requires h.chaddr == m.buf[m.ofs + 28..m.ofs + 34] && h.padding == b[34..44] && h.sname == b[44..108]
    requires h.file == b[108..236] && h.cookie == m.AddrAt(236)
    ensures h.chaddr + h.padding + h.sname + h.file + h.cookie == b[28..]
  {
    Slice(m.buf, m.ofs, 240, 28, 34);
    Slice(m.buf, m.ofs, 240, 236, 240);
    var s := b[28..];
    assert b[28..34] == s[..6] && b[34..44] == s[6..16] && b[44..108] == s[16..80] && b[108..236] == s[80..208];
    assert b[236..240] == s[208..212] && s[..212] == s;
    Joined(s, 6, 16);
    Joined(s, 16, 80);
    Joined(s, 80, 208);
    Joined(s, 208, 212);
  }

  /** The fields the client looks at, where it looks for them. */
  lemma FieldsAt(m: Message, h: Bootp)
    requires Carries(m, h)
    ensures m.buf[m.ofs..m.ofs + 3] == [h.op, h.htype, h.hlen] && m.AddrAt(4) == h.xid
    ensures [m.buf[m.ofs + 10], m.buf[m.ofs + 11]] == h.flags
    ensures m.AddrAt(16) == h.yiaddr && m.buf[m.ofs + 28..m.ofs + 34] == h.chaddr && m.AddrAt(236) == h.cookie
  {
    var s := h.Bytes();
    Early(h);
    Late(h);
    hide Bootp.Bytes, Bootp.Front;
    forall i: nat, j: nat | i <= j <= 240 ensures m.buf[m.ofs + i..m.ofs + j] == s[i..j] {
      Slice(m.buf, m.ofs, 240, i, j);
    }
    assert m.buf[m.ofs..m.ofs + 3] == m.buf[m.ofs + 0..m.ofs + 3] == s[0..3];
    assert m.buf[m.ofs + 10..m.ofs + 12] == [m.buf[m.ofs + 10], m.buf[m.ofs + 11]];
  }

  lemma Early(h: Bootp)
    requires h.Fits()
    ensures var s := h.Bytes(); s[0..3] == [h.op, h.htype, h.hlen] && s[4..8] == h.xid && s[10..12] == h.flags && s[16..20] == h.yiaddr
  {
  }

  lemma Late(h: Bootp)
    requires h.Fits()
    ensures var s := h.Bytes(); s[28..34] == h.chaddr && s[236..240] == h.cookie
  {
  }

  /** What makes a message one for this client. */
  lemma ForUsIff(m: Message, h: Bootp, xid: nat, mac: Mac)
    requires Carries(m, h)
    ensures m.ForUs(xid, mac) <==> m.len >= 240 && h.Answers(xid, mac)
  {
    hide Carries;
    FieldsAt(m, h);
    assert [h.op, h.htype, h.hlen] == [2, 1, 6] <==> h.op == 2 && h.htype == 1 && h.hlen == 6;
    assert h.flags == [h.flags[0], h.flags[1]];
  }

  // ----- Messages acted on -----

  /** Every option of a known code is as long as `recv` insists. */
  predicate WellSized(opts: seq<Opt>) {
    forall i :: 0 <= i < |opts| ==>
      var n := |opts[i].data|;
      && (opts[i].code in {1, 2, 51, 54} ==> n == 4)
      && (opts[i].code in {3, 4, 6} ==> n > 0 && n % 4 == 0)
      && (opts[i].code == 15 ==> n > 0)
      && (opts[i].code in {31, 53} ==> n == 1)
      && (opts[i].code == 53 ==> 2 <= opts[i].data[0] <= 8)
  }

  /** Netmask, router, name server, lease time and server are given. */
  predicate Complete(opts: seq<Opt>) {
    && Data(opts, 1).Some? && Data(opts, 3).Some? && Data(opts, 6).Some? && Data(opts, 51).Some? && Data(opts, 54).Some?
  }

  /** A message with fields `h` that the client of `mac` takes as an answer to its request `xid`. */
  predicate Accepted(m: Message, h: Bootp, xid: nat, mac: Mac) {
    Carries(m, h) && m.len >= 240 && h.Answers(xid, mac) && WellSized(m.Options()) && Complete(m.Options())
  }

  /** The server that sent it, and the lease time. */
  function Server(m: Message): (r: Addr)
    requires m.Whole()
  {
    match Data(m.Options(), 54)
    case None => NO_ADDR
    case Some(d) => if |d| == 4 then d else NO_ADDR
  }

  function LeaseTime(m: Message): (r: nat)
    requires m.Whole()
  {
    match Leading(m.Options(), 51)
    case None => 0
    case Some(d) => 0x100_0000 * d[0] as nat + 0x1_0000 * d[1] as nat + 0x100 * d[2] as nat + d[3] as nat
  }

  /** The codes noted among those it has. */
  function Codes(m: Message): set<Octet>
    requires m.Whole()
  {
    set c | c in NOTED && Data(m.Options(), c).Some?
  }

  lemma SizesAccepted(opts: seq<Opt>)
    ensures AllAcceptable(opts) <==> WellSized(opts)
  {
    forall i | 0 <= i < |opts| ensures Acceptable(opts[i]) <==> WellSized([opts[i]]) {
      assert [opts[i]][0] == opts[i];
    }
    if AllAcceptable(opts) {
      forall i | 0 <= i < |opts| ensures WellSized([opts[i]]) { assert Acceptable(opts[i]); }
      assert forall i :: 0 <= i < |opts| ==> [opts[i]][0] == opts[i];
    }
    if WellSized(opts) {
      forall i | 0 <= i < |opts| ensures Acceptable(opts[i]) { assert WellSized([opts[i]]); }
    }
  }

  /** The checks of `recv` pass exactly the accepted messages, and note the codes, the type and the server. */
  lemma AcceptedIff(m: Message, h: Bootp, xid: nat, mac: Mac)
    requires Carries(m, h)
    ensures var seen := Check(NOTHING, m.Options());
      && (m.ForUs(xid, mac) && seen.Some? && MIN_OPTIONS <= seen.value.has <==> Accepted(m, h, xid, mac))
      && (Accepted(m, h, xid, mac) ==>
            && seen.value.has == Codes(m) && seen.value.sid == Server(m)
            && match Data(m.Options(), 53) case None => seen.value.mtype == 0 case Some(d) => d == [seen.value.mtype])
  {
    ForUsIff(m, h, xid, mac);
    CheckedOptions(NOTHING, m.Options());
    SizesAccepted(m.Options());
    var seen := Check(NOTHING, m.Options());
    hide Bootp.Answers, Message.ForUs, Carries, Check, Data, AllAcceptable, WellSized;
    if seen.Some? {
      assert MIN_OPTIONS <= seen.value.has <==> Complete(m.Options()) by {
        assert Complete(m.Options()) ==> forall c :: c in MIN_OPTIONS ==> c in seen.value.has;
      }
      assert forall c :: c in seen.value.has <==> c in Codes(m);
    }
  }
}
