/** DHCP options (kernel/net/queue.cpp): the writer `OptionAdder` and the two walks of `recv` over the
    options of a message, against RFC 2132 section 2. */
module DhcpOptions {
  import opened Wrappers

  datatype Opt = Opt(code: Octet, data: seq<Octet>) {
    predicate Fits() { PAD < code < END && |data| <= 255 }

    function Bytes(): (s: seq<Octet>)
      requires Fits()
      ensures |s| == 2 + |data|
    {
      [code, |data| as Octet] + data
    }
  }

  const PAD: Octet := 0
  const END: Octet := 0xff

  // ----- Options as bytes -----

  /** Options that one code byte and one length byte can announce. */
  predicate Announced(opts: seq<Opt>) {
    forall i :: 0 <= i < |opts| ==> opts[i].Fits()
  }

  function Encode(opts: seq<Opt>): (s: seq<Octet>)
    requires Announced(opts)
    decreases |opts|
  {
    if opts == [] then []
    else var k := |opts| - 1; Encode(opts[..k]) + opts[k].Bytes()
  }

  /** The options that a walk over `buf` from `i` visits. It may read one byte past `eof`, for the
      length of an option whose code is the last byte. */
  function Walk(buf: seq<Octet>, i: nat, eof: nat): (r: seq<Opt>)
    requires eof < |buf|
    decreases eof - i
  {
    if i >= eof || buf[i] == END then []
    else if buf[i] == PAD then Walk(buf, i + 1, eof)
    else
      var n := buf[i + 1] as nat;
      if i + 2 + n > eof then [] else [Opt(buf[i], buf[i + 2..i + 2 + n])] + Walk(buf, i + 2 + n, eof)
  }

  /** One option at `i` is visited, and the walk goes on behind it. */
  lemma WalkOne(buf: seq<Octet>, i: nat, eof: nat, o: Opt)
    requires eof < |buf| && o.Fits() && At(buf, i, o.Bytes()) && i + 2 + |o.data| <= eof
    ensures Walk(buf, i, eof) == [o] + Walk(buf, i + 2 + |o.data|, eof)
  {
    AtParts(buf, i, [o.code, |o.data| as Octet], o.data);
    assert buf[i] == buf[i..i + 2][0] && buf[i + 1] == buf[i..i + 2][1];
  }

  lemma EncodeSnoc(front: seq<Opt>, o: Opt)
    requires Announced(front) && o.Fits()
    ensures Announced(front + [o]) && Encode(front + [o]) == Encode(front) + o.Bytes()
  {
    assert (front + [o])[..|front|] == front;
  }

  lemma {:induction false} EncodeCons(o: Opt, rest: seq<Opt>)
    requires Announced(rest) && o.Fits()
    ensures Announced([o] + rest) && Encode([o] + rest) == o.Bytes() + Encode(rest)
    decreases |rest|
  {
    if rest == [] {
      EncodeSnoc([], o);
      assert [o] + rest == [] + [o];
    } else {
      var front, z := rest[..|rest| - 1], rest[|rest| - 1];
      assert rest == front + [z] && Announced(front) && z.Fits();
      EncodeCons(o, front);
      EncodeLast(o, front, z);
    }
  }

  lemma EncodeLast(o: Opt, front: seq<Opt>, z: Opt)
    requires Announced(front) && o.Fits() && z.Fits()
    requires Announced([o] + front) && Encode([o] + front) == o.Bytes() + Encode(front)
    ensures Announced(front + [z]) && Announced([o] + (front + [z]))
    ensures Encode([o] + (front + [z])) == o.Bytes() + Encode(front + [z])
  {
    EncodeSnoc(front, z);
    EncodeSnoc([o] + front, z);
    hide Announced, Encode, Opt.Fits, Opt.Bytes;
    Regroup([o], front, [z]);
    Regroup(o.Bytes(), Encode(front), z.Bytes());
  }

  lemma WalkEnd(buf: seq<Octet>, i: nat, eof: nat)
    requires eof < |buf| && At(buf, i, Encode([]) + [END])
    ensures Walk(buf, i, eof) == []
  {
    assert Encode([]) + [END] == [END];
    assert buf[i] == buf[i..i + 1][0];
  }

  /** What is written is walked back: codes, lengths and data in order, up to the end mark. */
  lemma {:induction false} WalkEncoded(buf: seq<Octet>, i: nat, eof: nat, opts: seq<Opt>)
    requires Announced(opts) && eof < |buf|
    requires At(buf, i, Encode(opts) + [END]) && i + |Encode(opts)| + 1 <= eof
    ensures Walk(buf, i, eof) == opts
    decreases |opts|
  {
    hide Walk, Encode, At, Opt.Bytes;
    if opts == [] {
      WalkEnd(buf, i, eof);
    } else {
      var o, rest := opts[0], opts[1..];
      assert opts == [o] + rest && o.Fits() && Announced(rest);
      EncodeCons(o, rest);
      hide Announced, Opt.Fits;
      assert Encode(opts) + [END] == o.Bytes() + (Encode(rest) + [END]);
      AtParts(buf, i, o.Bytes(), Encode(rest) + [END]);
      WalkOne(buf, i, eof, o);
      WalkEncoded(buf, i + 2 + |o.data|, eof, rest);
    }
  }

  // ----- The first walk: is the message acceptable? -----

  /** Sizes that `recv` insists on, and message types it knows. */
  predicate Acceptable(o: Opt) {
    match o.code
    case 1 => |o.data| == 4
    case 2 => |o.data| == 4
    case 3 => |o.data| >= 4 && |o.data| % 4 == 0
    case 4 => |o.data| >= 4 && |o.data| % 4 == 0
    case 6 => |o.data| >= 4 && |o.data| % 4 == 0
    case 15 => |o.data| >= 1
    case 31 => |o.data| == 1
    case 51 => |o.data| == 4
    case 53 => |o.data| == 1 && 2 <= o.data[0] <= 8
    case 54 => |o.data| == 4
    case _ => true
  }

  const MIN_OPTIONS: set<Octet> := {51, 1, 3, 6, 54}
  const NOTED: set<Octet> := {1, 2, 3, 4, 6, 15, 31, 51, 54}

  /** The option codes noted, the message type (0 if none) and the server. */
  datatype Seen = Seen(has: set<Octet>, mtype: Octet, sid: seq<Octet>)

  const NOTHING := Seen({}, 0, [0, 0, 0, 0])

  function Note(s: Seen, o: Opt): Seen
    requires Acceptable(o)
  {
    var s1 := if o.code in NOTED then s.(has := s.has + {o.code}) else s;
    if o.code == 53 then s1.(mtype := o.data[0]) else if o.code == 54 then s1.(sid := o.data) else s1
  }

  /** The notes on a list of options, unless one of them is not acceptable. */
  function Check(s: Seen, opts: seq<Opt>): Option<Seen>
    decreases |opts|
  {
    if opts == [] then Some(s)
    else if !Acceptable(opts[0]) then None
    else Check(Note(s, opts[0]), opts[1..])
  }

  /** The data of the last option of a code. */
  function Data(opts: seq<Opt>, code: Octet): Option<seq<Octet>>
    decreases |opts|
  {
    if opts == [] then None
    else
      match Data(opts[1..], code)
      case Some(d) => Some(d)
      case None => if opts[0].code == code then Some(opts[0].data) else None
  }

  predicate AllAcceptable(opts: seq<Opt>) { forall i :: 0 <= i < |opts| ==> Acceptable(opts[i]) }

  /** What is noted of acceptable options: the codes in them, and type and server from the last options that
      give them. */
  ghost predicate Noted(s: Seen, opts: seq<Opt>, r: Seen) {
    && (forall c :: c in r.has <==> c in s.has || (c in NOTED && Data(opts, c).Some?))
    && (match Data(opts, 53) case None => r.mtype == s.mtype case Some(d) => |d| == 1 && r.mtype == d[0])
    && (match Data(opts, 54) case None => r.sid == s.sid case Some(d) => |d| == 4 && r.sid == d)
  }

  /** A message passes exactly when all its options are acceptable. */
  lemma {:induction false} CheckedOptions(s: Seen, opts: seq<Opt>)
    ensures Check(s, opts).Some? <==> AllAcceptable(opts)
    ensures Check(s, opts).Some? ==> Noted(s, opts, Check(s, opts).value)
    decreases |opts|
  {
    if opts != [] && Acceptable(opts[0]) {
      CheckedOptions(Note(s, opts[0]), opts[1..]);
      assert AllAcceptable(opts) <==> AllAcceptable(opts[1..]) by {
        assert forall i :: 0 <= i < |opts| - 1 ==> opts[1..][i] == opts[i + 1];
        assert AllAcceptable(opts[1..]) ==> forall i :: 0 < i < |opts| ==> opts[i] == opts[1..][i - 1];
      }
    }
  }

  // ----- The second walk: what an accepted ACK sets -----

  datatype Settings = Settings(mask: Option<seq<Octet>>, router: Option<seq<Octet>>, lease: Option<nat>)

  const UNSET := Settings(None, None, None)

  /** Four bytes as a number, highest first. */
  function Number(s: seq<Octet>): nat
    requires |s| >= 4
  {
    ((s[0] as nat * 256 + s[1] as nat) * 256 + s[2] as nat) * 256 + s[3] as nat
  }

  function Set(t: Settings, o: Opt): Settings {
    if |o.data| < 4 then t
    else
      match o.code
      case 1 => t.(mask := Some(o.data[..4]))
      case 3 => t.(router := Some(o.data[..4]))
      case 51 => t.(lease := Some(Number(o.data)))
      case _ => t
  }

  function Apply(t: Settings, opts: seq<Opt>): Settings
    decreases |opts|
  {
    if opts == [] then t else Apply(Set(t, opts[0]), opts[1..])
  }

  /** The first four bytes of the last option of a code. */
  function Leading(opts: seq<Opt>, code: Octet): (r: Option<seq<Octet>>)
    ensures r.Some? ==> |r.value| == 4
  {
    match Data(opts, code)
    case Some(d) => if |d| < 4 then None else Some(d[..4])
    case None => None
  }

  lemma {:induction false} AppliedOptions(t: Settings, opts: seq<Opt>)
    requires AllAcceptable(opts)
    ensures var r := Apply(t, opts);
      && r.mask == (if Data(opts, 1).Some? then Leading(opts, 1) else t.mask)
      && r.router == (if Data(opts, 3).Some? then Leading(opts, 3) else t.router)
      && (Data(opts, 51).None? ==> r.lease == t.lease)
      && (Data(opts, 51).Some? ==> Leading(opts, 51).Some? && r.lease == Some(Number(Leading(opts, 51).value)))
    decreases |opts|
  {
    if opts != [] { AppliedOptions(Set(t, opts[0]), opts[1..]); }
  }

  /** An accepted ACK sets netmask, router and lease time, all from the last options that give them. */
  lemma AcceptedSetsAll(opts: seq<Opt>)
    requires Check(NOTHING, opts).Some? && MIN_OPTIONS <= Check(NOTHING, opts).value.has
    ensures var t := Apply(UNSET, opts);
      && t.mask.Some? && t.mask == Leading(opts, 1) && t.router.Some? && t.router == Leading(opts, 3)
      && Leading(opts, 51).Some? && t.lease == Some(Number(Leading(opts, 51).value))
  {
    CheckedOptions(NOTHING, opts);
    AppliedOptions(UNSET, opts);
    AcceptedData(opts, 1);
    AcceptedData(opts, 3);
    AcceptedData(opts, 51);
  }

  /** The data of a code is that of one of the options. */
  lemma {:induction false} AcceptedData(opts: seq<Opt>, code: Octet)
    requires AllAcceptable(opts) && Data(opts, code).Some?
    ensures Acceptable(Opt(code, Data(opts, code).value))
    decreases |opts|
  {
    if Data(opts[1..], code).Some? { AcceptedData(opts[1..], code); }
  }

  // ----- The walks and the writer in place -----

  /** What a walk visits from `i` on. */
  lemma WalkFrom(buf: seq<Octet>, i: nat, eof: nat)
    requires i < eof < |buf|
    ensures buf[i] == PAD ==> Walk(buf, i, eof) == Walk(buf, i + 1, eof)
    ensures buf[i] == END ==> Walk(buf, i, eof) == []
    ensures buf[i] != PAD && buf[i] != END ==>
      var n := buf[i + 1] as nat;
      Walk(buf, i, eof) == if i + 2 + n > eof then [] else [Opt(buf[i], buf[i + 2..i + 2 + n])] + Walk(buf, i + 2 + n, eof)
  {
  }

  lemma CheckCons(s: Seen, o: Opt, rest: seq<Opt>)
    ensures Check(s, [o] + rest) == if Acceptable(o) then Check(Note(s, o), rest) else None
    ensures Check(s, []) == Some(s)
  {
    assert ([o] + rest)[1..] == rest;
  }

  /** The first loop of `recv`. */
  method Scan(buf: seq<Octet>, start: nat, eof: nat) returns (seen: Option<Seen>)
    requires eof < |buf|
    ensures seen == Check(NOTHING, Walk(buf, start, eof))
  {
    hide Walk, Acceptable, Note, Check;
    var s, i := NOTHING, start;
    while i < eof
      invariant Check(s, Walk(buf, i, eof)) == Check(NOTHING, Walk(buf, start, eof))
    {
      WalkFrom(buf, i, eof);
      var oc := buf[i];
      i := i + 1;
      if oc == PAD { continue; }
      CheckCons(s, Opt(0, []), []);
      if oc == END { return Some(s); }
      var ocl := buf[i] as nat;
      i := i + 1;
      if i + ocl > eof { return Some(s); }
      var o := Opt(oc, buf[i..i + ocl]);
      CheckCons(s, o, Walk(buf, i + ocl, eof));
      if !Acceptable(o) { return None; }
      s, i := Note(s, o), i + ocl;
    }
    WalkOver(buf, i, eof);
    CheckCons(s, Opt(0, []), []);
    seen := Some(s);
  }

  lemma WalkOver(buf: seq<Octet>, i: nat, eof: nat)
    requires eof < |buf| && eof <= i
    ensures Walk(buf, i, eof) == []
  {
  }

  /** The second loop of `recv`. */
  method Settle(buf: seq<Octet>, start: nat, eof: nat) returns (t: Settings)
    requires eof < |buf|
    ensures t == Apply(UNSET, Walk(buf, start, eof))
  {
    t := UNSET;
    var i := start;
    while i < eof
      invariant Apply(t, Walk(buf, i, eof)) == Apply(UNSET, Walk(buf, start, eof))
    {
      var oc := buf[i];
      i := i + 1;
      if oc == PAD { continue; }
      if oc == END { return; }
      var ocl := buf[i] as nat;
      i := i + 1;
      if i + ocl > eof { return; }
      t, i := Set(t, Opt(oc, buf[i..i + ocl])), i + ocl;
    }
  }

  /** The encoding when a value is added to the last option: a new length and more bytes. */
  lemma LastEncoded(front: seq<Opt>, o: Opt, v: seq<Octet>, was: seq<Octet>, k: int)
    requires Announced(front + [o]) && was == Encode(front + [o]) && |o.data| + |v| <= 255
    requires k == |was| - 1 - |o.data|
    ensures 0 <= k < |was| && was[k] == |o.data| as Octet
    ensures var all := front + [o.(data := o.data + v)];
      Announced(all) && was[k := (|o.data| + |v|) as Octet] + v == Encode(all)
  {
    var o' := o.(data := o.data + v);
    var all, all' := front + [o], front + [o'];
    assert all[..|front|] == front == all'[..|front|] && all[|front|] == o && all'[|front|] == o';
    assert o.Fits();
    assert forall i :: 0 <= i < |front| ==> all'[i] == all[i];
    var first := Encode(front);
    assert was == first + [o.code, |o.data| as Octet] + o.data;
    assert o'.Bytes() == [o.code, (|o.data| + |v|) as Octet] + (o.data + v);
  }

  class OptionAdder {
    const buf: array<Octet>
    const start: nat
    var where_: nat
    var soo: nat
    ghost var opts: seq<Opt>

    /** The options added so far are in the packet, and the last may still grow. */
    ghost predicate Valid()
      reads this, buf
    {
      && start <= where_ <= buf.Length && Announced(opts) && buf[start..where_] == Encode(opts)
      && (opts != [] ==> soo + 1 + |opts[|opts| - 1].data| == where_ && start <= soo < where_)
    }

    constructor (packet: array<Octet>, ofs: nat)
      requires ofs <= packet.Length
      ensures Valid() && buf == packet && start == where_ == ofs && opts == []
    {
      buf, start, where_, soo, opts := packet, ofs, ofs, 0, [];
    }

    /** A new option with no data. */
    method Add(op: Octet)
      requires Valid() && PAD < op < END && where_ + 2 <= buf.Length
      modifies this, buf
      ensures Valid() && opts == old(opts) + [Opt(op, [])] && where_ == old(where_) + 2
      ensures buf[..start] == old(buf[..start])
    {
      hide Encode, Announced;
      ghost var was, front := opts, buf[start..where_];
      EncodeSnoc(was, Opt(op, []));
      buf[where_], buf[where_ + 1] := op, 0;
      soo, where_ := where_ + 1, where_ + 2;
      opts := was + [Opt(op, [])];
      assert buf[start..where_] == front + [op, 0] == front + Opt(op, []).Bytes();
    }

    method Store(v: seq<Octet>)
      requires where_ + |v| <= buf.Length
      modifies buf
      ensures buf[where_..where_ + |v|] == v && buf[..where_] == old(buf[..where_])
    {
      var i := 0;
      while i < |v|
        invariant i <= |v| && buf[where_..where_ + i] == v[..i] && buf[..where_] == old(buf[..where_])
      {
        buf[where_ + i] := v[i];
        i := i + 1;
      }
    }

    /** Bytes of a value, added to the last option `o`. */
    method Value(v: seq<Octet>, ghost front: seq<Opt>, ghost o: Opt)
      requires Valid() && opts == front + [o] && |o.data| + |v| <= 255 && where_ + |v| <= buf.Length
      modifies this, buf
      ensures Valid() && where_ == old(where_) + |v| && buf[..start] == old(buf[..start])
      ensures opts == front + [o.(data := o.data + v)]
    {
      hide Encode, Announced, Opt.Bytes, Opt.Fits;
      ghost var was, k := buf[start..where_], soo - start;
      LastEncoded(front, o, v, was, k);
      assert was[k] == buf[soo];
      buf[soo] := buf[soo] + |v| as Octet;
      assert buf[start..where_] == was[k := (|o.data| + |v|) as Octet];
      ghost var head := buf[..where_];
      Store(v);
      assert buf[start..where_] == buf[..where_][start..] == head[start..];
      assert buf[..start] == buf[..where_][..start] == head[..start];
      assert buf[start..where_ + |v|] == buf[start..where_] + buf[where_..where_ + |v|];
      where_ := where_ + |v|;
      opts := front + [o.(data := o.data + v)];
    }

    /** An option with a value. */
    method AddOption(op: Octet, v: seq<Octet>)
      requires Valid() && PAD < op < END && |v| <= 255 && where_ + 2 + |v| <= buf.Length
      modifies this, buf
      ensures Valid() && where_ == old(where_) + 2 + |v| && buf[..start] == old(buf[..start])
      ensures opts == old(opts) + [Opt(op, v)]
    {
      Add(op);
      Value(v, old(opts), Opt(op, []));
      assert [] + v == v;
    }

    /** One more wanted parameter, of which there are `k` so far. */
    method More(x: Octet, ghost front: seq<Opt>, ghost k: nat)
      requires Valid() && k < |WANTED| && x == WANTED[k] && opts == front + [Opt(55, WANTED[..k])] && where_ < buf.Length
      modifies this, buf
      ensures Valid() && where_ == old(where_) + 1 && buf[..start] == old(buf[..start])
      ensures opts == front + [Opt(55, WANTED[..k + 1])]
    {
      Value([x], front, Opt(55, WANTED[..k]));
      assert WANTED[..k] + [x] == WANTED[..k + 1];
    }

    /** The end mark. What was written from `start` is walked back as the options added. */
    method Close()
      requires Valid() && where_ < buf.Length
      modifies this, buf
      ensures where_ == old(where_) + 1 && opts == old(opts) && buf[..start] == old(buf[..start])
      ensures forall eof :: where_ <= eof < buf.Length ==> Walk(buf[..], start, eof) == opts
    {
      buf[where_] := END;
      where_ := where_ + 1;
      assert buf[start..where_] == Encode(opts) + [END];
      forall eof | where_ <= eof < buf.Length ensures Walk(buf[..], start, eof) == opts {
        WalkEncoded(buf[..], start, eof, opts);
      }
    }
  }

  /** The parameters a request asks for. */
  const WANTED: seq<Octet> := [1, 2, 3, 4, 5, 6, 15, 28, 31, 42, 51, 54]

  function StartOptions(phase: Octet, reqip: Option<seq<Octet>>, srvip: Option<seq<Octet>>, unicast: bool): seq<Opt> {
    [Opt(53, [phase])]
    + (if !unicast && reqip.Some? then [Opt(50, reqip.value)] else [])
    + (if !unicast && srvip.Some? then [Opt(54, srvip.value)] else [])
  }

  /** The options of a request: those `send_packet` adds. */
  function RequestOptions(phase: Octet, reqip: Option<seq<Octet>>, srvip: Option<seq<Octet>>, unicast: bool): seq<Opt> {
    StartOptions(phase, reqip, srvip, unicast) + [Opt(55, WANTED), Opt(57, [5, 120])]
  }

  /** What a server reads in a request: type, address and server where given and not unicast, the codes wanted, and the
      longest answer, 1400 bytes. */
  lemma RequestSays(phase: Octet, reqip: Option<seq<Octet>>, srvip: Option<seq<Octet>>, unicast: bool)
    ensures var opts := RequestOptions(phase, reqip, srvip, unicast);
      && Data(opts, 53) == Some([phase])
      && Data(opts, 50) == (if unicast then None else reqip)
      && Data(opts, 54) == (if unicast then None else srvip)
      && Data(opts, 55) == Some([1, 2, 3, 4, 5, 6, 15, 28, 31, 42, 51, 54])
      && Data(opts, 57).Some? && |Data(opts, 57).value| == 2
      && Data(opts, 57).value[0] as nat * 256 + Data(opts, 57).value[1] as nat == 1400
  {
    hide Data;
    var end := [Opt(55, WANTED)] + [Opt(57, [5, 120])];
    var three := (if !unicast && srvip.Some? then [Opt(54, srvip.value)] else []) + end;
    var two := (if !unicast && reqip.Some? then [Opt(50, reqip.value)] else []) + three;
    assert RequestOptions(phase, reqip, srvip, unicast) == [Opt(53, [phase])] + two;
    DataAfter([Opt(57, [5, 120])], []);
    assert [Opt(57, [5, 120])] + [] == [Opt(57, [5, 120])];
    DataAfter([Opt(55, WANTED)], [Opt(57, [5, 120])]);
    DataAfter(if !unicast && srvip.Some? then [Opt(54, srvip.value)] else [], end);
    DataAfter(if !unicast && reqip.Some? then [Opt(50, reqip.value)] else [], three);
    DataAfter([Opt(53, [phase])], two);
  }

  function Or<T>(a: Option<T>, b: Option<T>): Option<T> { if a.Some? then a else b }

  function First(opts: seq<Opt>, c: Octet): Option<seq<Octet>> {
    if opts != [] && opts[0].code == c then Some(opts[0].data) else None
  }

  lemma DataAfter(front: seq<Opt>, rest: seq<Opt>)
    requires |front| <= 1
    ensures forall c :: Data(front + rest, c) == Or(Data(rest, c), First(front, c)) && Data([], c) == None
  {
    if front == [] { assert front + rest == rest; } else { assert (front + rest)[1..] == rest; }
  }

  /** The option part of `send_packet`. */
  method WriteRequest(packet: array<Octet>, ofs: nat, phase: Octet, reqip: Option<seq<Octet>>, srvip: Option<seq<Octet>>,
                      unicast: bool) returns (end: nat)
    requires ofs + 40 <= packet.Length
    requires (reqip.Some? ==> |reqip.value| == 4) && (srvip.Some? ==> |srvip.value| == 4)
    modifies packet
    ensures ofs < end <= packet.Length && packet[..ofs] == old(packet[..ofs])
    ensures forall eof :: end <= eof < packet.Length ==>
      Walk(packet[..], ofs, eof) == RequestOptions(phase, reqip, srvip, unicast)
  {
    var opt := new OptionAdder(packet, ofs);
    WriteStart(opt, phase, reqip, srvip, unicast);
    ghost var front := opt.opts;
    WriteWanted(opt);
    opt.AddOption(57, [5, 120]);
    opt.Close();
    assert front + [Opt(55, WANTED)] + [Opt(57, [5, 120])] == front + [Opt(55, WANTED), Opt(57, [5, 120])];
    end := opt.where_;
  }

  method WriteWanted(opt: OptionAdder)
    requires opt.Valid() && opt.where_ + 14 <= opt.buf.Length
    modifies opt, opt.buf
    ensures opt.Valid() && opt.opts == old(opt.opts) + [Opt(55, WANTED)] && opt.where_ == old(opt.where_) + 14
    ensures opt.buf[..opt.start] == old(opt.buf[..opt.start])
  {
    hide Encode, Announced;
    ghost var front := opt.opts;
    opt.AddOption(55, [1]);
    assert WANTED[..1] == [1];
    opt.More(2, front, 1);
    opt.More(3, front, 2);
    opt.More(4, front, 3);
    opt.More(5, front, 4);
    opt.More(6, front, 5);
    WriteWantedRest(opt, front);
  }

  method WriteWantedRest(opt: OptionAdder, ghost front: seq<Opt>)
    requires opt.Valid() && opt.where_ + 6 <= opt.buf.Length && opt.opts == front + [Opt(55, WANTED[..6])]
    modifies opt, opt.buf
    ensures opt.Valid() && opt.opts == front + [Opt(55, WANTED)] && opt.where_ == old(opt.where_) + 6
    ensures opt.buf[..opt.start] == old(opt.buf[..opt.start])
  {
    hide Encode, Announced;
    opt.More(15, front, 6);
    opt.More(28, front, 7);
    opt.More(31, front, 8);
    opt.More(42, front, 9);
    opt.More(51, front, 10);
    opt.More(54, front, 11);
    assert WANTED[..12] == WANTED;
  }

  method WriteStart(opt: OptionAdder, phase: Octet, reqip: Option<seq<Octet>>, srvip: Option<seq<Octet>>, unicast: bool)
    requires opt.Valid() && opt.opts == [] && opt.where_ + 15 <= opt.buf.Length
    requires (reqip.Some? ==> |reqip.value| == 4) && (srvip.Some? ==> |srvip.value| == 4)
    modifies opt, opt.buf
    ensures opt.Valid() && opt.opts == StartOptions(phase, reqip, srvip, unicast)
    ensures old(opt.where_) < opt.where_ <= old(opt.where_) + 15
    ensures opt.buf[..opt.start] == old(opt.buf[..opt.start])
  {
    opt.AddOption(53, [phase]);
    if !unicast {
      if reqip.Some? { opt.AddOption(50, reqip.value); }
      if srvip.Some? { opt.AddOption(54, srvip.value); }
    }
  }
}
