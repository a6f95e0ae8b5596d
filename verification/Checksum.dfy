/** The Internet checksum and the packets that carry it (kernel/net/queue.cpp, kernel/net/packet.hpp),
    against RFC 1071 section 1 and RFC 768. */
module Checksums {
  import opened Arp
  import opened Wrappers

  const LIMIT32 := 0x1_0000_0000

  /** Addition of 32-bit words. */
  function Add32(a: nat, b: nat): (r: nat)
    ensures a + b < LIMIT32 ==> r == a + b
  {
    (a + b) % LIMIT32
  }

  // ----- One's complement sums -----

  /** One's complement addition of 16-bit words: the carry out is added back in. */
  function OcAdd(a: nat, b: nat): nat { if a + b > 0xffff then a + b - 0xffff else a + b }

  function Word(high: Octet, low: Octet): (w: nat)
    ensures w <= 0xffff
  {
    0x100 * high as nat + low as nat
  }

  /** The words of a datagram, high byte first; an odd last byte is padded with zero. */
  function Words(s: seq<Octet>): (w: seq<nat>)
    ensures forall i :: 0 <= i < |w| ==> w[i] <= 0xffff
    decreases |s|
  {
    if s == [] then [] else if |s| == 1 then [Word(s[0], 0)] else [Word(s[0], s[1])] + Words(s[2..])
  }

  function OcSum(seed: nat, w: seq<nat>): nat
    decreases |w|
  {
    if w == [] then seed else OcSum(OcAdd(seed, w[0]), w[1..])
  }

  function Sum(w: seq<nat>): nat
    decreases |w|
  {
    if w == [] then 0 else w[0] + Sum(w[1..])
  }

  /** The 16-bit number that carries fold `n` into: 0 stays 0, and otherwise never 0. */
  function Norm(n: nat): (r: nat)
    ensures r <= 0xffff && (r == 0 <==> n == 0)
  {
    if n == 0 then 0 else (n - 1) % 0xffff + 1
  }

  lemma NormSmall(n: nat)
    ensures n <= 0xffff ==> Norm(n) == n
    ensures Norm(n + 0xffff) == if n == 0 then 0xffff else Norm(n)
  {
    if n > 0 { assert (n - 1 + 0xffff) % 0xffff == (n - 1) % 0xffff; }
  }

  /** Equal folds, but for 0, are equal remainders. */
  lemma NormCongruent(a: nat, b: nat)
    requires a > 0 && b > 0
    ensures Norm(a) == Norm(b) <==> a % 0xffff == b % 0xffff
  {
    Remainder(a);
    Remainder(b);
  }

  lemma Remainder(n: nat)
    requires n > 0
    ensures Norm(n) % 0xffff == n % 0xffff && 1 <= Norm(n) <= 0xffff
  {
    var q := (n - 1) / 0xffff;
    assert n == 0xffff * q + Norm(n);
  }

  lemma SameRemainder(a: nat, b: nat, x: nat)
    requires a % 0xffff == b % 0xffff
    ensures (a + x) % 0xffff == (b + x) % 0xffff
  {
    var q, p, r := a / 0xffff, b / 0xffff, a % 0xffff;
    assert a + x == 0xffff * q + (r + x) && b + x == 0xffff * p + (r + x);
  }

  lemma NormAdd(a: nat, x: nat)
    requires x <= 0xffff
    ensures Norm(a + x) == OcAdd(Norm(a), x)
  {
    if a > 0 {
      Remainder(a);
      SameRemainder(a, Norm(a), x);
      hide Norm;
      NormSmall(Norm(a) + x);
      if Norm(a) + x > 0xffff { NormSmall(Norm(a) + x - 0xffff); }
      NormCongruent(a + x, Norm(a) + x);
    } else {
      NormSmall(x);
    }
  }

  /** Summing with end-around carries is folding the plain sum. */
  lemma {:induction false} OcSumIsNorm(n: nat, w: seq<nat>)
    requires forall i :: 0 <= i < |w| ==> w[i] <= 0xffff
    ensures OcSum(Norm(n), w) == Norm(n + Sum(w))
    decreases |w|
  {
    if w != [] {
      NormAdd(n, w[0]);
      OcSumIsNorm(n + w[0], w[1..]);
    }
  }

  // ----- The loops of `ipchksum` -----

  /** Bytes `q`, `q + 2`, .. below `2 * n` summed. */
  function Every2(s: seq<Octet>, q: nat, n: nat): nat
    requires 2 * n <= |s| && q < 2
    decreases n
  {
    if n == 0 then 0 else Every2(s, q, n - 1) + s[2 * (n - 1) + q] as nat
  }

  /** The pairs that the first loop adds: it tests only after a pair, and its last pair may go one byte
      past the end. */
  function Pairs(len: nat): nat { if len == 0 then 1 else (len + 1) / 2 }

  /** What `ipchksum` adds up. An odd last byte is added twice, and the byte after it once. */
  function Added(s: seq<Octet>, len: nat): nat
    requires 2 * Pairs(len) <= |s|
  {
    var n := Pairs(len);
    0x100 * Every2(s, 0, n) + Every2(s, 1, n) + if len % 2 == 1 then Word(s[len - 1], 0) else 0
  }

  lemma {:induction false} Every2Bound(s: seq<Octet>, q: nat, n: nat)
    requires 2 * n <= |s| && q < 2
    ensures Every2(s, q, n) <= 255 * n
    decreases n
  {
    if n > 0 { Every2Bound(s, q, n - 1); }
  }

  method IpChksum(s: seq<Octet>, len: nat, seed: nat) returns (check: nat)
    requires len <= 0xffff && 2 * Pairs(len) <= |s| && seed < 0x7fff_0000
    ensures check == Norm(seed + Added(s, len))
  {
    hide Norm;
    var n := Pairs(len);
    var checkhi;
    check, checkhi := AddPairs(s, len, seed);
    Every2Bound(s, 0, n);
    Every2Bound(s, 1, n);
    if len % 2 == 1 { checkhi := Add32(checkhi, s[len - 1] as nat); }
    check := Add32(check, checkhi * 0x100);
    check := Fold(check);
  }

  /** The first loop: low and high bytes summed apart. */
  method AddPairs(s: seq<Octet>, len: nat, seed: nat) returns (check: nat, checkhi: nat)
    requires len <= 0xffff && 2 * Pairs(len) <= |s| && seed < 0x7fff_0000
    ensures check == seed + Every2(s, 1, Pairs(len)) && checkhi == Every2(s, 0, Pairs(len))
  {
    hide Pairs;
    var q := 0;
    check, checkhi := seed, 0;
    ghost var k, n := 0, Pairs(len);
    LastPair(len, 0);
    while true
      invariant q == 2 * k && k < n && checkhi == Every2(s, 0, k) && check == seed + Every2(s, 1, k)
      invariant k > 0 ==> q < len
      decreases n - k
    {
      LastPair(len, k);
      Every2Bound(s, 0, k + 1);
      Every2Bound(s, 1, k + 1);
      checkhi := Add32(checkhi, s[q] as nat);
      check := Add32(check, s[q + 1] as nat);
      q, k := q + 2, k + 1;
      if q >= len { break; }
    }
  }

  lemma LastPair(len: nat, k: nat)
    requires len <= 0xffff
    ensures 0 < Pairs(len) <= 0x8000
    ensures k < Pairs(len) ==> (2 * k + 2 >= len <==> k + 1 == Pairs(len))
  {
  }

  /** The carries added back in until none is left. */
  method Fold(total: nat) returns (check: nat)
    requires total < LIMIT32
    ensures check == Norm(total)
  {
    check := total;
    while check > 0xffff
      invariant check < LIMIT32 && Norm(check) == Norm(total)
      decreases check
    {
      FoldStep(check);
      check := check % 0x1_0000 + check / 0x1_0000;
    }
    NormSmall(check);
  }

  lemma FoldStep(n: nat)
    requires n > 0xffff
    ensures var m := n % 0x1_0000 + n / 0x1_0000; 0 < m < n && Norm(m) == Norm(n)
  {
    var h, l := n / 0x1_0000, n % 0x1_0000;
    assert n == 0xffff * h + (l + h);
    assert (0xffff * h + (l + h)) % 0xffff == (l + h) % 0xffff;
    NormCongruent(l + h, n);
  }

  lemma {:induction false} Every2Shift(s: seq<Octet>, q: nat, n: nat)
    requires 2 * n + 2 <= |s| && q < 2
    ensures Every2(s, q, n + 1) == s[q] as nat + Every2(s[2..], q, n)
    decreases n
  {
    if n > 0 { Every2Shift(s, q, n - 1); }
  }

  lemma {:induction false} WordsAdded(s: seq<Octet>, n: nat)
    requires |s| == 2 * n
    ensures Sum(Words(s)) == 0x100 * Every2(s, 0, n) + Every2(s, 1, n)
    decreases n
  {
    if n > 0 {
      Every2Shift(s, 0, n - 1);
      Every2Shift(s, 1, n - 1);
      WordsAdded(s[2..], n - 1);
      assert Words(s)[0] == Word(s[0], s[1]) && Words(s)[1..] == Words(s[2..]);
    }
  }

  lemma {:induction false} Every2Prefix(s: seq<Octet>, q: nat, n: nat, m: nat)
    requires 2 * n <= m <= |s| && q < 2
    ensures Every2(s[..m], q, n) == Every2(s, q, n)
    decreases n
  {
    if n > 0 { Every2Prefix(s, q, n - 1, m); }
  }

  /** For every positive even length the result is the one's complement sum of RFC 1071 section 1. */
  lemma EvenIsOnesComplement(s: seq<Octet>, len: nat, seed: nat)
    requires 0 < len <= |s| && len % 2 == 0
    ensures Norm(seed + Added(s, len)) == OcSum(Norm(seed), Words(s[..len]))
  {
    hide Words, Norm, OcSum, Every2;
    var n := len / 2;
    WordsAdded(s[..len], n);
    Every2Prefix(s, 0, n, len);
    Every2Prefix(s, 1, n, len);
    OcSumIsNorm(seed, Words(s[..len]));
  }

  lemma {:induction false} WordsOdd(s: seq<Octet>, b: Octet)
    requires |s| % 2 == 0
    ensures Sum(Words(s + [b])) == Sum(Words(s)) + Word(b, 0)
    decreases |s|
  {
    if s == [] {
      assert Words([b]) == [Word(b, 0)] && Words([b])[1..] == [];
    } else {
      WordsOdd(s[2..], b);
      assert (s + [b])[2..] == s[2..] + [b];
      assert Words(s + [b])[1..] == Words(s[2..] + [b]) && Words(s)[1..] == Words(s[2..]);
    }
  }

  lemma OddAdded(s: seq<Octet>, len: nat)
    requires len < |s| && len % 2 == 1
    ensures Added(s, len) == Sum(Words(s[..len])) + Word(s[len - 1], s[len])
  {
    var n, a := (len - 1) / 2, s[..len - 1];
    WordsAdded(a, n);
    Every2Prefix(s, 0, n, len - 1);
    Every2Prefix(s, 1, n, len - 1);
    WordsOdd(a, s[len - 1]);
    assert a + [s[len - 1]] == s[..len];
  }

  /** For an odd length it is that sum exactly when the byte after the end and the last byte are both
      clear, or both have all bits set. */
  lemma OddIsOnesComplement(s: seq<Octet>, len: nat, seed: nat)
    requires len < |s| && len % 2 == 1
    ensures Norm(seed + Added(s, len)) == OcSum(Norm(seed), Words(s[..len])) <==>
      (s[len - 1] == 0 && s[len] == 0) || (s[len - 1] == 255 && s[len] == 255)
  {
    hide Every2, Words, Added, Norm;
    var w := Words(s[..len]);
    var right, extra := seed + Sum(w), Word(s[len - 1], s[len]);
    OddAdded(s, len);
    OcSumIsNorm(seed, w);
    SameFold(right, extra);
    assert s[len - 1] == 255 ==> right > 0 by { LastCounts(s, len); }
    assert extra == 0xffff <==> s[len - 1] == 255 && s[len] == 255;
  }

  lemma LastCounts(s: seq<Octet>, len: nat)
    requires len <= |s| && len % 2 == 1
    ensures Sum(Words(s[..len])) >= Word(s[len - 1], 0)
  {
    WordsOdd(s[..len - 1], s[len - 1]);
    assert s[..len - 1] + [s[len - 1]] == s[..len];
  }

  lemma SameFold(a: nat, x: nat)
    requires x <= 0xffff
    ensures Norm(a + x) == Norm(a) <==> x == 0 || (x == 0xffff && a > 0)
  {
    if a > 0 && x > 0 {
      NormCongruent(a, a + x);
      ModShift(a, x);
    }
  }

  lemma ModShift(a: nat, x: nat)
    requires x <= 0xffff
    ensures (a + x) % 0xffff == a % 0xffff <==> x % 0xffff == 0
  {
    var q, r := a / 0xffff, a % 0xffff;
    assert a + x == 0xffff * q + (r + x);
    assert (a + x) % 0xffff == (r + x) % 0xffff;
    if r + x < 0xffff {
      assert (r + x) % 0xffff == r + x;
    } else if r + x < 0x1fffe {
      assert (r + x) % 0xffff == r + x - 0xffff;
    }
  }

  // ----- Packets -----

  const BROADCAST: Addr := [255, 255, 255, 255]
  const ALL_ONES: Mac := [255, 255, 255, 255, 255, 255]
  const IP_START := 14
  const UDP_START := 34
  const UDP_MTU := 1480

  /** Where a packet for `dst` goes on the link, if that is known. */
  function LinkOf(table: seq<ArpEntry>, dst: Addr): Option<Mac> {
    if dst == BROADCAST then Some(ALL_ONES)
    else
      var i := FindIp(table, dst);
      if i < |table| && table[i].Known() then Some(table[i].lla) else None
  }

  function Pair(x: nat): (s: seq<Octet>)
    requires x <= 0xffff
    ensures |s| == 2 && Word(s[0], s[1]) == x
  {
    [High(x), Low(x)]
  }

  function High(x: nat): Octet { (x / 0x100 % 0x100) as Octet }

  function Low(x: nat): Octet { (x % 0x100) as Octet }

  /** The IPv4 header that `packet_fill_ip` writes. */
  function Header(length: nat, proto: Octet, check: nat, src: Addr, dst: Addr): (s: seq<Octet>)
    requires length <= 0xffff && check <= 0xffff
    ensures |s| == 20
  {
    [0x45, 0, High(length), Low(length), 0, 0, 0, 0, 8, proto, High(check), Low(check),
     src[0], src[1], src[2], src[3], dst[0], dst[1], dst[2], dst[3]]
  }

  /** The header up to its checksum. */
  function HeaderStart(length: nat, proto: Octet): (s: seq<Octet>)
    requires length <= 0xffff
    ensures |s| == 10
  {
    [0x45, 0] + (Pair(length) + [0, 0, 0, 0, 8, proto])
  }

  lemma HeaderParts(length: nat, proto: Octet, check: nat, src: Addr, dst: Addr)
    requires length <= 0xffff && check <= 0xffff
    ensures Header(length, proto, check, src, dst) == HeaderStart(length, proto) + Pair(check) + (src + dst)
  {
    hide High, Low;
    var h, s := Header(length, proto, check, src, dst), HeaderStart(length, proto) + Pair(check) + (src + dst);
    assert |s| == 20 && h[..10] == HeaderStart(length, proto) && h[10..12] == Pair(check) && h[12..] == src + dst;
    assert h == h[..10] + h[10..12] + h[12..];
  }

  /** The pseudo header of RFC 768. */
  function Pseudo(src: Addr, dst: Addr, proto: Octet, length: nat): (s: seq<Octet>)
    requires length <= 0xffff
    ensures |s| == 12
  {
    src + dst + [0, proto] + Pair(length)
  }

  predicate Verifies(s: seq<Octet>) { OcSum(0, Words(s)) == 0xffff }

  lemma {:induction false} WordsConcat(a: seq<Octet>, b: seq<Octet>)
    requires |a| % 2 == 0
    ensures Sum(Words(a + b)) == Sum(Words(a)) + Sum(Words(b))
    decreases |a|
  {
    if a == [] {
      assert a + b == b;
    } else {
      WordsConcat(a[2..], b);
      assert (a + b)[2..] == a[2..] + b;
      assert Words(a + b)[1..] == Words(a[2..] + b) && Words(a)[1..] == Words(a[2..]);
    }
  }

  lemma OneWord(x: nat)
    requires x <= 0xffff
    ensures Sum(Words(Pair(x))) == x
  {
    assert Words(Pair(x)) == [x];
    assert Words(Pair(x))[1..] == [];
  }

  /** Adding the inverted fold brings the fold to all ones. */
  lemma FoldInverse(rest: nat, check: nat)
    requires rest > 0 && (check == 0xffff - Norm(rest) || (check == Norm(rest) == 0xffff))
    ensures Norm(rest + check) == 0xffff
  {
    var q := (rest - 1) / 0xffff;
    assert rest == 0xffff * q + Norm(rest);
    var k := if check == Norm(rest) then q + 2 else q + 1;
    assert rest + check == 0xffff * k;
    NormMultiple(k);
  }

  lemma {:induction false} NormMultiple(k: nat)
    requires k > 0
    ensures Norm(0xffff * k) == 0xffff
    decreases k
  {
    if k > 1 {
      NormMultiple(k - 1);
      NormSmall(0xffff * (k - 1));
    }
  }

  lemma VerifiesIs(s: seq<Octet>)
    ensures Verifies(s) <==> Norm(Sum(Words(s))) == 0xffff
  {
    OcSumIsNorm(0, Words(s));
  }

  /** The inverted fold of all other words makes the whole sum to all ones. */
  lemma InverseVerifies(a: seq<Octet>, check: nat, b: seq<Octet>, rest: nat)
    requires |a| % 2 == 0 && check <= 0xffff && rest == Sum(Words(a)) + Sum(Words(b)) && rest > 0
    requires check == 0xffff - Norm(rest) || (check == Norm(rest) == 0xffff)
    ensures Verifies(a + Pair(check) + b)
  {
    hide Words, Sum, Norm, OcSum, Pair, Verifies;
    var s := a + Pair(check) + b;
    OneWord(check);
    SumOfThree(a, Pair(check), b);
    assert Sum(Words(s)) == rest + check;
    FoldInverse(rest, check);
    VerifiesIs(s);
  }

  lemma SumOfThree(a: seq<Octet>, m: seq<Octet>, b: seq<Octet>)
    requires |a| % 2 == 0 && |m| == 2
    ensures Sum(Words(a + m + b)) == Sum(Words(a)) + Sum(Words(m)) + Sum(Words(b))
  {
    hide Words, Sum;
    WordsConcat(a, m);
    assert |a + m| == |a| + 2;
    WordsConcat(a + m, b);
  }

  lemma HeaderVerifies(length: nat, proto: Octet, src: Addr, dst: Addr)
    requires length <= 0xffff
    ensures var sum := Norm(Added(Header(length, proto, 0, src, dst), 20));
      Verifies(Header(length, proto, 0xffff - sum, src, dst))
  {
    hide Header, HeaderStart, Words, Sum, Added, Pair, Verifies;
    var sum := Norm(Added(Header(length, proto, 0, src, dst), 20));
    HeaderParts(length, proto, 0xffff - sum, src, dst);
    HeaderSum(length, proto, src, dst);
    InverseVerifies(HeaderStart(length, proto), 0xffff - sum, src + dst, Added(Header(length, proto, 0, src, dst), 20));
  }

  lemma HeaderSum(length: nat, proto: Octet, src: Addr, dst: Addr)
    requires length <= 0xffff
    ensures Added(Header(length, proto, 0, src, dst), 20) == Sum(Words(HeaderStart(length, proto))) + Sum(Words(src + dst)) > 0
  {
    hide Words, Sum, Every2, Header, HeaderStart, Pair, Added;
    var h := Header(length, proto, 0, src, dst);
    HeaderPositive(length, proto);
    HeaderParts(length, proto, 0, src, dst);
    EvenAdded(h, 10);
    SumOfThree(HeaderStart(length, proto), Pair(0), src + dst);
    OneWord(0);
  }

  lemma EvenAdded(s: seq<Octet>, n: nat)
    requires |s| == 2 * n && n > 0
    ensures Added(s, 2 * n) == Sum(Words(s))
  {
    hide Words, Sum, Every2;
    WordsAdded(s, n);
  }

  lemma HeaderPositive(length: nat, proto: Octet)
    requires length <= 0xffff
    ensures Sum(Words(HeaderStart(length, proto))) > 0
  {
    StartPositive(Pair(length) + [0, 0, 0, 0, 8, proto]);
    hide Words, Sum;
  }

  lemma StartPositive(s: seq<Octet>)
    ensures Sum(Words([0x45, 0] + s)) > 0
  {
    WordsConcat([0x45, 0], s);
    assert Words([0x45, 0])[0] == 0x4500;
  }

  /** The length `packet_fill_ip` writes for a payload: 16 bits wide, and 28 at least. */
  function IpLength(payload: nat): (n: nat)
    ensures n <= 0xffff
  {
    var n := (20 + payload % 0x1_0000) % 0x1_0000;
    if n < 28 then 28 else n
  }

  /** A message and its UDP header, cut off at what one packet carries. */
  function UdpLength(msgSize: nat): (n: nat)
    ensures 8 <= n <= UDP_MTU
  {
    if msgSize + 8 > UDP_MTU then UDP_MTU else msgSize + 8
  }

  lemma EtherType(x: nat)
    requires x == 0x0800
    ensures Pair(x) == [8, 0]
  {
    assert x / 0x100 == 8 && x % 0x100 == 0;
  }

  /** Bytes of a message that one packet carries. */
  function Carried(msgSize: nat): nat { if msgSize <= 1472 then msgSize else 1472 }

  lemma Lengths(msgSize: nat)
    ensures var n := UdpLength(msgSize); n == 8 + Carried(msgSize) && IpLength(n) == 20 + n
  {
  }

  lemma {:induction false} PseudoSum(src: Addr, dst: Addr, proto: Octet, length: nat)
    requires length <= 0xffff
    ensures Sum(Words(Pseudo(src, dst, proto, length))) == Sum(Words(src + dst)) + proto as nat + length
  {
    hide Words, Sum, Pair;
    SumOfThree(src + dst, [0, proto], Pair(length));
    OneWord(length);
    ProtoWord(proto);
  }

  lemma ProtoWord(proto: Octet)
    ensures Sum(Words([0, proto])) == proto as nat
  {
    assert Words([0, proto]) == [proto as nat] && Words([0, proto])[1..] == [];
  }

  /** The checksum `packet_fill_udp` stores makes the datagram verify with its pseudo header, and is
      never 0, which would mean there is none. */
  lemma DatagramVerifies(src: Addr, dst: Addr, head: seq<Octet>, tail: seq<Octet>) returns (check: nat)
    requires |head| == 6 && |tail| % 2 == 0 && |head| + 2 + |tail| <= 0xffff
    ensures var n := |head| + 2 + |tail|; var sum := Norm(Sum(Words(src + dst)) + 17 + n + Added(head + [0, 0] + tail, n));
      && check == (if sum != 0xffff then 0xffff - sum else sum) && check != 0
      && Verifies(Pseudo(src, dst, 17, n) + (head + Pair(check) + tail))
  {
    hide Words, Sum, Verifies, Pseudo, Pair, Every2;
    var n := |head| + 2 + |tail|;
    var s, front := head + [0, 0] + tail, Pseudo(src, dst, 17, n) + head;
    assert Added(s, n) == Sum(Words(head)) + Sum(Words(tail)) by {
      WordsAdded(s, n / 2);
      SumOfThree(head, [0, 0], tail);
      ProtoWord(0);
    }
    WordsConcat(Pseudo(src, dst, 17, n), head);
    PseudoSum(src, dst, 17, n);
    var rest := Sum(Words(src + dst)) + 17 + n + Added(s, n);
    var sum := Norm(rest);
    check := if sum != 0xffff then 0xffff - sum else sum;
    InverseVerifies(front, check, tail, rest);
    assert front + Pair(check) + tail == Pseudo(src, dst, 17, n) + (head + Pair(check) + tail);
  }

  class Packet {
    const buf: array<Octet>
    var size: nat

    ghost predicate Valid()
    {
      buf.Length >= UDP_START + UDP_MTU
    }

    constructor ()
      ensures Valid() && fresh(buf) && size == 0
    {
      buf := new Octet[2048];
      size := 0;
    }

    method PutWord(at: nat, x: nat)
      requires Valid() && at + 2 <= UDP_START + 8 && x <= 0xffff
      modifies buf
      ensures buf[at..at + 2] == Pair(x) && buf[..at] == old(buf[..at]) && buf[at + 2..] == old(buf[at + 2..])
    {
      buf[at], buf[at + 1] := High(x), Low(x);
    }

    method PutMac(at: nat, m: Mac)
      requires Valid() && at + 6 <= UDP_START
      modifies buf
      ensures buf[at..at + 6] == m && buf[..at] == old(buf[..at]) && buf[at + 6..] == old(buf[at + 6..])
    {
      var i := 0;
      while i < 6
        invariant i <= 6 && buf[at..at + i] == m[..i] && buf[..at] == old(buf[..at]) && buf[at + 6..] == old(buf[at + 6..])
      {
        buf[at + i] := m[i];
        i := i + 1;
      }
      assert m[..6] == m;
    }

    /** The link header: receiver, sender and protocol. */
    method PutLink(lla: Mac, mac: Mac)
      requires Valid()
      modifies buf
      ensures buf[..IP_START][..6] == lla && buf[..IP_START][6..12] == mac && buf[..IP_START][12..] == Pair(0x0800)
      ensures buf[IP_START..] == old(buf[IP_START..])
    {
      hide Pair;
      ghost var was := buf[..];
      PutMac(0, lla);
      ghost var one := buf[..];
      assert buf[0..6] == buf[..6];
      PutMac(6, mac);
      ghost var two := buf[..];
      ghost var front := buf[..12];
      assert front[..6] == buf[..6] && front[6..] == buf[6..12];
      PutWord(12, 0x0800);
      assert buf[..IP_START] == front + Pair(0x0800);
      SuffixSlices(was, one, 6, IP_START, |was|);
      SuffixSlices(one, two, 12, IP_START, |was|);
      assert two[IP_START..] == was[IP_START..] == buf[..][IP_START..];
    }

    method PutAddrs(src: Addr, dst: Addr)
      requires Valid()
      modifies buf
      ensures buf[26..30] == src && buf[30..34] == dst
      ensures buf[..26] == old(buf[..26]) && buf[UDP_START..] == old(buf[UDP_START..])
    {
      buf[26], buf[27], buf[28], buf[29] := src[0], src[1], src[2], src[3];
      buf[30], buf[31], buf[32], buf[33] := dst[0], dst[1], dst[2], dst[3];
    }

    method PutStart(length: nat, proto: Octet)
      requires Valid() && length <= 0xffff
      modifies buf
      ensures buf[14..26] == [0x45, 0, High(length), Low(length), 0, 0, 0, 0, 8, proto, 0, 0]
      ensures buf[..IP_START] == old(buf[..IP_START]) && buf[26..] == old(buf[26..])
    {
      hide High, Low;
      buf[14], buf[15], buf[16], buf[17] := 0x45, 0, High(length), Low(length);
      buf[18], buf[19], buf[20], buf[21] := 0, 0, 0, 0;
      buf[22], buf[23], buf[24], buf[25] := 8, proto, 0, 0;
    }

    /** The IP header, with no checksum yet. */
    method PutHeader(length: nat, proto: Octet, src: Addr, dst: Addr)
      requires Valid() && length <= 0xffff
      modifies buf
      ensures buf[IP_START..UDP_START] == Header(length, proto, 0, src, dst)
      ensures buf[..IP_START] == old(buf[..IP_START]) && buf[UDP_START..] == old(buf[UDP_START..])
    {
      hide High, Low;
      PairOfZero();
      PutStart(length, proto);
      ghost var was := buf[..];
      assert was[26..][8..] == was[UDP_START..];
      PutAddrs(src, dst);
      Slices(was, buf[..], 26, 14, 26);
      Slices(was, buf[..], 26, 0, IP_START);
      assert buf[IP_START..UDP_START] == buf[14..26] + buf[26..30] + buf[30..34];
    }

    /** The sum over protocol and addresses of the IP header in the packet. */
    method PsudoCheck() returns (check: nat)
      requires Valid()
      ensures check == buf[23] as nat + Sum(Words(buf[26..34]))
      ensures check < 0x10_0000
    {
      check := buf[23] as nat;
      var checkhi := 0;
      checkhi := checkhi + buf[26] as nat; check := check + buf[27] as nat;
      checkhi := checkhi + buf[28] as nat; check := check + buf[29] as nat;
      checkhi := checkhi + buf[30] as nat; check := check + buf[31] as nat;
      checkhi := checkhi + buf[32] as nat; check := check + buf[33] as nat;
      check := check + checkhi * 0x100;
      FourWords(buf[26..34]);
    }

    /** The IP header with its checksum. */
    method FillHeader(length: nat, proto: Octet, src: Addr, dst: Addr)
      requires Valid() && length <= 0xffff
      modifies buf
      ensures Verifies(buf[IP_START..UDP_START])
      ensures exists check | 0 <= check <= 0xffff :: buf[IP_START..UDP_START] == Header(length, proto, check, src, dst)
      ensures buf[..IP_START] == old(buf[..IP_START]) && buf[UDP_START..] == old(buf[UDP_START..])
    {
      hide Header, Verifies, Pair;
      PutHeader(length, proto, src, dst);
      var check := IpChksum(buf[IP_START..UDP_START], 20, 0);
      HeaderVerifies(length, proto, src, dst);
      ghost var was := buf[..];
      PutWord(24, 0xffff - check);
      HeaderSealed(was, buf[..], length, proto, 0xffff - check, src, dst);
    }

    method ResolveLink(dst: Addr, arp: ArpLayer) returns (lla: Option<Mac>)
      ensures lla == LinkOf(arp.table, dst)
    {
      if dst == BROADCAST { return Some(ALL_ONES); }
      var i := arp.Find(dst);
      if i >= |arp.table| || !arp.table[i].Known() { return None; }
      return Some(arp.table[i].lla);
    }

    /** `packet_fill_ip`: fails, writing nothing, exactly when the link address is not known; else the
        packet has a header that sums to all ones. */
    method FillIp(dst: Addr, payload: nat, proto: Octet, arp: ArpLayer, mac: Mac, src: Addr) returns (failed: bool)
      requires Valid()
      modifies this, buf
      ensures failed <==> LinkOf(arp.table, dst) == None
      ensures failed ==> buf[..] == old(buf[..]) && size == old(size)
      ensures !failed ==> size == 14 + IpLength(payload) && Framed(old(buf[..]), buf[..], dst, payload, proto, arp.table, mac, src)
    {
      hide Header, Verifies, IpLength, LinkOf, Pair;
      var lla := ResolveLink(dst, arp);
      if lla.None? { return true; }
      PutLink(lla.value, mac);
      FillHeader(IpLength(payload), proto, src, dst);
      assert buf[..IP_START][..6] == buf[..6] && buf[..IP_START][6..12] == buf[6..12];
      EtherType(0x0800);
      assert buf[..IP_START][12..] == buf[12..14];
      assert lla == Some(buf[..6]);
      assert old(buf[IP_START..])[20..] == old(buf[UDP_START..]);
      HeaderFields(buf[..], IpLength(payload), proto, src, dst);
      size := 14 + IpLength(payload);
      failed := false;
    }

    /** `packet_fill_udp`: a datagram of even length verifies with its pseudo header. */
    method FillUdp(sport: nat, dst: Addr, dport: nat, msgSize: nat, arp: ArpLayer, mac: Mac, src: Addr)
      returns (failed: bool)
      requires Valid() && sport <= 0xffff && dport <= 0xffff
      modifies this, buf
      ensures failed <==> LinkOf(arp.table, dst) == None
      ensures !failed ==>
        var n := UdpLength(msgSize);
        && n == 8 + Carried(msgSize) && size == 34 + n && buf[42..] == old(buf[42..])
        && LinkOf(arp.table, dst) == Some(buf[..6]) && buf[6..12] == mac && buf[12..14] == [8, 0]
        && Verifies(buf[IP_START..UDP_START]) && Says(buf[..], 20 + n, 17, src, dst)
        && buf[34..36] == Pair(sport) && buf[36..38] == Pair(dport) && buf[38..40] == Pair(n)
        && Word(buf[40], buf[41]) != 0
        && (n % 2 == 0 ==> Verifies(Pseudo(src, dst, 17, n) + buf[UDP_START..UDP_START + n]))
    {
      hide Header, Verifies, IpLength, LinkOf, Pair, Pseudo, Words, Sum, Added, Norm, UdpLength, Says, Word;
      Lengths(msgSize);
      var n := UdpLength(msgSize);
      PutUdpHeader(sport, dport, n);
      ghost var before := buf[..];
      failed := FillIp(dst, n, 17, arp, mac, src);
      if failed { return; }
      ghost var was := buf[..];
      UdpKept(before, was);
      HeaderFields(was, IpLength(n), 17, src, dst);
      var pseudo := PsudoCheck();
      var sum := IpChksum(buf[UDP_START..], n, pseudo + n);
      var check := if sum != 0xffff then 0xffff - sum else sum;
      PutWord(40, check);
      FrontKept(was, buf[..], 20 + n, 17, src, dst);
      Slices(was, buf[..], 40, 34, 36);
      Slices(was, buf[..], 40, 36, 38);
      Slices(was, buf[..], 40, 38, 40);
      assert buf[40..42][0] == buf[40] && buf[40..42][1] == buf[41];
      if n % 2 == 0 { UdpSealed(was, buf[..], src, dst, n, sum, check); }
    }

    /** The UDP header, with no checksum yet. */
    method PutUdpHeader(sport: nat, dport: nat, n: nat)
      requires Valid() && sport <= 0xffff && dport <= 0xffff && n <= 0xffff
      modifies buf
      ensures buf[34..36] == Pair(sport) && buf[36..38] == Pair(dport) && buf[38..40] == Pair(n) && buf[40..42] == [0, 0]
      ensures buf[..UDP_START] == old(buf[..UDP_START]) && buf[42..] == old(buf[42..])
    {
      hide High, Low;
      assert High(0) == 0 && Low(0) == 0 by { PairOfZero(); }
      buf[34], buf[35], buf[36], buf[37] := High(sport), Low(sport), High(dport), Low(dport);
      buf[38], buf[39], buf[40], buf[41] := High(n), Low(n), 0, 0;
    }
  }

  lemma HeaderFields(s: seq<Octet>, length: nat, proto: Octet, src: Addr, dst: Addr)
    requires length <= 0xffff && |s| >= UDP_START
    requires exists check | 0 <= check <= 0xffff :: s[IP_START..UDP_START] == Header(length, proto, check, src, dst)
    ensures s[23] == proto && s[26..30] == src && s[30..34] == dst && s[26..34] == src + dst
    ensures Says(s, length, proto, src, dst)
  {
    LengthWord(length);
    hide High, Low, Word;
    var h := s[IP_START..UDP_START];
    assert h[0] == s[14] && h[2] == s[16] && h[3] == s[17] && h[8] == s[22] && h[9] == s[23];
    forall i | 0 <= i < 8 ensures s[26 + i] == (src + dst)[i] { assert h[12 + i] == s[26 + i]; }
    assert s[26..34] == src + dst;
    assert s[26..30] == s[26..34][..4] && s[30..34] == s[26..34][4..];
  }

  /** What a receiver reads in an IP header (RFC 791 section 3.1): version 4 and five words, length, eight hops to live,
      protocol, and the addresses. */
  predicate Says(s: seq<Octet>, length: nat, proto: Octet, src: Addr, dst: Addr) {
    && |s| >= UDP_START && s[14] == 0x45 && Word(s[16], s[17]) == length && s[22] == 8 && s[23] == proto
    && s[26..30] == src && s[30..34] == dst
  }

  /** Link and IP header are those before the UDP checksum was written. */
  lemma FrontKept(was: seq<Octet>, now: seq<Octet>, length: nat, proto: Octet, src: Addr, dst: Addr)
    requires |was| == |now| >= 40 && now[..40] == was[..40] && was[12..14] == [8, 0] && Says(was, length, proto, src, dst)
    ensures now[..6] == was[..6] && now[6..12] == was[6..12] && now[12..14] == [8, 0] && now[14..34] == was[14..34]
    ensures now[26..30] == was[26..30] && now[30..34] == was[30..34] && Says(now, length, proto, src, dst)
  {
    Slices(was, now, 40, 0, 6);
    Slices(was, now, 40, 6, 12);
    Slices(was, now, 40, 12, 14);
    Slices(was, now, 40, 14, 34);
    Slices(was, now, 40, 26, 30);
    Slices(was, now, 40, 30, 34);
    assert now[..6] == now[0..6] && was[..6] == was[0..6];
    forall i | 0 <= i < 40 ensures now[i] == was[i] { assert now[..40][i] == was[..40][i]; }
  }

  lemma LengthWord(x: nat)
    requires x <= 0xffff
    ensures Word(High(x), Low(x)) == x
  {
  }

  lemma UdpKept(was: seq<Octet>, now: seq<Octet>)
    requires |now| == |was| >= UDP_START + 8 && now[UDP_START..] == was[UDP_START..]
    ensures now[34..36] == was[34..36] && now[36..38] == was[36..38] && now[38..40] == was[38..40]
    ensures now[40..42] == was[40..42] && now[42..] == was[42..]
  {
    SuffixSlices(was, now, UDP_START, 34, 36);
    SuffixSlices(was, now, UDP_START, 36, 38);
    SuffixSlices(was, now, UDP_START, 38, 40);
    SuffixSlices(was, now, UDP_START, 40, 42);
    SuffixSlices(was, now, UDP_START, 42, |was|);
  }

  lemma SuffixSlices(was: seq<Octet>, now: seq<Octet>, k: nat, a: nat, b: nat)
    requires k <= a <= b <= |was| == |now| && was[k..] == now[k..]
    ensures was[a..b] == now[a..b]
  {
    forall i | a <= i < b ensures was[i] == now[i] { assert was[i] == was[k..][i - k] && now[i] == now[k..][i - k]; }
  }

  lemma AddedPrefix(s: seq<Octet>, n: nat)
    requires n <= |s| && n % 2 == 0 && n > 0
    ensures Added(s, n) == Added(s[..n], n)
  {
    Every2Prefix(s, 0, n / 2, n);
    Every2Prefix(s, 1, n / 2, n);
  }

  lemma Slices(was: seq<Octet>, now: seq<Octet>, k: nat, a: nat, b: nat)
    requires a <= b <= k <= |was| && k <= |now| && was[..k] == now[..k]
    ensures was[a..b] == now[a..b]
  {
    forall i | a <= i < b ensures was[i] == now[i] { assert was[i] == was[..k][i] && now[i] == now[..k][i]; }
  }

  /** The datagram once its checksum is in place. */
  lemma UdpSealed(was: seq<Octet>, now: seq<Octet>, src: Addr, dst: Addr, n: nat, sum: nat, check: nat)
    requires |now| == |was| >= UDP_START + UDP_MTU && 8 <= n <= UDP_MTU && n % 2 == 0 && check <= 0xffff
    requires was[40..42] == [0, 0] && now[40..42] == Pair(check) && now[..40] == was[..40] && now[42..] == was[42..]
    requires sum == Norm(Sum(Words(src + dst)) + 17 + n + Added(was[UDP_START..], n))
    requires check == if sum != 0xffff then 0xffff - sum else sum
    ensures Verifies(Pseudo(src, dst, 17, n) + now[UDP_START..UDP_START + n])
  {
    hide Verifies, Pair, Pseudo, Words, Sum, Added, Norm;
    var s, head, tail := was[UDP_START..], was[34..40], was[42..UDP_START + n];
    assert s[..n] == head + [0, 0] + tail by { assert s[6..8] == was[40..42]; }
    AddedPrefix(s, n);
    var c := DatagramVerifies(src, dst, head, tail);
    Slices(was, now, 40, 34, 40);
    assert now[42..UDP_START + n] == now[42..][..n - 8] == was[42..][..n - 8] == tail;
    assert now[UDP_START..UDP_START + n] == now[34..40] + now[40..42] + now[42..UDP_START + n];
  }

  lemma PairOfZero()
    ensures High(0) == 0 && Low(0) == 0
  {
  }

  lemma HeaderSealed(was: seq<Octet>, now: seq<Octet>, length: nat, proto: Octet, check: nat, src: Addr, dst: Addr)
    requires length <= 0xffff && check <= 0xffff && |now| == |was| >= UDP_START
    requires was[IP_START..UDP_START] == Header(length, proto, 0, src, dst)
    requires now[24..26] == Pair(check) && now[..24] == was[..24] && now[26..] == was[26..]
    ensures now[IP_START..UDP_START] == Header(length, proto, check, src, dst)
    ensures now[..IP_START] == was[..IP_START] && now[UDP_START..] == was[UDP_START..]
  {
    hide High, Low;
    var h, r := Header(length, proto, 0, src, dst), now[IP_START..UDP_START];
    forall i | 0 <= i < 20 ensures r[i] == Header(length, proto, check, src, dst)[i] {
      assert r[i] == now[IP_START + i] && h[i] == was[IP_START..UDP_START][i] == was[IP_START + i];
      if i < 10 {
        assert now[..24][IP_START + i] == was[..24][IP_START + i];
      } else if i < 12 {
        assert r[i] == now[24..26][i - 10];
      } else {
        assert now[26..][i - 12] == was[26..][i - 12];
      }
    }
  }

  lemma FourWords(s: seq<Octet>)
    requires |s| == 8
    ensures Sum(Words(s)) == Word(s[0], s[1]) + Word(s[2], s[3]) + Word(s[4], s[5]) + Word(s[6], s[7])
  {
    WordsAdded(s, 4);
    assert Every2(s, 0, 4) == Every2(s, 0, 2) + s[4] as nat + s[6] as nat;
    assert Every2(s, 1, 4) == Every2(s, 1, 2) + s[5] as nat + s[7] as nat;
  }

  /** Link header and IP header in place, everything after them as it was. */
  ghost predicate Framed(was: seq<Octet>, now: seq<Octet>, dst: Addr, payload: nat, proto: Octet,
                         arp: seq<ArpEntry>, mac: Mac, src: Addr)
  {
    && |now| == |was| >= UDP_START && now[UDP_START..] == was[UDP_START..]
    && LinkOf(arp, dst) == Some(now[..6]) && now[6..12] == mac && now[12..14] == [8, 0]
    && Verifies(now[IP_START..UDP_START]) && Says(now, IpLength(payload), proto, src, dst)
    && exists check | 0 <= check <= 0xffff :: now[IP_START..UDP_START] == Header(IpLength(payload), proto, check, src, dst)
  }
}
