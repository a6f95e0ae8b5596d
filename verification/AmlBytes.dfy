/** Package lengths and names as they stand in AML byte code (ACPI section 20.2): what kernel/aml.cpp
    reads them as, and where they end. */
module AmlBytes {
  import opened Wrappers
  import opened AmlNames

  // ----- Package lengths -----

  /** PkgLength: a lead byte whose top two bits count the bytes that follow. */
  function PkgLength(s: seq<Byte>): Option<(nat, nat)> {
    if s == [] then None
    else
      var n := s[0] / 64;
      if |s| <= n then None
      else if n == 0 then Some((s[0] % 64, 1))
      else Some((s[0] % 16 + 16 * Little(s[1..1 + n]), 1 + n))
  }

  function Little(s: seq<Byte>): nat {
    if s == [] then 0 else s[0] + 256 * Little(s[1..])
  }

  /** The bytes of `x`, lowest first. */
  function LittleOf(x: nat, n: nat): (s: seq<Byte>)
    ensures |s| == n
    decreases n
  {
    if n == 0 then [] else [x % 256] + LittleOf(x / 256, n - 1)
  }

  function Pow256(n: nat): nat { if n == 0 then 1 else 256 * Pow256(n - 1) }

  lemma {:induction false} LittleRoundTrip(x: nat, n: nat)
    requires x < Pow256(n)
    ensures Little(LittleOf(x, n)) == x
    decreases n
  {
    if n > 0 {
      LittleRoundTrip(x / 256, n - 1);
      assert LittleOf(x, n)[1..] == LittleOf(x / 256, n - 1);
    }
  }

  /** A length fits one byte, or four bits and `n` bytes more. */
  predicate PkgFits(len: nat, n: nat) { n <= 3 && if n == 0 then len < 64 else len / 16 < Pow256(n) }

  function PkgBytes(len: nat, n: nat): seq<Byte>
    requires PkgFits(len, n)
  {
    if n == 0 then [len] else [64 * n + len % 16] + LittleOf(len / 16, n)
  }

  /** Every encoding of a length is read back, whatever follows it. */
  lemma PkgRoundTrip(len: nat, n: nat, rest: seq<Byte>)
    requires PkgFits(len, n)
    ensures PkgLength(PkgBytes(len, n) + rest) == Some((len, 1 + n))
  {
    if n > 0 {
      LittleRoundTrip(len / 16, n);
      assert (PkgBytes(len, n) + rest)[1..1 + n] == LittleOf(len / 16, n);
      assert (64 * n + len % 16) / 64 == n && (64 * n + len % 16) % 16 == len % 16;
    }
  }

  lemma {:induction false} LittleSnoc(s: seq<Byte>, b: Byte)
    ensures Little(s + [b]) == Little(s) + Pow256(|s|) * b
    decreases |s|
  {
    if s == [] {
      LittleCons(b, []);
    } else {
      LittleSnoc(s[1..], b);
      LittleCons(s[0], s[1..] + [b]);
      assert [s[0]] + (s[1..] + [b]) == s + [b];
      Shifted(Little(s[1..]), Pow256(|s| - 1), b);
    }
  }

  lemma Shifted(x: nat, p: nat, b: nat)
    ensures 256 * (x + p * b) == 256 * x + (256 * p) * b
  {
  }

  lemma Littles(s: seq<Byte>)
    ensures |s| > 1 ==> Little(s[1..2]) == s[1] as nat
    ensures |s| > 2 ==> Little(s[1..3]) == s[1] as nat + 256 * s[2] as nat
    ensures |s| > 3 ==> Little(s[1..4]) == s[1] as nat + 256 * s[2] as nat + 0x1_0000 * s[3] as nat
  {
    if |s| > 1 { LittleCons(s[1], []); }
    if |s| > 2 { LittleCons(s[2], []); LittleCons(s[1], [s[2]]); assert s[1..3] == [s[1]] + [s[2]]; }
    if |s| > 3 {
      LittleCons(s[3], []);
      LittleCons(s[2], [s[3]]);
      LittleCons(s[1], [s[2], s[3]]);
      assert s[1..4] == [s[1]] + [s[2], s[3]] && [s[2]] + [s[3]] == [s[2], s[3]];
    }
  }

  lemma LittleCons(a: Byte, s: seq<Byte>)
    ensures Little([a] + s) == a as nat + 256 * Little(s)
  {
    assert ([a] + s)[1..] == s;
  }

  // ----- Names -----

  function SegAt(data: seq<Byte>, i: nat): Seg
    requires i + 4 <= |data|
  {
    Seg(data[i], data[i + 1], data[i + 2], data[i + 3])
  }

  predicate LeadChar(c: int) { 0x41 <= c <= 0x5a || c == 0x5f }

  /** Past any run of `^`, which the reader takes no notice of. */
  function SkipCarets(data: seq<Byte>, i: nat, end: nat): (m: nat)
    requires end <= |data|
    ensures i <= m && (i <= end ==> m <= end)
    decreases end - i
  {
    if i < end && data[i] == 0x5e then SkipCarets(data, i + 1, end) else i
  }

  /** `n` name segments from `i`. */
  function SegRun(data: seq<Byte>, i: nat, n: nat, end: nat): (r: Option<seq<Seg>>)
    requires end <= |data|
    ensures r.Some? ==> |r.value| == n && (n > 0 ==> i < end) && forall k :: 0 <= k < n ==> r.value[k].a != 0
    decreases n
  {
    if n == 0 then Some([])
    else if end < i + 4 || !LeadChar(data[i]) then None
    else
      match SegRun(data, i + 4, n - 1, end)
      case None => None
      case Some(r) => Some([SegAt(data, i)] + r)
  }

  function Then(got: seq<Seg>, r: Option<seq<Seg>>): Option<seq<Seg>> {
    match r case None => None case Some(s) => Some(got + s)
  }

  lemma ThenNone(r: Option<seq<Seg>>)
    ensures Then([], r) == r
  {
    if r.Some? { assert [] + r.value == r.value; }
  }

  lemma ThenDone(data: seq<Byte>, i: nat, end: nat, got: seq<Seg>)
    requires end <= |data|
    ensures Then(got, SegRun(data, i, 0, end)) == Some(got)
  {
    assert got + [] == got;
  }

  lemma ThenNext(data: seq<Byte>, i: nat, n: nat, end: nat, got: seq<Seg>)
    requires end <= |data| && n > 0
    ensures Then(got, SegRun(data, i, n, end)) ==
      if end < i + 4 || !LeadChar(data[i]) then None
      else Then(got + [SegAt(data, i)], SegRun(data, i + 4, n - 1, end))
  {
    if i + 4 <= end && SegRun(data, i, n, end).Some? {
      var r := SegRun(data, i + 4, n - 1, end).value;
      assert got + ([SegAt(data, i)] + r) == got + [SegAt(data, i)] + r;
    }
  }

  /** A name as written: from the root or not, its segments, and where it ends. */
  datatype Written = Written(root: bool, segs: seq<Seg>, next: nat)

  /** The name written at `i`, if it is one the reader accepts: null names and dual names are not. */
  function NameAt(data: seq<Byte>, i: nat, end: nat): (r: Option<Written>)
    requires end <= |data|
    ensures r.Some? ==> i < r.value.next && i < end && 0 < |r.value.segs| && forall s :: s in r.value.segs ==> s.a != 0
  {
    if end <= i then None
    else
      var root := data[i] == 0x5c;
      var m := if root then i + 1 else SkipCarets(data, i, end);
      if end <= m || data[m] == 0 || data[m] == 0x2e then None
      else if data[m] == 0x2f then
        if end <= m + 1 || data[m + 1] == 0 then None
        else
          match SegRun(data, m + 2, data[m + 1], end)
          case None => None
          case Some(r) => Some(Written(root, r, m + 2 + 4 * |r|))
      else
        match SegRun(data, m, 1, end)
        case None => None
        case Some(r) => Some(Written(root, r, m + 4))
  }

  /** Where a failed or successful `name_seg` leaves the reader. */
  function PastSeg(data: seq<Byte>, i: nat, end: nat): (r: nat)
    requires end <= |data|
    ensures i <= r
  {
    if end <= i || !LeadChar(data[i]) then i else if i + 4 <= end then i + 4 else end
  }

  /** The same for up to `n` segments, of which the first that fails is the last read. */
  function PastSegs(data: seq<Byte>, i: nat, n: nat, end: nat): (r: nat)
    requires end <= |data|
    ensures i <= r && (SegRun(data, i, n, end).Some? ==> r == i + 4 * n)
    decreases n
  {
    if n == 0 then i
    else if end < i + 4 || !LeadChar(data[i]) then PastSeg(data, i, end)
    else PastSegs(data, i + 4, n - 1, end)
  }

  /** Where `name_string` leaves the reader, whether it finds a name or not. */
  function PastName(data: seq<Byte>, i: nat, end: nat): (r: nat)
    requires end <= |data|
    ensures i <= r
    ensures match NameAt(data, i, end) case None => true case Some(w) => r == w.next
  {
    if end <= i then i
    else
      var m := if data[i] == 0x5c then i + 1 else SkipCarets(data, i, end);
      if end <= m then m
      else if data[m] == 0 then m + 1
      else if data[m] == 0x2e then
        PastSegs(data, m + 1, 2, end)
      else if data[m] == 0x2f then
        if end <= m + 1 then m + 1 else PastSegs(data, m + 2, data[m + 1], end)
      else PastSegs(data, m, 1, end)
  }
}
