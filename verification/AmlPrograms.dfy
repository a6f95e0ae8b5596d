/** AML programs and the bytes they are written as (ACPI section 20.2), for the part of the language that
    kernel/aml.cpp reads. The main result is that the reader reads every such program, and no further. */
module AmlPrograms {
  import opened Wrappers
  import opened AmlNames
  import opened AmlBytes
  import opened AmlGrammar
  import opened AmlPaths

  // ----- Packages -----

  /** A package whose length takes `n` bytes after the first can hold `size` bytes. */
  predicate Holds(n: nat, size: nat) { PkgFits(1 + n + size, n) }

  function Pack(n: nat, body: seq<Byte>): (s: seq<Byte>)
    requires Holds(n, |body|)
    ensures |s| == 1 + n + |body|
  {
    PkgBytes(1 + n + |body|, n) + body
  }

  lemma PackageRead(data: seq<Byte>, i: nat, n: nat, body: seq<Byte>, end: nat)
    requires Holds(n, |body|) && At(data, i, Pack(n, body)) && i + |Pack(n, body)| <= end <= |data|
    ensures Package(data, i, end) == Some((i + 1 + n + |body|, i + 1 + n)) && At(data, i + 1 + n, body)
  {
    hide Package, At, Holds;
    PackParts(data, i, n, body);
    hide Pack, PkgBytes;
    LengthRead(data, i, n, |body|, end);
  }

  lemma PackParts(data: seq<Byte>, i: nat, n: nat, body: seq<Byte>)
    requires Holds(n, |body|) && At(data, i, Pack(n, body))
    ensures At(data, i, PkgBytes(1 + n + |body|, n)) && At(data, i + 1 + n, body)
  {
    hide At, PkgFits;
    HeadSize(n, |body|);
    AtParts(data, i, PkgBytes(1 + n + |body|, n), body);
  }

  lemma LengthRead(data: seq<Byte>, i: nat, n: nat, size: nat, end: nat)
    requires Holds(n, size) && i + 1 + n + size <= end <= |data| && At(data, i, PkgBytes(1 + n + size, n))
    ensures Package(data, i, end) == Some((i + 1 + n + size, i + 1 + n))
  {
    hide PkgFits;
    var len := 1 + n + size;
    HeadSize(n, size);
    PkgRoundTrip(len, n, data[i + 1 + n..end]);
    LengthAt(data, i, PkgBytes(len, n), end, len, 1 + n);
  }

  lemma LengthAt(data: seq<Byte>, i: nat, head: seq<Byte>, end: nat, len: nat, bytes: nat)
    requires head != [] && At(data, i, head) && i + |head| <= end <= |data|
    requires PkgLength(head + data[i + |head|..end]) == Some((len, bytes))
    ensures Package(data, i, end) == Some((i + len, i + bytes))
  {
    hide PkgLength;
    Regrouped(data, i, i + |head|, end);
  }

  lemma HeadSize(n: nat, size: nat)
    requires Holds(n, size)
    ensures |PkgBytes(1 + n + size, n)| == 1 + n
  {
  }

  lemma Regrouped(data: seq<Byte>, i: nat, m: nat, end: nat)
    requires i <= m <= end <= |data|
    ensures data[i..end] == data[i..m] + data[m..end]
  {
  }

  // ----- Terms -----

  /** What may stand as an argument. */
  datatype Term =
    | LocalObj(k: nat)
    | Const(c: Byte)
    | Number(bytes: seq<Byte>)
    | Text(chars: seq<Byte>)
    | Refer(path: Path)
    | Unary(op: Byte, a: Term)
    | Binary(op: Byte, a: Term, b: Term)
    | Ternary(op: Byte, a: Term, b: Term, target: Term)
    | SizeOf(a: Term)
    | Buffer(n: nat, size: Term, bytes: seq<Byte>)
    | PackageOf(n: nat, count: Byte, elements: Terms)

  datatype Terms = NoTerms | Terms(head: Term, tail: Terms)

  /** The prefix of a number of so many bytes. */
  function NumberOp(size: nat): Option<Byte> {
    if size == 1 then Some(0x0a) else if size == 2 then Some(0x0b) else if size == 4 then Some(0x0c)
    else if size == 8 then Some(0x0e) else None
  }

  /** Every part of the term can be written, operators are ones the reader knows, and what must be a
      super name is a local or a name; a target may also be none, written as zero. */
  predicate Fits(t: Term)
    decreases t, 0
  {
    match t
    case LocalObj(k) => k < 15
    case Const(c) => c in {0x00, 0x01, 0xff}
    case Number(bytes) => NumberOp(|bytes|).Some?
    case Text(chars) => forall k :: 0 <= k < |chars| ==> chars[k] != 0
    case Refer(path) => path.Fits()
    case Unary(op, a) => op in {0x83, 0x92} && Fits(a)
    case Binary(op, a, b) => op in {0x90, 0x91, 0x93, 0x94, 0x95} && Fits(a) && Fits(b)
    case Ternary(op, a, b, target) =>
      op in {0x72, 0x88} && Fits(a) && Fits(b) && Fits(target) && (IsSuper(target) || target == Const(0))
    case SizeOf(a) => Fits(a) && IsSuper(a)
    case Buffer(n, size, bytes) => Fits(size) && Holds(n, |Bytes(size)| + |bytes|)
    case PackageOf(n, count, elements) => AllFit(elements) && Holds(n, 1 + |AllBytes(elements)|)
  }

  predicate IsSuper(t: Term) { t.LocalObj? || t.Refer? }

  predicate AllFit(ts: Terms)
    decreases ts, 0
  {
    match ts case NoTerms => true case Terms(t, rest) => Fits(t) && AllFit(rest)
  }

  function Bytes(t: Term): (s: seq<Byte>)
    requires Fits(t)
    ensures |s| > 0
    decreases t, 1
  {
    match t
    case LocalObj(k) => [0x60 + k]
    case Const(c) => [c]
    case Number(bytes) => [NumberOp(|bytes|).value] + bytes
    case Text(chars) => [0x0d] + (chars + [0])
    case Refer(path) => path.Bytes()
    case Unary(op, a) => [op] + Bytes(a)
    case Binary(op, a, b) => [op] + (Bytes(a) + Bytes(b))
    case Ternary(op, a, b, target) => [op] + (Bytes(a) + (Bytes(b) + Bytes(target)))
    case SizeOf(a) => [0x87] + Bytes(a)
    case Buffer(n, size, bytes) => [0x11] + Pack(n, Bytes(size) + bytes)
    case PackageOf(n, count, elements) => [0x12] + Pack(n, [count] + AllBytes(elements))
  }

  function AllBytes(ts: Terms): seq<Byte>
    requires AllFit(ts)
    decreases ts, 1
  {
    match ts case NoTerms => [] case Terms(t, rest) => Bytes(t) + AllBytes(rest)
  }

  // ----- What an opcode is followed by -----

  /** The order in which the reader tries its alternatives does not matter: they start with different bytes. */
  lemma DataRefIsTermArg(data: seq<Byte>, i: nat, end: nat)
    requires end <= |data|
    ensures DataRef(data, i, end) == TermArg(data, i, end)
  {
  }

  lemma ElementIsTermArg(data: seq<Byte>, i: nat, end: nat)
    requires end <= |data|
    ensures Element(data, i, end) == TermArg(data, i, end)
  {
    DataRefIsTermArg(data, i, end);
    if NameEnd(data, i, end).Some? { NameStarts(data, i, end); }
  }

  /** The bytes a name may start with. */
  lemma NameStarts(data: seq<Byte>, i: nat, end: nat)
    requires end <= |data| && NameEnd(data, i, end).Some?
    ensures i < end && (LeadChar(data[i]) || data[i] in {0x2f, 0x5c, 0x5e})
    ensures TermArg(data, i, end) == TermObj(data, i, end) == NameEnd(data, i, end)
  {
    assert i < end && (LeadChar(data[i]) || data[i] in {0x2f, 0x5c, 0x5e});
    assert Computational(data, i, end) == None && DataObject(data, i, end) == None && Object(data, i, end) == None;
  }

  /** An operator is the same argument and object, and says by itself what follows. */
  lemma AfterOperator(data: seq<Byte>, i: nat, end: nat)
    requires i < end <= |data|
    ensures data[i] in OPERATORS ==> TermArg(data, i, end) == TermObj(data, i, end) == TypeTwo(data, i, end)
    ensures data[i] in {0x83, 0x92} ==> TypeTwo(data, i, end) == TermArg(data, i + 1, end)
    ensures data[i] in {0x90, 0x91, 0x93, 0x94, 0x95} ==> TypeTwo(data, i, end) == TwoArgs(data, i + 1, end)
    ensures data[i] in {0x72, 0x88} ==> TypeTwo(data, i, end) == TwoArgsAndTarget(data, i + 1, end)
    ensures data[i] == 0x87 ==> TypeTwo(data, i, end) == SuperName(data, i + 1, end)
  {
    if data[i] in OPERATORS {
      assert Computational(data, i, end) == None && DataObject(data, i, end) == None && Object(data, i, end) == None;
      if TypeTwo(data, i, end) == None { assert TypeOne(data, i, end) == None; }
    }
  }

  const OPERATORS: set<Byte> := {0x72, 0x83, 0x87, 0x88, 0x90, 0x91, 0x92, 0x93, 0x94, 0x95}

  lemma AfterData(data: seq<Byte>, i: nat, end: nat)
    requires end <= |data| && Computational(data, i, end).Some?
    ensures TermArg(data, i, end) == Computational(data, i, end)
  {
    assert DataObject(data, i, end) == Computational(data, i, end);
  }

  lemma AfterBuffer(data: seq<Byte>, i: nat, pEnd: nat, n: nat, end: nat)
    requires i < end <= |data| && data[i] == 0x11 && Package(data, i + 1, end) == Some((pEnd, n))
    requires TermArg(data, n, end).Some?
    ensures TermArg(data, i, end) == Some(pEnd)
  {
    assert Computational(data, i, end) == Some(pEnd);
    AfterData(data, i, end);
  }

  lemma AfterPackage(data: seq<Byte>, i: nat, pEnd: nat, n: nat, end: nat)
    requires i < end <= |data| && data[i] == 0x12 && Package(data, i + 1, end) == Some((pEnd, n)) && n < end
    requires Elements(data, n + 1, pEnd, end).Some?
    ensures TermArg(data, i, end) == Elements(data, n + 1, pEnd, end)
  {
    PackageObject(data, i, pEnd, n, end);
    hide DataObject, Package;
    assert LocalOrArg(data, i, end) == None;
    assert TermArg(data, i, end) == DataObject(data, i, end);
  }

  lemma PackageObject(data: seq<Byte>, i: nat, pEnd: nat, n: nat, end: nat)
    requires i < end <= |data| && data[i] == 0x12 && Package(data, i + 1, end) == Some((pEnd, n)) && n < end
    ensures DataObject(data, i, end) == Elements(data, n + 1, pEnd, end)
  {
    assert data[i] != 0x11;
    assert Computational(data, i, end) == None;
    assert DataObject(data, i, end) == match Package(data, i + 1, end)
      case None => None
      case Some((pEnd, n)) => if n < end then Elements(data, n + 1, pEnd, end) else None;
  }

  lemma AfterTernary(data: seq<Byte>, i: nat, j: nat, k: nat, end: nat)
    requires i < end <= |data| && data[i] in {0x72, 0x88}
    requires TermArg(data, i + 1, end) == Some(j) && TermArg(data, j, end) == Some(k)
    ensures TermArg(data, i, end) == Target(data, k, end)
  {
    AfterOperator(data, i, end);
    AfterTwo(data, i + 1, j, end);
  }

  lemma AfterTwo(data: seq<Byte>, i: nat, j: nat, end: nat)
    requires end <= |data| && TermArg(data, i, end) == Some(j)
    ensures TwoArgs(data, i, end) == TermArg(data, j, end)
    ensures TwoArgsAndTarget(data, i, end) == match TermArg(data, j, end) case None => None case Some(k) => Target(data, k, end)
  {
    assert TwoArgs(data, i, end) == TermArg(data, j, end);
  }

  // ----- Every term is read -----

  /** `s` stands at `i`, before `end`. */
  predicate Stands(data: seq<Byte>, i: nat, s: seq<Byte>, end: nat) {
    At(data, i, s) && i + |s| <= end <= |data|
  }

  lemma ThenStands(data: seq<Byte>, i: nat, a: seq<Byte>, b: seq<Byte>, end: nat)
    requires Stands(data, i, a + b, end)
    ensures end <= |data| && Stands(data, i, a, end) && Stands(data, i + |a|, b, end)
  {
    AtParts(data, i, a, b);
  }

  lemma OpStands(data: seq<Byte>, i: nat, op: Byte, rest: seq<Byte>, end: nat)
    requires Stands(data, i, [op] + rest, end)
    ensures i < end <= |data| && data[i] == op && Stands(data, i + 1, rest, end)
  {
    AtOne(data, i, op, rest);
  }

  lemma {:induction false} TextEnds(data: seq<Byte>, i: nat, chars: seq<Byte>, end: nat)
    requires Stands(data, i, chars + [0], end) && forall k :: 0 <= k < |chars| ==> chars[k] != 0
    ensures StringEnd(data, i, end) == Some(i + |chars| + 1)
    decreases |chars|
  {
    if chars == [] {
      assert [] + [0] == [0] + [];
      OpStands(data, i, 0, [], end);
    } else {
      assert chars + [0] == [chars[0]] + (chars[1..] + [0]);
      OpStands(data, i, chars[0], chars[1..] + [0], end);
      TextEnds(data, i + 1, chars[1..], end);
    }
  }

  /** A local or a name is read as a super name, and anything that may be a target as a target. */
  lemma SuperRead(data: seq<Byte>, i: nat, t: Term, end: nat)
    requires Fits(t) && Stands(data, i, Bytes(t), end) && IsSuper(t)
    ensures SuperName(data, i, end) == Target(data, i, end) == Some(i + |Bytes(t)|)
  {
    match t
    case LocalObj(k) => AtOne(data, i, 0x60 + k, []);
    case Refer(path) => NameReadIff(data, i, path, end); NameStarts(data, i, end);
  }

  lemma TargetRead(data: seq<Byte>, i: nat, t: Term, end: nat)
    requires Fits(t) && Stands(data, i, Bytes(t), end) && (IsSuper(t) || t == Const(0))
    ensures Target(data, i, end) == Some(i + |Bytes(t)|)
  {
    if IsSuper(t) { SuperRead(data, i, t, end); } else { AtOne(data, i, 0, []); }
  }

  lemma PlainRead(data: seq<Byte>, i: nat, t: Term, end: nat)
    requires Fits(t) && Stands(data, i, Bytes(t), end)
    requires t.LocalObj? || t.Const? || t.Number? || t.Text? || t.Refer?
    ensures TermArg(data, i, end) == Some(i + |Bytes(t)|)
  {
    match t
    case LocalObj(k) => AtOne(data, i, 0x60 + k, []);
    case Const(c) => AtOne(data, i, c, []); AfterData(data, i, end);
    case Number(bytes) =>
      OpStands(data, i, NumberOp(|bytes|).value, bytes, end);
      AfterNumber(data, i, |bytes|, end);
    case Text(chars) =>
      OpStands(data, i, 0x0d, chars + [0], end);
      TextEnds(data, i + 1, chars, end);
      assert Computational(data, i, end) == Some(i + 2 + |chars|);
      AfterData(data, i, end);
    case Refer(path) => ReferRead(data, i, path, end);
  }

  lemma ReferRead(data: seq<Byte>, i: nat, path: Path, end: nat)
    requires path.Fits() && Stands(data, i, path.Bytes(), end)
    ensures TermArg(data, i, end) == TermObj(data, i, end) == Some(i + |path.Bytes()|)
  {
    hide TermArg, TermObj, Path.Bytes, Path.Body, NameAt;
    NameReadIff(data, i, path, end);
    NameStarts(data, i, end);
  }

  lemma AfterNumber(data: seq<Byte>, i: nat, size: nat, end: nat)
    requires i + size < end <= |data| && NumberOp(size) == Some(data[i])
    ensures TermArg(data, i, end) == Some(i + 1 + size)
  {
    assert Computational(data, i, end) == Value(i + 1, size, end);
    AfterData(data, i, end);
  }

  lemma UnaryRead(data: seq<Byte>, i: nat, t: Term, end: nat)
    requires Fits(t) && Stands(data, i, Bytes(t), end) && t.Unary?
    ensures Stands(data, i + 1, Bytes(t.a), end) && |Bytes(t)| == 1 + |Bytes(t.a)|
    ensures TermArg(data, i, end) == TermArg(data, i + 1, end)
  {
    hide PkgFits, At, Stands;
    OpStands(data, i, t.op, Bytes(t.a), end);
    AfterOperator(data, i, end);
  }

  lemma BinaryRead(data: seq<Byte>, i: nat, t: Term, end: nat)
    requires Fits(t) && Stands(data, i, Bytes(t), end) && t.Binary?
    ensures var j := i + 1 + |Bytes(t.a)|;
      && Stands(data, i + 1, Bytes(t.a), end) && Stands(data, j, Bytes(t.b), end) && |Bytes(t)| == j + |Bytes(t.b)| - i
      && (TermArg(data, i + 1, end) == Some(j) ==> TermArg(data, i, end) == TermArg(data, j, end))
  {
    hide PkgFits, At, Stands;
    OpStands(data, i, t.op, Bytes(t.a) + Bytes(t.b), end);
    ThenStands(data, i + 1, Bytes(t.a), Bytes(t.b), end);
    AfterOperator(data, i, end);
  }

  lemma TernaryStands(data: seq<Byte>, i: nat, t: Term, end: nat)
    requires Fits(t) && Stands(data, i, Bytes(t), end) && t.Ternary?
    ensures var j := i + 1 + |Bytes(t.a)|; var k := j + |Bytes(t.b)|;
      && i < end <= |data| && data[i] == t.op && |Bytes(t)| == k + |Bytes(t.target)| - i
      && Stands(data, i + 1, Bytes(t.a), end) && Stands(data, j, Bytes(t.b), end) && Stands(data, k, Bytes(t.target), end)
  {
    hide PkgFits, At, Stands;
    var j := i + 1 + |Bytes(t.a)|;
    OpStands(data, i, t.op, Bytes(t.a) + (Bytes(t.b) + Bytes(t.target)), end);
    ThenStands(data, i + 1, Bytes(t.a), Bytes(t.b) + Bytes(t.target), end);
    ThenStands(data, j, Bytes(t.b), Bytes(t.target), end);
  }

  lemma SizeOfRead(data: seq<Byte>, i: nat, t: Term, end: nat)
    requires Fits(t) && Stands(data, i, Bytes(t), end) && t.SizeOf?
    ensures TermArg(data, i, end) == Some(i + |Bytes(t)|)
  {
    hide PkgFits, At, Stands;
    OpStands(data, i, 0x87, Bytes(t.a), end);
    SuperRead(data, i + 1, t.a, end);
    AfterOperator(data, i, end);
  }

  lemma BufferStands(data: seq<Byte>, i: nat, t: Term, end: nat)
    requires Fits(t) && Stands(data, i, Bytes(t), end) && t.Buffer?
    ensures var j, pEnd := i + 2 + t.n, i + |Bytes(t)|;
      && i < end <= |data| && data[i] == 0x11 && Package(data, i + 1, end) == Some((pEnd, j))
      && Stands(data, j, Bytes(t.size), end)
  {
    hide PkgFits, At, Stands, Package, Pack;
    var body := Bytes(t.size) + t.bytes;
    OpStands(data, i, 0x11, Pack(t.n, body), end);
    PackageStands(data, i + 1, t.n, body, end);
    ThenStands(data, i + 2 + t.n, Bytes(t.size), t.bytes, end);
  }

  lemma PackageOfStands(data: seq<Byte>, i: nat, t: Term, end: nat)
    requires Fits(t) && Stands(data, i, Bytes(t), end) && t.PackageOf?
    ensures var j := i + 3 + t.n; var pEnd := j + |AllBytes(t.elements)|;
      && i < end <= |data| && data[i] == 0x12 && Package(data, i + 1, end) == Some((pEnd, j - 1)) && j <= end
      && Stands(data, j, AllBytes(t.elements), end) && pEnd == i + |Bytes(t)|
  {
    hide PkgFits, At, Stands, Package, Pack;
    var body := [t.count] + AllBytes(t.elements);
    OpStands(data, i, 0x12, Pack(t.n, body), end);
    PackageStands(data, i + 1, t.n, body, end);
    OpStands(data, i + 2 + t.n, t.count, AllBytes(t.elements), end);
  }

  lemma PackageStands(data: seq<Byte>, i: nat, n: nat, body: seq<Byte>, end: nat)
    requires Holds(n, |body|) && Stands(data, i, Pack(n, body), end)
    ensures Package(data, i, end) == Some((i + 1 + n + |body|, i + 1 + n)) && Stands(data, i + 1 + n, body, end)
  {
    PackageRead(data, i, n, body, end);
  }

  /** Every term is read to its end, wherever it stands. */
  lemma {:induction false} TermRead(data: seq<Byte>, i: nat, t: Term, end: nat)
    requires Fits(t) && Stands(data, i, Bytes(t), end)
    ensures TermArg(data, i, end) == Some(i + |Bytes(t)|)
    decreases t, 1
  {
    hide PkgFits, At, Stands, TermArg, Bytes, AllBytes, Elements, Package, Target;
    match t
    case Unary(op, a) =>
      UnaryRead(data, i, t, end);
      TermRead(data, i + 1, a, end);
    case Binary(op, a, b) =>
      BinaryRead(data, i, t, end);
      TermRead(data, i + 1, a, end);
      TermRead(data, i + 1 + |Bytes(a)|, b, end);
    case Ternary(op, a, b, target) =>
      TernaryStands(data, i, t, end);
      var j := i + 1 + |Bytes(a)|;
      TermRead(data, i + 1, a, end);
      TermRead(data, j, b, end);
      TargetRead(data, j + |Bytes(b)|, target, end);
      AfterTernary(data, i, j, j + |Bytes(b)|, end);
    case SizeOf(a) => SizeOfRead(data, i, t, end);
    case Buffer(n, size, bytes) =>
      BufferStands(data, i, t, end);
      TermRead(data, i + 2 + n, size, end);
      AfterBuffer(data, i, i + |Bytes(t)|, i + 2 + n, end);
    case PackageOf(n, count, elements) =>
      PackageOfStands(data, i, t, end);
      ElementsRead(data, i + 3 + n, elements, end);
      AfterPackage(data, i, i + |Bytes(t)|, i + 2 + n, end);
    case _ => PlainRead(data, i, t, end);
  }

  lemma {:induction false} ElementsRead(data: seq<Byte>, i: nat, ts: Terms, end: nat)
    requires AllFit(ts) && Stands(data, i, AllBytes(ts), end)
    ensures Elements(data, i, i + |AllBytes(ts)|, end) == Some(i + |AllBytes(ts)|)
    decreases ts, 1
  {
    hide PkgFits, At, Stands, TermArg, Bytes, Element;
    match ts
    case NoTerms =>
    case Terms(t, rest) =>
      ThenStands(data, i, Bytes(t), AllBytes(rest), end);
      TermRead(data, i, t, end);
      ElementIsTermArg(data, i, end);
      ElementsRead(data, i + |Bytes(t)|, rest, end);
  }

  lemma {:induction false} TermsRead(data: seq<Byte>, i: nat, ts: Terms, end: nat)
    requires AllFit(ts) && Stands(data, i, AllBytes(ts), end)
    ensures TermArgs(data, i, i + |AllBytes(ts)|, end) == Some(i + |AllBytes(ts)|)
    decreases ts
  {
    hide PkgFits, At, Stands, TermArg, Bytes;
    match ts
    case NoTerms =>
    case Terms(t, rest) =>
      ThenStands(data, i, Bytes(t), AllBytes(rest), end);
      TermRead(data, i, t, end);
      TermsRead(data, i + |Bytes(t)|, rest, end);
  }

  // ----- Objects -----

  /** What a table is made of. The bodies of `If`, `While` and `Else` are arguments, as the reader takes
      them to be; that of a method is any bytes, for it is passed over. */
  datatype Obj =
    | Do(t: Term)
    | NameOf(path: Path, value: Term)
    | Scope(n: nat, path: Path, body: Objs)
    | Device(n: nat, path: Path, body: Objs)
    | Method(n: nat, path: Path, flags: Byte, code: seq<Byte>)
    | Return(t: Term)
    | Conditional(op: Byte, n: nat, condition: Term, args: Terms)
    | Else(n: nat, args: Terms)
    | Region(path: Path, space: Byte, offset: Term, length: Term)
    | FieldOf(n: nat, path: Path, flags: Byte, units: seq<FieldUnit>)
    | ProcessorOf(n: nat, path: Path, id: Byte, block: seq<Byte>, size: Byte, rest: seq<Byte>)
    | MutexOf(path: Path, flags: Byte)

  /** What a field is made of, of the forms that the reader reads whole: `bits` is written as a package length. */
  datatype FieldUnit =
    | Reserved(n: nat, bits: nat)
    | Access(kind: Byte, attribute: Byte)
    | Named(seg: Seg, n: nat, bits: nat)

  predicate UnitFits(u: FieldUnit) {
    match u
    case Reserved(n, bits) => PkgFits(bits, n)
    case Access(_, _) => true
    case Named(seg, n, bits) => LeadChar(seg.a) && PkgFits(bits, n)
  }

  function UnitBytes(u: FieldUnit): (s: seq<Byte>)
    requires UnitFits(u)
    ensures |s| > 0
  {
    match u
    case Reserved(n, bits) => [0x00] + PkgBytes(bits, n)
    case Access(kind, attribute) => [0x01] + [kind, attribute]
    case Named(seg, n, bits) => [seg.a, seg.b, seg.c, seg.d] + PkgBytes(bits, n)
  }

  predicate UnitsFit(us: seq<FieldUnit>) { forall k :: 0 <= k < |us| ==> UnitFits(us[k]) }

  function UnitsBytes(us: seq<FieldUnit>): seq<Byte>
    requires UnitsFit(us)
  {
    if us == [] then [] else UnitBytes(us[0]) + UnitsBytes(us[1..])
  }

  datatype Objs = NoObjs | Objs(head: Obj, tail: Objs)

  predicate Fitting(o: Obj)
    decreases o, 0
  {
    match o
    case Do(t) => Fits(t) && (t.Refer? || t.Unary? || t.Binary? || t.Ternary? || t.SizeOf?)
    case NameOf(path, value) => path.Fits() && Fits(value)
    case Scope(n, path, body) => path.Fits() && AllFitting(body) && Holds(n, |path.Bytes()| + |AllObjs(body)|)
    case Device(n, path, body) => path.Fits() && AllFitting(body) && Holds(n, |path.Bytes()| + |AllObjs(body)|)
    case Method(n, path, flags, code) => path.Fits() && Holds(n, |path.Bytes()| + 1 + |code|)
    case Return(t) => Fits(t)
    case Conditional(op, n, condition, args) =>
      op in {0xa0, 0xa2} && Fits(condition) && AllFit(args) && Holds(n, |Bytes(condition)| + |AllBytes(args)|)
    case Else(n, args) => AllFit(args) && Holds(n, |AllBytes(args)|)
    case Region(path, space, offset, length) => path.Fits() && Fits(offset) && Fits(length)
    case FieldOf(n, path, flags, units) =>
      path.Fits() && UnitsFit(units) && Holds(n, |path.Bytes()| + 1 + |UnitsBytes(units)|)
    case ProcessorOf(n, path, id, block, size, rest) =>
      path.Fits() && |block| == 4 && Holds(n, |path.Bytes()| + 6 + |rest|)
    case MutexOf(path, flags) => path.Proper()
  }

  predicate AllFitting(os: Objs)
    decreases os, 0
  {
    match os case NoObjs => true case Objs(o, rest) => Fitting(o) && AllFitting(rest)
  }

  function ObjBytes(o: Obj): (s: seq<Byte>)
    requires Fitting(o)
    ensures |s| > 0
    decreases o, 1
  {
    match o
    case Do(t) => Bytes(t)
    case NameOf(path, value) => [0x08] + (path.Bytes() + Bytes(value))
    case Scope(n, path, body) => [0x10] + Pack(n, path.Bytes() + AllObjs(body))
    case Device(n, path, body) => [0x5b] + ([0x82] + Pack(n, path.Bytes() + AllObjs(body)))
    case Method(n, path, flags, code) => [0x14] + Pack(n, path.Bytes() + ([flags] + code))
    case Return(t) => [0xa4] + Bytes(t)
    case Conditional(op, n, condition, args) => [op] + Pack(n, Bytes(condition) + AllBytes(args))
    case Else(n, args) => [0xa1] + Pack(n, AllBytes(args))
    case Region(path, space, offset, length) =>
      [0x5b] + ([0x80] + (path.Bytes() + ([space] + (Bytes(offset) + Bytes(length)))))
    case FieldOf(n, path, flags, units) =>
      [0x5b] + ([0x81] + Pack(n, path.Bytes() + ([flags] + UnitsBytes(units))))
    case ProcessorOf(n, path, id, block, size, rest) =>
      [0x5b] + ([0x83] + Pack(n, path.Bytes() + ([id] + (block + ([size] + rest)))))
    case MutexOf(path, flags) => [0x5b] + ([0x01] + (path.Bytes() + [flags]))
  }

  function AllObjs(os: Objs): seq<Byte>
    requires AllFitting(os)
    decreases os, 1
  {
    match os case NoObjs => [] case Objs(o, rest) => ObjBytes(o) + AllObjs(rest)
  }

  lemma NamedRead(data: seq<Byte>, i: nat, path: Path, rest: seq<Byte>, end: nat)
    requires path.Fits() && Stands(data, i, path.Bytes() + rest, end)
    ensures NameEnd(data, i, end) == Some(i + |path.Bytes()|) && Stands(data, i + |path.Bytes()|, rest, end)
  {
    ThenStands(data, i, path.Bytes(), rest, end);
    NameReadIff(data, i, path, end);
  }

  /** A term that may stand alone is the same argument and object. */
  lemma DoRead(data: seq<Byte>, i: nat, t: Term, end: nat)
    requires Fitting(Do(t)) && Stands(data, i, ObjBytes(Do(t)), end)
    ensures TermObj(data, i, end) == Some(i + |ObjBytes(Do(t))|)
  {
    assert ObjBytes(Do(t)) == Bytes(t);
    TermRead(data, i, t, end);
    if t.Refer? {
      ReferRead(data, i, t.path, end);
    } else {
      OperatorFirst(t);
      hide Bytes, TermArg, TermObj;
      OpStands(data, i, Bytes(t)[0], Bytes(t)[1..], end);
      AfterOperator(data, i, end);
    }
  }

  lemma OperatorFirst(t: Term)
    requires Fitting(Do(t)) && !t.Refer?
    ensures Bytes(t)[0] in OPERATORS && Bytes(t) == [Bytes(t)[0]] + Bytes(t)[1..]
  {
  }

  lemma NameOfRead(data: seq<Byte>, i: nat, path: Path, value: Term, end: nat)
    requires Fitting(NameOf(path, value)) && Stands(data, i, ObjBytes(NameOf(path, value)), end)
    ensures TermObj(data, i, end) == Some(i + |ObjBytes(NameOf(path, value))|)
  {
    hide PkgFits, At, Stands, Bytes, TermArg, DataRef, NameEnd, Path.Bytes, TermObj;
    OpStands(data, i, 0x08, path.Bytes() + Bytes(value), end);
    NamedRead(data, i + 1, path, Bytes(value), end);
    var j := i + 1 + |path.Bytes()|;
    TermRead(data, j, value, end);
    AfterNameOp(data, i, j, end);
  }

  lemma AfterNameOp(data: seq<Byte>, i: nat, j: nat, end: nat)
    requires i < end <= |data| && data[i] == 0x08 && NameEnd(data, i + 1, end) == Some(j) && TermArg(data, j, end).Some?
    ensures TermObj(data, i, end) == TermArg(data, j, end)
  {
    DataRefIsTermArg(data, j, end);
    assert NameOp(data, i + 1, end) == DataRef(data, j, end);
  }

  /** Scope and Device: the objects inside, if they are read, take the package to its end. */
  lemma ScopeRead(data: seq<Byte>, i: nat, n: nat, path: Path, rest: seq<Byte>, end: nat)
    requires path.Fits() && Holds(n, |path.Bytes()| + |rest|) && Stands(data, i, Pack(n, path.Bytes() + rest), end)
    ensures var j := i + 1 + n + |path.Bytes()|; var pEnd := j + |rest|;
      && Stands(data, j, rest, end)
      && (TermList(data, j, pEnd, end).Some? ==> NamedPackage(data, i, false, end) == Some(pEnd))
      && (rest != [] ==> NamedPackage(data, i, true, end) == Some(pEnd))
  {
    hide PkgFits, At, Stands, Pack, Package, NameEnd;
    PackageStands(data, i, n, path.Bytes() + rest, end);
    NamedRead(data, i + 1 + n, path, rest, end);
    if rest != [] { OpStandsFirst(data, i + 1 + n + |path.Bytes()|, rest, end); }
  }

  lemma OpStandsFirst(data: seq<Byte>, i: nat, s: seq<Byte>, end: nat)
    requires Stands(data, i, s, end) && s != []
    ensures i < end
  {
  }

  lemma AfterScope(data: seq<Byte>, i: nat, end: nat)
    requires i < end <= |data|
    ensures data[i] == 0x10 && NamedPackage(data, i + 1, false, end).Some? ==>
      TermObj(data, i, end) == NamedPackage(data, i + 1, false, end)
    ensures data[i] == 0x14 && NamedPackage(data, i + 1, true, end).Some? ==>
      TermObj(data, i, end) == NamedPackage(data, i + 1, true, end)
    ensures data[i] == 0x5b && i + 1 < end && data[i + 1] == 0x82 && NamedPackage(data, i + 2, false, end).Some? ==>
      TermObj(data, i, end) == NamedPackage(data, i + 2, false, end)
    ensures data[i] == 0x5b && i + 1 < end && data[i + 1] == 0x80 && OpRegion(data, i + 2, end).Some? ==>
      TermObj(data, i, end) == OpRegion(data, i + 2, end)
  {
  }

  /** Opcodes that neither objects nor type 2 opcodes start with. */
  lemma AfterStatement(data: seq<Byte>, i: nat, end: nat)
    requires i < end <= |data| && data[i] in {0xa0, 0xa1, 0xa2, 0xa4}
    ensures TermObj(data, i, end) == TypeOne(data, i, end)
  {
    assert NameEnd(data, i, end) == None by { if NameEnd(data, i, end).Some? { NameStarts(data, i, end); } }
    assert TypeTwo(data, i, end) == None && Object(data, i, end) == None;
  }

  lemma RegionStands(data: seq<Byte>, i: nat, o: Obj, end: nat)
    requires o.Region? && Fitting(o) && Stands(data, i, ObjBytes(o), end)
    ensures o.path.Proper() && o.path.Fits() && Fits(o.offset) && Fits(o.length)
    ensures var j := i + 2 + |o.path.Bytes()|; var args := Bytes(o.offset) + Bytes(o.length);
      && i + 1 < end <= |data| && data[i] == 0x5b && data[i + 1] == 0x80 && NameEnd(data, i + 2, end) == Some(j)
      && j < end && Stands(data, j + 1, args, end) && |ObjBytes(o)| == j + 1 + |args| - i
  {
    hide At, Stands, Bytes, Path.Bytes, NameEnd;
    var args := Bytes(o.offset) + Bytes(o.length);
    var named := o.path.Bytes() + ([o.space] + args);
    OpStands(data, i, 0x5b, [0x80] + named, end);
    OpStands(data, i + 1, 0x80, named, end);
    NamedRead(data, i + 2, o.path, [o.space] + args, end);
    OpStands(data, i + 2 + |o.path.Bytes()|, o.space, args, end);
  }

  lemma RegionRead(data: seq<Byte>, i: nat, o: Obj, end: nat)
    requires o.Region? && Fitting(o) && Stands(data, i, ObjBytes(o), end)
    ensures TermObj(data, i, end) == Some(i + |ObjBytes(o)|)
  {
    hide Fitting, Fits, Path.Fits, Path.Bytes, Stands, Bytes, ObjBytes, TwoArgs, NameEnd, TermObj;
    RegionStands(data, i, o, end);
    var j := i + 2 + |o.path.Bytes()|;
    TwoRead(data, j + 1, o.offset, o.length, end);
    AfterScope(data, i, end);
    assert OpRegion(data, i + 2, end) == TwoArgs(data, j + 1, end);
  }

  lemma TwoRead(data: seq<Byte>, i: nat, a: Term, b: Term, end: nat)
    requires Fits(a) && Fits(b) && Stands(data, i, Bytes(a) + Bytes(b), end)
    ensures TwoArgs(data, i, end) == Some(i + |Bytes(a)| + |Bytes(b)|)
  {
    hide Fits, Bytes, TermArg, Stands;
    ThenStands(data, i, Bytes(a), Bytes(b), end);
    TermRead(data, i, a, end);
    TermRead(data, i + |Bytes(a)|, b, end);
    AfterTwo(data, i, i + |Bytes(a)|, end);
  }

  lemma ConditionalStands(data: seq<Byte>, i: nat, o: Obj, end: nat)
    requires o.Conditional? && Fitting(o) && Stands(data, i, ObjBytes(o), end)
    ensures Fits(o.condition) && AllFit(o.args) && o.op in {0xa0, 0xa2}
    ensures var j := i + 2 + o.n; var k := j + |Bytes(o.condition)|; var pEnd := k + |AllBytes(o.args)|;
      && i < end <= |data| && data[i] == o.op && Package(data, i + 1, end) == Some((pEnd, j)) && pEnd == i + |ObjBytes(o)|
      && Stands(data, j, Bytes(o.condition), end) && Stands(data, k, AllBytes(o.args), end)
  {
    hide PkgFits, At, Stands, Pack, Bytes, AllBytes, Package;
    var body := Bytes(o.condition) + AllBytes(o.args);
    OpStands(data, i, o.op, Pack(o.n, body), end);
    PackageStands(data, i + 1, o.n, body, end);
    ThenStands(data, i + 2 + o.n, Bytes(o.condition), AllBytes(o.args), end);
  }

  lemma AfterConditional(data: seq<Byte>, i: nat, j: nat, k: nat, pEnd: nat, end: nat)
    requires i < end <= |data| && data[i] in {0xa0, 0xa2} && Package(data, i + 1, end) == Some((pEnd, j))
    requires TermArg(data, j, end) == Some(k)
    ensures TermObj(data, i, end) == TermArgs(data, k, pEnd, end)
  {
    AfterStatement(data, i, end);
    hide TermObj, TermArg, TermArgs, Package;
    assert IfOrWhile(data, i + 1, end) == TermArgs(data, k, pEnd, end);
  }

  lemma ConditionalRead(data: seq<Byte>, i: nat, o: Obj, end: nat)
    requires o.Conditional? && Fitting(o) && Stands(data, i, ObjBytes(o), end)
    ensures TermObj(data, i, end) == Some(i + |ObjBytes(o)|)
  {
    hide Fitting, Fits, AllFit, Stands, Bytes, AllBytes, ObjBytes, TermArg, TermArgs, TermObj, Package;
    ConditionalStands(data, i, o, end);
    var j := i + 2 + o.n;
    var k := j + |Bytes(o.condition)|;
    TermRead(data, j, o.condition, end);
    TermsRead(data, k, o.args, end);
    AfterConditional(data, i, j, k, i + |ObjBytes(o)|, end);
  }

  lemma ElseStands(data: seq<Byte>, i: nat, o: Obj, end: nat)
    requires o.Else? && Fitting(o) && Stands(data, i, ObjBytes(o), end)
    ensures AllFit(o.args)
    ensures var j := i + 2 + o.n; var pEnd := j + |AllBytes(o.args)|;
      && i < end <= |data| && data[i] == 0xa1 && Package(data, i + 1, end) == Some((pEnd, j)) && pEnd == i + |ObjBytes(o)|
      && Stands(data, j, AllBytes(o.args), end)
  {
    hide PkgFits, At, Stands, Pack, AllBytes, Package;
    OpStands(data, i, 0xa1, Pack(o.n, AllBytes(o.args)), end);
    PackageStands(data, i + 1, o.n, AllBytes(o.args), end);
  }

  lemma AfterElse(data: seq<Byte>, i: nat, j: nat, pEnd: nat, end: nat)
    requires i < end <= |data| && data[i] == 0xa1 && Package(data, i + 1, end) == Some((pEnd, j))
    ensures TermObj(data, i, end) == TermArgs(data, j, pEnd, end)
  {
    AfterStatement(data, i, end);
    hide TermObj, TermArgs, Package;
  }

  lemma ElseRead(data: seq<Byte>, i: nat, o: Obj, end: nat)
    requires o.Else? && Fitting(o) && Stands(data, i, ObjBytes(o), end)
    ensures TermObj(data, i, end) == Some(i + |ObjBytes(o)|)
  {
    hide Fitting, AllFit, Stands, AllBytes, ObjBytes, TermArgs, TermObj, Package;
    ElseStands(data, i, o, end);
    TermsRead(data, i + 2 + o.n, o.args, end);
    AfterElse(data, i, i + 2 + o.n, i + |ObjBytes(o)|, end);
  }

  lemma ReturnRead(data: seq<Byte>, i: nat, t: Term, end: nat)
    requires Fitting(Return(t)) && Stands(data, i, ObjBytes(Return(t)), end)
    ensures TermObj(data, i, end) == Some(i + |ObjBytes(Return(t))|)
  {
    hide PkgFits, At, Stands, Bytes, TermArg, TermObj;
    OpStands(data, i, 0xa4, Bytes(t), end);
    TermRead(data, i + 1, t, end);
    AfterStatement(data, i, end);
  }

  lemma MethodRead(data: seq<Byte>, i: nat, o: Obj, end: nat)
    requires o.Method? && Fitting(o) && Stands(data, i, ObjBytes(o), end)
    ensures TermObj(data, i, end) == Some(i + |ObjBytes(o)|)
  {
    hide PkgFits, At, Stands, Pack, NamedPackage, TermObj;
    var rest := [o.flags] + o.code;
    OpStands(data, i, 0x14, Pack(o.n, o.path.Bytes() + rest), end);
    ScopeRead(data, i + 1, o.n, o.path, rest, end);
    AfterScope(data, i, end);
  }

  /** Where the objects of a scope or a device start, and what reading them gives. */
  lemma BodyStands(data: seq<Byte>, i: nat, o: Obj, end: nat)
    requires (o.Scope? || o.Device?) && Fitting(o) && Stands(data, i, ObjBytes(o), end)
    ensures o.path.Fits() && AllFitting(o.body)
    ensures var j, n := BodyStart(i, o), |AllObjs(o.body)|;
      && Stands(data, j, AllObjs(o.body), end)
      && (TermList(data, j, j + n, end).Some? ==> TermObj(data, i, end) == Some(i + |ObjBytes(o)|))
  {
    hide PkgFits, At, Stands, Pack, NamedPackage, TermObj, TermList, AllObjs;
    var rest := AllObjs(o.body);
    match o
    case Scope(n, path, body) =>
      OpStands(data, i, 0x10, Pack(n, path.Bytes() + rest), end);
      ScopeRead(data, i + 1, n, path, rest, end);
      AfterScope(data, i, end);
    case Device(n, path, body) =>
      OpStands(data, i, 0x5b, [0x82] + Pack(n, path.Bytes() + rest), end);
      OpStands(data, i + 1, 0x82, Pack(n, path.Bytes() + rest), end);
      ScopeRead(data, i + 2, n, path, rest, end);
      AfterScope(data, i, end);
  }

  function BodyStart(i: nat, o: Obj): nat
    requires (o.Scope? || o.Device?) && o.path.Fits()
  {
    i + (if o.Scope? then 2 else 3) + o.n + |o.path.Bytes()|
  }

  /** A length written before anything else is read. */
  lemma BitsRead(data: seq<Byte>, i: nat, n: nat, bits: nat, end: nat)
    requires PkgFits(bits, n) && Stands(data, i, PkgBytes(bits, n), end)
    ensures Package(data, i, end) == Some((i + bits, i + |PkgBytes(bits, n)|))
  {
    BitsSize(n, bits);
    hide PkgFits, PkgBytes, Package;
    PkgRoundTrip(bits, n, data[i + 1 + n..end]);
    LengthAt(data, i, PkgBytes(bits, n), end, bits, 1 + n);
  }

  lemma BitsSize(n: nat, bits: nat)
    requires PkgFits(bits, n)
    ensures |PkgBytes(bits, n)| == 1 + n
  {
  }

  lemma UnitRead(data: seq<Byte>, i: nat, u: FieldUnit, end: nat)
    requires UnitFits(u) && Stands(data, i, UnitBytes(u), end)
    ensures FieldElement(data, i, end) == Some(i + |UnitBytes(u)|)
  {
    hide PkgFits, PkgBytes, Package;
    match u
    case Reserved(n, bits) =>
      OpStands(data, i, 0, PkgBytes(bits, n), end);
      BitsRead(data, i + 1, n, bits, end);
    case Access(kind, attribute) => OpStands(data, i, 1, [kind, attribute], end);
    case Named(seg, n, bits) =>
      ThenStands(data, i, [seg.a, seg.b, seg.c, seg.d], PkgBytes(bits, n), end);
      AtFour(data, i, seg);
      BitsRead(data, i + 4, n, bits, end);
  }

  lemma {:induction false} UnitsRead(data: seq<Byte>, i: nat, us: seq<FieldUnit>, end: nat)
    requires UnitsFit(us) && Stands(data, i, UnitsBytes(us), end)
    ensures FieldList(data, i, i + |UnitsBytes(us)|, end) == Some(i + |UnitsBytes(us)|)
    decreases |us|
  {
    hide At, Stands, UnitBytes, FieldElement, UnitFits;
    if us != [] {
      assert UnitFits(us[0]) && UnitsFit(us[1..]);
      ThenStands(data, i, UnitBytes(us[0]), UnitsBytes(us[1..]), end);
      UnitRead(data, i, us[0], end);
      UnitsRead(data, i + |UnitBytes(us[0])|, us[1..], end);
    }
  }

  /** Opcodes behind the extension prefix that only objects have. */
  lemma AfterPrefix(data: seq<Byte>, i: nat, end: nat)
    requires i + 1 < end <= |data| && data[i] == 0x5b
    ensures data[i + 1] == 0x81 && Field(data, i + 2, end).Some? ==> TermObj(data, i, end) == Field(data, i + 2, end)
    ensures data[i + 1] == 0x83 && Processor(data, i + 2, end).Some? ==> TermObj(data, i, end) == Processor(data, i + 2, end)
    ensures data[i + 1] == 0x01 && Mutex(data, i + 2, end).Some? ==> TermObj(data, i, end) == Mutex(data, i + 2, end)
  {
  }

  lemma FieldOfStands(data: seq<Byte>, i: nat, o: Obj, end: nat)
    requires o.FieldOf? && Fitting(o) && Stands(data, i, ObjBytes(o), end)
    ensures o.path.Proper() && UnitsFit(o.units)
    ensures var m := i + 3 + o.n + |o.path.Bytes()|; var pEnd := m + 1 + |UnitsBytes(o.units)|;
      && i + 1 < end <= |data| && data[i] == 0x5b && data[i + 1] == 0x81 && m < end
      && Package(data, i + 2, end) == Some((pEnd, i + 3 + o.n)) && NameEnd(data, i + 3 + o.n, end) == Some(m)
      && Stands(data, m + 1, UnitsBytes(o.units), end) && pEnd == i + |ObjBytes(o)|
  {
    hide PkgFits, At, Stands, Pack, Package, NameEnd, UnitsBytes, Path.Bytes;
    var inner := o.path.Bytes() + ([o.flags] + UnitsBytes(o.units));
    OpStands(data, i, 0x5b, [0x81] + Pack(o.n, inner), end);
    OpStands(data, i + 1, 0x81, Pack(o.n, inner), end);
    PackageStands(data, i + 2, o.n, inner, end);
    NamedRead(data, i + 3 + o.n, o.path, [o.flags] + UnitsBytes(o.units), end);
    OpStands(data, i + 3 + o.n + |o.path.Bytes()|, o.flags, UnitsBytes(o.units), end);
  }

  lemma FieldOfRead(data: seq<Byte>, i: nat, o: Obj, end: nat)
    requires o.FieldOf? && Fitting(o) && Stands(data, i, ObjBytes(o), end)
    ensures TermObj(data, i, end) == Some(i + |ObjBytes(o)|)
  {
    hide Fitting, Stands, ObjBytes, UnitsBytes, UnitsFit, Path.Proper, Path.Bytes, Package, NameEnd, FieldList, TermObj;
    FieldOfStands(data, i, o, end);
    UnitsRead(data, i + 4 + o.n + |o.path.Bytes()|, o.units, end);
    AfterPrefix(data, i, end);
  }

  lemma ProcessorOfStands(data: seq<Byte>, i: nat, o: Obj, end: nat)
    requires o.ProcessorOf? && Fitting(o) && Stands(data, i, ObjBytes(o), end)
    ensures o.path.Proper()
    ensures var m := i + 3 + o.n + |o.path.Bytes()|;
      && i + 1 < end <= |data| && data[i] == 0x5b && data[i + 1] == 0x83 && m + 6 <= end
      && Package(data, i + 2, end) == Some((i + |ObjBytes(o)|, i + 3 + o.n)) && NameEnd(data, i + 3 + o.n, end) == Some(m)
  {
    hide PkgFits, At, Pack, Package, NameEnd, Path.Bytes;
    var rest := [o.id] + (o.block + ([o.size] + o.rest));
    var inner := o.path.Bytes() + rest;
    OpStands(data, i, 0x5b, [0x83] + Pack(o.n, inner), end);
    OpStands(data, i + 1, 0x83, Pack(o.n, inner), end);
    PackageStands(data, i + 2, o.n, inner, end);
    NamedRead(data, i + 3 + o.n, o.path, rest, end);
    assert |rest| >= 6;
  }

  lemma ProcessorOfRead(data: seq<Byte>, i: nat, o: Obj, end: nat)
    requires o.ProcessorOf? && Fitting(o) && Stands(data, i, ObjBytes(o), end)
    ensures TermObj(data, i, end) == Some(i + |ObjBytes(o)|)
  {
    hide Fitting, Stands, ObjBytes, Path.Proper, Path.Bytes, Package, NameEnd, TermObj;
    ProcessorOfStands(data, i, o, end);
    AfterPrefix(data, i, end);
  }

  /** A mutex is read whatever the form of its name, for the reader does not ask whether there was one. */
  lemma MutexOfRead(data: seq<Byte>, i: nat, o: Obj, end: nat)
    requires o.MutexOf? && Fitting(o) && Stands(data, i, ObjBytes(o), end)
    ensures TermObj(data, i, end) == Some(i + |ObjBytes(o)|)
  {
    hide TermObj, PastName, Path.Bytes, NameAt;
    OpStands(data, i, 0x5b, [0x01] + (o.path.Bytes() + [o.flags]), end);
    OpStands(data, i + 1, 0x01, o.path.Bytes() + [o.flags], end);
    ThenStands(data, i + 2, o.path.Bytes(), [o.flags], end);
    NameReadIff(data, i + 2, o.path, end);
    hide At;
    AfterPrefix(data, i, end);
  }

  /** Every object is read to its end, wherever it stands. */
  lemma {:induction false} ObjRead(data: seq<Byte>, i: nat, o: Obj, end: nat)
    requires Fitting(o) && Stands(data, i, ObjBytes(o), end)
    ensures TermObj(data, i, end) == Some(i + |ObjBytes(o)|)
    decreases o, 1
  {
    hide Fitting, AllFitting, At, Stands, TermObj, ObjBytes, TermList, AllObjs, Bytes, Path.Fits;
    match o
    case Do(t) => DoRead(data, i, t, end);
    case NameOf(path, value) => NameOfRead(data, i, path, value, end);
    case Scope(n, path, body) =>
      BodyStands(data, i, o, end);
      ObjsRead(data, BodyStart(i, o), body, end);
    case Device(n, path, body) =>
      BodyStands(data, i, o, end);
      ObjsRead(data, BodyStart(i, o), body, end);
    case Method(n, path, flags, code) => MethodRead(data, i, o, end);
    case Return(t) => ReturnRead(data, i, t, end);
    case Conditional(op, n, condition, args) => ConditionalRead(data, i, o, end);
    case Else(n, args) => ElseRead(data, i, o, end);
    case Region(path, space, offset, length) => RegionRead(data, i, o, end);
    case FieldOf(n, path, flags, units) => FieldOfRead(data, i, o, end);
    case ProcessorOf(n, path, id, block, size, rest) => ProcessorOfRead(data, i, o, end);
    case MutexOf(path, flags) => MutexOfRead(data, i, o, end);
  }

  lemma {:induction false} ObjsRead(data: seq<Byte>, i: nat, os: Objs, end: nat)
    requires AllFitting(os) && Stands(data, i, AllObjs(os), end)
    ensures TermList(data, i, i + |AllObjs(os)|, end) == Some(i + |AllObjs(os)|)
    decreases os, 1
  {
    hide PkgFits, At, Stands, TermObj, ObjBytes;
    match os
    case NoObjs =>
    case Objs(o, rest) =>
      ThenStands(data, i, ObjBytes(o), AllObjs(rest), end);
      ObjRead(data, i, o, end);
      ObjsRead(data, i + |ObjBytes(o)|, rest, end);
  }

  /** A program is read to its end: `load_dsdt` finds an object at every position it reaches, the
      positions being those where the objects were written. */
  lemma {:induction false} ProgramRead(data: seq<Byte>, i: nat, os: Objs, end: nat)
    requires AllFitting(os) && Stands(data, i, AllObjs(os), end) && i + |AllObjs(os)| == end
    ensures FirstBad(data, i, end) == end == TableEnd(data, i, end)
    decreases os
  {
    hide PkgFits, At, Stands, TermObj, ObjBytes;
    match os
    case NoObjs =>
    case Objs(o, rest) =>
      ThenStands(data, i, ObjBytes(o), AllObjs(rest), end);
      ObjRead(data, i, o, end);
      ProgramRead(data, i + |ObjBytes(o)|, rest, end);
  }
}
