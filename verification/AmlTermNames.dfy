/** Terms whose reading leaves the names kept in `name_path` (kernel/aml.cpp) alone: those that refer to nothing by a
    counted name. */
module AmlTermNames {
  import opened Wrappers
  import opened AmlNames
  import opened AmlBytes
  import opened AmlGrammar
  import opened AmlPaths
  import opened AmlPrograms
  import opened AmlEffects

  // ----- Terms that leave the names kept alone -----

  /** No counted name is read in the term. */
  predicate Plain(t: Term)
    decreases t, 0
  {
    match t
    case LocalObj(_) => true
    case Const(_) => true
    case Number(_) => true
    case Text(_) => true
    case Refer(path) => path.form == SingleName
    case Unary(_, a) => Plain(a)
    case Binary(_, a, b) => Plain(a) && Plain(b)
    case Ternary(_, a, b, target) => Plain(a) && Plain(b) && Plain(target)
    case SizeOf(a) => Plain(a)
    case Buffer(_, size, _) => Plain(size)
    case PackageOf(_, _, elements) => AllPlain(elements)
  }

  predicate AllPlain(ts: Terms)
    decreases ts, 0
  {
    match ts case NoTerms => true case Terms(t, rest) => Plain(t) && AllPlain(rest)
  }

  ghost predicate Ready(w: Where, names: seq<Name>) { w.Ok() && NamesOk(w.es, names) }

  /** No counted name stands at `i`. */
  lemma NotCounted(w: Where, names: seq<Name>, i: nat)
    requires Ready(w, names) && i < w.end && w.data[i] !in {0x2f, 0x5c, 0x5e}
    ensures AfterName(w, names, i) == names
  {
  }

  /** Where the parts of a written name stand. */
  lemma PartsStand(data: seq<Byte>, i: nat, path: Path, end: nat)
    requires path.Proper() && Stands(data, i, path.Bytes(), end)
    ensures var m := i + |path.Prefix()|;
      && m < end <= |data| && At(data, m, path.Body()) && m + |path.Body()| <= end
      && forall k :: i <= k < m ==> data[k] == if path.root then 0x5c else 0x5e
  {
    AtParts(data, i, path.Prefix(), path.Body());
    var m := i + |path.Prefix()|;
    assert forall k :: i <= k < m ==> data[k] == data[i..m][k - i];
  }

  lemma SingleKept(w: Where, names: seq<Name>, i: nat, path: Path)
    requires Ready(w, names) && path.Fits() && path.form == SingleName && Stands(w.data, i, path.Bytes(), w.end)
    ensures AfterName(w, names, i) == names
  {
    hide SegRun, PastSegs, Path.Bytes, Stands, At;
    var m := i + |path.Prefix()|;
    PartsStand(w.data, i, path, w.end);
    BodyRead(w.data, m, path, w.end);
    if !path.root { CaretsSkipped(w.data, i, path.carets, w.end); }
  }

  /** What may have been kept while an argument was read, by the byte it starts with. */
  lemma ArgNames(w: Where, names: seq<Name>, i: nat)
    requires Ready(w, names) && i < w.end
    ensures w.data[i] !in {0x11, 0x12} ==> DataObjectNames(w, names, i) == names && ComputationalNames(w, names, i) == names
    ensures LocalOrArg(w.data, i, w.end).Some? ==> TermArgNames(w, names, i) == names
    ensures w.data[i] !in {0x11, 0x12} && Computational(w.data, i, w.end).Some? ==> TermArgNames(w, names, i) == names
    ensures w.data[i] in OPERATORS ==> TermArgNames(w, names, i) == TypeTwoNames(w, names, i)
  {
    if w.data[i] in OPERATORS { assert Computational(w.data, i, w.end) == None && DataObject(w.data, i, w.end) == None; }
  }

  lemma OperatorNames(w: Where, names: seq<Name>, i: nat)
    requires Ready(w, names) && i < w.end
    ensures w.data[i] in {0x83, 0x92} ==> TypeTwoNames(w, names, i) == TermArgNames(w, names, i + 1)
    ensures w.data[i] in {0x90, 0x91, 0x93, 0x94, 0x95} ==> TypeTwoNames(w, names, i) == TwoArgsNames(w, names, i + 1)
    ensures w.data[i] in {0x72, 0x88} ==> TypeTwoNames(w, names, i) == TwoArgsAndTargetNames(w, names, i + 1)
    ensures w.data[i] == 0x87 ==> TypeTwoNames(w, names, i) == SuperNameNames(w, names, i + 1)
  {
  }

  lemma SuperKept(w: Where, names: seq<Name>, i: nat, t: Term)
    requires Ready(w, names) && Fits(t) && Stands(w.data, i, Bytes(t), w.end) && Plain(t) && IsSuper(t)
    ensures SuperNameNames(w, names, i) == names == TargetNames(w, names, i)
  {
    match t
    case LocalObj(k) => AtOne(w.data, i, 0x60 + k, []);
    case Refer(path) =>
      SingleKept(w, names, i, path);
      NameReadIff(w.data, i, path, w.end);
      NameStarts(w.data, i, w.end);
  }

  lemma TargetKept(w: Where, names: seq<Name>, i: nat, t: Term)
    requires Ready(w, names) && Fits(t) && Stands(w.data, i, Bytes(t), w.end) && Plain(t) && (IsSuper(t) || t == Const(0))
    ensures TargetNames(w, names, i) == names
  {
    if IsSuper(t) { SuperKept(w, names, i, t); } else { AtOne(w.data, i, 0, []); }
  }

  /** The first byte of a plain term other than a name. */
  lemma FirstByte(data: seq<Byte>, i: nat, t: Term, end: nat)
    requires Fits(t) && Stands(data, i, Bytes(t), end) && !t.Refer?
    ensures i < end <= |data| && data[i] !in {0x2f, 0x5c, 0x5e} && !LeadChar(data[i])
    ensures t.LocalObj? ==> LocalOrArg(data, i, end).Some?
    ensures !t.Buffer? && !t.PackageOf? ==> data[i] !in {0x11, 0x12}
    ensures t.Unary? || t.Binary? || t.Ternary? || t.SizeOf? ==> data[i] in OPERATORS
  {
    hide Stands, At;
    var b := Bytes(t);
    assert b == [b[0]] + b[1..];
    OpStands(data, i, b[0], b[1..], end);
  }

  lemma PlainKept(w: Where, names: seq<Name>, i: nat, t: Term)
    requires Ready(w, names) && Fits(t) && Stands(w.data, i, Bytes(t), w.end) && Plain(t)
    requires t.LocalObj? || t.Const? || t.Number? || t.Text? || t.Refer?
    ensures TermArgNames(w, names, i) == names
  {
    if t.Refer? {
      ReferKept(w, names, i, t.path);
    } else {
      FirstByte(w.data, i, t, w.end);
      ArgNames(w, names, i);
      if !t.LocalObj? { DataRead(w.data, i, t, w.end); }
    }
  }

  lemma DataRead(data: seq<Byte>, i: nat, t: Term, end: nat)
    requires Fits(t) && Stands(data, i, Bytes(t), end) && (t.Const? || t.Number? || t.Text?)
    ensures Computational(data, i, end).Some?
  {
    match t
    case Const(c) => AtOne(data, i, c, []);
    case Number(bytes) => OpStands(data, i, NumberOp(|bytes|).value, bytes, end);
    case Text(chars) =>
      OpStands(data, i, 0x0d, chars + [0], end);
      TextEnds(data, i + 1, chars, end);
  }

  lemma ReferKept(w: Where, names: seq<Name>, i: nat, path: Path)
    requires Ready(w, names) && path.Fits() && path.form == SingleName && Stands(w.data, i, path.Bytes(), w.end)
    ensures TermArgNames(w, names, i) == names
  {
    SingleKept(w, names, i, path);
    NameReadIff(w.data, i, path, w.end);
    NameStarts(w.data, i, w.end);
    ArgNames(w, names, i);
    hide AfterName, NameAt;
    assert LocalOrArg(w.data, i, w.end) == None && DataObject(w.data, i, w.end) == None;
    assert TypeTwoNames(w, names, i) == AfterName(w, names, i);
  }

  lemma UnaryKept(w: Where, names: seq<Name>, i: nat, t: Term)
    requires Ready(w, names) && Fits(t) && Stands(w.data, i, Bytes(t), w.end) && t.Unary?
    ensures TermArgNames(w, names, i) == TermArgNames(w, names, i + 1)
  {
    FirstByte(w.data, i, t, w.end);
    OpStands(w.data, i, t.op, Bytes(t.a), w.end);
    ArgNames(w, names, i);
    OperatorNames(w, names, i);
  }

  lemma BinaryKept(w: Where, names: seq<Name>, i: nat, t: Term)
    requires Ready(w, names) && Fits(t) && Stands(w.data, i, Bytes(t), w.end) && t.Binary?
    ensures TermArgNames(w, names, i) == TwoArgsNames(w, names, i + 1)
  {
    FirstByte(w.data, i, t, w.end);
    OpStands(w.data, i, t.op, Bytes(t.a) + Bytes(t.b), w.end);
    ArgNames(w, names, i);
    OperatorNames(w, names, i);
  }

  lemma TernaryKept(w: Where, names: seq<Name>, i: nat, t: Term)
    requires Ready(w, names) && Fits(t) && Stands(w.data, i, Bytes(t), w.end) && t.Ternary?
    ensures TermArgNames(w, names, i) == TwoArgsAndTargetNames(w, names, i + 1)
  {
    FirstByte(w.data, i, t, w.end);
    TernaryStands(w.data, i, t, w.end);
    ArgNames(w, names, i);
    OperatorNames(w, names, i);
  }

  lemma SizeOfKept(w: Where, names: seq<Name>, i: nat, t: Term)
    requires Ready(w, names) && Fits(t) && Stands(w.data, i, Bytes(t), w.end) && t.SizeOf? && Plain(t)
    ensures TermArgNames(w, names, i) == names
  {
    FirstByte(w.data, i, t, w.end);
    OpStands(w.data, i, 0x87, Bytes(t.a), w.end);
    ArgNames(w, names, i);
    OperatorNames(w, names, i);
    SuperKept(w, names, i + 1, t.a);
  }

  /** Names that two arguments leave alone. */
  lemma TwoKept(w: Where, names: seq<Name>, i: nat, j: nat)
    requires Ready(w, names) && TermArg(w.data, i, w.end) == Some(j)
    requires TermArgNames(w, names, i) == names && TermArgNames(w, names, j) == names
    ensures TwoArgsNames(w, names, i) == names
  {
    hide TermArg, TermArgNames;
  }

  lemma ThreeKept(w: Where, names: seq<Name>, i: nat, j: nat, k: nat)
    requires Ready(w, names) && TermArg(w.data, i, w.end) == Some(j) && TermArg(w.data, j, w.end) == Some(k)
    requires TermArgNames(w, names, i) == names && TermArgNames(w, names, j) == names && TargetNames(w, names, k) == names
    ensures TwoArgsAndTargetNames(w, names, i) == names
  {
    TwoKept(w, names, i, j);
    AfterTwo(w.data, i, j, w.end);
    hide TermArg, TermArgNames, TargetNames, TwoArgs, TwoArgsNames;
    assert TwoArgs(w.data, i, w.end) == Some(k);
  }

  lemma BufferKept(w: Where, names: seq<Name>, i: nat, pEnd: nat, n: nat)
    requires Ready(w, names) && i < w.end && w.data[i] == 0x11 && Package(w.data, i + 1, w.end) == Some((pEnd, n))
    requires TermArg(w.data, n, w.end).Some? && TermArgNames(w, names, n) == names
    ensures TermArgNames(w, names, i) == names == ComputationalNames(w, names, i) && Computational(w.data, i, w.end).Some?
  {
    assert ComputationalNames(w, names, i) == names;
    assert Computational(w.data, i, w.end) == Some(pEnd);
    assert LocalOrArg(w.data, i, w.end) == None;
    hide TermArg, Package;
    assert DataObjectNames(w, names, i) == names && DataObject(w.data, i, w.end).Some?;
  }

  lemma PackageKept(w: Where, names: seq<Name>, i: nat, pEnd: nat, n: nat)
    requires Ready(w, names) && i < w.end && w.data[i] == 0x12 && Package(w.data, i + 1, w.end) == Some((pEnd, n)) && n < w.end
    requires Elements(w.data, n + 1, pEnd, w.end).Some? && ElementsNames(w, names, n + 1, pEnd) == names
    ensures TermArgNames(w, names, i) == names
  {
    hide DataObject, DataObjectNames, Elements, ElementsNames, Package;
    PackageObject(w.data, i, pEnd, n, w.end);
    PackageObjectNames(w, names, i, pEnd, n);
    assert LocalOrArg(w.data, i, w.end) == None;
  }

  lemma PackageObjectNames(w: Where, names: seq<Name>, i: nat, pEnd: nat, n: nat)
    requires Ready(w, names) && i < w.end && w.data[i] == 0x12 && Package(w.data, i + 1, w.end) == Some((pEnd, n)) && n < w.end
    ensures DataObjectNames(w, names, i) == ElementsNames(w, names, n + 1, pEnd)
  {
    hide Elements, ElementsNames, Package, Computational, ComputationalNames;
    PlainComputational(w, names, i);
    NotComputational(w.data, i, w.end);
  }

  lemma NotComputational(data: seq<Byte>, i: nat, end: nat)
    requires i < end <= |data| && data[i] == 0x12
    ensures Computational(data, i, end) == None
  {
  }

  /** A plain term leaves the names kept as they were. */
  lemma {:induction false} TermKept(w: Where, names: seq<Name>, i: nat, t: Term)
    requires Ready(w, names) && Fits(t) && Stands(w.data, i, Bytes(t), w.end) && Plain(t)
    ensures TermArgNames(w, names, i) == names
    decreases t, 1
  {
    hide At, Stands, TermArg, TermArgNames, Bytes, AllBytes, Elements, ElementsNames, Package, TargetNames, Ready;
    match t
    case Unary(op, a) =>
      UnaryKept(w, names, i, t);
      UnaryRead(w.data, i, t, w.end);
      TermKept(w, names, i + 1, a);
    case Binary(op, a, b) =>
      BinaryKept(w, names, i, t);
      BinaryRead(w.data, i, t, w.end);
      var j := i + 1 + |Bytes(a)|;
      TermRead(w.data, i + 1, a, w.end);
      TermKept(w, names, i + 1, a);
      TermKept(w, names, j, b);
      TwoKept(w, names, i + 1, j);
    case Ternary(op, a, b, target) =>
      TernaryKept(w, names, i, t);
      TernaryStands(w.data, i, t, w.end);
      var j := i + 1 + |Bytes(a)|;
      var k := j + |Bytes(b)|;
      TermRead(w.data, i + 1, a, w.end);
      TermRead(w.data, j, b, w.end);
      TermKept(w, names, i + 1, a);
      TermKept(w, names, j, b);
      TargetKept(w, names, k, target);
      ThreeKept(w, names, i + 1, j, k);
    case SizeOf(a) => SizeOfKept(w, names, i, t);
    case Buffer(n, size, bytes) =>
      BufferStands(w.data, i, t, w.end);
      TermRead(w.data, i + 2 + n, size, w.end);
      TermKept(w, names, i + 2 + n, size);
      BufferKept(w, names, i, i + |Bytes(t)|, i + 2 + n);
    case PackageOf(n, count, elements) =>
      PackageOfStands(w.data, i, t, w.end);
      ElementsRead(w.data, i + 3 + n, elements, w.end);
      ElementsKept(w, names, i + 3 + n, elements);
      PackageKept(w, names, i, i + |Bytes(t)|, i + 2 + n);
    case _ => PlainKept(w, names, i, t);
  }

  /** As an element of a package, and as a value. */
  lemma ElementKept(w: Where, names: seq<Name>, i: nat, t: Term)
    requires Ready(w, names) && Fits(t) && Stands(w.data, i, Bytes(t), w.end) && Plain(t) && TermArgNames(w, names, i) == names
    requires t.Buffer? ==> ComputationalNames(w, names, i) == names
    ensures ElementNames(w, names, i) == names == DataRefNames(w, names, i)
  {
    if t.Refer? {
      SingleKept(w, names, i, t.path);
      NameReadIff(w.data, i, t.path, w.end);
      NameStarts(w.data, i, w.end);
      ArgNames(w, names, i);
    } else {
      FirstByte(w.data, i, t, w.end);
      NotCounted(w, names, i);
      if !t.Buffer? { PlainComputational(w, names, i); }
    }
  }

  lemma PlainComputational(w: Where, names: seq<Name>, i: nat)
    requires Ready(w, names) && i < w.end && w.data[i] != 0x11
    ensures ComputationalNames(w, names, i) == names
  {
  }

  lemma ValueKept(w: Where, names: seq<Name>, i: nat, t: Term)
    requires Ready(w, names) && Fits(t) && Stands(w.data, i, Bytes(t), w.end) && Plain(t)
    ensures TermArgNames(w, names, i) == names && ElementNames(w, names, i) == names == DataRefNames(w, names, i)
    decreases t, 2
  {
    hide Fits, Plain, At, Stands, TermArg, TermArgNames, Bytes, Ready, Computational, ComputationalNames, ElementNames, DataRefNames;
    TermKept(w, names, i, t);
    if t.Buffer? { BufferValue(w, names, i, t); }
    ElementKept(w, names, i, t);
  }

  lemma BufferValue(w: Where, names: seq<Name>, i: nat, t: Term)
    requires Ready(w, names) && Fits(t) && Stands(w.data, i, Bytes(t), w.end) && Plain(t) && t.Buffer?
    ensures ComputationalNames(w, names, i) == names
    decreases t, 1
  {
    hide At, Stands, TermArg, TermArgNames, Bytes, Package, Ready, Computational, ComputationalNames;
    BufferStands(w.data, i, t, w.end);
    TermRead(w.data, i + 2 + t.n, t.size, w.end);
    TermKept(w, names, i + 2 + t.n, t.size);
    BufferKept(w, names, i, i + |Bytes(t)|, i + 2 + t.n);
  }

  lemma {:induction false} ElementsKept(w: Where, names: seq<Name>, i: nat, ts: Terms)
    requires Ready(w, names) && AllFit(ts) && Stands(w.data, i, AllBytes(ts), w.end) && AllPlain(ts)
    ensures ElementsNames(w, names, i, i + |AllBytes(ts)|) == names
    decreases ts, 3
  {
    hide At, Stands, TermArg, TermArgNames, Bytes, Element, ElementNames, Ready;
    match ts
    case NoTerms =>
    case Terms(t, rest) =>
      ThenStands(w.data, i, Bytes(t), AllBytes(rest), w.end);
      TermRead(w.data, i, t, w.end);
      ElementIsTermArg(w.data, i, w.end);
      ValueKept(w, names, i, t);
      ElementsKept(w, names, i + |Bytes(t)|, rest);
  }
}
