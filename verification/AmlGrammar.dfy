/** The byte code that kernel/aml.cpp accepts, production by production: where each ends when it starts at
    `i`, or None where it fails. A package end may lie beyond `end`. */
module AmlGrammar {
  import opened Wrappers
  import opened AmlNames
  import opened AmlBytes

  function Left(i: nat, end: nat): nat { if i < end then end - i else 0 }

  /** A package starting at its length: where it ends, and where its contents start. */
  function Package(data: seq<Byte>, i: nat, end: nat): (r: Option<(nat, nat)>)
    requires end <= |data|
    ensures r.Some? ==> i <= r.value.0 && i < r.value.1 <= end
  {
    if end <= i then None
    else
      match PkgLength(data[i..end])
      case None => None
      case Some((length, bytes)) => Some((i + length, i + bytes))
  }

  function NameEnd(data: seq<Byte>, i: nat, end: nat): (r: Option<nat>)
    requires end <= |data|
    ensures r.Some? ==> i < r.value && i < end
  {
    match NameAt(data, i, end) case None => None case Some(w) => Some(w.next)
  }

  function LocalOrArg(data: seq<Byte>, i: nat, end: nat): (r: Option<nat>)
    requires end <= |data|
    ensures r.Some? ==> i < r.value && i < end
  {
    if i < end && 0x60 <= data[i] <= 0x6e then Some(i + 1) else None
  }

  function Debug(data: seq<Byte>, i: nat, end: nat): (r: Option<nat>)
    requires end <= |data|
    ensures r.Some? ==> i < r.value && i < end
  {
    if i + 1 < end && data[i] == 0x5b && data[i + 1] == 0x31 then Some(i + 2) else None
  }

  function SuperName(data: seq<Byte>, i: nat, end: nat): (r: Option<nat>)
    requires end <= |data|
    ensures r.Some? ==> i < r.value && i < end
    decreases Left(i, end), 1
  {
    if LocalOrArg(data, i, end).Some? then LocalOrArg(data, i, end)
    else if NameEnd(data, i, end).Some? then NameEnd(data, i, end)
    else if TypeSix(data, i, end).Some? then TypeSix(data, i, end)
    else Debug(data, i, end)
  }

  /** A super name, or none: a zero byte. */
  function Target(data: seq<Byte>, i: nat, end: nat): (r: Option<nat>)
    requires end <= |data|
    ensures r.Some? ==> i < r.value && i < end
    decreases Left(i, end), 2
  {
    if end <= i then None else if data[i] == 0 then Some(i + 1) else SuperName(data, i, end)
  }

  function TypeSix(data: seq<Byte>, i: nat, end: nat): (r: Option<nat>)
    requires end <= |data|
    ensures r.Some? ==> i < r.value && i < end
    decreases Left(i, end), 0
  {
    if end <= i then None
    else
      match data[i]
      case 0x71 => SuperName(data, i + 1, end)
      case 0x83 => TermArg(data, i + 1, end)
      case 0x88 => TwoArgsAndTarget(data, i + 1, end)
      case _ => None
  }

  function TwoArgs(data: seq<Byte>, i: nat, end: nat): (r: Option<nat>)
    requires end <= |data|
    ensures r.Some? ==> i < r.value && i < end
    decreases Left(i, end), 3
  {
    match TermArg(data, i, end)
    case None => None
    case Some(n) => TermArg(data, n, end)
  }

  function TwoArgsAndTarget(data: seq<Byte>, i: nat, end: nat): (r: Option<nat>)
    requires end <= |data|
    ensures r.Some? ==> i < r.value && i < end
    decreases Left(i, end), 4
  {
    match TwoArgs(data, i, end)
    case None => None
    case Some(n) => Target(data, n, end)
  }

  /** Arguments up to the package end. */
  function TermArgs(data: seq<Byte>, i: nat, pEnd: nat, end: nat): (r: Option<nat>)
    requires end <= |data|
    ensures r.Some? ==> i <= r.value && pEnd <= r.value
    decreases Left(i, end), 3
  {
    if pEnd <= i then Some(i)
    else
      match TermArg(data, i, end)
      case None => None
      case Some(n) => TermArgs(data, n, pEnd, end)
  }

  /** Objects up to the package end. */
  function TermList(data: seq<Byte>, i: nat, pEnd: nat, end: nat): (r: Option<nat>)
    requires end <= |data|
    ensures r.Some? ==> i <= r.value && pEnd <= r.value
    decreases Left(i, end), 2
  {
    if pEnd <= i then Some(i)
    else
      match TermObj(data, i, end)
      case None => None
      case Some(n) => TermList(data, n, pEnd, end)
  }

  function TypeOne(data: seq<Byte>, i: nat, end: nat): (r: Option<nat>)
    requires end <= |data|
    ensures r.Some? ==> i < r.value && i < end
    decreases Left(i, end), 0
  {
    if end <= i then None
    else
      match data[i]
      case 0x5b => if i + 1 < end && data[i + 1] in {0x20, 0x21, 0x22, 0x24, 0x26, 0x27, 0x32} then Some(i + 2) else None
      case 0xa0 => IfOrWhile(data, i + 1, end)
      case 0xa1 =>
        (match Package(data, i + 1, end)
         case None => None
         case Some((pEnd, n)) => TermArgs(data, n, pEnd, end))
      case 0xa2 => IfOrWhile(data, i + 1, end)
      case 0xa4 => TermArg(data, i + 1, end)
      case _ => if data[i] in {0x86, 0x9f, 0xa3, 0xa5, 0xcc} then Some(i + 1) else None
  }

  /** Where the reader goes on after a part whose failure it ignores. */
  function Or(r: Option<nat>, i: nat): nat { match r case None => i case Some(n) => n }

  function IfOrWhile(data: seq<Byte>, i: nat, end: nat): (r: Option<nat>)
    requires end <= |data|
    ensures r.Some? ==> i < r.value && i < end
    decreases Left(i, end), 4
  {
    match Package(data, i, end)
    case None => None
    case Some((pEnd, n)) => TermArgs(data, Or(TermArg(data, n, end), n), pEnd, end)
  }

  function TypeTwo(data: seq<Byte>, i: nat, end: nat): (r: Option<nat>)
    requires end <= |data|
    ensures r.Some? ==> i < r.value && i < end
    decreases Left(i, end), 0
  {
    if end <= i then None
    else
      match data[i]
      case 0x5b =>
        if i + 1 < end && data[i + 1] == 0x12 then
          match SuperName(data, i + 2, end)
          case None => None
          case Some(n) => Target(data, n, end)
        else None
      case 0x72 => TwoArgsAndTarget(data, i + 1, end)
      case 0x83 => TermArg(data, i + 1, end)
      case 0x87 => SuperName(data, i + 1, end)
      case 0x88 => TwoArgsAndTarget(data, i + 1, end)
      case 0x90 => TwoArgs(data, i + 1, end)
      case 0x91 => TwoArgs(data, i + 1, end)
      case 0x92 => TermArg(data, i + 1, end)
      case 0x93 => TwoArgs(data, i + 1, end)
      case 0x94 => TwoArgs(data, i + 1, end)
      case 0x95 => TwoArgs(data, i + 1, end)
      case _ => NameEnd(data, i, end)
  }

  function TermArg(data: seq<Byte>, i: nat, end: nat): (r: Option<nat>)
    requires end <= |data|
    ensures r.Some? ==> i < r.value && i < end
    decreases Left(i, end), 2
  {
    if LocalOrArg(data, i, end).Some? then LocalOrArg(data, i, end)
    else if DataObject(data, i, end).Some? then DataObject(data, i, end)
    else TypeTwo(data, i, end)
  }

  /** `n` bytes. */
  function Value(i: nat, n: nat, end: nat): (r: Option<nat>) { if i + n <= end then Some(i + n) else None }

  /** Past the zero byte that ends a string. */
  function StringEnd(data: seq<Byte>, i: nat, end: nat): (r: Option<nat>)
    requires end <= |data|
    ensures r.Some? ==> i < r.value <= end
    decreases Left(i, end)
  {
    if end <= i then None else if data[i] == 0 then Some(i + 1) else StringEnd(data, i + 1, end)
  }

  function Computational(data: seq<Byte>, i: nat, end: nat): (r: Option<nat>)
    requires end <= |data|
    ensures r.Some? ==> i < r.value && i < end
    decreases Left(i, end), 0
  {
    if end <= i then None
    else
      match data[i]
      case 0x0a => Value(i + 1, 1, end)
      case 0x0b => Value(i + 1, 2, end)
      case 0x0c => Value(i + 1, 4, end)
      case 0x0d => StringEnd(data, i + 1, end)
      case 0x0e => Value(i + 1, 8, end)
      case 0x11 =>
        (match Package(data, i + 1, end)
         case None => None
         case Some((pEnd, n)) => if TermArg(data, n, end).Some? then Some(pEnd) else None)
      case _ => if data[i] in {0x00, 0x01, 0xff} then Some(i + 1) else None
  }

  function DataObject(data: seq<Byte>, i: nat, end: nat): (r: Option<nat>)
    requires end <= |data|
    ensures r.Some? ==> i < r.value && i < end
    decreases Left(i, end), 1
  {
    if Computational(data, i, end).Some? then Computational(data, i, end)
    else if i < end && data[i] == 0x12 then
      match Package(data, i + 1, end)
      case None => None
      case Some((pEnd, n)) => if n < end then Elements(data, n + 1, pEnd, end) else None
    else None
  }

  /** The elements of a package: names or data. */
  function Elements(data: seq<Byte>, i: nat, pEnd: nat, end: nat): (r: Option<nat>)
    requires end <= |data|
    ensures r.Some? ==> i <= r.value && pEnd <= r.value
    decreases Left(i, end), 5
  {
    if pEnd <= i then Some(i)
    else
      match Element(data, i, end)
      case None => None
      case Some(n) => Elements(data, n, pEnd, end)
  }

  function Element(data: seq<Byte>, i: nat, end: nat): (r: Option<nat>)
    requires end <= |data|
    ensures r.Some? ==> i < r.value && i < end
    decreases Left(i, end), 4
  {
    if NameEnd(data, i, end).Some? then NameEnd(data, i, end) else DataRef(data, i, end)
  }

  function DataRef(data: seq<Byte>, i: nat, end: nat): (r: Option<nat>)
    requires end <= |data|
    ensures r.Some? ==> i < r.value && i < end
    decreases Left(i, end), 3
  {
    if Computational(data, i, end).Some? then Computational(data, i, end) else TermArg(data, i, end)
  }

  function NameOp(data: seq<Byte>, i: nat, end: nat): (r: Option<nat>)
    requires end <= |data|
    ensures r.Some? ==> i < r.value && i < end
    decreases Left(i, end), 4
  {
    match NameEnd(data, i, end)
    case None => None
    case Some(n) => DataRef(data, n, end)
  }

  /** A package of objects behind a name: Scope and Device, and Method, whose flags byte must be there
      and whose objects are passed over (`skip`). */
  function NamedPackage(data: seq<Byte>, i: nat, skip: bool, end: nat): (r: Option<nat>)
    requires end <= |data|
    ensures r.Some? ==> i <= r.value && i < end
    decreases Left(i, end), 4
  {
    match Package(data, i, end)
    case None => None
    case Some((pEnd, n)) =>
      match NameEnd(data, n, end)
      case None => None
      case Some(m) =>
        if skip then if m < end then Some(pEnd) else None
        else if TermList(data, m, pEnd, end).Some? then Some(pEnd)
        else None
  }

  /** The elements of a field list: reserved bits, an access change, two forms of which only the first
      byte is read, and named bits. */
  function FieldList(data: seq<Byte>, i: nat, pEnd: nat, end: nat): (r: Option<nat>)
    requires end <= |data|
    ensures r.Some? ==> i <= r.value && pEnd <= r.value
    decreases Left(i, end)
  {
    if pEnd <= i then Some(i)
    else
      match FieldElement(data, i, end)
      case None => None
      case Some(n) => FieldList(data, n, pEnd, end)
  }

  function FieldElement(data: seq<Byte>, i: nat, end: nat): (r: Option<nat>)
    requires end <= |data|
    ensures r.Some? ==> i < r.value <= end
  {
    if end <= i then None
    else
      match data[i]
      case 0 => (match Package(data, i + 1, end) case None => None case Some((_, n)) => Some(n))
      case 1 => Value(i + 1, 2, end)
      case 2 => Some(i + 1)
      case 3 => Some(i + 1)
      case _ =>
        if i + 4 <= end && LeadChar(data[i]) then
          match Package(data, i + 4, end)
          case None => None
          case Some((_, n)) => Some(n)
        else None
  }

  function OpRegion(data: seq<Byte>, i: nat, end: nat): (r: Option<nat>)
    requires end <= |data|
    ensures r.Some? ==> i < r.value && i < end
    decreases Left(i, end), 4
  {
    match NameEnd(data, i, end)
    case None => None
    case Some(n) => if n < end then TwoArgs(data, n + 1, end) else None
  }

  function Field(data: seq<Byte>, i: nat, end: nat): (r: Option<nat>)
    requires end <= |data|
    ensures r.Some? ==> i < r.value && i < end
  {
    match Package(data, i, end)
    case None => None
    case Some((pEnd, n)) =>
      match NameEnd(data, n, end)
      case None => None
      case Some(m) => if m < end then FieldList(data, m + 1, pEnd, end) else None
  }

  /** A name, an identifier, an address of four bytes and a length; the objects are passed over. */
  function Processor(data: seq<Byte>, i: nat, end: nat): (r: Option<nat>)
    requires end <= |data|
    ensures r.Some? ==> i <= r.value && i < end
  {
    match Package(data, i, end)
    case None => None
    case Some((pEnd, n)) =>
      match NameEnd(data, n, end)
      case None => None
      case Some(m) => if m + 6 <= end then Some(pEnd) else None
  }

  /** A name, whose failure is ignored, and a byte. */
  function Mutex(data: seq<Byte>, i: nat, end: nat): (r: Option<nat>)
    requires end <= |data|
    ensures r.Some? ==> i < r.value <= end
  {
    Value(PastName(data, i, end), 1, end)
  }

  function Object(data: seq<Byte>, i: nat, end: nat): (r: Option<nat>)
    requires end <= |data|
    ensures r.Some? ==> i < r.value && i < end
    decreases Left(i, end), 0
  {
    if end <= i then None
    else
      match data[i]
      case 0x08 => NameOp(data, i + 1, end)
      case 0x10 => NamedPackage(data, i + 1, false, end)
      case 0x14 => NamedPackage(data, i + 1, true, end)
      case 0x5b =>
        if end <= i + 1 then None
        else
          (match data[i + 1]
           case 0x80 => OpRegion(data, i + 2, end)
           case 0x81 => Field(data, i + 2, end)
           case 0x82 => NamedPackage(data, i + 2, false, end)
           case 0x83 => Processor(data, i + 2, end)
           case 0x01 => Mutex(data, i + 2, end)
           case _ => None)
      case _ => None
  }

  function TermObj(data: seq<Byte>, i: nat, end: nat): (r: Option<nat>)
    requires end <= |data|
    ensures r.Some? ==> i < r.value && i < end
    decreases Left(i, end), 1
  {
    if Object(data, i, end).Some? then Object(data, i, end)
    else if TypeTwo(data, i, end).Some? then TypeTwo(data, i, end)
    else TypeOne(data, i, end)
  }

  // ----- Whole tables -----

  /** The first position, of those that objects one after the other lead to, that starts none. */
  function FirstBad(data: seq<Byte>, i: nat, end: nat): (p: nat)
    requires end <= |data|
    ensures i <= p && TermObj(data, p, end) == None
    decreases Left(i, end)
  {
    match TermObj(data, i, end)
    case None => i
    case Some(n) => FirstBad(data, n, end)
  }

  /** Objects one after the other lead from `i` to `p`. */
  predicate Leads(data: seq<Byte>, i: nat, p: nat, end: nat)
    requires end <= |data|
    decreases Left(i, end)
  {
    i == p ||
    match TermObj(data, i, end)
    case None => false
    case Some(n) => Leads(data, n, p, end)
  }

  lemma {:induction false} LeadsToFirstBad(data: seq<Byte>, i: nat, end: nat)
    requires end <= |data|
    ensures Leads(data, i, FirstBad(data, i, end), end)
    decreases Left(i, end)
  {
    if TermObj(data, i, end).Some? { LeadsToFirstBad(data, TermObj(data, i, end).value, end); }
  }

  lemma {:induction false} NoneBeyondFirstBad(data: seq<Byte>, i: nat, p: nat, end: nat)
    requires end <= |data| && Leads(data, i, p, end)
    ensures p <= FirstBad(data, i, end) && FirstBad(data, p, end) == FirstBad(data, i, end)
    decreases Left(i, end)
  {
    if i != p { NoneBeyondFirstBad(data, TermObj(data, i, end).value, p, end); }
  }

  /** Position `p`, if it is reached from `i` before the end, starts an object. */
  predicate Starts(data: seq<Byte>, i: nat, p: nat, end: nat)
    requires end <= |data|
  {
    p < end && Leads(data, i, p, end) ==> TermObj(data, p, end).Some?
  }

  /** A table is read to its end exactly when every position reached before the end starts an object. */
  lemma WholeTable(data: seq<Byte>, i: nat, end: nat)
    requires end <= |data|
    ensures FirstBad(data, i, end) >= end <==> forall p: nat :: Starts(data, i, p, end)
  {
    hide TermObj;
    var bad := FirstBad(data, i, end);
    LeadsToFirstBad(data, i, end);
    if bad >= end {
      forall p: nat ensures Starts(data, i, p, end) {
        if Leads(data, i, p, end) { NoneBeyondFirstBad(data, i, p, end); }
      }
    } else {
      assert !Starts(data, i, bad, end);
    }
  }

  /** Where `load_dsdt` stops when the byte before `i` is `c` and starts no object: for some opcodes it
      still reads arguments, whether they are there or not. */
  function AfterUnknown(data: seq<Byte>, c: Byte, i: nat, end: nat): (r: nat)
    requires end <= |data|
    ensures i <= r
  {
    var one := Or(TermArg(data, i, end), i);
    var two := Or(TermArg(data, one, end), one);
    if c == 0x72 then Or(Target(data, two, end), two)
    else if c in {0x75, 0x76, 0x8e} then Or(SuperName(data, i, end), i)
    else if c in {0x8a, 0x8b, 0x8c, 0x8d, 0x8f} then PastName(data, two, end)
    else if c in {0x90, 0x91, 0x93, 0x94, 0x95, 0x9c} then two
    else if c in {0x92, 0x96, 0x97, 0x98, 0x99} then one
    else i
  }

  /** Where `load_dsdt` stops: at the end, or behind the first position that starts no object. */
  function TableEnd(data: seq<Byte>, i: nat, end: nat): (r: nat)
    requires end <= |data|
    ensures var p := FirstBad(data, i, end); if p < end then p < r else r == p
  {
    var p := FirstBad(data, i, end);
    if p < end then AfterUnknown(data, data[p], p + 1, end) else p
  }

  /** No object starts with 0x73 (Concat, which is none of the opcodes read), so a table that starts with it
      is given up after one byte, whatever follows. */
  lemma ConcatStops(rest: seq<Byte>)
    ensures var data := [0x73] + rest;
      FirstBad(data, 0, |data|) == 0 && TableEnd(data, 0, |data|) == 1
  {
    var data := [0x73] + rest;
    assert data[0] == 0x73;
    assert NameEnd(data, 0, |data|) == None && TypeTwo(data, 0, |data|) == None && TypeOne(data, 0, |data|) == None;
    assert Object(data, 0, |data|) == None && TermObj(data, 0, |data|) == None;
  }
}
