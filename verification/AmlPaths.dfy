/** Names in AML byte code as ACPI section 20.2.2 lets them be written, and which of them kernel/aml.cpp reads as
    what: null names and names with the dual prefix are refused, and `^` means nothing to it. */
module AmlPaths {
  import opened Wrappers
  import opened AmlNames
  import opened AmlBytes

  /** The forms behind root or carets: no segment, one, two behind a prefix, or any number behind a count. */
  datatype Form = NullName | SingleName | DualName | MultiName

  datatype Path = Path(root: bool, carets: nat, form: Form, segs: seq<Seg>) {
    /** The path can be written. */
    predicate Proper() {
      && (root ==> carets == 0) && (forall k :: 0 <= k < |segs| ==> LeadChar(segs[k].a))
      && match form
         case NullName => |segs| == 0
         case SingleName => |segs| == 1
         case DualName => |segs| == 2
         case MultiName => |segs| <= 255
    }

    /** The reader accepts it. */
    predicate Fits() { Proper() && (form == SingleName || form == MultiName) && segs != [] }

    function Prefix(): (s: seq<Byte>)
      ensures |s| == if root then 1 else carets
      ensures forall k :: 0 <= k < |s| ==> s[k] == if root then 0x5c else 0x5e
    {
      if root then [0x5c] else seq(carets, k => 0x5e)
    }

    function Bytes(): (s: seq<Byte>)
      requires Proper()
      ensures |s| > 0
    {
      Prefix() + Body()
    }

    function Body(): (s: seq<Byte>)
      requires Proper()
      ensures |s| > 0
    {
      match form
      case NullName => [0]
      case SingleName => SegBytes(segs)
      case DualName => [0x2e] + SegBytes(segs)
      case MultiName => [0x2f] + ([|segs|] + SegBytes(segs))
    }
  }

  function SegBytes(segs: seq<Seg>): (s: seq<Byte>)
    ensures |s| == 4 * |segs|
  {
    if segs == [] then [] else [segs[0].a, segs[0].b, segs[0].c, segs[0].d] + SegBytes(segs[1..])
  }

  lemma {:induction false} SegRunRead(data: seq<Byte>, i: nat, segs: seq<Seg>, end: nat)
    requires At(data, i, SegBytes(segs)) && i + 4 * |segs| <= end <= |data|
    requires forall k :: 0 <= k < |segs| ==> LeadChar(segs[k].a)
    ensures SegRun(data, i, |segs|, end) == Some(segs)
    decreases |segs|
  {
    if segs != [] {
      var s := segs[0];
      AtParts(data, i, [s.a, s.b, s.c, s.d], SegBytes(segs[1..]));
      AtFour(data, i, s);
      SegRunRead(data, i + 4, segs[1..], end);
      assert [s] + segs[1..] == segs;
    }
  }

  lemma AtFour(data: seq<Byte>, i: nat, s: Seg)
    requires At(data, i, [s.a, s.b, s.c, s.d])
    ensures i + 4 <= |data| && SegAt(data, i) == s
  {
    var four := data[i..i + 4];
    assert four[0] == data[i] && four[1] == data[i + 1] && four[2] == data[i + 2] && four[3] == data[i + 3];
  }

  lemma AtOne(data: seq<Byte>, i: nat, b: Byte, rest: seq<Byte>)
    requires At(data, i, [b] + rest)
    ensures i < |data| && data[i] == b && At(data, i + 1, rest)
  {
    AtParts(data, i, [b], rest);
    assert data[i..i + 1][0] == b;
  }

  lemma {:induction false} CaretsSkipped(data: seq<Byte>, i: nat, n: nat, end: nat)
    requires i + n < end <= |data| && data[i + n] != 0x5e && forall k :: i <= k < i + n ==> data[k] == 0x5e
    ensures SkipCarets(data, i, end) == i + n
    decreases n
  {
    if n > 0 { CaretsSkipped(data, i + 1, n - 1, end); }
  }

  /** A name is read if and only if it is of one segment or has a count that is not zero; then it is read as
      root and segments, the carets lost. Read or refused, the reader is left behind it. */
  lemma NameReadIff(data: seq<Byte>, i: nat, p: Path, end: nat)
    requires p.Proper() && At(data, i, p.Bytes()) && i + |p.Bytes()| <= end <= |data|
    ensures NameAt(data, i, end) == if p.Fits() then Some(Written(p.root, p.segs, i + |p.Bytes()|)) else None
    ensures PastName(data, i, end) == i + |p.Bytes()|
  {
    hide SegRun, PastSegs, PastSeg;
    var m := i + |p.Prefix()|;
    AtParts(data, i, p.Prefix(), p.Body());
    assert forall k :: i <= k < m ==> data[k] == data[i..m][k - i];
    BodyRead(data, m, p, end);
    if !p.root { CaretsSkipped(data, i, p.carets, end); }
  }

  lemma BodyRead(data: seq<Byte>, m: nat, p: Path, end: nat)
    requires p.Proper() && At(data, m, p.Body()) && m + |p.Body()| <= end <= |data|
    ensures match p.form
      case NullName => data[m] == 0
      case SingleName => LeadChar(data[m]) && SegRun(data, m, 1, end) == Some(p.segs) && PastSegs(data, m, 1, end) == m + 4
      case DualName => data[m] == 0x2e && PastSegs(data, m + 1, 2, end) == m + 9
      case MultiName =>
        && data[m] == 0x2f && data[m + 1] == |p.segs| && SegRun(data, m + 2, |p.segs|, end) == Some(p.segs)
        && PastSegs(data, m + 2, |p.segs|, end) == m + 2 + 4 * |p.segs|
  {
    match p.form
    case NullName => AtOne(data, m, 0, []);
    case SingleName => SegRunRead(data, m, p.segs, end);
    case DualName =>
      AtOne(data, m, 0x2e, SegBytes(p.segs));
      SegRunRead(data, m + 1, p.segs, end);
    case MultiName =>
      AtOne(data, m, 0x2f, [|p.segs|] + SegBytes(p.segs));
      AtOne(data, m + 1, |p.segs|, SegBytes(p.segs));
      SegRunRead(data, m + 2, p.segs, end);
  }

  /** The entry that a name read in `scope` is looked up to. */
  function Meaning(es: seq<Entry>, scope: Option<nat>, w: Option<Written>): (r: Option<nat>)
    requires |es| > 0 && Linked(es) && In(scope, |es|)
  {
    match w case None => None case Some(n) => FindPath(es, if n.root then Some(0) else scope, n.segs)
  }

  /** Names that differ in their carets alone are accepted alike and mean the same, wherever they stand. */
  lemma CaretsIgnored(es: seq<Entry>, scope: Option<nat>, data: seq<Byte>, i: nat, p: Path, data': seq<Byte>, j: nat, q: Path)
    requires |es| > 0 && Linked(es) && In(scope, |es|)
    requires p.Proper() && At(data, i, p.Bytes()) && q.Proper() && At(data', j, q.Bytes())
    requires q == p.(carets := q.carets)
    ensures NameAt(data, i, |data|).Some? <==> NameAt(data', j, |data'|).Some?
    ensures Meaning(es, scope, NameAt(data, i, |data|)) == Meaning(es, scope, NameAt(data', j, |data'|))
  {
    NameReadIff(data, i, p, |data|);
    NameReadIff(data', j, q, |data'|);
  }

  /** So a name that goes up one level misses an entry of the parent: it is looked for in the scope itself. */
  lemma CaretMissesParent(es: seq<Entry>, s: nat, data: seq<Byte>, i: nat, p: Path)
    requires Tree(es) && s < |es| && es[s].up.Some? && p == Path(false, 1, SingleName, p.segs) && p.Proper()
    requires At(data, i, p.Bytes()) && Lookup(es, p.segs[0], Some(s)) == None
    requires es[s].up.value < |es| && Lookup(es, p.segs[0], es[s].up).Some?
    ensures Meaning(es, Some(s), NameAt(data, i, |data|)) == None
  {
    NameReadIff(data, i, p, |data|);
    assert p.segs[..0] == [];
    assert FindPath(es, Some(s), []) == Some(s);
  }
}
