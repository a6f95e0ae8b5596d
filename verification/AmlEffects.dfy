/** What reading AML byte code does to the namespace and to `name_path`, the names kept while a path is read
    (kernel/aml.cpp): a function of the bytes, for every byte string, whether it is read or given up. Parts of a
    production that fail leave their traces; so these functions follow the reader's attempts in order. */
module AmlEffects {
  import opened Wrappers
  import opened AmlNames
  import opened AmlBytes
  import opened AmlGrammar

  /** A name as `name_string` returns it. `upper` is the segment before it in `name_path`; the `lower`
      links, which `declare_name` sets to retrace the `upper` links, are left implicit. */
  datatype Name = Name(seg: Seg, success: bool, isRoot: bool, upper: Option<nat>, context: Option<nat>)

  const NAME_PATH_LIMIT := 16
  const ZERO := Seg(0, 0, 0, 0)
  const INVALID := Name(ZERO, false, false, None, None)

  /** The segment stored before segment `k`. */
  function Above(k: nat): Option<nat> { if k == 0 then None else Some(k - 1) }

  ghost predicate NamesOk(es: seq<Entry>, names: seq<Name>) {
    |names| == NAME_PATH_LIMIT &&
    forall k {:trigger names[k]} :: 0 <= k < NAME_PATH_LIMIT ==>
      names[k].seg.a != 0 && In(names[k].context, |es|) && names[k].upper == Above(k)
  }

  predicate Solid(segs: seq<Seg>) { forall s :: s in segs ==> s.a != 0 }

  /** Byte code up to `end`, and the namespace and scope in which names are looked up. */
  datatype Where = Where(data: seq<Byte>, end: nat, es: seq<Entry>, scope: Option<nat>) {
    ghost predicate Ok() { end <= |data| && |es| > 0 && Linked(es) && In(scope, |es|) }

    function Start(root: bool): Option<nat> { if root then Some(0) else scope }
  }

  // ----- Names kept -----

  /** Segment `k` of a path, with the entry it means. */
  function NameOn(es: seq<Entry>, start: Option<nat>, root: bool, segs: seq<Seg>, k: nat): Name
    requires Linked(es) && In(start, |es|) && k < |segs|
  {
    Name(segs[k], true, root && k == 0, Above(k), FindPath(es, start, segs[..k + 1]))
  }

  /** The segments of a path stored over the names before, as far as there is room. */
  ghost function Stored(es: seq<Entry>, start: Option<nat>, root: bool, segs: seq<Seg>, names: seq<Name>): (r: seq<Name>)
    requires Linked(es) && In(start, |es|) && NamesOk(es, names) && Solid(segs)
    ensures NamesOk(es, r)
  {
    seq(NAME_PATH_LIMIT, k requires 0 <= k < NAME_PATH_LIMIT =>
      if k < |segs| then NameOn(es, start, root, segs, k) else names[k])
  }

  /** The segments read of `n`: those before the first that is none. */
  function SegsRead(data: seq<Byte>, i: nat, n: nat, end: nat): (r: seq<Seg>)
    requires end <= |data|
    ensures |r| <= n && Solid(r)
    ensures match SegRun(data, i, n, end) case None => |r| < n case Some(s) => r == s
    decreases n
  {
    if n == 0 || end < i + 4 || !LeadChar(data[i]) then [] else [SegAt(data, i)] + SegsRead(data, i + 4, n - 1, end)
  }

  /** Root or not, the first segment and the count of a counted name. */
  function CountedAt(data: seq<Byte>, i: nat, end: nat): (r: Option<(bool, nat, nat)>)
    requires end <= |data|
  {
    if end <= i then None
    else
      var root := data[i] == 0x5c;
      var m := if root then i + 1 else SkipCarets(data, i, end);
      if end <= m + 1 || data[m] != 0x2f then None else Some((root, m + 2, data[m + 1]))
  }

  /** The names kept after `name_string` has been at `i`: only counted names are stored. */
  ghost function AfterName(w: Where, names: seq<Name>, i: nat): (r: seq<Name>)
    requires w.Ok() && NamesOk(w.es, names)
    ensures NamesOk(w.es, r)
  {
    match CountedAt(w.data, i, w.end)
    case None => names
    case Some((root, p, n)) => Stored(w.es, w.Start(root), root, SegsRead(w.data, p, n, w.end), names)
  }

  /** The last of some segments; beyond the limit it has no link to those before. */
  function LastName(es: seq<Entry>, start: Option<nat>, root: bool, segs: seq<Seg>): Name
    requires Linked(es) && In(start, |es|) && segs != []
  {
    var last := NameOn(es, start, root, segs, |segs| - 1);
    if |segs| <= NAME_PATH_LIMIT then last else last.(upper := None)
  }

  /** What `name_string` returns of a name. */
  function NameRead(w: Where, name: Written): Name
    requires w.end <= |w.data| && |w.es| > 0 && Linked(w.es) && In(w.scope, |w.es|) && name.segs != []
  {
    LastName(w.es, w.Start(name.root), name.root, name.segs)
  }

  ghost function SuperNameNames(w: Where, names: seq<Name>, i: nat): (r: seq<Name>)
    requires w.Ok() && NamesOk(w.es, names)
    ensures NamesOk(w.es, r)
    decreases Left(i, w.end), 1
  {
    if LocalOrArg(w.data, i, w.end).Some? then names
    else if NameEnd(w.data, i, w.end).Some? then AfterName(w, names, i)
    else TypeSixNames(w, AfterName(w, names, i), i)
  }

  ghost function TargetNames(w: Where, names: seq<Name>, i: nat): (r: seq<Name>)
    requires w.Ok() && NamesOk(w.es, names)
    ensures NamesOk(w.es, r)
    decreases Left(i, w.end), 2
  {
    if w.end <= i || w.data[i] == 0 then names else SuperNameNames(w, names, i)
  }

  ghost function TypeSixNames(w: Where, names: seq<Name>, i: nat): (r: seq<Name>)
    requires w.Ok() && NamesOk(w.es, names)
    ensures NamesOk(w.es, r)
    decreases Left(i, w.end), 0
  {
    if w.end <= i then names
    else
      match w.data[i]
      case 0x71 => SuperNameNames(w, names, i + 1)
      case 0x83 => TermArgNames(w, names, i + 1)
      case 0x88 => TwoArgsAndTargetNames(w, names, i + 1)
      case _ => names
  }

  ghost function TwoArgsNames(w: Where, names: seq<Name>, i: nat): (r: seq<Name>)
    requires w.Ok() && NamesOk(w.es, names)
    ensures NamesOk(w.es, r)
    decreases Left(i, w.end), 3
  {
    var first := TermArgNames(w, names, i);
    match TermArg(w.data, i, w.end)
    case None => first
    case Some(n) => TermArgNames(w, first, n)
  }

  ghost function TwoArgsAndTargetNames(w: Where, names: seq<Name>, i: nat): (r: seq<Name>)
    requires w.Ok() && NamesOk(w.es, names)
    ensures NamesOk(w.es, r)
    decreases Left(i, w.end), 4
  {
    var two := TwoArgsNames(w, names, i);
    match TwoArgs(w.data, i, w.end)
    case None => two
    case Some(n) => TargetNames(w, two, n)
  }

  ghost function TermArgsNames(w: Where, names: seq<Name>, i: nat, pEnd: nat): (r: seq<Name>)
    requires w.Ok() && NamesOk(w.es, names)
    ensures NamesOk(w.es, r)
    decreases Left(i, w.end), 3
  {
    if pEnd <= i then names
    else
      var first := TermArgNames(w, names, i);
      match TermArg(w.data, i, w.end)
      case None => first
      case Some(n) => TermArgsNames(w, first, n, pEnd)
  }

  ghost function TypeOneNames(w: Where, names: seq<Name>, i: nat): (r: seq<Name>)
    requires w.Ok() && NamesOk(w.es, names)
    ensures NamesOk(w.es, r)
    decreases Left(i, w.end), 0
  {
    if w.end <= i then names
    else
      match w.data[i]
      case 0xa0 => IfOrWhileNames(w, names, i + 1)
      case 0xa1 =>
        (match Package(w.data, i + 1, w.end)
         case None => names
         case Some((pEnd, n)) => TermArgsNames(w, names, n, pEnd))
      case 0xa2 => IfOrWhileNames(w, names, i + 1)
      case 0xa4 => TermArgNames(w, names, i + 1)
      case _ => names
  }

  ghost function IfOrWhileNames(w: Where, names: seq<Name>, i: nat): (r: seq<Name>)
    requires w.Ok() && NamesOk(w.es, names)
    ensures NamesOk(w.es, r)
    decreases Left(i, w.end), 4
  {
    match Package(w.data, i, w.end)
    case None => names
    case Some((pEnd, n)) =>
      TermArgsNames(w, TermArgNames(w, names, n), Or(TermArg(w.data, n, w.end), n), pEnd)
  }

  ghost function TypeTwoNames(w: Where, names: seq<Name>, i: nat): (r: seq<Name>)
    requires w.Ok() && NamesOk(w.es, names)
    ensures NamesOk(w.es, r)
    decreases Left(i, w.end), 0
  {
    if w.end <= i then names
    else
      var c := w.data[i];
      if c == 0x5b then
        if i + 1 < w.end && w.data[i + 1] == 0x12 then
          var first := SuperNameNames(w, names, i + 2);
          match SuperName(w.data, i + 2, w.end)
          case None => first
          case Some(n) => TargetNames(w, first, n)
        else names
      else if c in {0x72, 0x88} then TwoArgsAndTargetNames(w, names, i + 1)
      else if c in {0x83, 0x92} then TermArgNames(w, names, i + 1)
      else if c == 0x87 then SuperNameNames(w, names, i + 1)
      else if c in {0x90, 0x91, 0x93, 0x94, 0x95} then TwoArgsNames(w, names, i + 1)
      else AfterName(w, names, i)
  }

  ghost function TermArgNames(w: Where, names: seq<Name>, i: nat): (r: seq<Name>)
    requires w.Ok() && NamesOk(w.es, names)
    ensures NamesOk(w.es, r)
    decreases Left(i, w.end), 2
  {
    if LocalOrArg(w.data, i, w.end).Some? then names
    else
      var first := DataObjectNames(w, names, i);
      if DataObject(w.data, i, w.end).Some? then first else TypeTwoNames(w, first, i)
  }

  ghost function ComputationalNames(w: Where, names: seq<Name>, i: nat): (r: seq<Name>)
    requires w.Ok() && NamesOk(w.es, names)
    ensures NamesOk(w.es, r)
    decreases Left(i, w.end), 0
  {
    if i < w.end && w.data[i] == 0x11 then
      match Package(w.data, i + 1, w.end)
      case None => names
      case Some((pEnd, n)) => TermArgNames(w, names, n)
    else names
  }

  ghost function DataObjectNames(w: Where, names: seq<Name>, i: nat): (r: seq<Name>)
    requires w.Ok() && NamesOk(w.es, names)
    ensures NamesOk(w.es, r)
    decreases Left(i, w.end), 1
  {
    var first := ComputationalNames(w, names, i);
    if Computational(w.data, i, w.end).Some? then first
    else if i < w.end && w.data[i] == 0x12 then
      match Package(w.data, i + 1, w.end)
      case None => first
      case Some((pEnd, n)) => if n < w.end then ElementsNames(w, first, n + 1, pEnd) else first
    else first
  }

  ghost function ElementsNames(w: Where, names: seq<Name>, i: nat, pEnd: nat): (r: seq<Name>)
    requires w.Ok() && NamesOk(w.es, names)
    ensures NamesOk(w.es, r)
    decreases Left(i, w.end), 5
  {
    if pEnd <= i then names
    else
      var first := ElementNames(w, names, i);
      match Element(w.data, i, w.end)
      case None => first
      case Some(n) => ElementsNames(w, first, n, pEnd)
  }

  ghost function ElementNames(w: Where, names: seq<Name>, i: nat): (r: seq<Name>)
    requires w.Ok() && NamesOk(w.es, names)
    ensures NamesOk(w.es, r)
    decreases Left(i, w.end), 4
  {
    var first := AfterName(w, names, i);
    if NameEnd(w.data, i, w.end).Some? then first else DataRefNames(w, first, i)
  }

  ghost function DataRefNames(w: Where, names: seq<Name>, i: nat): (r: seq<Name>)
    requires w.Ok() && NamesOk(w.es, names)
    ensures NamesOk(w.es, r)
    decreases Left(i, w.end), 3
  {
    var first := ComputationalNames(w, names, i);
    if Computational(w.data, i, w.end).Some? then first else TermArgNames(w, first, i)
  }

  /** Objects that declare nothing: operation regions, and those of whose parts only the name matters here. */
  ghost function OpRegionNames(w: Where, names: seq<Name>, i: nat): (r: seq<Name>)
    requires w.Ok() && NamesOk(w.es, names)
    ensures NamesOk(w.es, r)
  {
    var first := AfterName(w, names, i);
    match NameEnd(w.data, i, w.end)
    case None => first
    case Some(n) => if n < w.end then TwoArgsNames(w, first, n + 1) else first
  }

  ghost function PackageNames(w: Where, names: seq<Name>, i: nat): (r: seq<Name>)
    requires w.Ok() && NamesOk(w.es, names)
    ensures NamesOk(w.es, r)
  {
    match Package(w.data, i, w.end)
    case None => names
    case Some((pEnd, n)) => AfterName(w, names, n)
  }

  // ----- Declarations -----

  /** The namespace and the names kept. */
  datatype Space = Space(es: seq<Entry>, names: seq<Name>)

  ghost predicate Good(s: Space) { Tree(s.es) && NamesOk(s.es, s.names) }

  /** The entry for one segment: the one it meant when it was read, or else one in `context`. */
  ghost function EnterOne(es: seq<Entry>, u: Name, context: Option<nat>): (r: (seq<Entry>, nat))
    requires Tree(es) && In(context, |es|) && In(u.context, |es|) && u.seg.a != 0
    ensures Tree(r.0) && Grows(es, r.0) && r.1 < |r.0|
  {
    FindOrNewFinds(es, u.seg, context);
    if u.context.Some? then (es, u.context.value) else LookupOrNew(es, u.seg, context)
  }

  /** Segments `i` up to `n` of the names kept, entered one in the other. */
  ghost function EnterKept(s: Space, i: nat, n: nat, context: Option<nat>): (r: (Space, Option<nat>))
    requires Good(s) && n <= NAME_PATH_LIMIT && In(context, |s.es|)
    ensures Good(r.0) && Grows(s.es, r.0.es) && In(r.1, |r.0.es|)
    decreases n - i
  {
    if i >= n then (s, context)
    else
      var (es1, c) := EnterOne(s.es, s.names[i], context);
      EnterKept(Space(es1, s.names[i := s.names[i].(context := Some(c))]), i + 1, n, Some(c))
  }

  ghost predicate NameOk(es: seq<Entry>, u: Name) {
    u.seg.a != 0 && In(u.context, |es|) && In(u.upper, NAME_PATH_LIMIT)
  }

  /** `declare_name`: the segments kept before the name, and the name itself. */
  ghost function Declare(s: Space, scope: Option<nat>, u: Name): (r: (Space, nat))
    requires Good(s) && In(scope, |s.es|) && NameOk(s.es, u)
    ensures Good(r.0) && Grows(s.es, r.0.es) && r.1 < |r.0.es|
  {
    var n := if u.upper.None? then 0 else u.upper.value + 1;
    var root := if u.upper.None? then u.isRoot else s.names[0].isRoot;
    var (s1, context) := EnterKept(s, 0, n, if root then Some(0) else scope);
    var (es2, c) := EnterOne(s1.es, u, context);
    (Space(es2, s1.names), c)
  }

  /** Type and byte range of an entry. */
  ghost function Described(es: seq<Entry>, c: nat, kind: nat, source: nat, length: int): (r: seq<Entry>)
    requires Tree(es) && c < |es|
    ensures Tree(r) && Grows(es, r)
  {
    DescribeKeeps(es, es[c := es[c].(kind := kind, source := source, length := length)]);
    es[c := es[c].(kind := kind, source := source, length := length)]
  }

  ghost predicate Reading(data: seq<Byte>, end: nat, s: Space, scope: Option<nat>) {
    end <= |data| && Good(s) && In(scope, |s.es|)
  }

  /** A name and its value: it is declared if the value is read, after that. */
  ghost function NameOpEffect(data: seq<Byte>, end: nat, s: Space, scope: Option<nat>, i: nat): (r: Space)
    requires Reading(data, end, s, scope)
    ensures Good(r) && Grows(s.es, r.es)
  {
    var w := Where(data, end, s.es, scope);
    var first := AfterName(w, s.names, i);
    match NameAt(data, i, end)
    case None => Space(s.es, first)
    case Some(name) =>
      var v := name.next;
      var names := DataRefNames(w, first, v);
      match DataRef(data, v, end)
      case None => Space(s.es, names)
      case Some(n) =>
        assert name.segs[|name.segs| - 1] in name.segs;
        var (s1, c) := Declare(Space(s.es, names), scope, NameRead(w, name));
        Space(Described(s1.es, c, 2, v, n - v), s1.names)
  }

  /** A name declared as it is read, with the entry it means. */
  ghost function DeclareNext(data: seq<Byte>, end: nat, s: Space, scope: Option<nat>, i: nat, kind: nat): (r: (Space, Option<nat>))
    requires Reading(data, end, s, scope)
    ensures Good(r.0) && Grows(s.es, r.0.es) && In(r.1, |r.0.es|)
  {
    var w := Where(data, end, s.es, scope);
    var names := AfterName(w, s.names, i);
    match NameAt(data, i, end)
    case None => (Space(s.es, names), None)
    case Some(name) =>
      assert name.segs[|name.segs| - 1] in name.segs;
      var (s1, c) := Declare(Space(s.es, names), scope, NameRead(w, name));
      (if kind == 0 then s1 else Space(Described(s1.es, c, kind, s1.es[c].source, s1.es[c].length), s1.names), Some(c))
  }

  /** A package of objects behind a name: the name is declared, then the objects are read inside its entry. */
  ghost function NamedPackageEffect(data: seq<Byte>, end: nat, s: Space, scope: Option<nat>, i: nat, kind: nat, skip: bool): (r: Space)
    requires Reading(data, end, s, scope)
    ensures Good(r) && Grows(s.es, r.es)
    decreases Left(i, end), 4
  {
    match Package(data, i, end)
    case None => s
    case Some((pEnd, n)) =>
      var (s1, context) := DeclareNext(data, end, s, scope, n, kind);
      match NameAt(data, n, end)
      case None => s1
      case Some(name) => if skip then s1 else TermListEffect(data, end, s1, context, name.next, pEnd)
  }

  ghost function TermListEffect(data: seq<Byte>, end: nat, s: Space, scope: Option<nat>, i: nat, pEnd: nat): (r: Space)
    requires Reading(data, end, s, scope)
    ensures Good(r) && Grows(s.es, r.es)
    decreases Left(i, end), 2
  {
    if pEnd <= i then s
    else
      var s1 := TermObjEffect(data, end, s, scope, i);
      match TermObj(data, i, end)
      case None => s1
      case Some(n) => TermListEffect(data, end, s1, scope, n, pEnd)
  }

  ghost function ObjectEffect(data: seq<Byte>, end: nat, s: Space, scope: Option<nat>, i: nat): (r: Space)
    requires Reading(data, end, s, scope)
    ensures Good(r) && Grows(s.es, r.es)
    decreases Left(i, end), 0
  {
    var w := Where(data, end, s.es, scope);
    if end <= i then s
    else
      match data[i]
      case 0x08 => NameOpEffect(data, end, s, scope, i + 1)
      case 0x10 => NamedPackageEffect(data, end, s, scope, i + 1, 0, false)
      case 0x14 => NamedPackageEffect(data, end, s, scope, i + 1, 3, true)
      case 0x5b =>
        if end <= i + 1 then s
        else
          (match data[i + 1]
           case 0x80 => Space(s.es, OpRegionNames(w, s.names, i + 2))
           case 0x81 => Space(s.es, PackageNames(w, s.names, i + 2))
           case 0x82 => NamedPackageEffect(data, end, s, scope, i + 2, 1, false)
           case 0x83 => Space(s.es, PackageNames(w, s.names, i + 2))
           case 0x01 => Space(s.es, AfterName(w, s.names, i + 2))
           case _ => s)
      case _ => s
  }

  ghost function TermObjEffect(data: seq<Byte>, end: nat, s: Space, scope: Option<nat>, i: nat): (r: Space)
    requires Reading(data, end, s, scope)
    ensures Good(r) && Grows(s.es, r.es)
    decreases Left(i, end), 1
  {
    var s1 := ObjectEffect(data, end, s, scope, i);
    if Object(data, i, end).Some? then s1
    else
      var w := Where(data, end, s1.es, scope);
      var names := TypeTwoNames(w, s1.names, i);
      if TypeTwo(data, i, end).Some? then Space(s1.es, names) else Space(s1.es, TypeOneNames(w, names, i))
  }

  /** Objects one after the other up to the first position that starts none, and what that one leaves behind. */
  ghost function TableEffect(data: seq<Byte>, end: nat, s: Space, scope: Option<nat>, i: nat): (r: Space)
    requires Reading(data, end, s, scope)
    ensures Good(r) && Grows(s.es, r.es)
    decreases Left(i, end)
  {
    var s1 := TermObjEffect(data, end, s, scope, i);
    match TermObj(data, i, end)
    case None => s1
    case Some(n) => TableEffect(data, end, s1, scope, n)
  }

  // ----- What a declaration amounts to -----

  /** A path entered segment by segment from entry `p`: each is found or made inside the one before. */
  ghost function EnterPath(es: seq<Entry>, p: nat, segs: seq<Seg>): (r: (seq<Entry>, nat))
    requires Tree(es) && p < |es| && Solid(segs)
    ensures Tree(r.0) && Grows(es, r.0) && r.1 < |r.0|
    decreases |segs|
  {
    if segs == [] then (es, p)
    else
      var k := |segs| - 1;
      var (es1, c) := EnterPath(es, p, segs[..k]);
      FindOrNewFinds(es1, segs[k], Some(c));
      LookupOrNew(es1, segs[k], Some(c))
  }

  lemma EnterPathSnoc(es: seq<Entry>, p: nat, segs: seq<Seg>, k: nat)
    requires Tree(es) && p < |es| && Solid(segs) && k < |segs|
    ensures Solid(segs[..k]) && Solid(segs[..k + 1])
    ensures var (es1, c) := EnterPath(es, p, segs[..k]);
      EnterPath(es, p, segs[..k + 1]) == LookupOrNew(es1, segs[k], Some(c))
  {
    assert segs[..k + 1][..k] == segs[..k];
  }

  /** A path that leads somewhere is entered without making anything. */
  lemma {:induction false} FoundEntered(es: seq<Entry>, p: nat, segs: seq<Seg>)
    requires Tree(es) && p < |es| && Solid(segs) && FindPath(es, Some(p), segs).Some?
    ensures EnterPath(es, p, segs) == (es, FindPath(es, Some(p), segs).value)
    decreases |segs|
  {
    if segs != [] {
      var k := |segs| - 1;
      assert FindPath(es, Some(p), segs[..k]).Some?;
      FoundEntered(es, p, segs[..k]);
    }
  }

  /** An entered path is found. */
  lemma {:induction false} EnteredFound(es: seq<Entry>, p: nat, segs: seq<Seg>)
    requires Tree(es) && p < |es| && Solid(segs)
    ensures var (r, c) := EnterPath(es, p, segs); FindPath(r, Some(p), segs) == Some(c)
    decreases |segs|
  {
    if segs != [] {
      var k := |segs| - 1;
      EnteredFound(es, p, segs[..k]);
      var (es1, c) := EnterPath(es, p, segs[..k]);
      FindOrNewFinds(es1, segs[k], Some(c));
      PathStays(es1, LookupOrNew(es1, segs[k], Some(c)).0, Some(p), segs[..k]);
    }
  }

  /** A path that leads somewhere leads there in every later namespace. */
  lemma {:induction false} PathStays(es: seq<Entry>, r: seq<Entry>, ctx: Option<nat>, path: seq<Seg>)
    requires Tree(es) && Tree(r) && Grows(es, r) && In(ctx, |es|) && FindPath(es, ctx, path).Some?
    ensures ctx.Some? && FindPath(r, ctx, path) == FindPath(es, ctx, path)
    decreases |path|
  {
    if path != [] {
      var k := |path| - 1;
      PathStays(es, r, ctx, path[..k]);
      FoundStays(es, r, path[k], FindPath(es, ctx, path[..k]).value);
    }
  }

  /** The names kept hold the segments of a path, up to the last, as they were read. */
  ghost predicate Holding(es: seq<Entry>, names: seq<Name>, start: Option<nat>, root: bool, segs: seq<Seg>, i: nat)
    requires Linked(es) && In(start, |es|) && |names| == NAME_PATH_LIMIT
  {
    forall k: nat {:trigger names[k]} :: i <= k < |segs| - 1 && k < NAME_PATH_LIMIT ==> names[k] == NameOn(es, start, root, segs, k)
  }

  /** The entry that a name read in `scope` starts from. */
  function From(root: bool, scope: Option<nat>): nat { if root then 0 else Parent(scope) }

  /** One segment entered on the way. */
  lemma EnteredOne(es: seq<Entry>, start: Option<nat>, root: bool, segs: seq<Seg>, k: nat, es1: seq<Entry>, context: Option<nat>)
    requires Tree(es) && In(start, |es|) && Solid(segs) && k < |segs| && In(context, |es1|) && Tree(es1)
    requires Solid(segs[..k]) && EnterPath(es, Parent(start), segs[..k]) == (es1, Parent(context))
    requires In(NameOn(es, start, root, segs, k).context, |es1|)
    ensures Solid(segs[..k + 1])
    ensures EnterOne(es1, NameOn(es, start, root, segs, k), context) == EnterPath(es, Parent(start), segs[..k + 1])
  {
    EnterPathSnoc(es, Parent(start), segs, k);
    var u := NameOn(es, start, root, segs, k);
    if u.context.Some? { FoundOne(es, start, segs, k); }
    hide EnterPath, FindPath, LookupOrNew;
  }

  lemma FoundOne(es: seq<Entry>, start: Option<nat>, segs: seq<Seg>, k: nat)
    requires Tree(es) && In(start, |es|) && Solid(segs) && k < |segs|
    requires FindPath(es, start, segs[..k + 1]).Some?
    ensures Solid(segs[..k]) && Solid(segs[..k + 1])
    ensures EnterPath(es, Parent(start), segs[..k]).0 == es
    ensures EnterPath(es, Parent(start), segs[..k + 1]) == (es, FindPath(es, start, segs[..k + 1]).value)
  {
    PathStays(es, es, start, segs[..k + 1]);
    assert segs[..k + 1][..k] == segs[..k];
    FoundEntered(es, start.value, segs[..k + 1]);
    FoundEntered(es, start.value, segs[..k]);
  }

  lemma {:induction false} KeptEntered(s: Space, es: seq<Entry>, start: Option<nat>, root: bool, segs: seq<Seg>, i: nat, context: Option<nat>)
    requires Good(s) && Tree(es) && Grows(es, s.es) && In(start, |es|) && Solid(segs)
    requires i < |segs| <= NAME_PATH_LIMIT && In(context, |s.es|) && Holding(es, s.names, start, root, segs, i)
    requires Solid(segs[..i]) && EnterPath(es, Parent(start), segs[..i]) == (s.es, Parent(context))
    ensures Solid(segs[..|segs| - 1])
    ensures var (r, ctx) := EnterKept(s, i, |segs| - 1, context);
      EnterPath(es, Parent(start), segs[..|segs| - 1]) == (r.es, Parent(ctx))
    decreases |segs| - i
  {
    hide NameOn, EnterPath, EnterOne;
    if i < |segs| - 1 {
      assert s.names[i] == NameOn(es, start, root, segs, i);
      NameIn(es, start, root, segs, i);
      EnteredOne(es, start, root, segs, i, s.es, context);
      var (es1, c) := EnterOne(s.es, s.names[i], context);
      KeptEntered(Space(es1, s.names[i := s.names[i].(context := Some(c))]), es, start, root, segs, i + 1, Some(c));
    }
  }

  lemma NameIn(es: seq<Entry>, start: Option<nat>, root: bool, segs: seq<Seg>, k: nat)
    requires Linked(es) && In(start, |es|) && k < |segs|
    ensures In(NameOn(es, start, root, segs, k).context, |es|)
  {
  }

  /** A name whose segments are all kept as they were read is declared by entering its path, and finds its entry by it. */
  lemma DeclaredIsEntered(w: Where, s: Space, name: Written)
    requires w.Ok() && Good(s) && w.es == s.es && 0 < |name.segs| <= NAME_PATH_LIMIT && Solid(name.segs)
    requires Holding(s.es, s.names, w.Start(name.root), name.root, name.segs, 0)
    ensures NameOk(s.es, NameRead(w, name)) && From(name.root, w.scope) < |s.es|
    ensures var (r, c) := Declare(s, w.scope, NameRead(w, name)); EnterPath(s.es, From(name.root, w.scope), name.segs) == (r.es, c)
  {
    LastRead(w, s, name);
    hide NameOn, NameRead, EnterPath, FindPath, Holding, Declare;
    DeclaredLast(s, w.scope, name.root, name.segs, NameRead(w, name));
  }

  lemma {:induction false} DeclaredLast(s: Space, scope: Option<nat>, root: bool, segs: seq<Seg>, u: Name)
    requires Good(s) && In(scope, |s.es|) && 0 < |segs| <= NAME_PATH_LIMIT && Solid(segs)
    requires var start := if root then Some(0) else scope;
      Holding(s.es, s.names, start, root, segs, 0) && u == NameOn(s.es, start, root, segs, |segs| - 1)
    requires NameOk(s.es, u) && u.upper == Above(|segs| - 1)
    requires (if |segs| == 1 then u.isRoot else s.names[0].isRoot) == root
    ensures From(root, scope) < |s.es|
    ensures var (r, c) := Declare(s, scope, u); EnterPath(s.es, From(root, scope), segs) == (r.es, c)
  {
    hide NameOn, EnterPath, EnterKept, FindPath, EnterOne, Holding, Declare, Solid, Grows;
    var start, n := if root then Some(0) else scope, |segs| - 1;
    DeclareSteps(s, scope, u, n, root);
    NothingEntered(s.es, start, segs);
    KeptEntered(s, s.es, start, root, segs, 0, start);
    var (s1, context) := EnterKept(s, 0, n, start);
    EnteredOne(s.es, start, root, segs, n, s1.es, context);
    assert segs[..n + 1] == segs;
  }

  /** The name returned for the last segment, and what the first says of the root. */
  lemma LastRead(w: Where, s: Space, name: Written)
    requires w.Ok() && Good(s) && w.es == s.es && 0 < |name.segs| <= NAME_PATH_LIMIT && Solid(name.segs)
    requires Holding(s.es, s.names, w.Start(name.root), name.root, name.segs, 0)
    ensures var n, u := |name.segs| - 1, NameRead(w, name);
      && NameOk(s.es, u) && u == NameOn(s.es, w.Start(name.root), name.root, name.segs, n) && u.upper == Above(n)
      && (if n == 0 then u.isRoot else s.names[0].isRoot) == name.root
  {
    hide FindPath;
    var n := |name.segs| - 1;
    assert name.segs[n] in name.segs;
    NameIn(s.es, w.Start(name.root), name.root, name.segs, n);
    assert n > 0 ==> s.names[0] == NameOn(s.es, w.Start(name.root), name.root, name.segs, 0);
  }

  lemma DeclareSteps(s: Space, scope: Option<nat>, u: Name, n: nat, root: bool)
    requires Good(s) && In(scope, |s.es|) && NameOk(s.es, u) && u.upper == Above(n) && n < NAME_PATH_LIMIT
    requires (if n == 0 then u.isRoot else s.names[0].isRoot) == root
    ensures var (s1, context) := EnterKept(s, 0, n, if root then Some(0) else scope);
      In(u.context, |s1.es|) && Declare(s, scope, u).0.es == EnterOne(s1.es, u, context).0
      && Declare(s, scope, u).1 == EnterOne(s1.es, u, context).1
  {
    hide EnterKept, EnterOne;
  }

  lemma NothingEntered(es: seq<Entry>, start: Option<nat>, segs: seq<Seg>)
    requires Tree(es) && In(start, |es|)
    ensures Solid(segs[..0]) && EnterPath(es, Parent(start), segs[..0]) == (es, Parent(start))
  {
  }

  /** A counted name just read is kept as it was read. */
  lemma JustRead(w: Where, names: seq<Name>, i: nat)
    requires w.Ok() && NamesOk(w.es, names) && NameAt(w.data, i, w.end).Some?
    ensures var name := NameAt(w.data, i, w.end).value;
      |name.segs| > 1 ==> Holding(w.es, AfterName(w, names, i), w.Start(name.root), name.root, name.segs, 0)
  {
    hide FindPath;
  }
}
