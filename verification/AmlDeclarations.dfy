/** What reading a written program does to the namespace (kernel/aml.cpp): each Name, Scope, Device and Method is
    entered inside the entry of the object around it, by its own path, and nothing else is. */
module AmlDeclarations {
  import opened Wrappers
  import opened AmlNames
  import opened AmlBytes
  import opened AmlGrammar
  import opened AmlPaths
  import opened AmlPrograms
  import opened AmlEffects
  import opened AmlTermNames

  // ----- What a program declares -----

  /** The reader keeps the whole path until it declares it: it is no longer than `name_path`, and nothing read in
      between is kept over it. */
  predicate Declarable(o: Obj)
    decreases o, 0
  {
    match o
    case NameOf(path, value) => |path.segs| == 1 || (|path.segs| <= NAME_PATH_LIMIT && Plain(value))
    case Scope(_, path, body) => |path.segs| <= NAME_PATH_LIMIT && AllDeclarable(body)
    case Device(_, path, body) => |path.segs| <= NAME_PATH_LIMIT && AllDeclarable(body)
    case Method(_, path, _, _) => |path.segs| <= NAME_PATH_LIMIT
    case _ => true
  }

  predicate AllDeclarable(os: Objs)
    decreases os, 0
  {
    match os case NoObjs => true case Objs(o, rest) => Declarable(o) && AllDeclarable(rest)
  }

  lemma PathSolid(path: Path)
    requires path.Fits()
    ensures Solid(path.segs)
  {
  }

  /** A path entered where it starts. */
  ghost function EnterIn(es: seq<Entry>, scope: Option<nat>, path: Path): (r: (seq<Entry>, nat))
    requires Tree(es) && In(scope, |es|) && path.Fits()
    ensures Tree(r.0) && Grows(es, r.0) && r.1 < |r.0|
  {
    PathSolid(path);
    EnterPath(es, From(path.root, scope), path.segs)
  }

  /** The kind of an entry noted. */
  ghost function Marked(es: seq<Entry>, c: nat, kind: nat): (r: seq<Entry>)
    requires Tree(es) && c < |es|
    ensures Tree(r) && Grows(es, r)
  {
    if kind == 0 then es else Described(es, c, kind, es[c].source, es[c].length)
  }

  ghost function EnterMarked(es: seq<Entry>, scope: Option<nat>, path: Path, kind: nat): (r: (seq<Entry>, nat))
    requires Tree(es) && In(scope, |es|) && path.Fits()
    ensures Tree(r.0) && Grows(es, r.0) && r.1 < |r.0|
  {
    var (es1, c) := EnterIn(es, scope, path);
    (Marked(es1, c, kind), c)
  }

  /** The namespace after object `o`, written at `i`, has been read in `scope`. A Name is noted with where its value
      stands, a Device and a Method as what they are. */
  ghost function Declares(es: seq<Entry>, scope: Option<nat>, o: Obj, i: nat): (r: seq<Entry>)
    requires Tree(es) && In(scope, |es|) && Fitting(o)
    ensures Tree(r) && Grows(es, r)
    decreases o, 1
  {
    match o
    case NameOf(path, value) =>
      var (es1, c) := EnterIn(es, scope, path);
      Described(es1, c, 2, i + 1 + |path.Bytes()|, |Bytes(value)|)
    case Scope(n, path, body) =>
      var (es1, c) := EnterMarked(es, scope, path, 0);
      AllDeclare(es1, Some(c), body, BodyStart(i, o))
    case Device(n, path, body) =>
      var (es1, c) := EnterMarked(es, scope, path, 1);
      AllDeclare(es1, Some(c), body, BodyStart(i, o))
    case Method(n, path, _, _) => EnterMarked(es, scope, path, 3).0
    case _ => es
  }

  ghost function AllDeclare(es: seq<Entry>, scope: Option<nat>, os: Objs, i: nat): (r: seq<Entry>)
    requires Tree(es) && In(scope, |es|) && AllFitting(os)
    ensures Tree(r) && Grows(es, r)
    decreases os, 1
  {
    match os
    case NoObjs => es
    case Objs(o, rest) => AllDeclare(Declares(es, scope, o, i), scope, rest, i + |ObjBytes(o)|)
  }

  // ----- That is what the reader does -----

  /** A name as it is declared from the names kept. */
  lemma NameDeclared(w: Where, names: seq<Name>, kept: seq<Name>, i: nat, path: Path)
    requires AmlTermNames.Ready(w, names) && AmlTermNames.Ready(w, kept) && Tree(w.es) && path.Fits() && Stands(w.data, i, path.Bytes(), w.end)
    requires |path.segs| == 1 || (|path.segs| <= NAME_PATH_LIMIT && kept == AfterName(w, names, i))
    ensures var name := Written(path.root, path.segs, i + |path.Bytes()|);
      && NameAt(w.data, i, w.end) == Some(name) && NameOk(w.es, NameRead(w, name))
      && var (r, c) := Declare(Space(w.es, kept), w.scope, NameRead(w, name));
        EnterIn(w.es, w.scope, path) == (r.es, c)
  {
    hide Path.Bytes, Declare, EnterPath, NameRead, AfterName, NameAt;
    NameReadIff(w.data, i, path, w.end);
    PathSolid(path);
    if |path.segs| > 1 { JustRead(w, names, i); }
    DeclaredIsEntered(w, Space(w.es, kept), Written(path.root, path.segs, i + |path.Bytes()|));
  }

  /** The name of a package declared, and the entry described. */
  lemma NextDeclared(data: seq<Byte>, end: nat, s: Space, scope: Option<nat>, i: nat, path: Path, kind: nat)
    requires Reading(data, end, s, scope) && path.Fits() && |path.segs| <= NAME_PATH_LIMIT && Stands(data, i, path.Bytes(), end)
    ensures NameAt(data, i, end) == Some(Written(path.root, path.segs, i + |path.Bytes()|))
    ensures var (r, context) := DeclareNext(data, end, s, scope, i, kind); var (es1, c) := EnterIn(s.es, scope, path);
      context == Some(c) && r.es == Marked(es1, c, kind)
  {
    var w := Where(data, end, s.es, scope);
    hide Path.Bytes, Declare, EnterPath, NameRead, AfterName, NameAt, Stands;
    NameDeclared(w, s.names, AfterName(w, s.names, i), i, path);
  }

  /** An object that declares is tried as such first, and read. */
  lemma DeclaringEffect(data: seq<Byte>, end: nat, s: Space, scope: Option<nat>, i: nat)
    requires Reading(data, end, s, scope) && i < end && TermObj(data, i, end).Some?
    ensures data[i] == 0x08 ==> TermObjEffect(data, end, s, scope, i) == NameOpEffect(data, end, s, scope, i + 1)
    ensures data[i] == 0x10 ==> TermObjEffect(data, end, s, scope, i) == NamedPackageEffect(data, end, s, scope, i + 1, 0, false)
    ensures data[i] == 0x14 ==> TermObjEffect(data, end, s, scope, i) == NamedPackageEffect(data, end, s, scope, i + 1, 3, true)
    ensures data[i] == 0x5b && i + 1 < end && data[i + 1] == 0x82 ==>
      TermObjEffect(data, end, s, scope, i) == NamedPackageEffect(data, end, s, scope, i + 2, 1, false)
  {
    hide NameOpEffect, NamedPackageEffect, Tree, Grows;
    if data[i] in {0x08, 0x10, 0x14} || (data[i] == 0x5b && i + 1 < end && data[i + 1] == 0x82) { DeclaringIsObject(data, i, end); }
    hide Object, TermObj, TypeTwoNames, TypeOneNames;
  }

  lemma DeclaringIsObject(data: seq<Byte>, i: nat, end: nat)
    requires i < end <= |data| && TermObj(data, i, end).Some?
    requires data[i] in {0x08, 0x10, 0x14} || (data[i] == 0x5b && i + 1 < end && data[i + 1] == 0x82)
    ensures Object(data, i, end).Some?
  {
    if NameEnd(data, i, end).Some? { NameStarts(data, i, end); }
    hide NameEnd, Object;
    assert TypeTwo(data, i, end) == None && TypeOne(data, i, end) == None;
  }

  /** Any other object leaves the namespace as it is. */
  lemma UndeclaringEffect(data: seq<Byte>, end: nat, s: Space, scope: Option<nat>, i: nat)
    requires Reading(data, end, s, scope) && i < end
    requires data[i] !in {0x08, 0x10, 0x14} && (data[i] == 0x5b && i + 1 < end ==> data[i + 1] != 0x82)
    ensures TermObjEffect(data, end, s, scope, i).es == s.es
  {
    hide NameOpEffect, NamedPackageEffect, Tree, Grows, TypeTwoNames, TypeOneNames, OpRegionNames, PackageNames, AfterName;
  }

  /** Where name and value of a Name stand, and that they are read. */
  lemma NameOfStands(data: seq<Byte>, i: nat, path: Path, value: Term, end: nat)
    requires Fitting(NameOf(path, value)) && Stands(data, i, ObjBytes(NameOf(path, value)), end)
    ensures path.Fits() && Fits(value) && i < end <= |data| && data[i] == 0x08 && TermObj(data, i, end).Some?
    ensures var j := i + 1 + |path.Bytes()|;
      && Stands(data, i + 1, path.Bytes(), end) && Stands(data, j, Bytes(value), end)
      && DataRef(data, j, end) == Some(j + |Bytes(value)|)
  {
    hide Path.Bytes, Bytes, TermObj, TermArg, DataRef, Stands;
    var j := i + 1 + |path.Bytes()|;
    NameOfRead(data, i, path, value, end);
    OpStands(data, i, 0x08, path.Bytes() + Bytes(value), end);
    ThenStands(data, i + 1, path.Bytes(), Bytes(value), end);
    TermRead(data, j, value, end);
    DataRefIsTermArg(data, j, end);
  }

  lemma NameOfDeclares(data: seq<Byte>, end: nat, s: Space, scope: Option<nat>, i: nat, path: Path, value: Term)
    requires Reading(data, end, s, scope) && Fitting(NameOf(path, value)) && Declarable(NameOf(path, value))
    requires Stands(data, i, ObjBytes(NameOf(path, value)), end)
    ensures TermObjEffect(data, end, s, scope, i).es == Declares(s.es, scope, NameOf(path, value), i)
  {
    hide Path.Bytes, Bytes, Plain, NameAt, TermObj, TermObjEffect, Stands, Declare, EnterIn, AfterName, DataRef, DataRefNames,
         NameRead, ObjBytes, Fits;
    NameOfStands(data, i, path, value, end);
    DeclaringEffect(data, end, s, scope, i);
    var w, j := Where(data, end, s.es, scope), i + 1 + |path.Bytes()|;
    var first := AfterName(w, s.names, i + 1);
    if |path.segs| > 1 { ValueKept(w, first, j, value); }
    NameDeclared(w, s.names, DataRefNames(w, first, j), i + 1, path);
  }

  /** A package of objects behind a name: the name is entered, and the objects are read inside its entry. */
  lemma PackageDeclares(data: seq<Byte>, end: nat, s: Space, scope: Option<nat>, i: nat, n: nat, path: Path, rest: seq<Byte>,
                        kind: nat, skip: bool) returns (s1: Space)
    requires Reading(data, end, s, scope) && path.Fits() && |path.segs| <= NAME_PATH_LIMIT
    requires Holds(n, |path.Bytes()| + |rest|) && Stands(data, i, Pack(n, path.Bytes() + rest), end)
    ensures var (es1, c) := EnterIn(s.es, scope, path); var j := i + 1 + n + |path.Bytes()|;
      && s1.es == Marked(es1, c, kind) && Reading(data, end, s1, Some(c)) && Stands(data, j, rest, end)
      && NamedPackageEffect(data, end, s, scope, i, kind, skip)
           == if skip then s1 else TermListEffect(data, end, s1, Some(c), j, j + |rest|)
  {
    hide Path.Bytes, Package, NameAt, DeclareNext, EnterIn, Marked, TermListEffect, Stands, Pack, Holds, Tree;
    PackageStands(data, i, n, path.Bytes() + rest, end);
    ThenStands(data, i + 1 + n, path.Bytes(), rest, end);
    NextDeclared(data, end, s, scope, i + 1 + n, path, kind);
    s1 := DeclareNext(data, end, s, scope, i + 1 + n, kind).0;
  }

  lemma MethodDeclares(data: seq<Byte>, end: nat, s: Space, scope: Option<nat>, i: nat, o: Obj)
    requires Reading(data, end, s, scope) && o.Method? && Fitting(o) && Declarable(o) && Stands(data, i, ObjBytes(o), end)
    ensures TermObjEffect(data, end, s, scope, i).es == Declares(s.es, scope, o, i)
  {
    hide Path.Bytes, TermObj, TermObjEffect, NamedPackageEffect, EnterIn, Marked, Stands, Pack, Holds, Tree;
    var rest := [o.flags] + o.code;
    MethodRead(data, i, o, end);
    OpStands(data, i, 0x14, Pack(o.n, o.path.Bytes() + rest), end);
    DeclaringEffect(data, end, s, scope, i);
    var s1 := PackageDeclares(data, end, s, scope, i + 1, o.n, o.path, rest, 3, true);
  }

  /** Scope and Device, up to the objects in them. */
  lemma BodyDeclares(data: seq<Byte>, end: nat, s: Space, scope: Option<nat>, i: nat, o: Obj) returns (s1: Space, c: nat)
    requires Reading(data, end, s, scope) && (o.Scope? || o.Device?) && Fitting(o) && Declarable(o) && Stands(data, i, ObjBytes(o), end)
    ensures o.path.Fits() && AllFitting(o.body) && AllDeclarable(o.body)
    ensures var j := BodyStart(i, o);
      && Reading(data, end, s1, Some(c)) && Stands(data, j, AllObjs(o.body), end)
      && TermObjEffect(data, end, s, scope, i) == TermListEffect(data, end, s1, Some(c), j, j + |AllObjs(o.body)|)
      && Declares(s.es, scope, o, i) == AllDeclare(s1.es, Some(c), o.body, j)
  {
    hide Path.Bytes, TermObj, TermObjEffect, NamedPackageEffect, TermListEffect, EnterIn, Stands, Pack, Holds, Tree, AllDeclare, AllObjs;
    var rest := AllObjs(o.body);
    ObjRead(data, i, o, end);
    c := EnterIn(s.es, scope, o.path).1;
    match o {
      case Scope(n, path, body) =>
        OpStands(data, i, 0x10, Pack(n, path.Bytes() + rest), end);
        s1 := PackageDeclares(data, end, s, scope, i + 1, n, path, rest, 0, false);
      case Device(n, path, body) =>
        OpStands(data, i, 0x5b, [0x82] + Pack(n, path.Bytes() + rest), end);
        OpStands(data, i + 1, 0x82, Pack(n, path.Bytes() + rest), end);
        s1 := PackageDeclares(data, end, s, scope, i + 2, n, path, rest, 1, false);
    }
    DeclaringEffect(data, end, s, scope, i);
  }

  /** The first bytes of an object that declares nothing. */
  lemma OtherFirst(data: seq<Byte>, i: nat, o: Obj, end: nat)
    requires Fitting(o) && Stands(data, i, ObjBytes(o), end)
    requires !o.NameOf? && !o.Scope? && !o.Device? && !o.Method?
    ensures i < end <= |data| && data[i] !in {0x08, 0x10, 0x14} && (data[i] == 0x5b && i + 1 < end ==> data[i + 1] != 0x82)
  {
    hide Stands, Path.Bytes, Pack, Bytes, AllBytes, Holds, Fits;
    match o
    case Do(t) => DoFirst(data, i, t, end);
    case Return(t) => OpStands(data, i, 0xa4, Bytes(t), end);
    case Conditional(op, n, condition, args) => OpStands(data, i, op, Pack(n, Bytes(condition) + AllBytes(args)), end);
    case Else(n, args) => OpStands(data, i, 0xa1, Pack(n, AllBytes(args)), end);
    case Region(path, space, offset, length) =>
      var rest := path.Bytes() + ([space] + (Bytes(offset) + Bytes(length)));
      OpStands(data, i, 0x5b, [0x80] + rest, end);
      OpStands(data, i + 1, 0x80, rest, end);
    case FieldOf(n, path, flags, units) =>
      var rest := Pack(n, path.Bytes() + ([flags] + UnitsBytes(units)));
      OpStands(data, i, 0x5b, [0x81] + rest, end);
      OpStands(data, i + 1, 0x81, rest, end);
    case ProcessorOf(n, path, id, block, size, rest) =>
      var all := Pack(n, path.Bytes() + ([id] + (block + ([size] + rest))));
      OpStands(data, i, 0x5b, [0x83] + all, end);
      OpStands(data, i + 1, 0x83, all, end);
    case MutexOf(path, flags) =>
      OpStands(data, i, 0x5b, [0x01] + (path.Bytes() + [flags]), end);
      OpStands(data, i + 1, 0x01, path.Bytes() + [flags], end);
  }

  lemma DoFirst(data: seq<Byte>, i: nat, t: Term, end: nat)
    requires Fitting(Do(t)) && Stands(data, i, Bytes(t), end)
    ensures i < end <= |data| && data[i] !in {0x08, 0x10, 0x14, 0x5b}
  {
    if t.Refer? {
      NameReadIff(data, i, t.path, end);
      NameStarts(data, i, end);
    } else {
      FirstByte(data, i, t, end);
    }
  }

  /** Reading an object declares what it says, wherever it stands and whatever names are kept by then. */
  lemma {:induction false} ObjDeclares(data: seq<Byte>, end: nat, s: Space, scope: Option<nat>, i: nat, o: Obj)
    requires Reading(data, end, s, scope) && Fitting(o) && Declarable(o) && Stands(data, i, ObjBytes(o), end)
    ensures TermObjEffect(data, end, s, scope, i).es == Declares(s.es, scope, o, i)
    decreases o, 1
  {
    hide Reading, TermObjEffect, TermListEffect, Declares, AllDeclare, Fitting, Declarable, Stands, ObjBytes, AllObjs, BodyStart,
         Path.Fits;
    match o
    case NameOf(path, value) => NameOfDeclares(data, end, s, scope, i, path, value);
    case Scope(n, path, body) =>
      var s1, c := BodyDeclares(data, end, s, scope, i, o);
      ObjsDeclare(data, end, s1, Some(c), BodyStart(i, o), body);
    case Device(n, path, body) =>
      var s1, c := BodyDeclares(data, end, s, scope, i, o);
      ObjsDeclare(data, end, s1, Some(c), BodyStart(i, o), body);
    case Method(_, _, _, _) => MethodDeclares(data, end, s, scope, i, o);
    case _ =>
      OtherDeclares(data, end, s, scope, i, o);
  }

  lemma OtherDeclares(data: seq<Byte>, end: nat, s: Space, scope: Option<nat>, i: nat, o: Obj)
    requires Reading(data, end, s, scope) && Fitting(o) && Stands(data, i, ObjBytes(o), end)
    requires !o.NameOf? && !o.Scope? && !o.Device? && !o.Method?
    ensures TermObjEffect(data, end, s, scope, i).es == Declares(s.es, scope, o, i)
  {
    hide TermObjEffect, Stands, ObjBytes;
    OtherFirst(data, i, o, end);
    UndeclaringEffect(data, end, s, scope, i);
  }

  lemma {:induction false} ObjsDeclare(data: seq<Byte>, end: nat, s: Space, scope: Option<nat>, i: nat, os: Objs)
    requires Reading(data, end, s, scope) && AllFitting(os) && AllDeclarable(os) && Stands(data, i, AllObjs(os), end)
    ensures TermListEffect(data, end, s, scope, i, i + |AllObjs(os)|).es == AllDeclare(s.es, scope, os, i)
    decreases os, 1
  {
    hide TermObjEffect, Declares, Stands, ObjBytes, TermObj, Fitting, Declarable, Tree;
    match os
    case NoObjs =>
    case Objs(o, rest) =>
      ThenStands(data, i, ObjBytes(o), AllObjs(rest), end);
      ObjRead(data, i, o, end);
      ObjDeclares(data, end, s, scope, i, o);
      ObjsDeclare(data, end, TermObjEffect(data, end, s, scope, i), scope, i + |ObjBytes(o)|, rest);
  }

  /** Loading a table that holds a program declares what the program says. */
  lemma {:induction false} ProgramDeclares(data: seq<Byte>, end: nat, s: Space, scope: Option<nat>, i: nat, os: Objs)
    requires Reading(data, end, s, scope) && AllFitting(os) && AllDeclarable(os)
    requires Stands(data, i, AllObjs(os), end) && i + |AllObjs(os)| == end
    ensures TableEffect(data, end, s, scope, i).es == AllDeclare(s.es, scope, os, i)
    decreases os
  {
    hide Declares, Stands, ObjBytes, Fitting, Declarable, Tree;
    match os
    case NoObjs => NothingLeft(data, end, s, scope);
    case Objs(o, rest) =>
      hide TermObjEffect, TermObj;
      ThenStands(data, i, ObjBytes(o), AllObjs(rest), end);
      ObjRead(data, i, o, end);
      ObjDeclares(data, end, s, scope, i, o);
      ProgramDeclares(data, end, TermObjEffect(data, end, s, scope, i), scope, i + |ObjBytes(o)|, rest);
  }

  lemma NothingLeft(data: seq<Byte>, end: nat, s: Space, scope: Option<nat>)
    requires Reading(data, end, s, scope)
    ensures TermObjEffect(data, end, s, scope, end) == s && TermObj(data, end, end) == None
  {
  }

  // ----- Everything is in its place, and nothing else -----

  /** The entry to which a path leads from where it starts. */
  function EntryOf(now: seq<Entry>, scope: Option<nat>, path: Path): (r: Option<nat>)
    requires |now| > 0 && Linked(now) && In(scope, |now|)
    ensures In(r, |now|)
  {
    FindPath(now, Some(From(path.root, scope)), path.segs)
  }

  /** Every Name, Scope, Device and Method of the object is found by its path from the entry of the object around it. */
  ghost predicate InPlace(now: seq<Entry>, scope: Option<nat>, o: Obj)
    requires |now| > 0 && Linked(now) && In(scope, |now|)
    decreases o, 0
  {
    match o
    case NameOf(path, _) => EntryOf(now, scope, path).Some?
    case Method(_, path, _, _) => EntryOf(now, scope, path).Some?
    case Scope(_, path, body) => EntryOf(now, scope, path).Some? && AllInPlace(now, EntryOf(now, scope, path), body)
    case Device(_, path, body) => EntryOf(now, scope, path).Some? && AllInPlace(now, EntryOf(now, scope, path), body)
    case _ => true
  }

  ghost predicate AllInPlace(now: seq<Entry>, scope: Option<nat>, os: Objs)
    requires |now| > 0 && Linked(now) && In(scope, |now|)
    decreases os, 0
  {
    match os case NoObjs => true case Objs(o, rest) => InPlace(now, scope, o) && AllInPlace(now, scope, rest)
  }

  /** Entry `e` lies on a path. */
  ghost predicate OnPath(now: seq<Entry>, scope: Option<nat>, path: Path, e: nat)
    requires |now| > 0 && Linked(now) && In(scope, |now|)
  {
    exists k: nat :: 0 < k <= |path.segs| && FindPath(now, Some(From(path.root, scope)), path.segs[..k]) == Some(e)
  }

  /** Entry `e` lies on a path that the object declares. */
  ghost predicate Named(now: seq<Entry>, scope: Option<nat>, o: Obj, e: nat)
    requires |now| > 0 && Linked(now) && In(scope, |now|)
    decreases o, 0
  {
    match o
    case NameOf(path, _) => OnPath(now, scope, path, e)
    case Method(_, path, _, _) => OnPath(now, scope, path, e)
    case Scope(_, path, body) =>
      OnPath(now, scope, path, e) || (EntryOf(now, scope, path).Some? && AnyNamed(now, EntryOf(now, scope, path), body, e))
    case Device(_, path, body) =>
      OnPath(now, scope, path, e) || (EntryOf(now, scope, path).Some? && AnyNamed(now, EntryOf(now, scope, path), body, e))
    case _ => false
  }

  ghost predicate AnyNamed(now: seq<Entry>, scope: Option<nat>, os: Objs, e: nat)
    requires |now| > 0 && Linked(now) && In(scope, |now|)
    decreases os, 0
  {
    match os case NoObjs => false case Objs(o, rest) => Named(now, scope, o, e) || AnyNamed(now, scope, rest, e)
  }

  lemma GrowsOn(a: seq<Entry>, b: seq<Entry>, c: seq<Entry>)
    requires Grows(a, b) && Grows(b, c)
    ensures Grows(a, c)
  {
    assert forall i :: 0 <= i < |a| ==> c[i].name == b[i].name && c[i].up == b[i].up;
  }

  /** An entered path leads to its entry in every later namespace. */
  lemma EnteredStays(es: seq<Entry>, scope: Option<nat>, path: Path, now: seq<Entry>)
    requires Tree(es) && In(scope, |es|) && path.Fits() && Tree(now) && Grows(EnterIn(es, scope, path).0, now)
    ensures |es| <= |now| && EntryOf(now, scope, path) == Some(EnterIn(es, scope, path).1)
  {
    PathSolid(path);
    var (es1, c) := EnterIn(es, scope, path);
    hide EnterPath;
    EnteredFound(es, From(path.root, scope), path.segs);
    PathStays(es1, now, Some(From(path.root, scope)), path.segs);
  }

  lemma {:induction false} EnteredNew(es: seq<Entry>, p: nat, segs: seq<Seg>, e: nat) returns (k: nat)
    requires Tree(es) && p < |es| && Solid(segs) && |es| <= e < |EnterPath(es, p, segs).0|
    ensures 0 < k <= |segs| && FindPath(EnterPath(es, p, segs).0, Some(p), segs[..k]) == Some(e)
    decreases |segs|
  {
    hide FindPath, LookupOrNew, Solid;
    var m := |segs| - 1;
    EnteredStep(es, p, segs);
    var es1 := EnterPath(es, p, segs[..m]).0;
    if e < |es1| {
      k := EnteredNew(es, p, segs[..m], e);
      assert segs[..m][..k] == segs[..k];
      PathStays(es1, EnterPath(es, p, segs).0, Some(p), segs[..k]);
    } else {
      k := |segs|;
      EnteredFound(es, p, segs);
      assert segs[..k] == segs;
    }
  }

  /** The last segment makes at most one entry, that of the path. */
  lemma EnteredStep(es: seq<Entry>, p: nat, segs: seq<Seg>)
    requires Tree(es) && p < |es| && Solid(segs)
    ensures segs != [] ==> Solid(segs[..|segs| - 1])
    ensures segs != [] ==>
      var es1, r := EnterPath(es, p, segs[..|segs| - 1]).0, EnterPath(es, p, segs);
      Grows(es1, r.0) && |r.0| <= |es1| + 1 && (|r.0| > |es1| ==> r.1 == |es1|)
    ensures segs == [] ==> EnterPath(es, p, segs).0 == es
  {
    if segs != [] {
      var k := |segs| - 1;
      var (es1, c) := EnterPath(es, p, segs[..k]);
      FindOrNewFinds(es1, segs[k], Some(c));
    }
  }

  lemma NewOnPath(es: seq<Entry>, scope: Option<nat>, path: Path, now: seq<Entry>, e: nat)
    requires Tree(es) && In(scope, |es|) && path.Fits() && Tree(now) && Grows(EnterIn(es, scope, path).0, now)
    requires |es| <= e < |EnterIn(es, scope, path).0|
    ensures |es| <= |now| && OnPath(now, scope, path, e)
  {
    PathSolid(path);
    var p := From(path.root, scope);
    hide EnterPath, FindPath;
    var k := EnteredNew(es, p, path.segs, e);
    PathStays(EnterIn(es, scope, path).0, now, Some(p), path.segs[..k]);
  }

  /** What an object that declares has entered, and what is left for the objects in it. */
  lemma DeclaresSteps(es: seq<Entry>, scope: Option<nat>, o: Obj, i: nat) returns (es1: seq<Entry>, es2: seq<Entry>, c: nat)
    requires Tree(es) && In(scope, |es|) && Fitting(o) && (o.NameOf? || o.Scope? || o.Device? || o.Method?)
    ensures o.path.Fits() && (es1, c) == EnterIn(es, scope, o.path)
    ensures Tree(es2) && Grows(es1, es2) && |es2| == |es1| && Grows(es2, Declares(es, scope, o, i)) && c < |es2|
    ensures forall e :: 0 <= e < |es1| && (o.Scope? || e != c) ==> SameNote(es1, es2, e)
    ensures o.NameOf? || o.Method? ==> Declares(es, scope, o, i) == es2
    ensures o.Scope? || o.Device? ==> AllFitting(o.body) && Declares(es, scope, o, i) == AllDeclare(es2, Some(c), o.body, BodyStart(i, o))
  {
    hide EnterIn, AllDeclare, Tree, Path.Bytes, Bytes;
    es1 := EnterIn(es, scope, o.path).0;
    c := EnterIn(es, scope, o.path).1;
    match o {
      case NameOf(path, value) => es2 := Declares(es, scope, o, i);
      case Method(_, _, _, _) => es2 := Declares(es, scope, o, i);
      case Scope(_, _, _) => es2 := es1;
      case Device(_, _, _) => es2 := Marked(es1, c, 1);
    }
  }

  lemma {:induction false} ObjInPlace(es: seq<Entry>, scope: Option<nat>, o: Obj, i: nat, now: seq<Entry>)
    requires Tree(es) && In(scope, |es|) && Fitting(o) && Tree(now) && Grows(Declares(es, scope, o, i), now)
    ensures |es| <= |now| && InPlace(now, scope, o)
    decreases o, 1
  {
    hide Declares, Fitting, EnterIn, EntryOf, Grows, Tree, BodyStart;
    NoShorter(es, Declares(es, scope, o, i));
    NoShorter(Declares(es, scope, o, i), now);
    TreeLinked(now);
    if o.NameOf? || o.Scope? || o.Device? || o.Method? {
      var es1, es2, c := DeclaresSteps(es, scope, o, i);
      GrowsOn(es1, es2, Declares(es, scope, o, i));
      GrowsOn(es1, Declares(es, scope, o, i), now);
      EnteredStays(es, scope, o.path, now);
      if o.Scope? || o.Device? { ObjsInPlace(es2, Some(c), o.body, BodyStart(i, o), now); }
    }
  }

  lemma NoShorter(es: seq<Entry>, r: seq<Entry>)
    requires Grows(es, r)
    ensures |es| <= |r|
  {
  }

  lemma TreeLinked(es: seq<Entry>)
    requires Tree(es)
    ensures |es| > 0 && Linked(es)
  {
  }

  lemma {:induction false} ObjsInPlace(es: seq<Entry>, scope: Option<nat>, os: Objs, i: nat, now: seq<Entry>)
    requires Tree(es) && In(scope, |es|) && AllFitting(os) && Tree(now) && Grows(AllDeclare(es, scope, os, i), now)
    ensures |es| <= |now| && AllInPlace(now, scope, os)
    decreases os, 1
  {
    hide Declares, Fitting, ObjBytes, InPlace, Tree, Grows;
    NoShorter(es, AllDeclare(es, scope, os, i));
    NoShorter(AllDeclare(es, scope, os, i), now);
    TreeLinked(now);
    match os
    case NoObjs =>
    case Objs(o, rest) =>
      var es1 := Declares(es, scope, o, i);
      NoShorter(es, es1);
      GrowsOn(es1, AllDeclare(es1, scope, rest, i + |ObjBytes(o)|), now);
      ObjInPlace(es, scope, o, i, now);
      ObjsInPlace(es1, scope, rest, i + |ObjBytes(o)|, now);
  }

  lemma {:induction false} ObjOnlyNamed(es: seq<Entry>, scope: Option<nat>, o: Obj, i: nat, now: seq<Entry>, e: nat)
    requires Tree(es) && In(scope, |es|) && Fitting(o) && Tree(now) && Grows(Declares(es, scope, o, i), now)
    requires |es| <= e < |Declares(es, scope, o, i)|
    ensures |es| <= |now| && Named(now, scope, o, e)
    decreases o, 1
  {
    hide EnterIn, EntryOf, Grows, Tree, BodyStart, OnPath, AllDeclare;
    NoShorter(es, Declares(es, scope, o, i));
    NoShorter(Declares(es, scope, o, i), now);
    TreeLinked(now);
    assert o.NameOf? || o.Scope? || o.Device? || o.Method?;
    hide Declares, Fitting;
    var es1, es2, c := DeclaresSteps(es, scope, o, i);
    GrowsOn(es1, es2, Declares(es, scope, o, i));
    GrowsOn(es1, Declares(es, scope, o, i), now);
    EnteredStays(es, scope, o.path, now);
    if e < |es1| {
      NewOnPath(es, scope, o.path, now, e);
    } else {
      ObjsOnlyNamed(es2, Some(c), o.body, BodyStart(i, o), now, e);
    }
  }

  lemma {:induction false} ObjsOnlyNamed(es: seq<Entry>, scope: Option<nat>, os: Objs, i: nat, now: seq<Entry>, e: nat)
    requires Tree(es) && In(scope, |es|) && AllFitting(os) && Tree(now) && Grows(AllDeclare(es, scope, os, i), now)
    requires |es| <= e < |AllDeclare(es, scope, os, i)|
    ensures |es| <= |now| && AnyNamed(now, scope, os, e)
    decreases os, 1
  {
    hide Declares, Fitting, ObjBytes, Named, Tree, Grows;
    NoShorter(es, AllDeclare(es, scope, os, i));
    NoShorter(AllDeclare(es, scope, os, i), now);
    TreeLinked(now);
    match os
    case NoObjs =>
    case Objs(o, rest) =>
      var es1 := Declares(es, scope, o, i);
      NoShorter(es, es1);
      GrowsOn(es1, AllDeclare(es1, scope, rest, i + |ObjBytes(o)|), now);
      if e < |es1| {
        ObjOnlyNamed(es, scope, o, i, now, e);
      } else {
        ObjsOnlyNamed(es1, scope, rest, i + |ObjBytes(o)|, now, e);
      }
  }

  /** When a table that holds a program has been loaded, every object it declares is found by its own path from the
      entry of the object around it, every new entry lies on such a path, and what was found before still is. */
  lemma ProgramInPlace(data: seq<Byte>, end: nat, s: Space, scope: Option<nat>, i: nat, os: Objs)
    requires Reading(data, end, s, scope) && AllFitting(os) && AllDeclarable(os)
    requires Stands(data, i, AllObjs(os), end) && i + |AllObjs(os)| == end
    ensures var now := TableEffect(data, end, s, scope, i).es;
      && Tree(now) && Grows(s.es, now) && In(scope, |now|) && AllInPlace(now, scope, os)
      && forall e: nat {:trigger AnyNamed(now, scope, os, e)} :: |s.es| <= e < |now| ==> AnyNamed(now, scope, os, e)
  {
    ProgramDeclares(data, end, s, scope, i, os);
    var now := TableEffect(data, end, s, scope, i).es;
    hide TableEffect, AllDeclare, AllObjs, Stands;
    ObjsInPlace(s.es, scope, os, i, now);
    forall e: nat | |s.es| <= e < |now| ensures AnyNamed(now, scope, os, e) {
      ObjsOnlyNamed(s.es, scope, os, i, now, e);
    }
  }

  /** The entry of a Name says what it is and points at the bytes of its value. */
  lemma NameNoted(data: seq<Byte>, end: nat, s: Space, scope: Option<nat>, i: nat, path: Path, value: Term)
    requires Reading(data, end, s, scope) && Fitting(NameOf(path, value)) && Declarable(NameOf(path, value))
    requires Stands(data, i, ObjBytes(NameOf(path, value)), end)
    ensures var r := TermObjEffect(data, end, s, scope, i).es;
      && Tree(r) && In(scope, |r|) && EntryOf(r, scope, path).Some?
      && var e := r[EntryOf(r, scope, path).value];
        e.kind == 2 && 0 <= e.length && e.source + e.length <= |data| && data[e.source..e.source + e.length] == Bytes(value)
  {
    hide TermObjEffect, EnterIn, EntryOf, Described, Declares, Tree, Grows, Path.Bytes, Bytes, Stands, Fitting, Declarable, ObjBytes;
    NameOfDeclares(data, end, s, scope, i, path, value);
    NameOfStands(data, i, path, value, end);
    NameOfIs(s.es, scope, path, value, i);
    var r, j := TermObjEffect(data, end, s, scope, i).es, i + 1 + |path.Bytes()|;
    var (es1, c) := EnterIn(s.es, scope, path);
    EnteredStays(s.es, scope, path, r);
    DescribedEntry(es1, c, 2, j, |Bytes(value)|);
    SliceStands(data, j, Bytes(value), end);
    NoShorter(s.es, r);
  }

  lemma NameOfIs(es: seq<Entry>, scope: Option<nat>, path: Path, value: Term, i: nat)
    requires Tree(es) && In(scope, |es|) && Fitting(NameOf(path, value)) && path.Fits() && Fits(value)
    ensures var (es1, c) := EnterIn(es, scope, path); var r := Declares(es, scope, NameOf(path, value), i);
      r == Described(es1, c, 2, i + 1 + |path.Bytes()|, |Bytes(value)|) && Grows(es1, r) && Tree(r)
  {
    hide EnterIn, Described, Tree, Grows, Path.Bytes, Bytes;
  }

  lemma DescribedEntry(es: seq<Entry>, c: nat, kind: nat, source: nat, length: int)
    requires Tree(es) && c < |es|
    ensures var r := Described(es, c, kind, source, length);
      |r| == |es| && (r[c].kind, r[c].source, r[c].length) == (kind, source, length)
  {
  }

  lemma SliceStands(data: seq<Byte>, i: nat, b: seq<Byte>, end: nat)
    requires Stands(data, i, b, end)
    ensures i + |b| <= |data| && data[i..i + |b|] == b
  {
  }

  /** Entry `e` is described by the object: it is the entry of a Name, a Device or a Method in it. */
  ghost predicate Describes(now: seq<Entry>, scope: Option<nat>, o: Obj, e: nat)
    requires |now| > 0 && Linked(now) && In(scope, |now|)
    decreases o, 0
  {
    match o
    case NameOf(path, _) => EntryOf(now, scope, path) == Some(e)
    case Method(_, path, _, _) => EntryOf(now, scope, path) == Some(e)
    case Scope(_, path, body) => EntryOf(now, scope, path).Some? && AnyDescribes(now, EntryOf(now, scope, path), body, e)
    case Device(_, path, body) =>
      EntryOf(now, scope, path) == Some(e)
      || (EntryOf(now, scope, path).Some? && AnyDescribes(now, EntryOf(now, scope, path), body, e))
    case _ => false
  }

  ghost predicate AnyDescribes(now: seq<Entry>, scope: Option<nat>, os: Objs, e: nat)
    requires |now| > 0 && Linked(now) && In(scope, |now|)
    decreases os, 0
  {
    match os case NoObjs => false case Objs(o, rest) => Describes(now, scope, o, e) || AnyDescribes(now, scope, rest, e)
  }

  /** Kind and byte range of an entry are the same. */
  predicate SameNote(es: seq<Entry>, r: seq<Entry>, e: nat) {
    e < |es| && e < |r| && (r[e].kind, r[e].source, r[e].length) == (es[e].kind, es[e].source, es[e].length)
  }

  lemma {:induction false} EnteredNotes(es: seq<Entry>, b: nat, segs: seq<Seg>, e: nat)
    requires Tree(es) && b < |es| && Solid(segs) && e < |es|
    ensures SameNote(es, EnterPath(es, b, segs).0, e)
    decreases |segs|
  {
    if segs != [] {
      var k := |segs| - 1;
      EnteredNotes(es, b, segs[..k], e);
      var (es1, c) := EnterPath(es, b, segs[..k]);
      OneNote(es1, segs[k], c, e);
    }
  }

  lemma OneNote(es: seq<Entry>, name: Seg, c: nat, e: nat)
    requires Tree(es) && c < |es| && e < |es|
    ensures SameNote(es, LookupOrNew(es, name, Some(c)).0, e)
  {
  }

  /** What is noted of an entry lasts until an object describes it anew. */
  lemma {:induction false} NotesLast(es: seq<Entry>, scope: Option<nat>, o: Obj, i: nat, now: seq<Entry>, e: nat)
    requires Tree(es) && In(scope, |es|) && Fitting(o) && Tree(now) && Grows(Declares(es, scope, o, i), now) && e < |es| <= |now|
    requires !Describes(now, scope, o, e)
    ensures SameNote(es, Declares(es, scope, o, i), e)
    decreases o, 1
  {
    hide EnterIn, EntryOf, Grows, Tree, BodyStart, AllDeclare, Path.Bytes, Bytes;
    TreeLinked(now);
    if o.NameOf? || o.Scope? || o.Device? || o.Method? {
      hide Declares, Fitting;
      var es1, es2, c := DeclaresSteps(es, scope, o, i);
      GrowsOn(es1, es2, Declares(es, scope, o, i));
      GrowsOn(es1, Declares(es, scope, o, i), now);
      EnteredStays(es, scope, o.path, now);
      PathNotes(es, scope, o.path, e);
      assert SameNote(es1, es2, e);
      if o.Scope? || o.Device? { AllNotesLast(es2, Some(c), o.body, BodyStart(i, o), now, e); }
    }
  }

  lemma {:induction false} AllNotesLast(es: seq<Entry>, scope: Option<nat>, os: Objs, i: nat, now: seq<Entry>, e: nat)
    requires Tree(es) && In(scope, |es|) && AllFitting(os) && Tree(now) && Grows(AllDeclare(es, scope, os, i), now) && e < |es| <= |now|
    requires !AnyDescribes(now, scope, os, e)
    ensures SameNote(es, AllDeclare(es, scope, os, i), e)
    decreases os, 1
  {
    hide Declares, Fitting, ObjBytes, Describes, Tree, Grows;
    TreeLinked(now);
    match os
    case NoObjs =>
    case Objs(o, rest) =>
      var es1 := Declares(es, scope, o, i);
      NoShorter(es, es1);
      NoShorter(es1, AllDeclare(es1, scope, rest, i + |ObjBytes(o)|));
      NoShorter(AllDeclare(es1, scope, rest, i + |ObjBytes(o)|), now);
      GrowsOn(es1, AllDeclare(es1, scope, rest, i + |ObjBytes(o)|), now);
      NotesLast(es, scope, o, i, now, e);
      AllNotesLast(es1, scope, rest, i + |ObjBytes(o)|, now, e);
  }

  lemma PathNotes(es: seq<Entry>, scope: Option<nat>, path: Path, e: nat)
    requires Tree(es) && In(scope, |es|) && path.Fits() && e < |es|
    ensures SameNote(es, EnterIn(es, scope, path).0, e)
  {
    PathSolid(path);
    hide EnterPath;
    EnteredNotes(es, From(path.root, scope), path.segs, e);
  }
}
