/** Names that kernel/aml.cpp does not declare where their path says: a Name whose value is itself a counted name, which
    is kept over the path of the Name, and names of more segments than the reader keeps. */
module AmlMisplaced {
  import opened Wrappers
  import opened AmlNames
  import opened AmlBytes
  import opened AmlGrammar
  import opened AmlPaths
  import opened AmlPrograms
  import opened AmlEffects
  import opened AmlTermNames
  import opened AmlDeclarations

  // ----- A counted name as value -----

  lemma CountedStands(data: seq<Byte>, i: nat, path: Path, end: nat)
    requires path.Fits() && path.form == MultiName && Stands(data, i, path.Bytes(), end)
    ensures var m := i + |path.Prefix()|;
      CountedAt(data, i, end) == Some((path.root, m + 2, |path.segs|)) && SegsRead(data, m + 2, |path.segs|, end) == path.segs
  {
    hide SegRun, SegsRead, PastSegs, LeadChar, Path.Bytes, Stands, At;
    var m := i + |path.Prefix()|;
    PartsStand(data, i, path, end);
    BodyRead(data, m, path, end);
    if !path.root { CaretsSkipped(data, i, path.carets, end); }
  }

  /** All segments of a counted name are kept. */
  lemma CountedKept(w: Where, names: seq<Name>, i: nat, path: Path)
    requires AmlTermNames.Ready(w, names) && path.Fits() && path.form == MultiName && Stands(w.data, i, path.Bytes(), w.end)
    ensures forall k :: 0 <= k < |path.segs| && k < NAME_PATH_LIMIT ==>
      AfterName(w, names, i)[k] == NameOn(w.es, w.Start(path.root), path.root, path.segs, k)
  {
    hide NameOn, AfterName, CountedAt, SegsRead, Path.Bytes, Stands;
    CountedStands(w.data, i, path, w.end);
    AfterCounted(w, names, i, path.root, i + |path.Prefix()| + 2, path.segs);
  }

  lemma AfterCounted(w: Where, names: seq<Name>, i: nat, root: bool, m: nat, segs: seq<Seg>)
    requires AmlTermNames.Ready(w, names) && CountedAt(w.data, i, w.end) == Some((root, m, |segs|))
    requires SegsRead(w.data, m, |segs|, w.end) == segs
    ensures forall k :: 0 <= k < |segs| && k < NAME_PATH_LIMIT ==> AfterName(w, names, i)[k] == NameOn(w.es, w.Start(root), root, segs, k)
  {
    hide NameOn, CountedAt, SegsRead;
  }

  lemma ReferNames(w: Where, names: seq<Name>, i: nat, path: Path)
    requires AmlTermNames.Ready(w, names) && path.Fits() && Stands(w.data, i, path.Bytes(), w.end)
    ensures DataRefNames(w, names, i) == AfterName(w, names, i)
  {
    hide AfterName, NameAt, Path.Bytes;
    NameReadIff(w.data, i, path, w.end);
    NameStarts(w.data, i, w.end);
    ArgNames(w, names, i);
    assert LocalOrArg(w.data, i, w.end) == None && Computational(w.data, i, w.end) == None && DataObject(w.data, i, w.end) == None;
    assert TypeTwoNames(w, names, i) == AfterName(w, names, i);
  }

  /** Reading `q` after `p` keeps its segments over all of `p` but the last. */
  predicate Overwrites(p: Path, q: Path) {
    p.Fits() && q.Fits() && q.form == MultiName && 1 < |p.segs| <= NAME_PATH_LIMIT && |p.segs| <= |q.segs| + 1
  }

  /** The path under which a Name `p` with value `q` is declared: that of `q`, but for the last segment. */
  function Mixed(p: Path, q: Path): seq<Seg>
    requires 0 < |p.segs| <= |q.segs| + 1
  {
    q.segs[..|p.segs| - 1] + [p.segs[|p.segs| - 1]]
  }

  lemma MixedSolid(p: Path, q: Path)
    requires p.Fits() && q.Fits() && |p.segs| <= |q.segs| + 1
    ensures Solid(Mixed(p, q))
  {
    PathSolid(p);
    PathSolid(q);
    assert p.segs[|p.segs| - 1] in p.segs;
  }

  lemma MixedKept(es: seq<Entry>, names: seq<Name>, start: Option<nat>, p: Path, q: Path)
    requires Linked(es) && In(start, |es|) && NamesOk(es, names) && 0 < |p.segs| <= |q.segs| + 1
    requires forall k :: 0 <= k < |q.segs| && k < NAME_PATH_LIMIT ==> names[k] == NameOn(es, start, q.root, q.segs, k)
    ensures Holding(es, names, start, q.root, Mixed(p, q), 0)
  {
    hide FindPath;
    forall k: nat | k < |p.segs| - 1 ensures NameOn(es, start, q.root, q.segs, k) == NameOn(es, start, q.root, Mixed(p, q), k) {
      assert Mixed(p, q)[..k + 1] == q.segs[..k + 1];
    }
  }

  /** A name that leads nowhere when it is read, declared with other segments kept above it. */
  lemma MixedEntered(s: Space, scope: Option<nat>, u: Name, p: Path, q: Path)
    requires Good(s) && In(scope, |s.es|) && p.Fits() && q.Fits() && 1 < |p.segs| <= NAME_PATH_LIMIT && |p.segs| <= |q.segs| + 1
    requires Holding(s.es, s.names, if q.root then Some(0) else scope, q.root, Mixed(p, q), 0) && s.names[0].isRoot == q.root
    requires u.seg == p.segs[|p.segs| - 1] && u.context == None && u.upper == Above(|p.segs| - 1) && NameOk(s.es, u)
    ensures Solid(Mixed(p, q)) && From(q.root, scope) < |s.es|
    ensures var d, e := Declare(s, scope, u), EnterPath(s.es, From(q.root, scope), Mixed(p, q)); d.0.es == e.0 && d.1 == e.1
  {
    hide Path.Fits, Path.Proper, Solid, EnterPath, EnterKept, FindPath, Holding, Declare, LookupOrNew, EnterOne, NameOn, Grows;
    MixedSolid(p, q);
    var start, n, segs := if q.root then Some(0) else scope, |p.segs| - 1, Mixed(p, q);
    DeclareSteps(s, scope, u, n, q.root);
    NothingEntered(s.es, start, segs);
    EnterPathSnoc(s.es, From(q.root, scope), segs, n);
    assert segs[..n + 1] == segs && segs[n] == u.seg;
    KeptEntered(s, s.es, start, q.root, segs, 0, start);
    var (s1, context) := EnterKept(s, 0, n, start);
    NewOne(s1.es, u, context);
  }

  lemma NewOne(es: seq<Entry>, u: Name, context: Option<nat>)
    requires Tree(es) && In(context, |es|) && u.context == None && u.seg.a != 0
    ensures EnterOne(es, u, context) == LookupOrNew(es, u.seg, Some(Parent(context)))
  {
  }

  /** A Name with a counted path that leads nowhere yet, and a counted name as its value, is declared under the path of the
      value. */
  lemma NameMisplaced(data: seq<Byte>, end: nat, s: Space, scope: Option<nat>, i: nat, p: Path, q: Path)
    requires Reading(data, end, s, scope) && Fitting(NameOf(p, Refer(q))) && Stands(data, i, ObjBytes(NameOf(p, Refer(q))), end)
    requires Overwrites(p, q)
    requires EntryOf(s.es, scope, p) == None
    ensures Solid(Mixed(p, q)) && From(q.root, scope) < |s.es|
    ensures var e := EnterPath(s.es, From(q.root, scope), Mixed(p, q));
      TermObjEffect(data, end, s, scope, i).es == Described(e.0, e.1, 2, i + 1 + |p.Bytes()|, |q.Bytes()|)
  {
    hide TermObjEffect, Declare, EnterPath, Described, NameAt, DataRef, DataRefNames, AfterName, Path.Bytes, Stands, Overwrites,
         Path.Fits, Path.Proper, ObjBytes, Fitting, FindPath, TermObj, Mixed, NameRead, Tree, NamesOk, Linked, Grows, Solid;
    MixedFirst(p, q);
    var w, j := Where(data, end, s.es, scope), i + 1 + |p.Bytes()|;
    MisplacedStands(data, i, p, q, end);
    NameEffect(data, end, s, scope, i, Written(p.root, p.segs, j), j + |q.Bytes()|);
    Looking(data, end, s, scope);
    MisplacedRead(w, s.names, i + 1, j, p, q);
  }

  lemma NameEffect(data: seq<Byte>, end: nat, s: Space, scope: Option<nat>, i: nat, name: Written, n: nat)
    requires Reading(data, end, s, scope) && i < end && data[i] == 0x08 && TermObj(data, i, end).Some?
    requires NameAt(data, i + 1, end) == Some(name) && DataRef(data, name.next, end) == Some(n)
    ensures var w := Where(data, end, s.es, scope);
      && NameOk(s.es, NameRead(w, name))
      && var d := Declare(Space(s.es, DataRefNames(w, AfterName(w, s.names, i + 1), name.next)), scope, NameRead(w, name));
        TermObjEffect(data, end, s, scope, i).es == Described(d.0.es, d.1, 2, name.next, n - name.next)
  {
    hide TermObjEffect, NameOpEffect, Declare, Described, NameAt, DataRef, DataRefNames, AfterName, TermObj, NameRead;
    DeclaringEffect(data, end, s, scope, i);
    NameOpIs(data, end, s, scope, i + 1, name, n);
  }

  lemma Looking(data: seq<Byte>, end: nat, s: Space, scope: Option<nat>)
    requires Reading(data, end, s, scope)
    ensures AmlTermNames.Ready(Where(data, end, s.es, scope), s.names) && Tree(s.es)
  {
  }

  lemma MisplacedStands(data: seq<Byte>, i: nat, p: Path, q: Path, end: nat)
    requires Overwrites(p, q) && Fitting(NameOf(p, Refer(q))) && Stands(data, i, ObjBytes(NameOf(p, Refer(q))), end)
    ensures i < end <= |data| && data[i] == 0x08 && TermObj(data, i, end).Some?
    ensures var j := i + 1 + |p.Bytes()|;
      && Stands(data, j, q.Bytes(), end) && DataRef(data, j, end) == Some(j + |q.Bytes()|)
      && NameAt(data, i + 1, end) == Some(Written(p.root, p.segs, j))
  {
    hide Path.Bytes, ObjBytes, TermObj, DataRef, NameAt, At;
    NameOfStands(data, i, p, Refer(q), end);
    ValueIsName(q);
    NameReadIff(data, i + 1, p, end);
  }

  lemma ValueIsName(q: Path)
    requires q.Fits()
    ensures Bytes(Refer(q)) == q.Bytes()
  {
  }

  lemma NameOpIs(data: seq<Byte>, end: nat, s: Space, scope: Option<nat>, i: nat, name: Written, n: nat)
    requires Reading(data, end, s, scope) && NameAt(data, i, end) == Some(name) && DataRef(data, name.next, end) == Some(n)
    ensures var w := Where(data, end, s.es, scope);
      && NameOk(s.es, NameRead(w, name))
      && var (s1, c) := Declare(Space(s.es, DataRefNames(w, AfterName(w, s.names, i), name.next)), scope, NameRead(w, name));
        NameOpEffect(data, end, s, scope, i).es == Described(s1.es, c, 2, name.next, n - name.next)
  {
    hide Declare, Described, NameAt, DataRef, DataRefNames, AfterName;
    assert name.segs[|name.segs| - 1] in name.segs;
  }

  /** What is declared from the names kept after the value. */
  lemma MisplacedRead(w: Where, names: seq<Name>, i: nat, j: nat, p: Path, q: Path)
    requires AmlTermNames.Ready(w, names) && Tree(w.es) && Overwrites(p, q) && Stands(w.data, j, q.Bytes(), w.end)
    requires EntryOf(w.es, w.scope, p) == None
    ensures var u := NameRead(w, Written(p.root, p.segs, j));
      && NameOk(w.es, u) && Solid(Mixed(p, q)) && From(q.root, w.scope) < |w.es|
      && var d, e := Declare(Space(w.es, DataRefNames(w, AfterName(w, names, i), j)), w.scope, u),
                     EnterPath(w.es, From(q.root, w.scope), Mixed(p, q));
        d.0.es == e.0 && d.1 == e.1
  {
    MixedSolid(p, q);
    LostName(w, p);
    hide Declare, EnterPath, DataRefNames, AfterName, Path.Bytes, Stands, Holding, FindPath, NameOn, NameRead, Mixed;
    var first := AfterName(w, names, i);
    ReferNames(w, first, j, q);
    CountedKept(w, first, j, q);
    var now := DataRefNames(w, first, j);
    MixedKept(w.es, now, w.Start(q.root), p, q);
    FirstIsRoot(w.es, now, w.Start(q.root), q);
    MixedEntered(Space(w.es, now), w.scope, NameRead(w, Written(p.root, p.segs, j)), p, q);
  }

  lemma FirstIsRoot(es: seq<Entry>, names: seq<Name>, start: Option<nat>, q: Path)
    requires Linked(es) && In(start, |es|) && NamesOk(es, names) && q.segs != []
    requires forall k :: 0 <= k < |q.segs| && k < NAME_PATH_LIMIT ==> names[k] == NameOn(es, start, q.root, q.segs, k)
    ensures names[0].isRoot == q.root
  {
    assert names[0] == NameOn(es, start, q.root, q.segs, 0);
  }

  lemma LostName(w: Where, p: Path)
    requires w.Ok() && Tree(w.es) && p.Fits() && 1 < |p.segs| <= NAME_PATH_LIMIT && EntryOf(w.es, w.scope, p) == None
    ensures forall next: nat :: var u := NameRead(w, Written(p.root, p.segs, next));
      u.seg == p.segs[|p.segs| - 1] && u.context == None && u.upper == Above(|p.segs| - 1) && NameOk(w.es, u)
  {
    PathSolid(p);
    assert p.segs[|p.segs| - 1] in p.segs;
    assert p.segs[..|p.segs|] == p.segs;
    if !p.root && w.scope.None? { FromNowhere(w.es, p.segs); }
  }

  lemma {:induction false} FromNowhere(es: seq<Entry>, segs: seq<Seg>)
    requires Linked(es) && segs != []
    ensures FindPath(es, None, segs) == None
    decreases |segs|
  {
    if |segs| > 1 { FromNowhere(es, segs[..|segs| - 1]); }
  }

  /** ... so it is not found by its own path, unless that starts like the path of the value. */
  lemma MisplacedNotFound(data: seq<Byte>, end: nat, s: Space, scope: Option<nat>, i: nat, p: Path, q: Path)
    requires Reading(data, end, s, scope) && Fitting(NameOf(p, Refer(q))) && Stands(data, i, ObjBytes(NameOf(p, Refer(q))), end)
    requires Overwrites(p, q)
    requires p.root == q.root && p.segs[0] != q.segs[0] && Lookup(s.es, p.segs[0], Some(From(p.root, scope))) == None
    ensures var r := TermObjEffect(data, end, s, scope, i).es; |r| > 0 && Linked(r) && In(scope, |r|) && EntryOf(r, scope, p) == None
  {
    hide Overwrites, Path.Fits, Path.Proper, Solid, TermObjEffect, EnterPath, FindPath, Lookup, Path.Bytes, Stands, ObjBytes, Described, Fitting, Mixed, Fits, Grows, Tree, NamesOk;
    MixedFirst(p, q);
    var b, source, length := From(p.root, scope), i + 1 + |p.Bytes()|, |q.Bytes()|;
    assert Tree(s.es) && b < |s.es| && Linked(s.es) by { Rooted(s, scope, p); }
    FirstLost(s.es, b, p.segs);
    NameMisplaced(data, end, s, scope, i, p, q);
    StillLost(s.es, b, Mixed(p, q), source, length, p.segs);
  }

  lemma Rooted(s: Space, scope: Option<nat>, p: Path)
    requires Good(s) && In(scope, |s.es|)
    ensures Tree(s.es) && From(p.root, scope) < |s.es| && Linked(s.es)
  {
  }

  /** A path whose first segment is not there leads nowhere after another has been entered beside it. */
  lemma StillLost(es: seq<Entry>, b: nat, segs: seq<Seg>, source: nat, length: int, path: seq<Seg>)
    requires Tree(es) && b < |es| && Solid(segs) && segs != [] && path != [] && path[0] != segs[0]
    requires Lookup(es, path[0], Some(b)) == None
    ensures var e := EnterPath(es, b, segs); var r := Described(e.0, e.1, 2, source, length);
      Tree(r) && Linked(r) && b < |r| && |es| <= |r| && FindPath(r, Some(b), path) == None
  {
    hide EnterPath, FindPath, Lookup, Described;
    var e := EnterPath(es, b, segs);
    OtherFirst(es, b, segs, path[0]);
    NoShorter(es, e.0);
    DescribedFinds(e.0, e.1, 2, source, length, path[0], b);
    FirstLost(Described(e.0, e.1, 2, source, length), b, path);
  }

  lemma MixedFirst(p: Path, q: Path)
    requires Overwrites(p, q)
    ensures p.Proper() && q.Proper() && 0 < |p.segs| <= |q.segs| + 1 && Mixed(p, q) != [] && Mixed(p, q)[0] == q.segs[0]
  {
  }

  lemma {:induction false} FirstLost(es: seq<Entry>, b: nat, segs: seq<Seg>)
    requires Linked(es) && b < |es| && segs != [] && Lookup(es, segs[0], Some(b)) == None
    ensures FindPath(es, Some(b), segs) == None
    decreases |segs|
  {
    if |segs| > 1 {
      FirstLost(es, b, segs[..|segs| - 1]);
    } else {
      assert segs[..0] == [] && FindPath(es, Some(b), []) == Some(b);
    }
  }

  /** An entry below another has a greater number. */
  lemma {:induction false} EnteredBelow(es: seq<Entry>, b: nat, segs: seq<Seg>)
    requires Tree(es) && b < |es| && Solid(segs)
    ensures EnterPath(es, b, segs).1 >= b && (segs != [] ==> EnterPath(es, b, segs).1 > b)
    decreases |segs|
  {
    if segs != [] {
      var k := |segs| - 1;
      EnteredBelow(es, b, segs[..k]);
      var (es1, c) := EnterPath(es, b, segs[..k]);
      FindOrNewFinds(es1, segs[k], Some(c));
      var (r, d) := LookupOrNew(es1, segs[k], Some(c));
      assert Hangs(r, d);
    }
  }

  /** Entering a path leaves what is found beside its first segment. */
  lemma {:induction false} OtherFirst(es: seq<Entry>, b: nat, segs: seq<Seg>, x: Seg)
    requires Tree(es) && b < |es| && Solid(segs) && segs != [] && x != segs[0]
    ensures Lookup(EnterPath(es, b, segs).0, x, Some(b)) == Lookup(es, x, Some(b))
    decreases |segs|
  {
    hide Lookup, LookupOrNew;
    var k := |segs| - 1;
    if k > 0 { OtherFirst(es, b, segs[..k], x); }
    EnteredBelow(es, b, segs[..k]);
    var (es1, c) := EnterPath(es, b, segs[..k]);
    assert segs[k].a != 0 && AmlNames.Named(segs[k]) == segs[k];
    OtherLookups(es1, segs[k], Some(c), x, b);
  }

  lemma DescribedFinds(es: seq<Entry>, c: nat, kind: nat, source: nat, length: int, x: Seg, b: nat)
    requires Tree(es) && c < |es| && b < |es|
    ensures var r := Described(es, c, kind, source, length); |r| == |es| && Lookup(r, x, Some(b)) == Lookup(es, x, Some(b))
  {
    var r := Described(es, c, kind, source, length);
    SameFound(es, r, x, es[b].inner);
  }

  lemma {:induction false} SameFound(es: seq<Entry>, r: seq<Entry>, x: Seg, s: Option<nat>)
    requires Linked(es) && Linked(r) && |r| == |es| && In(s, |es|)
    requires forall k :: 0 <= k < |es| ==> r[k].name == es[k].name && r[k].next == es[k].next
    ensures FindFrom(r, x, s) == FindFrom(es, x, s)
    decreases if s.None? then 0 else |es| - s.value
  {
    if s.Some? && es[s.value].name != x { SameFound(es, r, x, es[s.value].next); }
  }

  // ----- More segments than are kept -----

  /** Of a name with more segments than `name_path` holds only the last is declared, and in the scope itself. */
  lemma LongName(s: Space, w: Where, name: Written)
    requires Good(s) && w.Ok() && w.es == s.es && |name.segs| > NAME_PATH_LIMIT && Solid(name.segs)
    requires FindPath(w.es, w.Start(name.root), name.segs) == None
    ensures NameOk(s.es, NameRead(w, name))
    ensures var (r, c) := Declare(s, w.scope, NameRead(w, name));
      (r.es, c) == LookupOrNew(s.es, name.segs[|name.segs| - 1], w.scope)
  {
    hide FindPath, LookupOrNew;
    assert name.segs[..|name.segs|] == name.segs && name.segs[|name.segs| - 1] in name.segs;
  }
}
