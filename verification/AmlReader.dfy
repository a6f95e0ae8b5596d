/** The AML reader (kernel/aml.cpp): a backtracking recursive-descent parser for the byte code of
    ACPI section 20.2. A position in the byte code is an index into `data`; package ends computed
    from the byte code may lie beyond `end`, or before the point that parsing has reached. Every
    production is proved to succeed, and to end, where `AmlGrammar` says, and to leave the namespace and
    the names kept in `name_path` as `AmlEffects` says.

    Printing is left out, and so is `ext_op`, which nothing calls. */
module AmlReaders {
  import opened Wrappers
  import opened AmlNames
  import opened AmlBytes
  import opened AmlEffects
  import Grammar = AmlGrammar

  lemma NoPath(es: seq<Entry>, start: Option<nat>)
    requires Linked(es) && In(start, |es|)
    ensures FindPath(es, start, []) == start
  {
  }

  lemma PathNext(es: seq<Entry>, start: Option<nat>, got: seq<Seg>, seg: Seg)
    requires Linked(es) && In(start, |es|)
    ensures FindPath(es, start, got + [seg]) == Lookup(es, seg, FindPath(es, start, got))
    ensures (got + [seg])[..|got| + 1] == got + [seg]
  {
    assert (got + [seg])[..|got|] == got;
  }

  lemma LastNameOk(es: seq<Entry>, start: Option<nat>, root: bool, segs: seq<Seg>)
    requires Linked(es) && In(start, |es|) && segs != [] && Solid(segs)
    ensures NameOk(es, LastName(es, start, root, segs))
  {
    assert segs[|segs| - 1] in segs;
  }

  lemma StoredNone(es: seq<Entry>, start: Option<nat>, root: bool, names: seq<Name>)
    requires Linked(es) && In(start, |es|) && NamesOk(es, names)
    ensures Stored(es, start, root, [], names) == names
  {
  }

  /** One more segment, stored if there is room for it. */
  lemma StoredNext(es: seq<Entry>, start: Option<nat>, root: bool, got: seq<Seg>, seg: Seg, names: seq<Name>)
    requires Linked(es) && In(start, |es|) && NamesOk(es, names) && Solid(got) && seg.a != 0
    ensures Solid(got + [seg])
    ensures Stored(es, start, root, got + [seg], names) ==
      if |got| < NAME_PATH_LIMIT then Stored(es, start, root, got, names)[|got| := NameOn(es, start, root, got + [seg], |got|)]
      else Stored(es, start, root, got, names)
  {
    hide FindPath;
    forall k: nat | k < |got| ensures NameOn(es, start, root, got + [seg], k) == NameOn(es, start, root, got, k) {
      assert (got + [seg])[..k + 1] == got[..k + 1];
    }
  }

  lemma SegsReadNext(data: seq<Byte>, i: nat, n: nat, end: nat, got: seq<Seg>)
    requires end <= |data| && n > 0
    ensures got + SegsRead(data, i, n, end) ==
      if end < i + 4 || !LeadChar(data[i]) then got else (got + [SegAt(data, i)]) + SegsRead(data, i + 4, n - 1, end)
  {
  }

  lemma SegsReadNone(data: seq<Byte>, i: nat, end: nat, got: seq<Seg>)
    requires end <= |data|
    ensures got + SegsRead(data, i, 0, end) == got
  {
  }

  class AMLReader {
    const data: seq<Byte>
    const ns: NameSpace
    const namePath: array<Name>
    var current: nat
    var end: nat
    var depth: int
    var scope: Option<nat>
    var namedScope: Option<nat>

    /** The namespace and the names kept. */
    ghost function State(): Space
      reads ns, namePath
    {
      Space(ns.entries, namePath[..])
    }

    /** Where names are looked up. */
    ghost function Here(): Where
      reads this, ns
    {
      Where(data, end, ns.entries, scope)
    }

    ghost predicate Valid()
      reads this, ns, namePath
    {
      && namePath.Length == NAME_PATH_LIMIT && Good(State()) && Here().Ok() && In(namedScope, |ns.entries|)
    }

    /** Bytes left. */
    ghost function Left(): (n: nat)
      reads this
    {
      if current < end then end - current else 0
    }

    constructor (bytes: seq<Byte>, names: NameSpace)
      requires names.Valid()
      ensures Valid() && data == bytes && ns == names && fresh(namePath)
      ensures current == 0 && end == |bytes| && depth == 0 && scope == None
    {
      data, ns, current, end, depth, scope, namedScope := bytes, names, 0, |bytes|, 0, None, None;
      namePath := new Name[NAME_PATH_LIMIT](i => Name(BLANK, false, false, if i == 0 then None else Some(i - 1), None));
    }

    /** What every production keeps: the namespace only grows, so all it had stays found, and scopes
        entered are never left too often. */
    twostate predicate Kept()
      reads this, ns, namePath
    {
      Valid() && end == old(end) && Grows(old(ns.entries), ns.entries) && old(depth) <= depth
    }

    /** A production that succeeds moves strictly forward and ends in the scope it started in. */
    twostate predicate Parsed(ok: bool)
      reads this, ns, namePath
    {
      Kept() && (ok ==> old(current) < current && old(current) < end && scope == old(scope))
    }

    /** One that declares nothing stays in its scope. */
    twostate predicate Looked(ok: bool)
      reads this, ns, namePath
    {
      Valid() && end == old(end) && scope == old(scope) && (ok ==> old(current) < current && old(current) < end)
    }

    /** The production ends where the grammar says it does, or fails. */
    ghost predicate Reads(ok: bool, r: Option<nat>)
      reads this
    {
      match r case None => !ok case Some(n) => ok && current == n
    }

    /** One that backtracks leaves position and scope as they were when it fails. */
    twostate predicate Backtracked(ok: bool)
      reads this, ns, namePath
    {
      Parsed(ok) && (!ok ==> current == old(current) && scope == old(scope))
    }

    method Cancel(v: (nat, Option<nat>))
      modifies `current, `scope
      ensures current == v.0 && scope == v.1
    {
      current, scope := v.0, v.1;
    }

    method EnterScope(s: Option<nat>)
      modifies `scope, `depth
      ensures scope == s && depth == old(depth) + 1
    {
      scope := s;
      depth := depth + 1;
    }

    method LeaveScope(v: (nat, Option<nat>))
      modifies `current, `scope, `depth
      ensures current == v.0 && scope == v.1 && depth == old(depth) - 1
    {
      Cancel(v);
      depth := depth - 1;
    }

    method Get() returns (c: int)
      requires end <= |data|
      modifies `current
      ensures if old(current) < end then c == data[old(current)] && current == old(current) + 1
              else c == -1 && current == old(current)
    {
      c := -1;
      if current < end {
        c := data[current];
        current := current + 1;
      }
    }

    method NameSeg() returns (name: Name)
      requires end <= |data|
      modifies `current
      ensures name.success <==> old(current) + 4 <= end && LeadChar(data[old(current)])
      ensures name.success ==> current == old(current) + 4 && name == Name(SegAt(data, old(current)), true, false, None, None)
      ensures !name.success ==> name == INVALID && old(current) <= current
      ensures current == PastSeg(data, old(current), end)
      ensures name.success ==> name.seg.a != 0
    {
      var s := current;
      var a := Get();
      if a == -1 { return INVALID; }
      if !LeadChar(a) {
        current := s;
        return INVALID;
      }
      var b := Get();
      if b == -1 { return INVALID; }
      var c := Get();
      if c == -1 { return INVALID; }
      var d := Get();
      if d == -1 { return INVALID; }
      return Name(Seg(a, b, c, d), true, false, None, None);
    }

    method GetPkgLength() returns (len: int)
      requires end <= |data|
      modifies `current
      ensures old(current) <= current
      ensures match Grammar.Package(data, old(current), end)
        case None => len == -1
        case Some((pEnd, n)) => len == pEnd - old(current) && current == n
    {
      if current < end { Littles(data[current..end]); }
      var c := Get();
      if c == -1 { return -1; }
      var n := c / 64;
      if n == 0 { return c % 64; }
      len := c % 16;
      c := Get();
      if c == -1 { return -1; }
      len := len + 16 * c;
      if n > 1 {
        c := Get();
        if c == -1 { return -1; }
        len := len + 0x1000 * c;
      }
      if n > 2 {
        c := Get();
        if c == -1 { return -1; }
        len := len + 0x10_0000 * c;
      }
    }

    /** The name written here, as `AmlEffects` says it is read and kept. */
    method NameString() returns (name: Name)
      requires Valid()
      modifies `current, `namedScope, namePath
      ensures Valid() && old(current) <= current
      ensures current == PastName(data, old(current), end)
      ensures namePath[..] == AfterName(old(Here()), old(namePath[..]), old(current))
      ensures match NameAt(data, old(current), end)
        case None => !name.success
        case Some(w) => name.success && current == w.next && NameOk(ns.entries, name) && name == NameRead(old(Here()), w)
    {
      hide FindPath, Lookup, Tree, Linked, NamesOk, SegRun, SkipCarets, SegsRead, Stored, NameOn, PastSegs, PastSeg, Solid;
      var first, isRoot := NamePrefix();
      if first == -1 || first == 0 { return INVALID; }
      var context := if isRoot then Some(0) else scope;
      if first == 0x2e {
        DualName();
        return INVALID;
      }
      if first == 0x2f {
        first := Get();
        if first == -1 { return INVALID; }
        name := MultiName(first, isRoot, context);
        return;
      }
      current := current - 1;
      name := SingleName(isRoot, context);
    }

    /** The prefix of a name and the byte after it; -1 at the end. */
    method NamePrefix() returns (first: int, isRoot: bool)
      requires Valid()
      modifies `current
      ensures Valid() && old(current) <= current && (end <= old(current) ==> first == -1 && current == old(current))
      ensures old(current) < end ==>
        var root := data[old(current)] == 0x5c;
        var m := if root then old(current) + 1 else SkipCarets(data, old(current), end);
        && isRoot == root
        && if end <= m then first == -1 && current == m else first == data[m] && current == m + 1
    {
      isRoot := false;
      first := Get();
      if first == 0x5e {
        while first == 0x5e
          invariant Valid() && old(current) < current <= end && first == data[current - 1]
          invariant SkipCarets(data, old(current), end) == SkipCarets(data, current - 1, end)
          decreases end - current, first == 0x5e
        {
          first := Get();
          if first == -1 { return; }
        }
      } else if first == 0x5c {
        isRoot := true;
        first := Get();
      }
    }

    /** Two segments, which are read and refused. */
    method DualName()
      requires Valid()
      modifies `current
      ensures Valid() && old(current) <= current == PastSegs(data, old(current), 2, end)
    {
      var one := NameSeg();
      if !one.success { return; }
      var two := NameSeg();
      assert PastSegs(data, current, 0, end) == current;
    }

    method SingleName(root: bool, start: Option<nat>) returns (name: Name)
      requires Valid() && In(start, |ns.entries|)
      modifies `current, `namedScope
      ensures Valid() && old(current) <= current
      ensures current == PastSegs(data, old(current), 1, end)
      ensures match SegRun(data, old(current), 1, end)
        case None => !name.success
        case Some(r) =>
          && name.success && current == old(current) + 4 && NameOk(ns.entries, name)
          && name == NameOn(ns.entries, start, root, r, 0)
    {
      NoPath(ns.entries, start);
      ThenNone(SegRun(data, current, 1, end));
      ThenNext(data, current, 1, end, []);
      name := NameSeg();
      if !name.success { return INVALID; }
      ThenDone(data, current, end, [name.seg]);
      PathNext(ns.entries, start, [], name.seg);
      var context := ns.Find(name.seg, start);
      name := name.(isRoot := root, context := context);
      namedScope := context;
    }

    /** The segments of a counted name, kept in `name_path` as far as it reaches. */
    method MultiName(segcount: nat, root: bool, start: Option<nat>) returns (name: Name)
      requires Valid() && In(start, |ns.entries|)
      modifies `current, `namedScope, namePath
      ensures Valid() && old(current) <= current
      ensures current == PastSegs(data, old(current), segcount, end)
      ensures namePath[..] == Stored(ns.entries, start, root, SegsRead(data, old(current), segcount, end), old(namePath[..]))
      ensures match if segcount == 0 then None else SegRun(data, old(current), segcount, end)
        case None => !name.success
        case Some(r) =>
          && name.success && current == old(current) + 4 * |r| && NameOk(ns.entries, name)
          && name == LastName(ns.entries, start, root, r)
    {
      hide FindPath, Lookup, SegRun, Walking, Stored, SegsRead;
      ghost var names := namePath[..];
      StoredNone(ns.entries, start, root, names);
      if segcount == 0 {
        namedScope := start;
        return INVALID;
      }
      name := INVALID;
      var left: nat, multi: nat, isRoot, context, upper: Option<nat> := segcount, 0, root, start, None;
      ghost var got: seq<Seg>, whole := [], SegRun(data, current, segcount, end);
      ThenNone(whole);
      StartWalking(name, root, start, names);
      while left > 0
        invariant Valid() && left + |got| == segcount && current == old(current) + 4 * |got|
        invariant whole == Then(got, SegRun(data, current, left, end))
        invariant SegsRead(data, old(current), segcount, end) == got + SegsRead(data, current, left, end)
        invariant PastSegs(data, current, left, end) == PastSegs(data, old(current), segcount, end)
        invariant Walking(got, name, isRoot, context, multi, upper, root, start, names)
      {
        ThenNext(data, current, left, end, got);
        SegsReadNext(data, current, left, end, got);
        var read := NameSeg();
        if !read.success {
          WalkedPath(got, name, isRoot, context, multi, upper, root, start, names);
          return INVALID;
        }
        name, context, multi, upper := NextSegment(read, isRoot, context, multi, upper, name, root, start, got, names);
        isRoot := false;
        left, got := left - 1, got + [read.seg];
      }
      ThenDone(data, current, end, got);
      SegsReadNone(data, current, end, got);
      WalkedPath(got, name, isRoot, context, multi, upper, root, start, names);
      namedScope := context;
    }

    /** The state of `name_string` behind the segments `got`. */
    ghost predicate Walking(got: seq<Seg>, name: Name, isRoot: bool, context: Option<nat>, multi: nat, upper: Option<nat>,
                            root: bool, start: Option<nat>, names: seq<Name>)
      requires Good(State()) && In(start, |ns.entries|) && namePath.Length == NAME_PATH_LIMIT && NamesOk(ns.entries, names)
      reads ns, namePath
    {
      && isRoot == (root && got == []) && context == FindPath(ns.entries, start, got)
      && multi == (if |got| < NAME_PATH_LIMIT then |got| else NAME_PATH_LIMIT) && upper == Above(multi)
      && Solid(got) && namePath[..] == Stored(ns.entries, start, root, got, names)
      && (got != [] ==> name == LastName(ns.entries, start, root, got))
    }

    lemma StartWalking(name: Name, root: bool, start: Option<nat>, names: seq<Name>)
      requires Valid() && In(start, |ns.entries|) && names == namePath[..]
      ensures Walking([], name, root, start, 0, None, root, start, names)
    {
      NoPath(ns.entries, start);
      StoredNone(ns.entries, start, root, names);
    }

    lemma WalkedPath(got: seq<Seg>, name: Name, isRoot: bool, context: Option<nat>, multi: nat, upper: Option<nat>,
                     root: bool, start: Option<nat>, names: seq<Name>)
      requires Valid() && In(start, |ns.entries|) && NamesOk(ns.entries, names)
      requires Walking(got, name, isRoot, context, multi, upper, root, start, names)
      ensures Solid(got) && namePath[..] == Stored(ns.entries, start, root, got, names)
      ensures In(context, |ns.entries|)
      ensures got != [] ==> name.success && NameOk(ns.entries, name) && name == LastName(ns.entries, start, root, got)
    {
      if got != [] {
        LastNameOk(ns.entries, start, root, got);
      }
    }

    /** The segment just read is looked up in the entry found for the one before, and stored while
        `name_path` has room. */
    method NextSegment(read: Name, isRoot: bool, before: Option<nat>, stored: nat, above: Option<nat>,
                       ghost last: Name, ghost root: bool, ghost start: Option<nat>, ghost got: seq<Seg>, ghost names: seq<Name>)
      returns (name: Name, context: Option<nat>, multi: nat, upper: Option<nat>)
      requires Valid() && In(start, |ns.entries|) && NamesOk(ns.entries, names)
      requires read == Name(read.seg, true, false, None, None) && read.seg.a != 0
      requires Walking(got, last, isRoot, before, stored, above, root, start, names)
      modifies namePath
      ensures Valid() && Walking(got + [read.seg], name, false, context, multi, upper, root, start, names)
    {
      hide FindPath, Lookup, Stored;
      PathNext(ns.entries, start, got, read.seg);
      StoredNext(ns.entries, start, root, got, read.seg, names);
      context := ns.Find(read.seg, before);
      name, multi, upper := read.(isRoot := isRoot, context := context), stored, above;
      if multi < NAME_PATH_LIMIT {
        name := name.(upper := upper);
        namePath[multi] := name;
        upper := Some(multi);
        multi := multi + 1;
      }
    }

    /** Whether the first segment of the path, reached by the `upper` links, is in the root. */
    method TopIsRoot(name: Name) returns (isRoot: bool)
      requires Valid() && NameOk(ns.entries, name)
      ensures isRoot == if name.upper.None? then name.isRoot else namePath[0].isRoot
    {
      var top, u: Option<nat> := None, name.upper;
      while u.Some?
        invariant In(u, NAME_PATH_LIMIT) && (u.None? ==> top == if name.upper.None? then None else Some(0))
        decreases if u.None? then 0 else u.value + 1
      {
        top, u := u, namePath[u.value].upper;
      }
      isRoot := if top.None? then name.isRoot else namePath[top.value].isRoot;
    }

    /** Enters a name in the namespace, with every segment on its path that is still kept. */
    method DeclareName(read: Name) returns (name: Name)
      requires Valid() && NameOk(ns.entries, read)
      modifies namePath, ns
      ensures Valid() && Grows(old(ns.entries), ns.entries) && name.context.Some?
      ensures name == read.(context := name.context)
      ensures (State(), name.context.value) == Declare(old(State()), scope, read)
    {
      name := read;
      var isRoot := TopIsRoot(name);
      var context := if isRoot then Some(0) else scope;
      hide FindPath, Lookup, EnterOne, EnterKept, Tree, NamesOk;
      var n := if name.upper.None? then 0 else name.upper.value + 1;
      context := DeclareUppers(n, context);
      var c := DeclareOne(name, context);
      name := name.(context := Some(c));
    }

    /** Enters the first `n` segments kept. */
    method DeclareUppers(n: nat, start: Option<nat>) returns (context: Option<nat>)
      requires Valid() && n <= NAME_PATH_LIMIT && In(start, |ns.entries|)
      modifies namePath, ns
      ensures Valid() && Grows(old(ns.entries), ns.entries) && In(context, |ns.entries|)
      ensures (State(), context) == EnterKept(old(State()), 0, n, start)
    {
      hide FindPath, Lookup, EnterOne;
      var i := 0;
      context := start;
      while i < n
        invariant Valid() && i <= n && Grows(old(ns.entries), ns.entries) && In(context, |ns.entries|)
        invariant EnterKept(State(), i, n, context) == EnterKept(old(State()), 0, n, start)
      {
        ghost var s := State();
        var c := DeclareOne(namePath[i], context);
        namePath[i] := namePath[i].(context := Some(c));
        assert State() == Space(ns.entries, s.names[i := s.names[i].(context := Some(c))]);
        context := Some(c);
        i := i + 1;
      }
    }

    /** The entry for one segment: the one it meant when it was read, or else one in `context`. */
    method DeclareOne(u: Name, context: Option<nat>) returns (c: nat)
      requires Valid() && NameOk(ns.entries, u) && In(context, |ns.entries|)
      modifies ns
      ensures Valid() && Grows(old(ns.entries), ns.entries) && (ns.entries, c) == EnterOne(old(ns.entries), u, context)
    {
      if u.context.Some? {
        c := u.context.value;
      } else {
        c := ns.FindOrNew(u.seg, context);
      }
    }

    // ----- Productions. Each ensures `Parsed`, and those that other productions try as one of several
    // alternatives `Backtracked`. The measure is the bytes left, then how many productions may still be
    // entered without reading one.

    method LocalOrArgObj() returns (ok: bool)
      requires Valid()
      modifies `current
      ensures Looked(ok) && old(current) <= current
      ensures ok <==> old(current) < end && 0x60 <= data[old(current)] <= 0x6e
      ensures Reads(ok, Grammar.LocalOrArg(data, old(current), end))
    {
      var c := Get();
      return c != -1 && 0x60 <= c <= 0x6e;
    }

    method DebugObject() returns (ok: bool)
      requires Valid()
      modifies `current
      ensures Looked(ok) && old(current) <= current
      ensures Reads(ok, Grammar.Debug(data, old(current), end))
    {
      var c := Get();
      if c != 0x5b { return false; }
      c := Get();
      return c == 0x31;
    }

    method SuperName() returns (ok: bool)
      requires Valid()
      modifies `current, `scope, `namedScope, namePath
      ensures Looked(ok) && (!ok ==> current == old(current))
      ensures scope == old(scope) && namePath[..] == SuperNameNames(old(Here()), old(namePath[..]), old(current))
      ensures Reads(ok, Grammar.SuperName(data, old(current), end))
      decreases Left(), 1
    {
      var s := (current, scope);
      ok := LocalOrArgObj();
      if ok { return; }
      Cancel(s);
      var name := NameString();
      if name.success { return true; }
      Cancel(s);
      ok := TypeSixOpcode();
      if ok { return; }
      Cancel(s);
      ok := DebugObject();
      if ok { return; }
      Cancel(s);
    }

    method Target() returns (ok: bool)
      requires Valid()
      modifies `current, `scope, `namedScope, namePath
      ensures Looked(ok) && (!ok ==> current == old(current))
      ensures scope == old(scope) && namePath[..] == TargetNames(old(Here()), old(namePath[..]), old(current))
      ensures Reads(ok, Grammar.Target(data, old(current), end))
      decreases Left(), 2
    {
      var s := (current, scope);
      var c := Get();
      if c == -1 { return false; }
      if c == 0 { return true; }
      Cancel(s);
      ok := SuperName();
    }

    method TypeSixOpcode() returns (ok: bool)
      requires Valid()
      modifies `current, `scope, `namedScope, namePath
      ensures Looked(ok)
      ensures scope == old(scope) && namePath[..] == TypeSixNames(old(Here()), old(namePath[..]), old(current))
      ensures Reads(ok, Grammar.TypeSix(data, old(current), end))
      decreases Left(), 0
    {
      var c := Get();
      if c == -1 { return false; }
      match c
      case 0x71 => ok := SuperName();
      case 0x83 => ok := TermArg();
      case 0x88 => ok := TwoArgsAndTarget();
      case _ => ok := false;
    }

    /** Two arguments and a target, all after the opcode just read. */
    method TwoArgsAndTarget() returns (ok: bool)
      requires Valid()
      modifies `current, `scope, `namedScope, namePath
      ensures Looked(ok)
      ensures scope == old(scope) && namePath[..] == TwoArgsAndTargetNames(old(Here()), old(namePath[..]), old(current))
      ensures Reads(ok, Grammar.TwoArgsAndTarget(data, old(current), end))
      decreases Left(), 3
    {
      assert Grammar.TwoArgs(data, current, end) == match Grammar.TermArg(data, current, end)
        case None => None
        case Some(n) => Grammar.TermArg(data, n, end);
      ok := TermArg();
      if ok { ok := TermArg(); }
      if ok { ok := Target(); }
    }

    method TwoArgs() returns (ok: bool)
      requires Valid()
      modifies `current, `scope, `namedScope, namePath
      ensures Looked(ok)
      ensures scope == old(scope) && namePath[..] == TwoArgsNames(old(Here()), old(namePath[..]), old(current))
      ensures Reads(ok, Grammar.TwoArgs(data, old(current), end))
      decreases Left(), 3
    {
      ok := TermArg();
      if ok { ok := TermArg(); }
    }

    /** Arguments up to the package end. */
    method TermArgs(pEnd: nat) returns (ok: bool)
      requires Valid()
      modifies `current, `scope, `namedScope, namePath
      ensures Valid() && end == old(end) && (ok ==> old(current) <= current)
      ensures scope == old(scope) && namePath[..] == TermArgsNames(old(Here()), old(namePath[..]), old(current), pEnd)
      ensures Reads(ok, Grammar.TermArgs(data, old(current), pEnd, end))
      decreases Left(), 3
    {
      while current < pEnd
        invariant Valid() && end == old(end) && old(current) <= current && scope == old(scope)
        invariant TermArgsNames(old(Here()), namePath[..], current, pEnd) == TermArgsNames(old(Here()), old(namePath[..]), old(current), pEnd)
        invariant Grammar.TermArgs(data, current, pEnd, end) == Grammar.TermArgs(data, old(current), pEnd, end)
        decreases pEnd - current
      {
        ok := TermArg();
        if !ok { return; }
      }
      ok := true;
    }

    /** Objects up to the package end. */
    method TermList(pEnd: nat) returns (ok: bool)
      requires Valid()
      modifies `current, `depth, `scope, `namedScope, namePath, ns
      ensures Kept() && (ok ==> old(current) <= current && scope == old(scope))
      ensures State() == TermListEffect(data, end, old(State()), old(scope), old(current), pEnd)
      ensures Reads(ok, Grammar.TermList(data, old(current), pEnd, end))
      decreases Left(), 2
    {
      while current < pEnd
        invariant Kept() && old(current) <= current && scope == old(scope)
        invariant TermListEffect(data, end, State(), scope, current, pEnd) ==
          TermListEffect(data, end, old(State()), old(scope), old(current), pEnd)
        invariant Grammar.TermList(data, current, pEnd, end) == Grammar.TermList(data, old(current), pEnd, end)
        decreases pEnd - current
      {
        ok := TermObj();
        if !ok { return; }
      }
      ok := true;
    }

    method TypeOneOpcode() returns (ok: bool)
      requires Valid()
      modifies `current, `scope, `namedScope, namePath
      ensures Looked(ok)
      ensures scope == old(scope) && namePath[..] == TypeOneNames(old(Here()), old(namePath[..]), old(current))
      ensures Reads(ok, Grammar.TypeOne(data, old(current), end))
      decreases Left(), 0
    {
      hide Grammar.Package, NameAt, PastName, AfterName, Tree, Linked, NamesOk;
      var c := Get();
      if c == -1 { return false; }
      match c
      case 0x5b =>
        c := Get();
        ok := c in {0x20, 0x21, 0x22, 0x24, 0x26, 0x27, 0x32};
      case 0xa0 => ok := IfOrWhile();
      case 0xa1 =>
        var pEnd := current;
        var pkgLen := GetPkgLength();
        if pkgLen == -1 { return false; }
        ok := TermArgs(pEnd + pkgLen);
      case 0xa2 => ok := IfOrWhile();
      case 0xa4 => ok := TermArg();
      case _ => ok := c in {0x86, 0x9f, 0xa3, 0xa5, 0xcc};
    }

    /** A predicate, whose failure is ignored, and the arguments up to the package end. */
    method IfOrWhile() returns (ok: bool)
      requires Valid()
      modifies `current, `scope, `namedScope, namePath
      ensures Valid() && end == old(end) && (ok ==> old(current) <= current)
      ensures scope == old(scope) && namePath[..] == IfOrWhileNames(old(Here()), old(namePath[..]), old(current))
      ensures Reads(ok, Grammar.IfOrWhile(data, old(current), end))
      decreases Left(), 4
    {
      hide Grammar.Package, NameAt, PastName, AfterName, Tree, Linked, NamesOk;
      var pEnd := current;
      var pkgLen := GetPkgLength();
      if pkgLen == -1 { return false; }
      var predicate_ := TermArg();
      ok := TermArgs(pEnd + pkgLen);
    }

    method TypeTwoOpcode() returns (ok: bool)
      requires Valid()
      modifies `current, `scope, `namedScope, namePath
      ensures Looked(ok)
      ensures scope == old(scope) && namePath[..] == TypeTwoNames(old(Here()), old(namePath[..]), old(current))
      ensures Reads(ok, Grammar.TypeTwo(data, old(current), end))
      decreases Left(), 0
    {
      hide SuperNameNames, TargetNames, TwoArgsNames, TwoArgsAndTargetNames, TermArgNames, AfterName, Tree, Linked, NamesOk;
      var s := (current, scope);
      var c := Get();
      if c == -1 { return false; }
      match c
      case 0x5b =>
        c := Get();
        if c != 0x12 { return false; }
        ok := SuperName();
        if ok { ok := Target(); }
      case 0x72 => ok := TwoArgsAndTarget();
      case 0x83 => ok := TermArg();
      case 0x87 => ok := SuperName();
      case 0x88 => ok := TwoArgsAndTarget();
      case 0x90 => ok := TwoArgs();
      case 0x91 => ok := TwoArgs();
      case 0x92 => ok := TermArg();
      case 0x93 => ok := TwoArgs();
      case 0x94 => ok := TwoArgs();
      case 0x95 => ok := TwoArgs();
      case _ =>
        Cancel(s);
        var name := NameString();
        ok := name.success;
    }

    method TermArg() returns (ok: bool)
      requires Valid()
      modifies `current, `scope, `namedScope, namePath
      ensures Looked(ok) && (!ok ==> current == old(current))
      ensures scope == old(scope) && namePath[..] == TermArgNames(old(Here()), old(namePath[..]), old(current))
      ensures Reads(ok, Grammar.TermArg(data, old(current), end))
      decreases Left(), 2
    {
      var s := (current, scope);
      ok := LocalOrArgObj();
      if ok { return; }
      Cancel(s);
      ok := DataObject();
      if ok { return; }
      Cancel(s);
      ok := TypeTwoOpcode();
      if ok { return; }
      Cancel(s);
    }

    /** `get_byte`, `get_word`, `get_dword` and `get_qword`: `n` bytes, lowest first. */
    method GetValue(n: nat) returns (ok: bool, value: nat)
      requires Valid() && n > 0
      modifies `current
      ensures Valid() && old(current) <= current && (ok <==> old(current) + n <= end)
      ensures ok ==> current == old(current) + n && value == Little(data[old(current)..current])
    {
      var i, scale := 0, 1;
      value := 0;
      while i < n
        invariant i <= n && current == old(current) + i && Valid() && scale == Pow256(i)
        invariant i > 0 ==> current <= end
        invariant if i == 0 then value == 0 else value == Little(data[old(current)..current])
      {
        var c := Get();
        if c == -1 { return false, value; }
        assert i == 0 ==> data[old(current)..current - 1] == [];
        LittleSnoc(data[old(current)..current - 1], c);
        assert data[old(current)..current] == data[old(current)..current - 1] + [c];
        value, scale, i := value + scale * c, 256 * scale, i + 1;
      }
      ok := true;
    }

    method ComputationalData() returns (ok: bool)
      requires Valid()
      modifies `current, `scope, `namedScope, namePath
      ensures Looked(ok)
      ensures scope == old(scope) && namePath[..] == ComputationalNames(old(Here()), old(namePath[..]), old(current))
      ensures Reads(ok, Grammar.Computational(data, old(current), end))
      decreases Left(), 0
    {
      hide Grammar.Package, NameAt, PastName, AfterName, Tree, Linked, NamesOk;
      var c := Get();
      if c == -1 { return false; }
      var value;
      match c
      case 0x0a => ok, value := GetValue(1);
      case 0x0b => ok, value := GetValue(2);
      case 0x0c => ok, value := GetValue(4);
      case 0x0d => ok := SkipString();
      case 0x0e => ok, value := GetValue(8);
      case 0x00 => ok := true;
      case 0x01 => ok := true;
      case 0xff => ok := true;
      case 0x5b =>
        c := Get();
        ok := false;
      case 0x11 =>
        var pEnd := current;
        var pkgLen := GetPkgLength();
        if pkgLen == -1 { return false; }
        ok := TermArg();
        if ok { current := pEnd + pkgLen; }
      case _ => ok := false;
    }

    method SkipString() returns (ok: bool)
      requires Valid()
      modifies `current
      ensures Valid() && old(current) <= current
      ensures ok ==> old(current) < current <= end && data[current - 1] == 0
      ensures ok ==> forall i :: old(current) <= i < current - 1 ==> data[i] != 0
      ensures Reads(ok, Grammar.StringEnd(data, old(current), end))
    {
      var c := Get();
      if c == -1 { return false; }
      while c != 0
        invariant Valid() && old(current) < current <= end && c == data[current - 1]
        invariant Grammar.StringEnd(data, current - 1, end) == Grammar.StringEnd(data, old(current), end)
        invariant forall i :: old(current) <= i < current - 1 ==> data[i] != 0
        decreases end - current, c != 0
      {
        c := Get();
        if c == -1 { return false; }
      }
      ok := true;
    }

    method DataObject() returns (ok: bool)
      requires Valid()
      modifies `current, `scope, `namedScope, namePath
      ensures Looked(ok)
      ensures scope == old(scope) && namePath[..] == DataObjectNames(old(Here()), old(namePath[..]), old(current))
      ensures Reads(ok, Grammar.DataObject(data, old(current), end))
      decreases Left(), 1
    {
      hide Grammar.Package, Grammar.Elements, ElementsNames, Tree, Linked, NamesOk;
      var s := (current, scope);
      ok := ComputationalData();
      if ok { return; }
      Cancel(s);
      var c := Get();
      if c == -1 { return false; }
      if c == 0x12 {
        var pEnd := current;
        var pkgLen := GetPkgLength();
        if pkgLen == -1 { return false; }
        pEnd := pEnd + pkgLen;
        c := Get();
        if c == -1 { return false; }
        ok := Elements(pEnd);
        return;
      }
      Cancel(s);
      ok := false;
    }

    /** The elements of a package: names or data. */
    method Elements(pEnd: nat) returns (ok: bool)
      requires Valid()
      modifies `current, `scope, `namedScope, namePath
      ensures Valid() && end == old(end) && (ok ==> old(current) <= current)
      ensures scope == old(scope) && namePath[..] == ElementsNames(old(Here()), old(namePath[..]), old(current), pEnd)
      ensures Reads(ok, Grammar.Elements(data, old(current), pEnd, end))
      decreases Left(), 4
    {
      hide Grammar.Package, NameAt, PastName, AfterName, Tree, Linked, NamesOk;
      while current < pEnd
        invariant Valid() && end == old(end) && old(current) <= current && scope == old(scope)
        invariant ElementsNames(old(Here()), namePath[..], current, pEnd) == ElementsNames(old(Here()), old(namePath[..]), old(current), pEnd)
        invariant Grammar.Elements(data, current, pEnd, end) == Grammar.Elements(data, old(current), pEnd, end)
        decreases pEnd - current
      {
        var s := (current, scope);
        var name := NameString();
        if !name.success {
          Cancel(s);
          ok := DataRefObject();
          if !ok { return; }
        }
      }
      ok := true;
    }

    method DataRefObject() returns (ok: bool)
      requires Valid()
      modifies `current, `scope, `namedScope, namePath
      ensures Looked(ok) && (!ok ==> current == old(current))
      ensures scope == old(scope) && namePath[..] == DataRefNames(old(Here()), old(namePath[..]), old(current))
      ensures Reads(ok, Grammar.DataRef(data, old(current), end))
      decreases Left(), 3
    {
      var s := (current, scope);
      ok := ComputationalData();
      if ok { return; }
      Cancel(s);
      ok := TermArg();
      if ok { return; }
      Cancel(s);
    }

    method NameOp() returns (ok: bool)
      requires Valid()
      modifies `current, `scope, `namedScope, namePath, ns
      ensures Kept() && scope == old(scope) && (ok ==> old(current) < current)
      ensures State() == NameOpEffect(data, end, old(State()), old(scope), old(current))
      ensures Reads(ok, Grammar.NameOp(data, old(current), end))
      decreases Left(), 4
    {
      hide FindPath, NameAt, PastName, FindFrom, NameRead, Declare, AfterName;
      var name := NameString();
      if !name.success { return false; }
      var v := current;
      ok := DataRefObject();
      if !ok { return; }
      name := DeclareName(name);
      ns.Describe(name.context.value, 2, v, current - v);
    }

    /** Scope, Method and Device: a package that starts with a name. Its scope is entered for the objects
        in it, of which a method has none read (`skip`), and left at the package end. */
    method NamedPackage(kind: nat, skip: bool) returns (ok: bool)
      requires Valid()
      modifies `current, `depth, `scope, `namedScope, namePath, ns
      ensures Kept() && (ok ==> old(current) <= current && scope == old(scope))
      ensures State() == NamedPackageEffect(data, end, old(State()), old(scope), old(current), kind, skip)
      ensures Reads(ok, Grammar.NamedPackage(data, old(current), skip, end))
      decreases Left(), 4
    {
      hide Grammar.Package, NameAt, PastName, Tree, Linked, NamesOk, AmlEffects.DeclareNext;
      var pEnd := current;
      var pkgLen := GetPkgLength();
      if pkgLen == -1 { return false; }
      pEnd := pEnd + pkgLen;
      var s := (current, scope);
      var context := DeclareNext(kind);
      if context.None? {
        if kind == 1 { Cancel(s); }
        return false;
      }
      if skip {
        var c := Get();
        if c == -1 { return false; }
        current := pEnd;
        assert Grammar.TermList(data, pEnd, pEnd, end) == Some(pEnd);
        assert TermListEffect(data, end, State(), context, pEnd, pEnd) == State();
      }
      ok := PackageBody(context, pEnd, s);
    }

    /** The objects up to the package end, inside entry `context`; then back to the scope saved. */
    method PackageBody(context: Option<nat>, pEnd: nat, s: (nat, Option<nat>)) returns (ok: bool)
      requires Valid() && context.Some? && In(context, |ns.entries|) && In(s.1, |ns.entries|)
      modifies `current, `depth, `scope, `namedScope, namePath, ns
      ensures Kept() && (ok ==> current == pEnd && scope == s.1)
      ensures State() == TermListEffect(data, end, old(State()), context, old(current), pEnd)
      ensures ok <==> Grammar.TermList(data, old(current), pEnd, end).Some?
      decreases Left(), 3
    {
      hide Grammar.TermList, TermListEffect, Tree, Linked, NamesOk;
      EnterScope(context);
      ok := TermList(pEnd);
      if !ok { return; }
      LeaveScope(s);
      current := pEnd;
    }

    /** Reads a name and declares it. */
    method DeclareNext(kind: nat) returns (context: Option<nat>)
      requires Valid()
      modifies `current, `namedScope, namePath, ns
      ensures Valid() && Grows(old(ns.entries), ns.entries) && old(current) <= current && In(context, |ns.entries|)
      ensures current == PastName(data, old(current), end)
      ensures context.None? <==> NameAt(data, old(current), end) == None
      ensures (State(), context) == AmlEffects.DeclareNext(data, end, old(State()), scope, old(current), kind)
    {
      hide FindPath, NameAt, FindFrom, NameRead, Declare, AfterName;
      var name := NameString();
      if !name.success { return None; }
      name := DeclareName(name);
      if kind != 0 {
        var e := ns.entries[name.context.value];
        ns.Describe(name.context.value, kind, e.source, e.length);
      }
      context := name.context;
    }

    /** The elements of a field list. */
    method FieldList(pEnd: nat) returns (ok: bool)
      requires Valid()
      modifies `current
      ensures Valid() && (ok ==> old(current) <= current)
      ensures Reads(ok, Grammar.FieldList(data, old(current), pEnd, end))
    {
      hide Grammar.FieldElement;
      while current < pEnd
        invariant Valid() && old(current) <= current
        invariant Grammar.FieldList(data, current, pEnd, end) == Grammar.FieldList(data, old(current), pEnd, end)
        decreases pEnd - current
      {
        ok := FieldElement();
        if !ok { return; }
      }
      ok := true;
    }

    method FieldElement() returns (ok: bool)
      requires Valid()
      modifies `current
      ensures Valid() && (ok ==> old(current) < current)
      ensures Reads(ok, Grammar.FieldElement(data, old(current), end))
    {
      hide Grammar.Package, FindPath, NameAt, PastName, FindFrom;
      var s := current;
      var c := Get();
      if c == -1 { return false; }
      if c == 0 {
        var pkgLen := GetPkgLength();
        return pkgLen != -1;
      }
      if c == 1 {
        c := Get();
        if c == -1 { return false; }
        c := Get();
        return c != -1;
      }
      if c > 3 {
        current := s;
        var name := NameSeg();
        if !name.success { return false; }
        var pkgLen := GetPkgLength();
        return pkgLen != -1;
      }
      ok := true;
    }

    method OpRegion() returns (ok: bool)
      requires Valid()
      modifies `current, `scope, `namedScope, namePath
      ensures Valid() && end == old(end) && (ok ==> old(current) <= current)
      ensures scope == old(scope) && namePath[..] == OpRegionNames(old(Here()), old(namePath[..]), old(current))
      ensures Reads(ok, Grammar.OpRegion(data, old(current), end))
      decreases Left(), 4
    {
      hide Grammar.Package, NameAt, PastName, AfterName, Tree, Linked, NamesOk;
      var name := NameString();
      if !name.success { return false; }
      var c := Get();
      if c == -1 { return false; }
      ok := TwoArgs();
    }

    method Field() returns (ok: bool)
      requires Valid()
      modifies `current, `scope, `namedScope, namePath
      ensures Valid() && end == old(end) && (ok ==> old(current) <= current)
      ensures scope == old(scope) && namePath[..] == PackageNames(old(Here()), old(namePath[..]), old(current))
      ensures Reads(ok, Grammar.Field(data, old(current), end))
    {
      hide Grammar.Package, NameAt, PastName, AfterName, Tree, Linked, NamesOk;
      var pEnd := current;
      var pkgLen := GetPkgLength();
      if pkgLen == -1 { return false; }
      pEnd := pEnd + pkgLen;
      var name := NameString();
      if !name.success { return false; }
      var c := Get();
      if c == -1 { return false; }
      ok := FieldList(pEnd);
    }

    method Processor() returns (ok: bool)
      requires Valid()
      modifies `current, `scope, `namedScope, namePath
      ensures Valid() && end == old(end) && (ok ==> old(current) <= current)
      ensures scope == old(scope) && namePath[..] == PackageNames(old(Here()), old(namePath[..]), old(current))
      ensures Reads(ok, Grammar.Processor(data, old(current), end))
    {
      hide Grammar.Package, NameAt, PastName, AfterName, Tree, Linked, NamesOk;
      var pEnd := current;
      var pkgLen := GetPkgLength();
      if pkgLen == -1 { return false; }
      pEnd := pEnd + pkgLen;
      var name := NameString();
      if !name.success { return false; }
      var c := Get();
      if c == -1 { return false; }
      var value;
      ok, value := GetValue(4);
      if !ok { return; }
      c := Get();
      if c == -1 { return false; }
      current := pEnd;
    }

    method Mutex() returns (ok: bool)
      requires Valid()
      modifies `current, `scope, `namedScope, namePath
      ensures Valid() && end == old(end) && (ok ==> old(current) <= current)
      ensures scope == old(scope) && namePath[..] == AfterName(old(Here()), old(namePath[..]), old(current))
      ensures Reads(ok, Grammar.Mutex(data, old(current), end))
    {
      var name := NameString();
      var c := Get();
      return c != -1;
    }

    method Object() returns (ok: bool)
      requires Valid()
      modifies `current, `depth, `scope, `namedScope, namePath, ns
      ensures Parsed(ok) && State() == ObjectEffect(data, end, old(State()), old(scope), old(current))
      ensures Reads(ok, Grammar.Object(data, old(current), end))
      decreases Left(), 0
    {
      hide NameOpEffect, NamedPackageEffect, OpRegionNames, PackageNames, AfterName, Grammar.NameOp, Grammar.NamedPackage,
           Grammar.OpRegion, Grammar.Field, Grammar.Processor, Grammar.Mutex, Tree, Linked, NamesOk;
      var c := Get();
      if c == -1 { return false; }
      match c
      case 0x08 => ok := NameOp();
      case 0x10 => ok := NamedPackage(0, false);
      case 0x14 => ok := NamedPackage(3, true);
      case 0x5b =>
        c := Get();
        if c == -1 { return false; }
        match c {
          case 0x80 => ok := OpRegion();
          case 0x81 => ok := Field();
          case 0x82 => ok := NamedPackage(1, false);
          case 0x83 => ok := Processor();
          case 0x01 => ok := Mutex();
          case _ => ok := false;
        }
      case _ => ok := false;
    }

    method TermObj() returns (ok: bool)
      requires Valid()
      modifies `current, `depth, `scope, `namedScope, namePath, ns
      ensures Backtracked(ok) && State() == TermObjEffect(data, end, old(State()), old(scope), old(current))
      ensures Reads(ok, Grammar.TermObj(data, old(current), end))
      decreases Left(), 1
    {
      hide ObjectEffect, TypeTwoNames, TypeOneNames, Tree, Linked, NamesOk;
      var s := (current, scope);
      ok := Object();
      if ok { return; }
      Cancel(s);
      ok := TypeTwoOpcode();
      if ok { return; }
      Cancel(s);
      ok := TypeOneOpcode();
      if ok { return; }
      Cancel(s);
    }

    /** The loop of `load_dsdt`: objects one after the other up to a position that starts none. There one
        byte is taken, and what may follow such a byte; then the loop ends, whatever is left. */
    method LoadDsdt()
      requires Valid()
      modifies `current, `depth, `scope, `namedScope, namePath, ns
      ensures Kept() && scope == old(scope) && current == Grammar.TableEnd(data, old(current), end)
      ensures ns.entries == TableEffect(data, end, old(State()), old(scope), old(current)).es
    {
      hide Grammar.TermObj, Grammar.AfterUnknown, TermObjEffect, Tree, Linked, NamesOk;
      var ok := TermObj();
      while ok
        invariant Kept() && scope == old(scope)
        invariant if ok then Grammar.FirstBad(data, current, end) == Grammar.FirstBad(data, old(current), end)
                  else current == Grammar.FirstBad(data, old(current), end)
        invariant if ok then TableEffect(data, end, State(), scope, current) == TableEffect(data, end, old(State()), old(scope), old(current))
                  else State() == TableEffect(data, end, old(State()), old(scope), old(current))
        decreases Left(), ok
      {
        ok := TermObj();
      }
      var c := Get();
      if c != -1 { SkipUnknown(c); }
    }

    /** The `switch` of `load_dsdt` on a byte that starts no object. */
    method SkipUnknown(c: Byte)
      requires Valid()
      modifies `current, `scope, `namedScope, namePath
      ensures Kept() && scope == old(scope) && current == Grammar.AfterUnknown(data, c, old(current), end)
    {
      var ok;
      if c == 0x72 {
        ok := TermArg();
        ok := TermArg();
        ok := Target();
      } else if c in {0x75, 0x76, 0x8e} {
        ok := SuperName();
      } else if c in {0x8a, 0x8b, 0x8c, 0x8d, 0x8f} {
        ok := TermArg();
        ok := TermArg();
        var name := NameString();
      } else if c in {0x90, 0x91, 0x93, 0x94, 0x95, 0x9c} {
        ok := TermArg();
        ok := TermArg();
      } else if c in {0x92, 0x96, 0x97, 0x98, 0x99} {
        ok := TermArg();
      }
    }
  }
}
