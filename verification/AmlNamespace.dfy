/** The ACPI namespace (kernel/aml.cpp): entries allocated one after the other, never freed, each on
    the `next` list of its siblings that starts at the `inner` link of its parent. An entry is known
    by its position in order of allocation; entry 0 is the root. */
module AmlNames {
  import opened Wrappers

  /** Four name characters. */
  datatype Seg = Seg(a: Byte, b: Byte, c: Byte, d: Byte)

  const BLANK := Seg(0x5f, 0x5f, 0x5f, 0x5f)
  const ROOT := Seg(0x5c, 0, 0, 0)

  datatype Entry = Entry(name: Seg, kind: nat, source: nat, length: int, up: Option<nat>, inner: Option<nat>, next: Option<nat>)

  function Init(name: Seg): Entry { Entry(name, 0, 0, 0, None, None, None) }

  predicate Ahead(link: Option<nat>, i: nat, n: nat) { link.Some? ==> i < link.value < n }

  /** Links lead to later entries. */
  predicate Linked(es: seq<Entry>) {
    forall i {:trigger es[i]} :: 0 <= i < |es| ==> Ahead(es[i].inner, i, |es|) && Ahead(es[i].next, i, |es|)
  }

  predicate In(s: Option<nat>, n: nat) { s.Some? ==> s.value < n }

  /** The entry of that name on the list that starts at `s`. */
  function FindFrom(es: seq<Entry>, name: Seg, s: Option<nat>): (r: Option<nat>)
    requires Linked(es) && In(s, |es|)
    ensures In(r, |es|)
    decreases if s.None? then 0 else |es| - s.value
  {
    if s.None? || es[s.value].name == name then s else FindFrom(es, name, es[s.value].next)
  }

  function Lookup(es: seq<Entry>, name: Seg, ctx: Option<nat>): (r: Option<nat>)
    requires Linked(es) && In(ctx, |es|)
    ensures In(r, |es|)
  {
    if name.a == 0 || ctx.None? then None else FindFrom(es, name, es[ctx.value].inner)
  }

  /** The last entry of the list that starts at `s`. */
  function LastOf(es: seq<Entry>, s: nat): (r: nat)
    requires Linked(es) && s < |es|
    ensures s <= r < |es| && es[r].next == None
    decreases |es| - s
  {
    if es[s].next.None? then s else LastOf(es, es[s].next.value)
  }

  /** A new entry at the end of the list of parent `p`. */
  function Append(es: seq<Entry>, p: nat, name: Seg): seq<Entry>
    requires Linked(es) && p < |es|
  {
    var e := Init(name).(up := Some(p));
    match es[p].inner
    case None => es[p := es[p].(inner := Some(|es|))] + [e]
    case Some(s) => var k := LastOf(es, s); es[k := es[k].(next := Some(|es|))] + [e]
  }

  function Parent(ctx: Option<nat>): nat { if ctx.Some? then ctx.value else 0 }

  function Named(name: Seg): Seg { if name.a == 0 then BLANK else name }

  function LookupOrNew(es: seq<Entry>, name: Seg, ctx: Option<nat>): (r: (seq<Entry>, nat))
    requires Linked(es) && In(ctx, |es|) && |es| > 0
  {
    match FindFrom(es, Named(name), es[Parent(ctx)].inner)
    case Some(i) => (es, i)
    case None => (Append(es, Parent(ctx), Named(name)), |es|)
  }

  // ----- The namespace is a tree -----

  predicate IsChild(es: seq<Entry>, p: nat, i: nat) {
    0 < i < |es| && es[i].up == Some(p)
  }

  /** Entry `i` is on the list that starts at `s`. */
  predicate OnList(es: seq<Entry>, s: Option<nat>, i: nat)
    requires Linked(es) && In(s, |es|)
    decreases if s.None? then 0 else |es| - s.value
  {
    s.Some? && (s.value == i || OnList(es, es[s.value].next, i))
  }

  /** Entry `i` hangs below an earlier entry, on whose list it is; the entries on its own list hang
      below it, and the rest of the list it is on hangs where it does. */
  predicate Hangs(es: seq<Entry>, i: nat)
    requires Linked(es) && i < |es|
  {
    && (es[i].inner.Some? ==> IsChild(es, i, es[i].inner.value))
    && if i == 0 then es[0].up == None
       else
         && es[i].name.a != 0 && es[i].up.Some? && es[i].up.value < i && OnList(es, es[es[i].up.value].inner, i)
         && (es[i].next.Some? ==> es[es[i].next.value].up == es[i].up)
  }

  ghost predicate Tree(es: seq<Entry>) {
    && |es| > 0 && Linked(es)
    && (forall i: nat {:trigger Hangs(es, i)} :: i < |es| ==> Hangs(es, i))
    && (forall p: nat, i: nat, j: nat {:trigger IsChild(es, p, i), IsChild(es, p, j)} ::
          IsChild(es, p, i) && IsChild(es, p, j) && es[i].name == es[j].name ==> i == j)
  }

  /** Entries keep their number, name and parent. */
  ghost predicate Grows(es: seq<Entry>, r: seq<Entry>) {
    |es| <= |r| && forall i {:trigger r[i]} :: 0 <= i < |es| ==> r[i].name == es[i].name && r[i].up == es[i].up
  }

  lemma {:induction false} FoundOnList(es: seq<Entry>, name: Seg, s: Option<nat>, p: nat)
    requires Tree(es) && In(s, |es|) && (s.Some? ==> IsChild(es, p, s.value))
    ensures var r := FindFrom(es, name, s); r.Some? ==> IsChild(es, p, r.value) && es[r.value].name == name
    ensures forall i: nat :: i < |es| && OnList(es, s, i) && es[i].name == name ==> FindFrom(es, name, s).Some?
    decreases if s.None? then 0 else |es| - s.value
  {
    if s.Some? && es[s.value].name != name {
      assert Hangs(es, s.value);
      FoundOnList(es, name, es[s.value].next, p);
    }
  }

  /** `find` is lookup by parent and name: it returns the one child so named, if there is one. */
  lemma FindIsLookup(es: seq<Entry>, name: Seg, p: nat, i: nat)
    requires Tree(es) && p < |es| && name.a != 0
    ensures Lookup(es, name, Some(p)) == Some(i) <==> IsChild(es, p, i) && es[i].name == name
  {
    assert Hangs(es, p);
    FoundOnList(es, name, es[p].inner, p);
    if IsChild(es, p, i) && es[i].name == name {
      assert Hangs(es, i);
      var j := FindFrom(es, name, es[p].inner).value;
      assert IsChild(es, p, j);
    }
  }

  // ----- A new entry -----

  lemma AppendLinked(es: seq<Entry>, p: nat, name: Seg)
    requires Linked(es) && p < |es|
    ensures Linked(Append(es, p, name))
  {
  }

  /** The list an entry was on before is part of the list it is on after. */
  lemma {:induction false} StillOnList(es: seq<Entry>, r: seq<Entry>, s: Option<nat>, i: nat)
    requires Linked(es) && Linked(r) && |es| <= |r| && In(s, |es|) && OnList(es, s, i)
    requires forall j :: 0 <= j < |es| && es[j].next.Some? ==> r[j].next == es[j].next
    ensures OnList(r, s, i)
    decreases |es| - s.value
  {
    if s.value != i { StillOnList(es, r, es[s.value].next, i); }
  }

  lemma {:induction false} LastThenNew(es: seq<Entry>, r: seq<Entry>, s: nat, n: nat)
    requires Linked(es) && Linked(r) && |es| <= |r| && s < |es| && n < |r|
    requires forall j :: 0 <= j < |es| && es[j].next.Some? ==> r[j].next == es[j].next
    requires r[LastOf(es, s)].next == Some(n)
    ensures OnList(r, Some(s), n)
    decreases |es| - s
  {
    if es[s].next.Some? {
      LastThenNew(es, r, es[s].next.value, n);
    } else {
      assert OnList(r, Some(n), n);
    }
  }

  lemma {:induction false} LastIsSibling(es: seq<Entry>, s: nat, p: nat)
    requires Tree(es) && IsChild(es, p, s)
    ensures IsChild(es, p, LastOf(es, s))
    decreases |es| - s
  {
    assert Hangs(es, s);
    if es[s].next.Some? { LastIsSibling(es, es[s].next.value, p); }
  }

  lemma NewOnList(es: seq<Entry>, p: nat, name: Seg)
    requires Tree(es) && p < |es|
    ensures var r := Append(es, p, name); Linked(r) && OnList(r, r[p].inner, |es|)
  {
    AppendLinked(es, p, name);
    var r := Append(es, p, name);
    if es[p].inner.None? {
      assert OnList(r, Some(|es|), |es|);
    } else {
      assert Hangs(es, p);
      LastIsSibling(es, es[p].inner.value, p);
      LastThenNew(es, r, es[p].inner.value, |es|);
    }
  }

  lemma AppendHangs(es: seq<Entry>, p: nat, name: Seg, i: nat)
    requires Tree(es) && p < |es| && name.a != 0 && i <= |es|
    ensures var r := Append(es, p, name); Linked(r) && Hangs(r, i)
  {
    if i == |es| { NewHangs(es, p, name); } else { OldHangs(es, p, name, i); }
  }

  lemma NewHangs(es: seq<Entry>, p: nat, name: Seg)
    requires Tree(es) && p < |es| && name.a != 0
    ensures var r := Append(es, p, name); Linked(r) && Hangs(r, |es|)
  {
    NewOnList(es, p, name);
    if es[p].inner.Some? {
      assert Hangs(es, p);
      LastIsSibling(es, es[p].inner.value, p);
    }
  }

  lemma OldHangs(es: seq<Entry>, p: nat, name: Seg, i: nat)
    requires Tree(es) && p < |es| && name.a != 0 && i < |es|
    ensures var r := Append(es, p, name); Linked(r) && Hangs(r, i)
  {
    AppendLinked(es, p, name);
    var r := Append(es, p, name);
    assert Hangs(es, i);
    if i > 0 { StillOnList(es, r, es[es[i].up.value].inner, i); }
    OldLinks(es, p, name, i);
    hide LastOf, Append, OnList;
    assert r[i].name == es[i].name && r[i].up == es[i].up;
  }

  /** What an entry was linked to it still is, and it may be linked to the new entry besides. */
  lemma OldLinks(es: seq<Entry>, p: nat, name: Seg, i: nat)
    requires Tree(es) && p < |es| && name.a != 0 && i < |es|
    ensures var r := Append(es, p, name); var n := |es|;
      && |r| == n + 1 && r[i].name == es[i].name && r[i].up == es[i].up && r[n].up == Some(p)
      && (r[i].inner == es[i].inner || (i == p && es[i].inner == None && r[i].inner == Some(n)))
      && (r[i].next == es[i].next || (i > 0 && es[i].up == Some(p) && r[i].next == Some(n)))
      && (forall j: nat :: j < n ==> r[j].up == es[j].up)
      && (i > 0 && es[i].up.Some? && es[i].up.value < n && OnList(es, es[es[i].up.value].inner, i) ==>
            r[es[i].up.value].inner == es[es[i].up.value].inner)
  {
    if es[p].inner.Some? {
      assert Hangs(es, p);
      LastIsSibling(es, es[p].inner.value, p);
    }
  }

  /** A new name keeps the namespace a tree and disturbs no other entry. */
  lemma AppendKeeps(es: seq<Entry>, p: nat, name: Seg)
    requires Tree(es) && p < |es| && name.a != 0 && Lookup(es, name, Some(p)) == None
    ensures var r := Append(es, p, name); Tree(r) && Grows(es, r) && IsChild(r, p, |es|) && r[|es|].name == name
  {
    var r := Append(es, p, name);
    AppendLinked(es, p, name);
    forall i: nat | i < |r| ensures Hangs(r, i) { AppendHangs(es, p, name, i); }
    forall q: nat, i: nat, j: nat | IsChild(r, q, i) && IsChild(r, q, j) && r[i].name == r[j].name ensures i == j {
      FindIsLookup(es, name, p, i);
      FindIsLookup(es, name, p, j);
      if i < |es| && j < |es| { assert IsChild(es, q, i) && IsChild(es, q, j); }
    }
  }

  /** `find_or_new` returns the child of that name, and `find` finds it from then on. */
  lemma FindOrNewFinds(es: seq<Entry>, name: Seg, ctx: Option<nat>)
    requires Tree(es) && In(ctx, |es|)
    ensures var (r, i) := LookupOrNew(es, name, ctx);
      && Tree(r) && Grows(es, r) && IsChild(r, Parent(ctx), i) && r[i].name == Named(name)
      && Lookup(r, Named(name), Some(Parent(ctx))) == Some(i)
  {
    var (r, i) := LookupOrNew(es, name, ctx);
    if i == |es| {
      AppendKeeps(es, Parent(ctx), Named(name));
    } else {
      assert Lookup(es, Named(name), Some(Parent(ctx))) == Some(i);
    }
    if i < |es| { FindIsLookup(es, Named(name), Parent(ctx), i); }
    FindIsLookup(r, Named(name), Parent(ctx), i);
  }

  /** ... and changes no other lookup. */
  lemma OtherLookups(es: seq<Entry>, name: Seg, ctx: Option<nat>, other: Seg, p: nat)
    requires Tree(es) && In(ctx, |es|) && p < |es| && (other != Named(name) || p != Parent(ctx))
    ensures var r := LookupOrNew(es, name, ctx).0;
      Linked(r) && p < |r| && Lookup(r, other, Some(p)) == Lookup(es, other, Some(p))
  {
    var r := LookupOrNew(es, name, ctx).0;
    FindOrNewFinds(es, name, ctx);
    var was, now := Lookup(es, other, Some(p)), Lookup(r, other, Some(p));
    if other.a != 0 {
      if was.Some? {
        FindIsLookup(es, other, p, was.value);
        FindIsLookup(r, other, p, was.value);
      }
      if now.Some? {
        FindIsLookup(r, other, p, now.value);
        assert now.value < |es|;
        FindIsLookup(es, other, p, now.value);
      }
    }
  }

  /** What was found once is found in every later namespace. */
  lemma FoundStays(es: seq<Entry>, r: seq<Entry>, name: Seg, p: nat)
    requires Tree(es) && Tree(r) && Grows(es, r) && p < |es| && Lookup(es, name, Some(p)).Some?
    ensures Lookup(r, name, Some(p)) == Lookup(es, name, Some(p))
  {
    var i := Lookup(es, name, Some(p)).value;
    FindIsLookup(es, name, p, i);
    FindIsLookup(r, name, p, i);
  }

  // ----- Runs of calls -----

  /** A call of `find_or_new`; its context may be any entry there is by then. */
  datatype Call = Call(name: Seg, ctx: Option<nat>)

  function Enter(es: seq<Entry>, calls: seq<Call>): (r: (seq<Entry>, seq<nat>))
    requires Tree(es)
    ensures Tree(r.0) && |r.1| == |calls|
    decreases |calls|
  {
    if calls == [] then (es, [])
    else
      var k := |calls| - 1;
      var (es1, got) := Enter(es, calls[..k]);
      var ctx := if In(calls[k].ctx, |es1|) then calls[k].ctx else None;
      var (es2, i) := LookupOrNew(es1, calls[k].name, ctx);
      FindOrNewFinds(es1, calls[k].name, ctx);
      (es2, got + [i])
  }

  ghost predicate Got(es: seq<Entry>, c: Call, i: nat)
    requires Tree(es)
  {
    In(c.ctx, |es|) ==> Lookup(es, Named(c.name), Some(Parent(c.ctx))) == Some(i)
  }

  /** After any sequence of calls, `find` returns what each of them returned. */
  lemma {:induction false} AllFound(es: seq<Entry>, calls: seq<Call>, j: nat, now: seq<Entry>)
    requires Tree(es) && j < |calls| && (forall k :: 0 <= k < |calls| ==> In(calls[k].ctx, |es|))
    requires Tree(now) && Grows(Enter(es, calls).0, now)
    ensures Grows(es, Enter(es, calls).0)
    ensures Got(now, calls[j], Enter(es, calls).1[j])
    decreases |calls|
  {
    hide Lookup, LookupOrNew;
    var k := |calls| - 1;
    var (es1, got) := Enter(es, calls[..k]);
    var (es2, all) := Enter(es, calls);
    EnterGrows(es, calls[..k]);
    EnterGrows(es, calls);
    FindOrNewFinds(es1, calls[k].name, calls[k].ctx);
    if j < k {
      AllFound(es, calls[..k], j, now);
    } else {
      FoundStays(es2, now, Named(calls[k].name), Parent(calls[k].ctx));
    }
  }

  lemma {:induction false} EnterGrows(es: seq<Entry>, calls: seq<Call>)
    requires Tree(es)
    ensures Grows(es, Enter(es, calls).0)
    decreases |calls|
  {
    if calls != [] {
      var k := |calls| - 1;
      EnterGrows(es, calls[..k]);
      var es1 := Enter(es, calls[..k]).0;
      FindOrNewFinds(es1, calls[k].name, if In(calls[k].ctx, |es1|) then calls[k].ctx else None);
    }
  }

  // ----- Paths -----

  /** `find` segment by segment. */
  function FindPath(es: seq<Entry>, ctx: Option<nat>, path: seq<Seg>): (r: Option<nat>)
    requires Linked(es) && In(ctx, |es|)
    ensures In(r, |es|)
    decreases |path|
  {
    if path == [] then ctx
    else Lookup(es, path[|path| - 1], FindPath(es, ctx, path[..|path| - 1]))
  }

  /** The names on the way from the root to entry `i`. */
  function PathTo(es: seq<Entry>, i: nat): seq<Seg>
    requires Tree(es) && i < |es|
  {
    assert Hangs(es, i);
    if i == 0 then [] else PathTo(es, es[i].up.value) + [es[i].name]
  }

  /** Following the `up` links spells the path by which `find` reaches the entry from the root, so
      no two entries have the same path. */
  lemma {:induction false} PathToFinds(es: seq<Entry>, i: nat)
    requires Tree(es) && i < |es|
    ensures FindPath(es, Some(0), PathTo(es, i)) == Some(i)
  {
    assert Hangs(es, i);
    if i > 0 {
      var p := es[i].up.value;
      PathToFinds(es, p);
      assert PathTo(es, i)[..|PathTo(es, i)| - 1] == PathTo(es, p);
      FindIsLookup(es, es[i].name, p, i);
    }
  }

  // ----- The namespace in place -----

  class NameSpace {
    var entries: seq<Entry>

    ghost predicate Valid()
      reads this
    {
      Tree(entries)
    }

    constructor ()
      ensures Valid() && entries == [Init(ROOT)]
    {
      entries := [Init(ROOT)];
      new;
      assert Hangs(entries, 0);
    }

    method Find(name: Seg, ctx: Option<nat>) returns (r: Option<nat>)
      requires Valid() && In(ctx, |entries|)
      ensures r == Lookup(entries, name, ctx)
    {
      if name.a == 0 { return None; }
      r := if ctx.Some? then entries[ctx.value].inner else None;
      while r.Some?
        invariant In(r, |entries|)
        invariant FindFrom(entries, name, r) == Lookup(entries, name, ctx)
        decreases if r.None? then 0 else |entries| - r.value
      {
        if entries[r.value].name == name { return; }
        r := entries[r.value].next;
      }
    }

    /** The link to extend is that of the parent, or of the last sibling passed (`s_in`). */
    method FindOrNew(name: Seg, ctx: Option<nat>) returns (i: nat)
      requires Valid() && In(ctx, |entries|)
      modifies this
      ensures Valid() && (entries, i) == LookupOrNew(old(entries), name, ctx)
      ensures Grows(old(entries), entries) && i < |entries|
      ensures Lookup(entries, Named(name), Some(Parent(ctx))) == Some(i)
    {
      FindOrNewFinds(entries, name, ctx);
      var root := Parent(ctx);
      var wanted := Named(name);
      var last: Option<nat>, s := None, entries[root].inner;
      while s.Some?
        invariant In(s, |entries|) && In(last, |entries|) && entries == old(entries)
        invariant FindFrom(entries, wanted, s) == FindFrom(entries, wanted, entries[root].inner)
        invariant match last
          case None => s == entries[root].inner
          case Some(k) =>
            && entries[root].inner.Some? && entries[k].next == s
            && (if s.None? then k else LastOf(entries, s.value)) == LastOf(entries, entries[root].inner.value)
        decreases if s.None? then 0 else |entries| - s.value
      {
        if entries[s.value].name == wanted { return s.value; }
        last, s := s, entries[s.value].next;
      }
      i := |entries|;
      var e := Init(wanted).(up := Some(root));
      match last
      case None => entries := entries[root := entries[root].(inner := Some(i))] + [e];
      case Some(k) => entries := entries[k := entries[k].(next := Some(i))] + [e];
    }

    /** The type and the byte range of an entry. */
    method Describe(i: nat, kind: nat, source: nat, length: int)
      requires Valid() && i < |entries|
      modifies this
      ensures Valid() && entries == old(entries)[i := old(entries)[i].(kind := kind, source := source, length := length)]
      ensures Grows(old(entries), entries)
    {
      ghost var es := entries;
      entries := entries[i := entries[i].(kind := kind, source := source, length := length)];
      DescribeKeeps(es, entries);
    }
  }

  lemma DescribeKeeps(es: seq<Entry>, r: seq<Entry>)
    requires Tree(es) && |r| == |es|
    requires forall i :: 0 <= i < |es| ==>
      r[i].name == es[i].name && r[i].up == es[i].up && r[i].inner == es[i].inner && r[i].next == es[i].next
    ensures Tree(r)
  {
    forall i: nat | i < |r| ensures Hangs(r, i) {
      assert Hangs(es, i);
      if i > 0 { StillOnList(es, r, es[es[i].up.value].inner, i); }
    }
    forall p: nat, i: nat, j: nat | IsChild(r, p, i) && IsChild(r, p, j) && r[i].name == r[j].name ensures i == j {
      assert IsChild(es, p, i) && IsChild(es, p, j);
    }
  }
}
