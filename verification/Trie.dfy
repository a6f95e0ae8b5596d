/** The 128-node mixed-radix trie beside the extent table (kernel/memory.cpp): `Insert` is the walk
    of `set_trie_extent`, `Walk` the reader `debug_trie`. Child links are relative: the writer
    decodes them modulo 128 and the reader modulo 256.

    The main result is that the addresses the reader rebuilds are those inserted, and exactly when
    an insertion finds room. */
module Trie {
  import opened Extents

  const MAX_TRIE := 128

  datatype Kind = Vacant | Link | Leaf | Prefix | Mask1 | Mask2 | Mask3 | List3

  /** Eight numbers: the references of a node, or the nibbles of its 32-bit `radix` word. */
  type Row = s: seq<nat> | |s| == 8 witness [0, 0, 0, 0, 0, 0, 0, 0]

  /** `flag` and `length` are those of a leaf. */
  datatype Node = Node(kind: Kind, radix: Row, ref: Row, flag: Class, length: nat)

  const ZEROS: Row := [0, 0, 0, 0, 0, 0, 0, 0]

  function Init(k: Kind): Node { Node(k, ZEROS, ZEROS, Unset, 0) }

  /** Address bits a node of kind `k` consumes. */
  function Width(k: Kind): nat {
    match k
    case Mask1 => 1
    case Mask2 => 2
    case Mask3 => 3
    case List3 => 4
    case _ => 0
  }

  function Pow2(n: nat): (r: nat)
    ensures r > 0
  {
    if n == 0 then 1 else 2 * Pow2(n - 1)
  }

  function Shr(x: nat, n: nat): nat { if n == 0 then x else Shr(x / 2, n - 1) }

  function Shl(x: nat, n: nat): nat { if n == 0 then x else 2 * Shl(x, n - 1) }

  /** The low `width` bits of `x`. */
  function Low(x: nat, width: nat): (r: nat)
    ensures r < Pow2(width)
  {
    if width == 0 then 0 else x % 2 + 2 * Low(x / 2, width - 1)
  }

  /** The `width` address bits above bit `scan`. */
  function Digit(base: nat, scan: nat, width: nat): (r: nat)
    ensures r < Pow2(width)
  {
    Low(Shr(base, scan), width)
  }

  function FirstVacant(t: seq<Node>): (k: nat)
    ensures k <= |t| && (k < |t| ==> t[k].kind == Vacant)
    ensures forall j :: 0 <= j < k ==> t[j].kind != Vacant
  {
    if t == [] || t[0].kind == Vacant then 0 else 1 + FirstVacant(t[1..])
  }

  /** The kind of node created below a node of kind `k` when `scan` bits remain. */
  function ChildKind(k: Kind, scan: nat): Kind {
    match k
    case Mask1 => if scan > 12 then List3 else Leaf
    case Mask2 => if scan > 12 then Mask3 else Leaf
    case Mask3 => if scan > 20 then Mask3 else if scan > 12 then Mask1 else Leaf
    case List3 => if scan > 12 then (if scan == 24 then Mask3 else List3) else Leaf
    case _ => Vacant
  }

  predicate Uses(n: Node, p: nat, digit: nat)
    requires p < 8
  {
    n.ref[p] != 0 && n.radix[p] == digit
  }

  /** The position of `digit` in a list node, or 8. */
  function FindDigit(n: Node, digit: nat, p: nat): (r: nat)
    requires p <= 8
    ensures p <= r <= 8 && (r < 8 ==> Uses(n, r, digit))
    ensures forall q :: p <= q < r ==> !Uses(n, q, digit)
    decreases 8 - p
  {
    if p == 8 || Uses(n, p, digit) then p else FindDigit(n, digit, p + 1)
  }

  /** The first free position of a list node, or 8. */
  function FindFreeRef(n: Node, p: nat): (r: nat)
    requires p <= 8
    ensures p <= r <= 8 && (r < 8 ==> n.ref[r] == 0)
    ensures forall q :: p <= q < r ==> n.ref[q] != 0
    decreases 8 - p
  {
    if p == 8 || n.ref[p] == 0 then p else FindFreeRef(n, p + 1)
  }

  predicate Sized(t: seq<Node>) {
    |t| == MAX_TRIE
  }

  /** The position through which the walk leaves node `n` for `digit`, existing or to be filled;
      8 when a list node is full. */
  function Position(n: Node, digit: nat): (p: nat)
    requires digit < Pow2(Width(n.kind))
    ensures p <= 8
  {
    if n.kind == List3 then
      var p := FindDigit(n, digit, 0);
      if p < 8 then p else FindFreeRef(n, 0)
    else if digit < 8 then digit else 8
  }

  function LeafNode(k: Kind, flag: Class, length: nat): Node {
    if k == List3 then Init(Leaf).(flag := flag, length := length) else Init(Leaf)
  }

  function NewChild(k: Kind, scan: nat, flag: Class, length: nat): Node {
    var c := ChildKind(k, scan);
    if c == Leaf then LeafNode(k, flag, length) else Init(c)
  }

  /** Node `n` with `digit` recorded at list position `p`. */
  function Mark(n: Node, p: nat, digit: nat): Node
    requires p < 8
  {
    if n.kind == List3 then n.(radix := n.radix[p := digit]) else n
  }

  /** One turn of the loop of `set_trie_extent`: the table, the node it moves to and the bits left.
      Bits left 0 ends the loop. */
  function Step(t: seq<Node>, index: nat, scan: nat, base: nat, flag: Class, length: nat): (r: (seq<Node>, nat, nat))
    requires Sized(t) && index < MAX_TRIE && scan > 12
    ensures Sized(r.0) && r.1 < MAX_TRIE && r.2 < scan
  {
    var n := t[index];
    var w := Width(n.kind);
    if w == 0 then (t, index, 0)
    else
      var digit := Digit(base, scan - w, w);
      var p := Position(n, digit);
      if p == 8 then (t, index, 0)
      else if n.ref[p] != 0 then (t, (n.ref[p] + index) % MAX_TRIE, scan - w)
      else
        var t1 := t[index := Mark(n, p, digit)];
        var k := FirstVacant(t1);
        if k == |t| then (t1, index, 0)
        else
          var t2 := t1[k := NewChild(n.kind, scan - w, flag, length)];
          (t2[index := t2[index].(ref := t2[index].ref[p := (k - index) % MAX_TRIE])], k, scan - w)
  }

  /** `set_trie_extent` from node `index` with `scan` address bits left. */
  function Insert(t: seq<Node>, index: nat, scan: nat, base: nat, flag: Class, length: nat): (r: seq<Node>)
    requires Sized(t) && index < MAX_TRIE
    ensures Sized(r)
    decreases scan
  {
    if scan <= 12 then t
    else
      var (t', index', scan') := Step(t, index, scan, base, flag, length);
      Insert(t', index', scan', base, flag, length)
  }

  /** The digit that position `p` of node `n` stands for. */
  function DigitAt(n: Node, p: nat): nat
    requires p < 8
  {
    if n.kind == List3 then n.radix[p] else p
  }

  /** The leaf addresses `debug_trie` rebuilds below node `index`. */
  function Walk(t: seq<Node>, iaddr: nat, index: nat, depth: nat): set<nat>
    requires Sized(t)
    decreases 33 - depth, 1
  {
    if depth > 32 || index >= MAX_TRIE then {}
    else if t[index].kind == Leaf then {iaddr}
    else set p: nat, a: nat | p < 8 && a in WalkRef(t, iaddr, index, depth, p) :: a
  }

  /** Those below position `p` of the node. The bits of `iaddr` and of the shifted digit do not
      overlap, so the source's `|` is a sum. */
  function WalkRef(t: seq<Node>, iaddr: nat, index: nat, depth: nat, p: nat): set<nat>
    requires Sized(t) && depth <= 32 && index < MAX_TRIE && p < 8
    decreases 33 - depth, 0
  {
    var n := t[index];
    var w := Width(n.kind);
    if w == 0 || depth + w > 32 || p >= Pow2(w) || n.ref[p] == 0 then {}
    else Walk(t, iaddr + Shl(DigitAt(n, p), 32 - (depth + w)), (n.ref[p] + index) % 256, depth + w)
  }

  // ----- Node labels: each used node stands for the digits on the way to it -----

  /** The bit level, the kind and the fan-out are fixed by how many digits lead to a node. */
  function Level(d: nat): (r: nat)
    requires d <= 8
  {
    if d == 0 then 32 else if d <= 5 then 33 - 3 * d else 41 - 4 * d
  }

  function KindAt(d: nat): Kind
    requires d <= 8
  {
    if d == 0 then Mask2 else if d <= 4 then Mask3 else if d == 5 then Mask1 else if d <= 7 then List3 else Leaf
  }

  /** The address that a path of digits spells. */
  function Addr(path: seq<nat>): nat
    requires |path| <= 8
  {
    if path == [] then 0
    else Addr(path[..|path| - 1]) + Shl(path[|path| - 1], Level(|path|))
  }

  /** The first `d` digits of a page base. */
  function PathOf(base: nat, d: nat): (r: seq<nat>)
    requires d <= 8
    ensures |r| == d
  {
    if d == 0 then []
    else PathOf(base, d - 1) + [Digit(base, Level(d), Width(KindAt(d - 1)))]
  }

  /** Position `p` of node `i` links to node `c`. */
  predicate Links(t: seq<Node>, i: nat, p: nat, c: nat)
    requires Sized(t)
  {
    i < c < MAX_TRIE && p < 8 && t[i].ref[p] == c - i
  }

  /** `lab` labels the used nodes 0 .. |lab| - 1: they form a tree whose links run strictly upward
      in index, whose node kinds follow the bit level, and whose siblings have distinct digits. */
  ghost predicate Labelled(t: seq<Node>, lab: seq<seq<nat>>) {
    && Sized(t) && 0 < |lab| <= MAX_TRIE && lab[0] == []
    && (forall i {:trigger lab[i]} :: 0 <= i < |lab| ==> |lab[i]| <= 8 && t[i].kind == KindAt(|lab[i]|))
    && (forall i: nat {:trigger IsVacant(t, i)} :: |lab| <= i < MAX_TRIE ==> IsVacant(t, i))
    && (forall i, j {:trigger lab[i], lab[j]} :: 0 <= i < |lab| && 0 <= j < |lab| && lab[i] == lab[j] ==> i == j)
    && (forall i: nat, p: nat {:trigger Downlink(t, lab, i, p)} ::
          i < |lab| && p < 8 && |lab[i]| < 8 && t[i].ref[p] != 0 ==> Downlink(t, lab, i, p))
    && (forall c: nat {:trigger HasParent(t, lab, c)} :: 0 < c < |lab| ==> HasParent(t, lab, c))
    && (forall i: nat {:trigger Forks(t, i)} :: i < |lab| && |lab[i]| < 8 ==> Forks(t, i))
  }

  /** No two references of node `i` lead to the same node. */
  predicate Forks(t: seq<Node>, i: nat)
    requires i < |t|
  {
    forall p: nat, q: nat :: p < q < 8 && t[i].ref[p] != 0 && t[i].ref[q] != 0 ==> t[i].ref[p] != t[i].ref[q]
  }

  predicate IsVacant(t: seq<Node>, i: nat)
    requires i < |t|
  {
    t[i].kind == Vacant
  }

  ghost predicate HasParent(t: seq<Node>, lab: seq<seq<nat>>, c: nat)
    requires Sized(t) && c < |lab|
  {
    exists i: nat, p: nat :: Links(t, i, p, c) && |lab[i]| < 8
  }

  /** A non-zero reference of node `i` leads to the node labelled with one more digit. */
  ghost predicate Downlink(t: seq<Node>, lab: seq<seq<nat>>, i: nat, p: nat)
    requires Sized(t) && i < |lab| <= MAX_TRIE && p < 8
  {
    var c := i + t[i].ref[p];
    && i < c < |lab| && lab[c] == lab[i] + [DigitAt(t[i], p)]
    && p < Pow2(Width(t[i].kind)) && DigitAt(t[i], p) < Pow2(Width(t[i].kind))
  }

  ghost function LeafAddrs(lab: seq<seq<nat>>): set<nat>
    requires forall i :: 0 <= i < |lab| ==> |lab[i]| <= 8
  {
    set i: nat | i < |lab| && |lab[i]| == 8 :: Addr(lab[i])
  }

  lemma ParentOf(t: seq<Node>, lab: seq<seq<nat>>, c: nat) returns (i: nat, p: nat)
    requires Labelled(t, lab) && 0 < c < |lab|
    ensures Links(t, i, p, c) && |lab[i]| < 8 && lab[c] == lab[i] + [DigitAt(t[i], p)]
  {
    assert HasParent(t, lab, c);
    i, p :| Links(t, i, p, c) && |lab[i]| < 8;
    assert Downlink(t, lab, i, p);
  }

  lemma Levels(d: nat)
    requires d < 8
    ensures Level(d + 1) == Level(d) - Width(KindAt(d)) && Width(KindAt(d)) > 0
    ensures Level(d) > 12 && Level(d) <= 32
    ensures ChildKind(KindAt(d), Level(d + 1)) == KindAt(d + 1)
  {
  }

  lemma AddrPush(q: seq<nat>, x: nat)
    requires |q| < 8
    ensures Addr(q + [x]) == Addr(q) + Shl(x, Level(|q| + 1))
  {
    assert (q + [x])[..|q|] == q;
  }

  /** What `debug_trie` finds below position `p` of a node: nothing, or all there is below its child. */
  lemma WalkNode(t: seq<Node>, lab: seq<seq<nat>>, i: nat, p: nat)
    requires Labelled(t, lab) && i < |lab| && |lab[i]| < 8 && p < 8
    ensures var d := |lab[i]|; var c := i + t[i].ref[p]; var below := WalkRef(t, Addr(lab[i]), i, 32 - Level(d), p);
      if t[i].ref[p] == 0 then below == {}
      else Downlink(t, lab, i, p) && below == Walk(t, Addr(lab[c]), c, 32 - Level(d + 1))
  {
    hide Walk, Addr, Shl;
    var d, n := |lab[i]|, t[i];
    Levels(d);
    if n.ref[p] != 0 {
      assert Downlink(t, lab, i, p);
      AddrPush(lab[i], DigitAt(n, p));
      assert 32 - (32 - Level(d) + Width(n.kind)) == Level(d + 1);
    }
  }

  /** The position below which `debug_trie` finds an address. */
  lemma PositionOf(t: seq<Node>, iaddr: nat, i: nat, depth: nat, a: nat) returns (p: nat)
    requires Sized(t) && depth <= 32 && i < MAX_TRIE && t[i].kind != Leaf && a in Walk(t, iaddr, i, depth)
    ensures p < 8 && a in WalkRef(t, iaddr, i, depth, p)
  {
    hide WalkRef;
    p :| p < 8 && a in WalkRef(t, iaddr, i, depth, p);
  }

  lemma {:induction false} WalkSound(t: seq<Node>, lab: seq<seq<nat>>, i: nat)
    requires Labelled(t, lab) && i < |lab|
    ensures Walk(t, Addr(lab[i]), i, 32 - Level(|lab[i]|)) <= LeafAddrs(lab)
    decreases |lab| - i
  {
    var d := |lab[i]|;
    if d == 8 {
      assert Walk(t, Addr(lab[i]), i, 32 - Level(d)) == {Addr(lab[i])};
    } else {
      Levels(d);
      forall a | a in Walk(t, Addr(lab[i]), i, 32 - Level(d)) ensures a in LeafAddrs(lab) {
        hide Walk, WalkRef, Addr, LeafAddrs;
        var p := PositionOf(t, Addr(lab[i]), i, 32 - Level(d), a);
        WalkNode(t, lab, i, p);
        assert Downlink(t, lab, i, p);
        WalkSound(t, lab, i + t[i].ref[p]);
      }
    }
  }

  lemma WalkChild(t: seq<Node>, lab: seq<seq<nat>>, i: nat, p: nat)
    requires Labelled(t, lab) && i < |lab| && |lab[i]| < 8 && p < 8 && t[i].ref[p] != 0
    ensures var c := i + t[i].ref[p];
      && c < |lab|
      && Walk(t, Addr(lab[c]), c, 32 - Level(|lab[c]|)) <= Walk(t, Addr(lab[i]), i, 32 - Level(|lab[i]|))
  {
    Levels(|lab[i]|);
    WalkNode(t, lab, i, p);
    assert Downlink(t, lab, i, p);
  }

  lemma {:induction false} WalkUp(t: seq<Node>, lab: seq<seq<nat>>, c: nat)
    requires Labelled(t, lab) && c < |lab|
    ensures Walk(t, Addr(lab[c]), c, 32 - Level(|lab[c]|)) <= Walk(t, 0, 0, 0)
  {
    if c > 0 {
      var i, p := ParentOf(t, lab, c);
      WalkChild(t, lab, i, p);
      WalkUp(t, lab, i);
    }
  }

  /** `debug_trie` from the root rebuilds exactly the leaf addresses. */
  lemma WalkIsLeafAddrs(t: seq<Node>, lab: seq<seq<nat>>)
    requires Labelled(t, lab)
    ensures Walk(t, 0, 0, 0) == LeafAddrs(lab)
  {
    WalkSound(t, lab, 0);
    forall a | a in LeafAddrs(lab) ensures a in Walk(t, 0, 0, 0) {
      var i: nat :| i < |lab| && |lab[i]| == 8 && Addr(lab[i]) == a;
      WalkUp(t, lab, i);
      assert a in Walk(t, a, i, 32 - Level(8));
    }
  }

  // ----- Insertion -----

  /** A node labelled one digit below node `i` is reached from `i` by that digit. */
  lemma NoSuchChild(t: seq<Node>, lab: seq<seq<nat>>, i: nat, digit: nat, c: nat)
    requires Labelled(t, lab) && i < |lab| && c < |lab| && lab[c] == lab[i] + [digit]
    ensures exists q: nat :: Links(t, i, q, c) && DigitAt(t[i], q) == digit
  {
    var j, q := ParentOf(t, lab, c);
    assert lab[c][..|lab[c]| - 1] == lab[j] && lab[c][..|lab[c]| - 1] == lab[i];
    assert lab[c][|lab[c]| - 1] == digit;
    assert j == i;
  }

  lemma Positions(t: seq<Node>, lab: seq<seq<nat>>, i: nat, digit: nat)
    requires Labelled(t, lab) && i < |lab| && |lab[i]| < 8 && digit < Pow2(Width(t[i].kind))
    ensures var p := Position(t[i], digit);
      && (p < 8 && t[i].ref[p] != 0 ==> DigitAt(t[i], p) == digit)
      && (p == 8 || t[i].ref[p] == 0 ==> forall c: nat :: c < |lab| ==> lab[c] != lab[i] + [digit])
      && (p == 8 ==> t[i].kind == List3)
  {
    var n, p := t[i], Position(t[i], digit);
    Levels(|lab[i]|);
    if p == 8 || n.ref[p] == 0 {
      forall c: nat | c < |lab| ensures lab[c] != lab[i] + [digit] {
        if lab[c] == lab[i] + [digit] { NoSuchChild(t, lab, i, digit, c); }
      }
    }
  }

  /** Recording a digit at a free list position changes nothing the labels speak of. */
  lemma MarkKeeps(t: seq<Node>, lab: seq<seq<nat>>, i: nat, p: nat, digit: nat)
    requires Labelled(t, lab) && i < |lab| && p < 8 && t[i].ref[p] == 0
    ensures Labelled(t[i := Mark(t[i], p, digit)], lab)
  {
    var r := t[i := Mark(t[i], p, digit)];
    forall j: nat | |lab| <= j < MAX_TRIE ensures IsVacant(r, j) { assert IsVacant(t, j); }
    forall j: nat, q: nat | j < |lab| && q < 8 && |lab[j]| < 8 && r[j].ref[q] != 0 ensures Downlink(r, lab, j, q) {
      assert Downlink(t, lab, j, q);
    }
    forall c: nat | 0 < c < |lab| ensures HasParent(r, lab, c) {
      var j, q := ParentOf(t, lab, c);
      assert Links(r, j, q, c);
    }
    forall j: nat | j < |lab| && |lab[j]| < 8 ensures Forks(r, j) { assert Forks(t, j); }
  }

  /** Node `child` added in the first vacant place and linked from position `p` of node `i`. */
  function Grown(t: seq<Node>, i: nat, p: nat, k: nat, child: Node): seq<Node>
    requires Sized(t) && i < k < MAX_TRIE && p < 8
  {
    t[k := child][i := t[i].(ref := t[i].ref[p := k - i])]
  }

  /** The premises under which node `i` may grow a child for `digit` at position `p`. */
  ghost predicate MayGrow(t: seq<Node>, lab: seq<seq<nat>>, i: nat, p: nat, digit: nat, child: Node) {
    && Labelled(t, lab) && i < |lab| < MAX_TRIE && |lab[i]| < 8 && p < 8
    && t[i].ref[p] == 0 && DigitAt(t[i], p) == digit < Pow2(Width(t[i].kind)) && p < Pow2(Width(t[i].kind))
    && (forall c: nat :: c < |lab| ==> lab[c] != lab[i] + [digit])
    && child.kind == KindAt(|lab[i]| + 1) && child.ref == child.radix == ZEROS
  }

  lemma GrowDown(t: seq<Node>, lab: seq<seq<nat>>, i: nat, p: nat, digit: nat, child: Node, j: nat, q: nat)
    requires MayGrow(t, lab, i, p, digit, child)
    requires var r := Grown(t, i, p, |lab|, child); var lab' := lab + [lab[i] + [digit]];
      j < |lab'| && q < 8 && |lab'[j]| < 8 && r[j].ref[q] != 0
    ensures Downlink(Grown(t, i, p, |lab|, child), lab + [lab[i] + [digit]], j, q)
  {
    assert ZEROS[q] == 0;
    if j != |lab| && !(j == i && q == p) {
      assert Downlink(t, lab, j, q);
    }
  }

  lemma GrowKeeps(t: seq<Node>, lab: seq<seq<nat>>, i: nat, p: nat, digit: nat, child: Node)
    requires MayGrow(t, lab, i, p, digit, child)
    ensures Labelled(Grown(t, i, p, |lab|, child), lab + [lab[i] + [digit]])
  {
    var k := |lab|;
    var r, lab' := Grown(t, i, p, k, child), lab + [lab[i] + [digit]];
    forall j: nat | |lab'| <= j < MAX_TRIE ensures IsVacant(r, j) { assert IsVacant(t, j); }
    forall j: nat, q: nat | j < |lab'| && q < 8 && |lab'[j]| < 8 && r[j].ref[q] != 0 ensures Downlink(r, lab', j, q) {
      GrowDown(t, lab, i, p, digit, child, j, q);
    }
    forall c: nat | 0 < c < |lab'| ensures HasParent(r, lab', c) {
      if c == k {
        assert Links(r, i, p, k);
      } else {
        var j, q := ParentOf(t, lab, c);
        assert Links(r, j, q, c);
      }
    }
    forall j: nat | j < |lab'| && |lab'[j]| < 8 ensures Forks(r, j) { GrowForks(t, lab, i, p, digit, child, j); }
  }

  lemma GrowForks(t: seq<Node>, lab: seq<seq<nat>>, i: nat, p: nat, digit: nat, child: Node, j: nat)
    requires MayGrow(t, lab, i, p, digit, child) && j <= |lab| && (j < |lab| ==> |lab[j]| < 8)
    ensures Forks(Grown(t, i, p, |lab|, child), j)
  {
    if j < |lab| {
      assert Forks(t, j);
      forall q: nat | q < 8 && t[i].ref[q] != 0 ensures t[i].ref[q] != |lab| - i { assert Downlink(t, lab, i, q); }
    } else {
      assert forall q :: 0 <= q < 8 ==> child.ref[q] == 0;
    }
  }

  /** Where the walk for `base` leaves the existing nodes: the last node and the bits left there. */
  function Descend(t: seq<Node>, index: nat, scan: nat, base: nat): (r: (nat, nat))
    requires Sized(t) && index < MAX_TRIE
    ensures r.0 < MAX_TRIE
    decreases scan
  {
    var n := t[index];
    var w := Width(n.kind);
    if scan <= 12 || w == 0 then (index, scan)
    else
      var p := Position(n, Digit(base, scan - w, w));
      if p == 8 || n.ref[p] == 0 then (index, scan)
      else Descend(t, (n.ref[p] + index) % MAX_TRIE, scan - w, base)
  }

  /** Nodes to be made when `scan` bits are left. */
  function Missing(scan: nat): nat {
    if scan > 30 then 8 else if scan > 27 then 7 else if scan > 24 then 6 else if scan > 21 then 5
    else if scan > 18 then 4 else if scan > 17 then 3 else if scan > 13 then 2 else if scan > 12 then 1 else 0
  }

  /** There is room for `base`: nothing is missing, or enough nodes are vacant and the node where
      the new branch starts is not a full list. */
  predicate RoomFrom(t: seq<Node>, index: nat, scan: nat, base: nat)
    requires Sized(t) && index < MAX_TRIE
  {
    var (x, left) := Descend(t, index, scan, base);
    && FirstVacant(t) + Missing(left) <= MAX_TRIE
    && (Missing(left) > 0 && t[x].kind == List3 ==> FindFreeRef(t[x], 0) < 8)
  }

  lemma VacantFrom(t: seq<Node>, lab: seq<seq<nat>>)
    requires Labelled(t, lab)
    ensures FirstVacant(t) == |lab|
  {
    forall i | 0 <= i < |lab| ensures t[i].kind != Vacant { assert t[i].kind == KindAt(|lab[i]|); }
    if |lab| < MAX_TRIE { assert IsVacant(t, |lab|); }
  }

  /** What inserting from node `i` has done: new labels only on the way to `base`. */
  ghost predicate GrewTo(lab: seq<seq<nat>>, lab': seq<seq<nat>>, base: nat) {
    && lab <= lab'
    && forall c: nat :: |lab| <= c < |lab'| ==> |lab'[c]| <= 8 && lab'[c] == PathOf(base, |lab'[c]|)
  }

  /** The position at which the walk for `base` leaves node `i`. */
  function PositionFor(t: seq<Node>, lab: seq<seq<nat>>, i: nat, base: nat): (p: nat)
    requires Sized(t) && i < |lab| <= MAX_TRIE && |lab[i]| < 8
    ensures p <= 8
  {
    var d := |lab[i]|;
    Position(t[i], Digit(base, Level(d + 1), Width(t[i].kind)))
  }

  /** The digit by which the walk for `base` leaves node `i`. */
  function DigitFor(lab: seq<seq<nat>>, i: nat, base: nat): nat
    requires i < |lab| && |lab[i]| < 8
  {
    Digit(base, Level(|lab[i]| + 1), Width(KindAt(|lab[i]|)))
  }

  /** Node `i` is on the way to `base` and not its end. */
  ghost predicate OnWay(t: seq<Node>, lab: seq<seq<nat>>, i: nat, base: nat) {
    Labelled(t, lab) && i < |lab| && |lab[i]| < 8 && lab[i] == PathOf(base, |lab[i]|)
  }

  lemma OnWayStep(t: seq<Node>, lab: seq<seq<nat>>, i: nat, base: nat)
    requires OnWay(t, lab, i, base)
    ensures var d, digit := |lab[i]|, DigitFor(lab, i, base);
      && PathOf(base, d + 1) == lab[i] + [digit] && digit < Pow2(Width(t[i].kind))
      && 12 < Level(d) <= 32 && Width(t[i].kind) > 0 && Level(d) - Width(t[i].kind) == Level(d + 1)
      && ChildKind(t[i].kind, Level(d + 1)) == KindAt(d + 1)
      && digit == Digit(base, Level(d) - Width(t[i].kind), Width(t[i].kind))
      && PositionFor(t, lab, i, base) == Position(t[i], digit)
  {
    Levels(|lab[i]|);
  }

  lemma LinkFollows(t: seq<Node>, lab: seq<seq<nat>>, i: nat, base: nat, p: nat)
    requires OnWay(t, lab, i, base) && p == PositionFor(t, lab, i, base) && p < 8 && t[i].ref[p] != 0
    ensures var c := i + t[i].ref[p]; c < |lab| && lab[c] == PathOf(base, |lab[i]| + 1) && (t[i].ref[p] + i) % MAX_TRIE == c
  {
    hide PathOf, Digit, Shr, Low;
    OnWayStep(t, lab, i, base);
    Positions(t, lab, i, DigitFor(lab, i, base));
    assert Downlink(t, lab, i, p);
  }

  lemma StepFollows(t: seq<Node>, lab: seq<seq<nat>>, i: nat, base: nat, flag: Class, length: nat)
    requires OnWay(t, lab, i, base)
    requires var p := PositionFor(t, lab, i, base); p < 8 && t[i].ref[p] != 0
    ensures var d := |lab[i]|; var c := i + t[i].ref[PositionFor(t, lab, i, base)];
      && c < |lab| && lab[c] == PathOf(base, d + 1)
      && Step(t, i, Level(d), base, flag, length) == (t, c, Level(d + 1))
      && Descend(t, i, Level(d), base) == Descend(t, c, Level(d + 1), base)
  {
    OnWayStep(t, lab, i, base);
    LinkFollows(t, lab, i, base, PositionFor(t, lab, i, base));
    hide PathOf, Digit, Shr, Low, Labelled, KindAt, Level, DigitAt, Position;
  }

  /** Where the walk for `base` stops, `base` has no node below. */
  lemma DescendStops(t: seq<Node>, lab: seq<seq<nat>>, i: nat, base: nat)
    requires OnWay(t, lab, i, base)
    requires var p := PositionFor(t, lab, i, base); p == 8 || t[i].ref[p] == 0
    ensures PathOf(base, |lab[i]| + 1) !in lab && PathOf(base, 8) !in lab
    ensures RoomFrom(t, i, Level(|lab[i]|), base) <==>
      |lab| + 8 - |lab[i]| <= MAX_TRIE && PositionFor(t, lab, i, base) < 8
  {
    var d, digit := |lab[i]|, DigitFor(lab, i, base);
    OnWayStep(t, lab, i, base);
    VacantFrom(t, lab);
    assert PathOf(base, d + 1) !in lab by { Positions(t, lab, i, digit); }
    Unreached(t, lab, base, d + 1);
    assert Descend(t, i, Level(d), base) == (i, Level(d));
    assert Missing(Level(d)) == 8 - d;
    assert t[i].kind == List3 ==> (FindFreeRef(t[i], 0) < 8 <==> PositionFor(t, lab, i, base) < 8);
    assert t[i].kind != List3 ==> PositionFor(t, lab, i, base) < 8;
  }

  lemma MarkedDigit(n: Node, p: nat, digit: nat)
    requires 0 < Width(n.kind) && digit < Pow2(Width(n.kind)) && p == Position(n, digit) < 8
    ensures DigitAt(Mark(n, p, digit), p) == digit && p < Pow2(Width(n.kind))
  {
  }

  lemma StepGrown(t: seq<Node>, index: nat, scan: nat, base: nat, flag: Class, length: nat)
    requires Sized(t) && index < MAX_TRIE && scan > 12 && Width(t[index].kind) > 0
    requires var n := t[index]; var digit := Digit(base, scan - Width(n.kind), Width(n.kind)); var p := Position(n, digit);
      p < 8 && n.ref[p] == 0 && index < FirstVacant(t[index := Mark(n, p, digit)]) < MAX_TRIE
    ensures var n := t[index]; var w := Width(n.kind); var digit := Digit(base, scan - w, w);
      var p := Position(n, digit); var t1 := t[index := Mark(n, p, digit)]; var k := FirstVacant(t1);
      Step(t, index, scan, base, flag, length) ==
        (Grown(t1, index, p, k, NewChild(n.kind, scan - w, flag, length)), k, scan - w)
  {
  }

  /** The step that makes a node for the next digit. */
  lemma StepMakes(t: seq<Node>, lab: seq<seq<nat>>, i: nat, base: nat, flag: Class, length: nat) returns (t3: seq<Node>)
    requires OnWay(t, lab, i, base) && |lab| < MAX_TRIE
    requires var p := PositionFor(t, lab, i, base); p < 8 && t[i].ref[p] == 0
    ensures Labelled(t3, lab + [PathOf(base, |lab[i]| + 1)]) && t3[|lab|].ref == ZEROS
    ensures Step(t, i, Level(|lab[i]|), base, flag, length) == (t3, |lab|, Level(|lab[i]| + 1))
  {
    hide PathOf, Digit, Step, Descend, FirstVacant, ChildKind, FindDigit, FindFreeRef;
    var d, n := |lab[i]|, t[i];
    var p, digit := PositionFor(t, lab, i, base), DigitFor(lab, i, base);
    OnWayStep(t, lab, i, base);
    DescendStops(t, lab, i, base);
    MarkKeeps(t, lab, i, p, digit);
    MarkedDigit(n, p, digit);
    var t1 := t[i := Mark(n, p, digit)];
    VacantFrom(t1, lab);
    var child := NewChild(n.kind, Level(d + 1), flag, length);
    t3 := Grown(t1, i, p, |lab|, child);
    StepGrown(t, i, Level(d), base, flag, length);
    assert forall c: nat :: c < |lab| ==> lab[c] != lab[i] + [digit];
    GrowKeeps(t1, lab, i, p, digit, child);
  }

  lemma StepFails(t: seq<Node>, lab: seq<seq<nat>>, i: nat, base: nat, flag: Class, length: nat)
    requires OnWay(t, lab, i, base)
    requires var p := PositionFor(t, lab, i, base); p == 8 || (t[i].ref[p] == 0 && |lab| == MAX_TRIE)
    ensures var (r, j, left) := Step(t, i, Level(|lab[i]|), base, flag, length); left == 0 && Labelled(r, lab)
  {
    var n, p, digit := t[i], PositionFor(t, lab, i, base), DigitFor(lab, i, base);
    OnWayStep(t, lab, i, base);
    if p < 8 {
      MarkKeeps(t, lab, i, p, digit);
      VacantFrom(t[i := Mark(n, p, digit)], lab);
    }
  }

  /** Below a fresh node only the number of vacant nodes matters. */
  lemma FreshRoom(t: seq<Node>, lab: seq<seq<nat>>, base: nat)
    requires Labelled(t, lab) && |lab| > 1
    requires var k := |lab| - 1; t[k].ref == ZEROS && lab[k] == PathOf(base, |lab[k]|)
    ensures var k := |lab| - 1; RoomFrom(t, k, Level(|lab[k]|), base) <==> k + 1 + 8 - |lab[k]| <= MAX_TRIE
  {
    var k := |lab| - 1;
    VacantFrom(t, lab);
    if |lab[k]| < 8 {
      OnWayStep(t, lab, k, base);
      assert FindFreeRef(t[k], 0) == 0;
      DescendStops(t, lab, k, base);
    }
  }

  /** What inserting from node `i` achieves: new labels only on the way to `base`, and a leaf for
      `base` exactly if there was room. */
  ghost predicate Grows(t: seq<Node>, r: seq<Node>, lab: seq<seq<nat>>, lab': seq<seq<nat>>, i: nat, base: nat)
    requires Sized(t) && i < |lab| && i < MAX_TRIE && |lab[i]| <= 8
  {
    && Labelled(r, lab') && GrewTo(lab, lab', base)
    && (RoomFrom(t, i, Level(|lab[i]|), base) <==> PathOf(base, 8) in lab')
  }

  lemma {:induction false} InsertGrows(t: seq<Node>, lab: seq<seq<nat>>, i: nat, base: nat, flag: Class, length: nat)
    returns (lab': seq<seq<nat>>)
    requires Labelled(t, lab) && i < |lab| && lab[i] == PathOf(base, |lab[i]|)
    ensures Grows(t, Insert(t, i, Level(|lab[i]|), base, flag, length), lab, lab', i, base)
    decreases 8 - |lab[i]|, 1
  {
    if |lab[i]| == 8 {
      lab' := lab;
      VacantFrom(t, lab);
      assert PathOf(base, 8) == lab[i];
    } else {
      var p := PositionFor(t, lab, i, base);
      if p < 8 && t[i].ref[p] != 0 {
        lab' := GrowsOnward(t, lab, i, base, flag, length);
      } else if p < 8 && |lab| < MAX_TRIE {
        lab' := GrowsByOne(t, lab, i, base, flag, length);
      } else {
        lab' := lab;
        OnWayStep(t, lab, i, base);
        DescendStops(t, lab, i, base);
        StepFails(t, lab, i, base, flag, length);
      }
    }
  }

  lemma {:induction false} GrowsOnward(t: seq<Node>, lab: seq<seq<nat>>, i: nat, base: nat, flag: Class, length: nat)
    returns (lab': seq<seq<nat>>)
    requires OnWay(t, lab, i, base)
    requires var p := PositionFor(t, lab, i, base); p < 8 && t[i].ref[p] != 0
    ensures Grows(t, Insert(t, i, Level(|lab[i]|), base, flag, length), lab, lab', i, base)
    decreases 8 - |lab[i]|, 0
  {
    OnWayStep(t, lab, i, base);
    StepFollows(t, lab, i, base, flag, length);
    lab' := InsertGrows(t, lab, i + t[i].ref[PositionFor(t, lab, i, base)], base, flag, length);
  }

  lemma {:induction false} GrowsByOne(t: seq<Node>, lab: seq<seq<nat>>, i: nat, base: nat, flag: Class, length: nat)
    returns (lab': seq<seq<nat>>)
    requires OnWay(t, lab, i, base) && |lab| < MAX_TRIE
    requires var p := PositionFor(t, lab, i, base); p < 8 && t[i].ref[p] == 0
    ensures Grows(t, Insert(t, i, Level(|lab[i]|), base, flag, length), lab, lab', i, base)
    decreases 8 - |lab[i]|, 0
  {
    hide Step, Descend, Labelled, PathOf, RoomFrom;
    var d := |lab[i]|;
    OnWayStep(t, lab, i, base);
    var t3 := StepMakes(t, lab, i, base, flag, length);
    lab' := InsertGrows(t3, lab + [PathOf(base, d + 1)], |lab|, base, flag, length);
    GrowsAfterOne(t, t3, Insert(t3, |lab|, Level(d + 1), base, flag, length), lab, lab', i, base);
  }

  lemma GrowsAfterOne(t: seq<Node>, t3: seq<Node>, r: seq<Node>, lab: seq<seq<nat>>, lab': seq<seq<nat>>, i: nat, base: nat)
    requires OnWay(t, lab, i, base) && |lab| < MAX_TRIE
    requires var p := PositionFor(t, lab, i, base); p < 8 && t[i].ref[p] == 0
    requires var lab1 := lab + [PathOf(base, |lab[i]| + 1)];
      Labelled(t3, lab1) && t3[|lab|].ref == ZEROS && Grows(t3, r, lab1, lab', |lab|, base)
    ensures Grows(t, r, lab, lab', i, base)
  {
    var lab1 := lab + [PathOf(base, |lab[i]| + 1)];
    DescendStops(t, lab, i, base);
    FreshRoom(t3, lab1, base);
    forall c: nat | |lab| <= c < |lab'| ensures |lab'[c]| <= 8 && lab'[c] == PathOf(base, |lab'[c]|) {
      if c == |lab| { assert lab'[c] == lab1[c]; }
    }
  }

  /** A path whose first `d` digits label no node is not itself a label. */
  lemma {:induction false} Unreached(t: seq<Node>, lab: seq<seq<nat>>, base: nat, d: nat)
    requires Labelled(t, lab) && d <= 8 && PathOf(base, d) !in lab
    ensures PathOf(base, 8) !in lab
    decreases 8 - d
  {
    if d < 8 {
      assert PathOf(base, d + 1)[..d] == PathOf(base, d);
      forall c: nat | 0 < c < |lab| ensures lab[c] != PathOf(base, d + 1) {
        var i, p := ParentOf(t, lab, c);
        assert lab[c][..|lab[c]| - 1] == lab[i];
      }
      Unreached(t, lab, base, d + 1);
    }
  }

  // ----- Paths and addresses -----

  lemma {:induction false} ShrShr(x: nat, m: nat, n: nat)
    ensures Shr(Shr(x, m), n) == Shr(x, m + n)
    decreases m
  {
    if m > 0 { ShrShr(x / 2, m - 1, n); }
  }

  lemma {:induction false} ShlShl(x: nat, m: nat, n: nat)
    ensures Shl(Shl(x, m), n) == Shl(x, m + n)
    decreases n
  {
    if n > 0 { ShlShl(x, m, n - 1); }
  }

  lemma {:induction false} ShlAdd(x: nat, y: nat, n: nat)
    ensures Shl(x + y, n) == Shl(x, n) + Shl(y, n)
    decreases n
  {
    if n > 0 { ShlAdd(x, y, n - 1); }
  }

  lemma {:induction false} HighLow(x: nat, w: nat)
    ensures x == Shl(Shr(x, w), w) + Low(x, w)
    decreases w
  {
    if w > 0 { HighLow(x / 2, w - 1); }
  }

  lemma {:induction false} LowOfSum(u: nat, a: nat, w: nat)
    requires a < Pow2(w)
    ensures Low(Shl(u, w) + a, w) == a && Shr(Shl(u, w) + a, w) == u
    decreases w
  {
    if w > 0 {
      assert (2 * Shl(u, w - 1) + a) / 2 == Shl(u, w - 1) + a / 2;
      LowOfSum(u, a / 2, w - 1);
    }
  }

  /** Every digit of a path is below the fan-out of its level. */
  predicate ValidPath(p: seq<nat>) {
    |p| <= 8 && forall k :: 0 <= k < |p| ==> p[k] < Pow2(Width(KindAt(k)))
  }

  /** The digits of a path read as one number. */
  function Compact(p: seq<nat>): nat
    requires |p| <= 8
  {
    if p == [] then 0
    else Shl(Compact(p[..|p| - 1]), Width(KindAt(|p| - 1))) + p[|p| - 1]
  }

  lemma {:induction false} AddrIsCompact(p: seq<nat>)
    requires |p| <= 8
    ensures Addr(p) == Shl(Compact(p), Level(|p|))
    decreases |p|
  {
    if p == [] {
      ShlZero(Level(0));
    } else {
      var q, d := p[..|p| - 1], |p| - 1;
      Levels(d);
      AddrIsCompact(q);
      ShlAdd(Shl(Compact(q), Width(KindAt(d))), p[d], Level(d + 1));
      ShlShl(Compact(q), Width(KindAt(d)), Level(d + 1));
    }
  }

  lemma {:induction false} ShlZero(n: nat)
    ensures Shl(0, n) == 0
  {
    if n > 0 { ShlZero(n - 1); }
  }

  lemma CompactParts(p: seq<nat>)
    requires |p| <= 8 && ValidPath(p) && p != []
    ensures var d := |p| - 1; var w := Width(KindAt(d));
      && ValidPath(p[..d]) && p[d] < Pow2(w) && Compact(p) == Shl(Compact(p[..d]), w) + p[d]
  {
  }

  lemma LastApart(p: seq<nat>)
    requires p != []
    ensures p == p[..|p| - 1] + [p[|p| - 1]]
  {
  }

  lemma {:induction false} CompactInjective(p: seq<nat>, q: seq<nat>)
    requires |p| <= 8 && |q| <= 8 && ValidPath(p) && ValidPath(q) && |p| == |q| && Compact(p) == Compact(q)
    ensures p == q
    decreases |p|
  {
    hide Compact, Shl, Low, Shr, Pow2, ValidPath, KindAt, Width;
    if p != [] {
      CompactParts(p);
      CompactParts(q);
      LastApart(p);
      LastApart(q);
      var d := |p| - 1;
      LowOfSum(Compact(p[..d]), p[d], Width(KindAt(d)));
      LowOfSum(Compact(q[..d]), q[d], Width(KindAt(d)));
      CompactInjective(p[..d], q[..d]);
    }
  }

  lemma {:induction false} ShlInjective(x: nat, y: nat, n: nat)
    requires Shl(x, n) == Shl(y, n)
    ensures x == y
    decreases n
  {
    if n > 0 { ShlInjective(x, y, n - 1); }
  }

  lemma {:induction false} PathOfValid(base: nat, d: nat)
    requires d <= 8
    ensures ValidPath(PathOf(base, d))
  {
    if d > 0 { PathOfValid(base, d - 1); }
  }

  lemma {:induction false} PathOfCompact(base: nat, d: nat)
    requires d <= 8 && Shr(base, 32) == 0
    ensures Compact(PathOf(base, d)) == Shr(base, Level(d))
    decreases d
  {
    if d > 0 {
      var w, l := Width(KindAt(d - 1)), Level(d);
      Levels(d - 1);
      PathOfCompact(base, d - 1);
      var p := PathOf(base, d);
      assert p[..d - 1] == PathOf(base, d - 1);
      HighLow(Shr(base, l), w);
      ShrShr(base, l, w);
    }
  }

  lemma {:induction false} ShrSmall(x: nat, n: nat)
    requires x < Pow2(n)
    ensures Shr(x, n) == 0
    decreases n
  {
    if n > 0 { ShrSmall(x / 2, n - 1); }
  }

  /** The path of a page base spells that base. */
  lemma PathSpellsBase(base: nat)
    requires base % PAGE_SIZE == 0 && base < LIMIT
    ensures Addr(PathOf(base, 8)) == base
  {
    hide Addr, PathOf, Compact, Shl, Shr, Low, Pow2;
    Pow2Limit();
    ShrSmall(base, 32);
    PathOfCompact(base, 8);
    AddrIsCompact(PathOf(base, 8));
    HighLow(base, 9);
    LowAligned(base / 512);
  }

  lemma Pow2Limit()
    ensures Pow2(32) == LIMIT
  {
    assert Pow2(8) == 256;
    assert Pow2(16) == 0x1_0000;
    assert Pow2(24) == 0x100_0000;
  }

  lemma LowAligned(k: nat)
    ensures Low(512 * k, 9) == 0
  {
    assert Shl(k, 1) == 2 * k;
    assert Shl(k, 2) == 4 * k;
    assert Shl(k, 3) == 8 * k;
    assert Shl(k, 4) == 16 * k;
    assert Shl(k, 5) == 32 * k;
    assert Shl(k, 6) == 64 * k;
    assert Shl(k, 7) == 128 * k;
    assert Shl(k, 8) == 256 * k;
    LowOfSum(k, 0, 9);
  }

  /** A full path that spells a page base is the path of that base. */
  lemma SpellingUnique(p: seq<nat>, base: nat)
    requires ValidPath(p) && |p| == 8 && Addr(p) == base && base % PAGE_SIZE == 0 && base < LIMIT
    ensures p == PathOf(base, 8)
  {
    PathSpellsBase(base);
    AddrIsCompact(p);
    AddrIsCompact(PathOf(base, 8));
    ShlInjective(Compact(p), Compact(PathOf(base, 8)), Level(8));
    PathOfValid(base, 8);
    CompactInjective(p, PathOf(base, 8));
  }

  lemma {:induction false} LabelsValid(t: seq<Node>, lab: seq<seq<nat>>, c: nat)
    requires Labelled(t, lab) && c < |lab|
    ensures ValidPath(lab[c])
  {
    if c > 0 {
      var i, p := ParentOf(t, lab, c);
      assert Downlink(t, lab, i, p);
      LabelsValid(t, lab, i);
    }
  }

  // ----- What the trie promises -----

  /** There is room for page base `base` in the whole trie. */
  predicate Room(t: seq<Node>, base: nat)
    requires Sized(t)
  {
    RoomFrom(t, 0, 32, base)
  }

  function Initial(): seq<Node> {
    seq(MAX_TRIE, i => if i == 0 then Init(Mask2) else Init(Vacant))
  }

  ghost predicate WellLinked(t: seq<Node>) {
    exists lab :: Labelled(t, lab)
  }

  lemma InitialWellLinked()
    ensures WellLinked(Initial()) && Walk(Initial(), 0, 0, 0) == {}
  {
    var t, lab: seq<seq<nat>> := Initial(), [[]];
    assert t[0] == Init(Mask2);
    forall i: nat | 1 <= i < MAX_TRIE ensures IsVacant(t, i) { assert t[i] == Init(Vacant); }
    assert Labelled(t, lab);
    WalkIsLeafAddrs(t, lab);
  }

  /** The nibbles in use in a list node are distinct. */
  predicate DistinctNibbles(n: Node) {
    n.kind == List3 ==> forall p: nat, q: nat :: p < q < 8 && n.ref[p] != 0 && n.ref[q] != 0 ==> n.radix[p] != n.radix[q]
  }

  /** Writer and reader decode a link alike, and it leads strictly upward. */
  lemma LinksDecodeAlike(t: seq<Node>, lab: seq<seq<nat>>, i: nat, p: nat)
    requires Labelled(t, lab) && i < |lab| && |lab[i]| < 8 && p < 8 && t[i].ref[p] != 0
    ensures i < (t[i].ref[p] + i) % MAX_TRIE == (t[i].ref[p] + i) % 256 < |lab|
  {
    assert Downlink(t, lab, i, p);
  }

  lemma ListsAreDistinct(t: seq<Node>, lab: seq<seq<nat>>, i: nat)
    requires Labelled(t, lab) && i < MAX_TRIE
    ensures DistinctNibbles(t[i])
  {
    if t[i].kind == List3 {
      assert i < |lab| || IsVacant(t, i);
      assert t[i].kind == KindAt(|lab[i]|) && Forks(t, i);
      forall p: nat, q: nat | p < q < 8 && t[i].ref[p] != 0 && t[i].ref[q] != 0 ensures t[i].radix[p] != t[i].radix[q] {
        assert Downlink(t, lab, i, p) && Downlink(t, lab, i, q);
      }
    }
  }

  /** Inserting a page base makes the reader's addresses the old ones plus that base, exactly when
      there is room; otherwise they are unchanged. */
  lemma InsertExact(t: seq<Node>, base: nat, flag: Class, length: nat)
    requires WellLinked(t) && base % PAGE_SIZE == 0 && base < LIMIT
    ensures var r := Insert(t, 0, 32, base, flag, length);
      && WellLinked(r)
      && Walk(r, 0, 0, 0) == (if Room(t, base) then Walk(t, 0, 0, 0) + {base} else Walk(t, 0, 0, 0))
      && (base in Walk(r, 0, 0, 0) <==> Room(t, base))
  {
    var lab :| Labelled(t, lab);
    var r := Insert(t, 0, 32, base, flag, length);
    var lab' := InsertGrows(t, lab, 0, base, flag, length);
    WalkIsLeafAddrs(t, lab);
    WalkIsLeafAddrs(r, lab');
    PathSpellsBase(base);
    LeavesGained(lab, lab', base);
    if base in LeafAddrs(lab') {
      var c: nat :| c < |lab'| && |lab'[c]| == 8 && Addr(lab'[c]) == base;
      LabelsValid(r, lab', c);
      SpellingUnique(lab'[c], base);
    }
  }

  lemma LeavesGained(lab: seq<seq<nat>>, lab': seq<seq<nat>>, base: nat)
    requires (forall i :: 0 <= i < |lab| ==> |lab[i]| <= 8) && GrewTo(lab, lab', base)
    ensures forall i :: 0 <= i < |lab'| ==> |lab'[i]| <= 8
    ensures var a := Addr(PathOf(base, 8));
      LeafAddrs(lab') == if PathOf(base, 8) in lab' then LeafAddrs(lab) + {a} else LeafAddrs(lab)
  {
    forall i | 0 <= i < |lab'| ensures |lab'[i]| <= 8 && (i < |lab| ==> lab'[i] == lab[i]) { }
    forall i: nat | i < |lab| && |lab[i]| == 8 ensures Addr(lab[i]) in LeafAddrs(lab') { assert lab'[i] == lab[i]; }
    if PathOf(base, 8) in lab' {
      var c: nat :| c < |lab'| && lab'[c] == PathOf(base, 8);
      assert |lab'[c]| == 8;
    }
  }

  /** An insertion: a page base with the class and length for its leaf. */
  datatype Page = Page(base: nat, flag: Class, length: nat)

  /** Pages inserted one after another into the initial trie. */
  function InsertAll(pages: seq<Page>): (r: seq<Node>)
    ensures Sized(r)
  {
    if pages == [] then Initial()
    else
      var p := pages[|pages| - 1];
      Insert(InsertAll(pages[..|pages| - 1]), 0, 32, p.base, p.flag, p.length)
  }

  predicate Inserted(pages: seq<Page>, a: nat) { exists i :: 0 <= i < |pages| && pages[i].base == a }

  /** The last of `pages` leaves what the reader finds otherwise as it was, and is found exactly when
      there was room for it. */
  ghost predicate LastExact(pages: seq<Page>)
    requires pages != []
  {
    var k := |pages| - 1;
    var before, now := Walk(InsertAll(pages[..k]), 0, 0, 0), Walk(InsertAll(pages), 0, 0, 0);
    before <= now && (pages[k].base in now <==> Room(InsertAll(pages[..k]), pages[k].base))
  }

  /** Every reachable trie is well linked, the nibbles of its list nodes distinct; its reader finds only
      inserted bases, keeps finding those it found, and finds the last one exactly when there was room. */
  lemma {:induction false} ReachableTries(pages: seq<Page>)
    requires forall i :: 0 <= i < |pages| ==> pages[i].base % PAGE_SIZE == 0 && pages[i].base < LIMIT
    ensures var t := InsertAll(pages);
      && WellLinked(t) && (forall i :: 0 <= i < MAX_TRIE ==> DistinctNibbles(t[i]))
      && (forall a :: a in Walk(t, 0, 0, 0) ==> Inserted(pages, a))
      && (pages != [] ==> LastExact(pages))
  {
    hide Walk, Insert, Initial, WellLinked, Room, DistinctNibbles, Inserted;
    if pages == [] {
      InitialWellLinked();
    } else {
      var k := |pages| - 1;
      var before := InsertAll(pages[..k]);
      ReachableTries(pages[..k]);
      InsertExact(before, pages[k].base, pages[k].flag, pages[k].length);
      forall a | a in Walk(InsertAll(pages), 0, 0, 0) ensures Inserted(pages, a) { InsertedLater(pages, a); }
    }
    WellLinkedDistinct(InsertAll(pages));
  }

  lemma InsertedLater(pages: seq<Page>, a: nat)
    requires pages != [] && (a == pages[|pages| - 1].base || Inserted(pages[..|pages| - 1], a))
    ensures Inserted(pages, a)
  {
    if a != pages[|pages| - 1].base {
      var i :| 0 <= i < |pages| - 1 && pages[..|pages| - 1][i].base == a;
      assert pages[i].base == a;
    }
  }

  lemma WellLinkedDistinct(t: seq<Node>)
    requires WellLinked(t)
    ensures |t| == MAX_TRIE && forall i :: 0 <= i < MAX_TRIE ==> DistinctNibbles(t[i])
  {
    var lab :| Labelled(t, lab);
    forall i | 0 <= i < MAX_TRIE ensures DistinctNibbles(t[i]) { ListsAreDistinct(t, lab, i); }
  }
}
