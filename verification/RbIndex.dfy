/** The ordered indexes of blkparse: traces by time and I/O tracks by sector. */
module RbIndex {
  import opened Bpf
  import opened RbShape
  import opened RbTree
  import opened RbErase
  import opened RbWalk

  // ----- linking a new leaf -----

  /** rb_link_node */
  method LinkNode(r: RbRoot, node: nat, parent: Ptr, side: bool, ghost k: Ctx)
    requires Zipped(r.cells[..], r.rbNode, k, Leaf) && node < r.cells.Length && node !in CtxIds(k)
    requires parent == Above(k) && (k.Down? ==> side == k.side)
    modifies r, r.cells
    ensures Zipped(r.cells[..], r.rbNode, k, Node(Leaf, node, false, Leaf))
  {
    ghost var C, root := r.cells[..], r.rbNode;
    if k.Down? {
      CtxFacts(C, root, k.side, k.id, k.black, k.sib, k.up, None);
    }
    r.cells[node] := Cell(None, None, parent, false);
    if parent.Some? {
      r.cells[parent.value] := SetKid(r.cells[parent.value], side, Some(node));
    } else {
      r.rbNode := Some(node);
    }
    CtxRefocus(C, r.cells[..], root, r.rbNode, k, None, Some(node));
  }

  /** The new node is fit for rb_insert_color. */
  lemma LinkShape(k: Ctx, node: nat)
    requires RedBlack(Plug(k, Leaf))
    ensures var t := Node(Leaf, node, false, Leaf);
      RedFocus(k, t, InOrder(Plug(k, t))) && InOrder(Plug(k, t)) == Before(k) + [node] + After(k)
  {
    UnplugEven(k, Leaf);
    UnplugRoot(k, Leaf);
    PlugInOrder(k, Node(Leaf, node, false, Leaf));
  }

  // ----- the traces by time -----

  datatype Key = Key(time: nat, device: nat, sequence: nat)

  predicate Less(a: Key, b: Key) {
    a.time < b.time || (a.time == b.time && (a.device < b.device || (a.device == b.device && a.sequence < b.sequence)))
  }

  /** The keys of s never fall. */
  ghost predicate Sorted(s: seq<nat>, key: nat -> Key) {
    forall i, j :: 0 <= i < j < |s| ==> !Less(key(s[j]), key(s[i]))
  }

  /** That is: times never fall, nor do devices at the same time, nor sequence numbers on the same
      device at the same time. */
  lemma SortedMeans(s: seq<nat>, key: nat -> Key)
    ensures Sorted(s, key) <==> forall i, j :: 0 <= i < j < |s| ==>
      var a, b := key(s[i]), key(s[j]);
      && a.time <= b.time && (a.time == b.time ==> a.device <= b.device)
      && (a.time == b.time && a.device == b.device ==> a.sequence <= b.sequence)
  {
    if Sorted(s, key) {
      forall i, j | 0 <= i < j < |s| ensures !Less(key(s[j]), key(s[i])) {
      }
    }
  }

  /** Where the walk of trace_rb_insert for a key has to end: behind everything that is not
      greater, before everything that is. */
  ghost predicate Parts(before: seq<nat>, after: seq<nat>, key: nat -> Key, x: nat) {
    (forall y :: y in before ==> !Less(key(x), key(y))) && forall y :: y in after ==> Less(key(x), key(y))
  }

  lemma SortedParts(s: seq<nat>, key: nat -> Key, a: seq<nat>, y: nat, b: seq<nat>, x: nat)
    requires Sorted(s, key) && s == a + [y] + b
    ensures Less(key(x), key(y)) ==> forall z :: z in [y] + b ==> Less(key(x), key(z))
    ensures !Less(key(x), key(y)) ==> forall z :: z in a + [y] ==> !Less(key(x), key(z))
  {
    forall z | z in b ensures !Less(key(z), key(y)) {
      var i :| 0 <= i < |b| && b[i] == z;
      assert s[|a|] == y && s[|a| + 1 + i] == z;
    }
    forall z | z in a ensures !Less(key(y), key(z)) {
      var i :| 0 <= i < |a| && a[i] == z;
      assert s[i] == z && s[|a|] == y;
    }
  }

  /** The view of T at t; the nodes before it are not later than x, those behind it later. */
  ghost predicate Narrowed(C: Heap, root: Ptr, k: Ctx, t: Tree, T: Tree, key: nat -> Key, x: nat) {
    && Zipped(C, root, k, t) && Plug(k, t) == T && Sorted(InOrder(T), key)
    && InOrder(T) == Before(k) + InOrder(t) + After(k) && Parts(Before(k), After(k), key, x)
  }

  /** One step down. */
  lemma NarrowedNext(C: Heap, root: Ptr, k: Ctx, t: Tree, T: Tree, key: nat -> Key, x: nat) returns (k': Ctx, t': Tree)
    requires Narrowed(C, root, k, t, T, key, x) && t.Node?
    ensures Narrowed(C, root, k', t', T, key, x) && t' < t
    ensures k'.Down? && k'.side == Less(key(x), key(t.id)) && k'.id == t.id
    ensures t.id < |C| && Kid(C[t.id], k'.side) == Ref(t')
  {
    RootCell(C, t, Above(k));
    k', t' := Descend(C, root, k, t, Less(key(x), key(t.id)), InOrder(T), key, x);
  }

  lemma NarrowedEnd(C: Heap, root: Ptr, k: Ctx, T: Tree, key: nat -> Key, x: nat)
    requires Narrowed(C, root, k, Leaf, T, key, x)
    ensures InOrder(T) == Before(k) + After(k)
  {
    assert Before(k) + [] + After(k) == Before(k) + After(k);
  }

  /** The loop of trace_rb_insert. */
  method FindPlace(r: RbRoot, t: nat, key: nat -> Key, ghost T: Tree) returns (parent: Ptr, side: bool, ghost k: Ctx)
    requires Zipped(r.cells[..], r.rbNode, Top, T) && Sorted(InOrder(T), key)
    ensures Zipped(r.cells[..], r.rbNode, k, Leaf) && Plug(k, Leaf) == T && parent == Above(k)
    ensures k.Down? ==> side == k.side
    ensures InOrder(T) == Before(k) + After(k) && Parts(Before(k), After(k), key, t)
  {
    var p := r.rbNode;
    parent, side := None, true;
    ghost var tt := T;
    k := Top;
    assert InOrder(T) == Before(k) + InOrder(tt) + After(k);
    while p.Some?
      invariant Narrowed(r.cells[..], r.rbNode, k, tt, T, key, t) && p == Ref(tt) && parent == Above(k)
      invariant k.Down? ==> side == k.side
      decreases tt
    {
      parent := p;
      k, tt := NarrowedNext(r.cells[..], r.rbNode, k, tt, T, key, t);
      side := Less(key(t), key(p.value));
      p := Kid(r.cells[p.value], side);
    }
    NarrowedEnd(r.cells[..], r.rbNode, k, T, key, t);
  }

  /** trace_rb_insert: equal keys stay in the order in which they were inserted. */
  method TraceInsert(r: RbRoot, t: nat, key: nat -> Key, ghost T: Tree)
    returns (ghost T': Tree, ghost before: seq<nat>, ghost after: seq<nat>)
    requires Zipped(r.cells[..], r.rbNode, Top, T) && RedBlack(T) && Sorted(InOrder(T), key)
    requires t < r.cells.Length && t !in Ids(T)
    modifies r, r.cells
    ensures Zipped(r.cells[..], r.rbNode, Top, T') && RedBlack(T') && Sorted(InOrder(T'), key)
    ensures InOrder(T) == before + after && InOrder(T') == before + [t] + after && Parts(before, after, key, t)
  {
    ghost var k;
    var parent, side;
    parent, side, k := FindPlace(r, t, key, T);
    NotInTree(T, k, t);
    LinkNode(r, t, parent, side, k);
    LinkShape(k, t);
    T' := r.InsertColor(t, k, Node(Leaf, t, false, Leaf));
    before, after := Before(k), After(k);
    SortedInsert(before, after, key, t);
  }

  lemma RootCell(C: Heap, t: Tree, par: Ptr)
    requires Holds(C, t, par) && t.Node?
    ensures t.id < |C| && C[t.id].left == Ref(t.left) && C[t.id].right == Ref(t.right)
  {
  }

  /** One step of the walk. */
  lemma Descend(C: Heap, root: Ptr, k: Ctx, t: Tree, side: bool, s: seq<nat>, key: nat -> Key, x: nat)
    returns (k': Ctx, t': Tree)
    requires Zipped(C, root, k, t) && t.Node? && side == Less(key(x), key(t.id))
    requires s == Before(k) + InOrder(t) + After(k) && Sorted(s, key) && Parts(Before(k), After(k), key, x)
    ensures Zipped(C, root, k', t') && Plug(k', t') == Plug(k, t) && t' == (if side then t.left else t.right) && t' < t
    ensures k'.Down? && k'.side == side && k'.id == t.id
    ensures s == Before(k') + InOrder(t') + After(k') && Parts(Before(k'), After(k'), key, x)
  {
    var far := if side then t.right else t.left;
    t', k' := if side then t.left else t.right, Down(side, t.id, t.black, far, k);
    ZipStep(C, root, side, t.id, t.black, far, k, t');
    Regroup(Before(k), InOrder(t.left), [t.id], InOrder(t.right), After(k));
    SortedParts(s, key, Before(k) + InOrder(t.left), t.id, InOrder(t.right) + After(k), x);
    assert s == (Before(k) + InOrder(t.left)) + [t.id] + (InOrder(t.right) + After(k));
  }

  lemma NotInTree(T: Tree, k: Ctx, x: nat)
    requires Plug(k, Leaf) == T && x !in Ids(T)
    ensures x !in CtxIds(k)
  {
    PlugIds(k, Leaf);
  }

  lemma {:induction false} PlugIds(k: Ctx, t: Tree)
    ensures Ids(Plug(k, t)) == Ids(t) + CtxIds(k)
    decreases k
  {
    if k.Down? {
      var t' := Mk(k.side, t, k.id, k.black, k.sib);
      PlugIds(k.up, t');
      assert Ids(t') == Ids(t) + {k.id} + Ids(k.sib);
    }
  }

  lemma SortedInsert(a: seq<nat>, b: seq<nat>, key: nat -> Key, x: nat)
    requires Sorted(a + b, key) && Parts(a, b, key, x)
    ensures Sorted(a + [x] + b, key)
  {
    var s, s' := a + b, a + [x] + b;
    forall i, j | 0 <= i < j < |s'| ensures !Less(key(s'[j]), key(s'[i])) {
      if j < |a| {
        assert s[i] == s'[i] && s[j] == s'[j];
      } else if i > |a| {
        assert s[i - 1] == s'[i] && s[j - 1] == s'[j];
      } else if i < |a| < j {
        assert s[i] == s'[i] && s[j - 1] == s'[j];
      } else if j == |a| {
        assert s'[i] in a;
      } else {
        assert s'[j] in b;
      }
    }
  }

  lemma {:induction false} OrderDistinct(t: Tree)
    requires Proper(t)
    ensures forall i, j :: 0 <= i < j < |InOrder(t)| ==> InOrder(t)[i] != InOrder(t)[j]
    decreases t
  {
    if t.Node? {
      OrderDistinct(t.left);
      OrderDistinct(t.right);
      OrderIds(t.left);
      OrderIds(t.right);
      var s, l, r := InOrder(t), InOrder(t.left), InOrder(t.right);
      forall i, j | 0 <= i < j < |s| ensures s[i] != s[j] {
        assert i < |l| ==> s[i] == l[i] && s[i] in Ids(t.left);
        assert j < |l| ==> s[j] == l[j];
        assert j > |l| ==> s[j] == r[j - |l| - 1] && s[j] in Ids(t.right);
        assert i > |l| ==> s[i] == r[i - |l| - 1];
      }
    }
  }

  lemma {:induction false} OrderIds(t: Tree)
    ensures forall x :: x in InOrder(t) <==> x in Ids(t)
    decreases t
  {
    if t.Node? {
      OrderIds(t.left);
      OrderIds(t.right);
    }
  }

  lemma TraverseStep(T: Tree, i: nat)
    requires Proper(T) && i < |InOrder(T)|
    ensures var s := InOrder(T);
      s[i] in Ids(T) && NextIn(Along(T, true), s[i]) == if i + 1 < |s| then Some(s[i + 1]) else None
  {
    var s := InOrder(T);
    OrderDistinct(T);
    OrderIds(T);
    AlongInOrder(T);
    assert s == s[..i] + [s[i]] + s[i + 1..];
    assert s[i] !in s[..i];
    NextAfter(s[..i], s[i], s[i + 1..]);
  }

  /** The program's way through all traces: rb_first, then rb_next for as long as there is one.
      It meets each node once, in order. */
  method Traverse(r: RbRoot, ghost T: Tree) returns (visited: seq<nat>)
    requires Zipped(r.cells[..], r.rbNode, Top, T)
    ensures visited == InOrder(T)
  {
    AlongInOrder(T);
    ghost var s := InOrder(T);
    visited := [];
    var n := First(r, true, T);
    while n.Some?
      invariant visited <= s && n == if |visited| < |s| then Some(s[|visited|]) else None
      decreases |s| - |visited|
    {
      TraverseStep(T, |visited|);
      visited := visited + [n.value];
      n := Next(r, n.value, true, T);
    }
  }

  // ----- a run of insertions -----

  /** x goes behind everything that is not later. */
  function Placed(s: seq<nat>, key: nat -> Key, x: nat): seq<nat>
    decreases |s|
  {
    if s == [] || Less(key(x), key(s[0])) then [x] + s else [s[0]] + Placed(s[1..], key, x)
  }

  /** ts by key, those with equal keys as they come in ts. */
  function StableSort(ts: seq<nat>, key: nat -> Key): seq<nat>
    decreases |ts|
  {
    if ts == [] then [] else Placed(StableSort(ts[..|ts| - 1], key), key, ts[|ts| - 1])
  }

  lemma {:induction false} PlacedAt(a: seq<nat>, b: seq<nat>, key: nat -> Key, x: nat)
    requires Parts(a, b, key, x)
    ensures Placed(a + b, key, x) == a + [x] + b
    decreases |a|
  {
    if a == [] {
      assert a + b == b && a + [x] + b == [x] + b;
      assert b != [] ==> b[0] in b;
    } else {
      assert a[0] in a && (a + b)[1..] == a[1..] + b;
      PlacedAt(a[1..], b, key, x);
      assert a + [x] + b == [a[0]] + (a[1..] + [x] + b);
    }
  }

  /** Every list in order can be cut where x goes. */
  lemma {:induction false} Cut(s: seq<nat>, key: nat -> Key, x: nat) returns (a: seq<nat>, b: seq<nat>)
    requires Sorted(s, key)
    ensures s == a + b && Parts(a, b, key, x) && Placed(s, key, x) == a + [x] + b
    decreases |s|
  {
    a, b := [], s;
    if s != [] && !Less(key(x), key(s[0])) {
      a, b := Cut(s[1..], key, x);
      a := [s[0]] + a;
      assert s == [s[0]] + s[1..];
    } else {
      forall y | y in s ensures Less(key(x), key(y)) {
        var i :| 0 <= i < |s| && s[i] == y;
      }
    }
    PlacedAt(a, b, key, x);
  }

  ghost predicate Precedes(s: seq<nat>, a: nat, b: nat) {
    exists i, j :: 0 <= i < j < |s| && s[i] == a && s[j] == b
  }

  predicate Tied(a: Key, b: Key) {
    !Less(a, b) && !Less(b, a)
  }

  /** It is a permutation in order, and ties are in the order of ts. */
  lemma {:induction false} StableSortRight(ts: seq<nat>, key: nat -> Key)
    ensures var s := StableSort(ts, key); Sorted(s, key) && multiset(s) == multiset(ts)
    ensures forall i, j :: 0 <= i < j < |ts| && Tied(key(ts[i]), key(ts[j])) ==>
      Precedes(StableSort(ts, key), ts[i], ts[j])
    decreases |ts|
  {
    if ts != [] {
      var last := |ts| - 1;
      var x, s0 := ts[last], StableSort(ts[..last], key);
      StableSortRight(ts[..last], key);
      var a, b := Cut(s0, key, x);
      SortedInsert(a, b, key, x);
      assert ts == ts[..last] + [x];
      forall i, j | 0 <= i < j < |ts| && Tied(key(ts[i]), key(ts[j]))
        ensures Precedes(StableSort(ts, key), ts[i], ts[j])
      {
        if j < last {
          assert Precedes(s0, ts[..last][i], ts[..last][j]);
          StillPrecedes(a, b, x, ts[i], ts[j]);
        } else {
          assert ts[..last][i] in multiset(ts[..last]) && ts[i] in s0;
          TiePrecedes(a, b, key, x, ts[i]);
        }
      }
    }
  }

  lemma StillPrecedes(a: seq<nat>, b: seq<nat>, x: nat, y: nat, z: nat)
    requires Precedes(a + b, y, z)
    ensures Precedes(a + [x] + b, y, z)
  {
    var s, s' := a + b, a + [x] + b;
    var i, j :| 0 <= i < j < |s| && s[i] == y && s[j] == z;
    var i', j' := if i < |a| then i else i + 1, if j < |a| then j else j + 1;
    assert s'[i'] == y && s'[j'] == z;
  }

  lemma TiePrecedes(a: seq<nat>, b: seq<nat>, key: nat -> Key, x: nat, y: nat)
    requires Parts(a, b, key, x) && y in a + b && Tied(key(y), key(x))
    ensures Precedes(a + [x] + b, y, x)
  {
    assert y in a;
    var i :| 0 <= i < |a| && a[i] == y;
    var s' := a + [x] + b;
    assert s'[i] == y && s'[|a|] == x;
  }

  lemma NotYetInserted(T: Tree, ts: seq<nat>, i: nat, key: nat -> Key)
    requires i < |ts| && (forall j, k :: 0 <= j < k < |ts| ==> ts[j] != ts[k]) && InOrder(T) == StableSort(ts[..i], key)
    ensures ts[i] in ts && ts[i] !in Ids(T) && ts[..i + 1][..i] == ts[..i]
  {
    StableSortRight(ts[..i], key);
    OrderIds(T);
    assert ts[i] !in multiset(ts[..i]);
    assert ts[i] in InOrder(T) <==> ts[i] in multiset(InOrder(T));
  }

  /** Traces inserted one after the other into an empty tree, and then visited: the stable sort of
      the sequence. */
  method InsertAll(r: RbRoot, ts: seq<nat>, key: nat -> Key) returns (visited: seq<nat>)
    requires Zipped(r.cells[..], r.rbNode, Top, Leaf)
    requires (forall t :: t in ts ==> t < r.cells.Length) && forall i, j :: 0 <= i < j < |ts| ==> ts[i] != ts[j]
    modifies r, r.cells
    ensures visited == StableSort(ts, key)
  {
    ghost var T := Leaf;
    for i := 0 to |ts|
      invariant Zipped(r.cells[..], r.rbNode, Top, T) && RedBlack(T) && Sorted(InOrder(T), key)
      invariant InOrder(T) == StableSort(ts[..i], key)
    {
      NotYetInserted(T, ts, i, key);
      ghost var before, after;
      T, before, after := TraceInsert(r, ts[i], key, T);
      PlacedAt(before, after, key, ts[i]);
    }
    assert ts[..|ts|] == ts;
    visited := Traverse(r, T);
  }
}
