/** rb_first, rb_last, rb_next and rb_prev: the nodes one after the other, in order or against
    it. */
module RbWalk {
  import opened Bpf
  import opened RbShape
  import opened RbTree
  import opened RbErase

  /** The nodes of t in order when fwd is set, in the opposite order otherwise. */
  function Along(t: Tree, fwd: bool): seq<nat> {
    match t
    case Leaf => []
    case Node(l, x, _, r) => if fwd then Along(l, fwd) + [x] + Along(r, fwd) else Along(r, fwd) + [x] + Along(l, fwd)
  }

  /** What comes before and after the hole of k in that direction. */
  function Behind(k: Ctx, fwd: bool): seq<nat> {
    match k
    case Top => []
    case Down(side, x, _, sib, up) => if side == fwd then Behind(up, fwd) else Behind(up, fwd) + Along(sib, fwd) + [x]
  }

  function Ahead(k: Ctx, fwd: bool): seq<nat> {
    match k
    case Top => []
    case Down(side, x, _, sib, up) => if side == fwd then [x] + Along(sib, fwd) + Ahead(up, fwd) else Ahead(up, fwd)
  }

  lemma {:induction false} PlugAlong(k: Ctx, t: Tree, fwd: bool)
    ensures Along(Plug(k, t), fwd) == Behind(k, fwd) + Along(t, fwd) + Ahead(k, fwd)
    decreases k
  {
    if k.Down? {
      PlugAlong(k.up, Mk(k.side, t, k.id, k.black, k.sib), fwd);
      if k.side == fwd {
        Regroup(Behind(k.up, fwd), Along(t, fwd), [k.id], Along(k.sib, fwd), Ahead(k.up, fwd));
      } else {
        Regroup(Behind(k.up, fwd), Along(k.sib, fwd), [k.id], Along(t, fwd), Ahead(k.up, fwd));
      }
    }
  }

  function Reverse(s: seq<nat>): seq<nat> {
    if s == [] then [] else Reverse(s[1..]) + [s[0]]
  }

  lemma {:induction false} ReverseAppend(a: seq<nat>, b: seq<nat>)
    ensures Reverse(a + b) == Reverse(b) + Reverse(a)
    decreases |a|
  {
    if a == [] {
      assert a + b == b;
    } else {
      assert (a + b)[1..] == a[1..] + b;
      ReverseAppend(a[1..], b);
    }
  }

  /** Forwards is in order, backwards is the reverse. */
  lemma {:induction false} AlongInOrder(t: Tree)
    ensures Along(t, true) == InOrder(t) && Along(t, false) == Reverse(InOrder(t))
    decreases t
  {
    if t.Node? {
      AlongInOrder(t.left);
      AlongInOrder(t.right);
      ReverseAppend(InOrder(t.left) + [t.id], InOrder(t.right));
      ReverseAppend(InOrder(t.left), [t.id]);
      assert Reverse([t.id]) == [t.id];
    }
  }

  // ----- the next element of a sequence -----

  function Head(s: seq<nat>): Ptr {
    if s == [] then None else Some(s[0])
  }

  /** The element after x in s. */
  function NextIn(s: seq<nat>, x: nat): Ptr {
    if s == [] then None else if s[0] == x then Head(s[1..]) else NextIn(s[1..], x)
  }

  lemma {:induction false} NextAfter(a: seq<nat>, x: nat, b: seq<nat>)
    requires x !in a
    ensures NextIn(a + [x] + b, x) == Head(b)
    decreases |a|
  {
    var s := a + [x] + b;
    if a == [] {
      assert s[1..] == b;
    } else {
      assert s[1..] == a[1..] + [x] + b;
      NextAfter(a[1..], x, b);
    }
  }

  lemma {:induction false} AlongIds(t: Tree, fwd: bool)
    ensures forall x :: x in Along(t, fwd) <==> x in Ids(t)
    decreases t
  {
    if t.Node? {
      AlongIds(t.left, fwd);
      AlongIds(t.right, fwd);
    }
  }

  lemma {:induction false} BehindIds(k: Ctx, fwd: bool)
    ensures forall x :: x in Behind(k, fwd) ==> x in CtxIds(k)
    decreases k
  {
    if k.Down? {
      BehindIds(k.up, fwd);
      AlongIds(k.sib, fwd);
    }
  }

  /** A view of the tree from each of its nodes. */
  lemma {:induction false} Find(k: Ctx, t: Tree, x: nat) returns (k': Ctx, t': Tree)
    requires x in Ids(t)
    ensures t'.Node? && t'.id == x && Plug(k', t') == Plug(k, t)
    decreases t
  {
    if t.id == x {
      k', t' := k, t;
    } else if x in Ids(t.left) {
      k', t' := Find(Down(true, t.id, t.black, t.right, k), t.left, x);
    } else {
      k', t' := Find(Down(false, t.id, t.black, t.left, k), t.right, x);
    }
  }

  // ----- the walks -----

  function Far(t: Tree, fwd: bool): Tree
    requires t.Node?
  {
    if fwd then t.right else t.left
  }

  /** From a node down on one side for as long as possible: the first node of its subtree. */
  method Outermost(r: RbRoot, start: nat, fwd: bool, ghost k0: Ctx, ghost t0: Tree) returns (node: nat)
    requires Zipped(r.cells[..], r.rbNode, k0, t0) && t0.Node? && t0.id == start
    ensures Head(Along(t0, fwd)) == Some(node)
  {
    node := start;
    ghost var k, t := k0, t0;
    NodeCells(r.cells[..], r.rbNode, k, t);
    while Kid(r.cells[node], fwd).Some?
      invariant Zipped(r.cells[..], r.rbNode, k, t) && t.Node? && t.id == node && node < r.cells.Length
      invariant Kid(r.cells[node], fwd) == Ref(Far(t, !fwd))
      invariant Head(Along(t, fwd)) == Head(Along(t0, fwd))
      decreases t
    {
      ghost var near, far := Far(t, !fwd), Far(t, fwd);
      ZipStep(r.cells[..], r.rbNode, fwd, t.id, t.black, far, k, near);
      node := Kid(r.cells[node], fwd).value;
      k, t := Down(fwd, t.id, t.black, far, k), near;
      NodeCells(r.cells[..], r.rbNode, k, t);
    }
  }

  /** rb_first when fwd is set, rb_last otherwise. */
  method First(r: RbRoot, fwd: bool, ghost T: Tree) returns (n: Ptr)
    requires Zipped(r.cells[..], r.rbNode, Top, T)
    ensures n == Head(Along(T, fwd))
  {
    n := r.rbNode;
    if n.Some? {
      var node := Outermost(r, n.value, fwd, Top, T);
      n := Some(node);
    }
  }

  /** Up for as long as the way leads up from the near side. */
  method Climb(r: RbRoot, node0: nat, fwd: bool, ghost k0: Ctx, ghost t0: Tree) returns (n: Ptr)
    requires Zipped(r.cells[..], r.rbNode, k0, t0) && t0.Node? && t0.id == node0
    ensures n == Head(Ahead(k0, fwd))
  {
    var node := node0;
    ghost var k, t := k0, t0;
    NodeCells(r.cells[..], r.rbNode, k, t);
    while r.cells[node].parent.Some? && Some(node) == Kid(r.cells[r.cells[node].parent.value], !fwd)
      invariant Zipped(r.cells[..], r.rbNode, k, t) && t.Node? && t.id == node && node < r.cells.Length
      invariant r.cells[node].parent == Above(k) && Head(Ahead(k, fwd)) == Head(Ahead(k0, fwd))
      invariant k.Down? ==> k.id < r.cells.Length && (Kid(r.cells[k.id], !fwd) == Some(node) <==> k.side != fwd)
      decreases Depth(k)
    {
      ZipStep(r.cells[..], r.rbNode, k.side, k.id, k.black, k.sib, k.up, t);
      node := r.cells[node].parent.value;
      t, k := Mk(k.side, t, k.id, k.black, k.sib), k.up;
      NodeCells(r.cells[..], r.rbNode, k, t);
    }
    n := r.cells[node].parent;
  }

  /** rb_next when fwd is set, rb_prev otherwise: from each node of the tree to the one after
      it. */
  method Next(r: RbRoot, node: nat, fwd: bool, ghost T: Tree) returns (n: Ptr)
    requires Zipped(r.cells[..], r.rbNode, Top, T) && node in Ids(T)
    ensures n == NextIn(Along(T, fwd), node)
  {
    ghost var k, t := Find(Top, T, node);
    ZipTop(r.cells[..], r.rbNode, k, t);
    NodeCells(r.cells[..], r.rbNode, k, t);
    NextByView(k, t, fwd);
    if r.cells[node].parent == Some(node) {
      return None;
    }
    var kid := Kid(r.cells[node], !fwd);
    if kid.Some? {
      ghost var far := Far(t, fwd);
      ZipStep(r.cells[..], r.rbNode, !fwd, t.id, t.black, Far(t, !fwd), k, far);
      var first := Outermost(r, kid.value, fwd, Down(!fwd, t.id, t.black, Far(t, !fwd), k), far);
      n := Some(first);
    } else {
      n := Climb(r, node, fwd, k, t);
    }
  }

  lemma NextMid(a: seq<nat>, b: seq<nat>, x: nat, c: seq<nat>, d: seq<nat>)
    requires x !in a && x !in b
    ensures NextIn(a + (b + [x] + c) + d, x) == if c != [] then Head(c) else Head(d)
  {
    assert a + (b + [x] + c) + d == (a + b) + [x] + (c + d);
    NextAfter(a + b, x, c + d);
  }

  lemma NextByView(k: Ctx, t: Tree, fwd: bool)
    requires t.Node? && Proper(t) && Ids(t) !! CtxIds(k)
    ensures NextIn(Along(Plug(k, t), fwd), t.id) ==
      if Far(t, fwd).Node? then Head(Along(Far(t, fwd), fwd)) else Head(Ahead(k, fwd))
  {
    var near, far := Far(t, !fwd), Far(t, fwd);
    PlugAlong(k, t, fwd);
    AlongIds(near, fwd);
    AlongIds(far, fwd);
    BehindIds(k, fwd);
    assert t.id in Ids(t);
    NextMid(Behind(k, fwd), Along(near, fwd), t.id, Along(far, fwd), Ahead(k, fwd));
    if far.Node? {
      assert far.id in Along(far, fwd);
    }
  }
}
