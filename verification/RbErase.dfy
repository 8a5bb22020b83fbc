/** rb_erase: a node leaves the tree, directly when it has at most one child, otherwise with
    its successor taking its place. */
module RbErase {
  import opened Bpf
  import opened RbShape
  import opened RbTree

  // ----- the balance around a node of a red-black tree -----

  lemma {:induction false} UnplugEven(k: Ctx, t: Tree)
    requires Even(Plug(k, t)) && RedsApart(Plug(k, t))
    ensures Even(t) && RedsApart(t) && Fits(k, BlackHeight(t)) && (BlackRoot(t) || BlackAbove(k))
    decreases k
  {
    if k.Down? {
      UnplugEven(k.up, Mk(k.side, t, k.id, k.black, k.sib));
      FitsDown(k.side, k.id, k.black, k.sib, k.up, BlackHeight(t));
    }
  }

  lemma {:induction false} UnplugRoot(k: Ctx, t: Tree)
    requires BlackRoot(Plug(k, t))
    ensures RootBlack(k) && (k.Top? ==> BlackRoot(t))
    decreases k
  {
    if k.Down? {
      UnplugRoot(k.up, Mk(k.side, t, k.id, k.black, k.sib));
    }
  }

  // ----- taking out a node with at most one child -----

  function Only(t: Tree): Tree
    requires t.Node?
  {
    if t.left.Leaf? then t.right else t.left
  }

  /** The cells once node t.id has been bypassed. */
  ghost predicate Bypassed(C: Heap, C': Heap, k: Ctx, t: Tree)
    requires t.Node?
  {
    && |C'| == |C|
    && forall z: nat :: z < |C| && z != t.id ==>
      C'[z] == if Ref(Only(t)) == Some(z) then C[z].(parent := Above(k))
               else if Above(k) == Some(z) then SetKid(C[z], k.side, Ref(Only(t)))
               else C[z]
  }

  lemma BypassZip(C: Heap, C': Heap, root: Ptr, root': Ptr, k: Ctx, t: Tree)
    requires Zipped(C, root, k, t) && t.Node? && (t.left.Leaf? || t.right.Leaf?) && Bypassed(C, C', k, t)
    requires root' == if k.Top? then Ref(Only(t)) else root
    ensures Zipped(C', root', k, Only(t)) && t.id !in Ids(Only(t)) && t.id !in CtxIds(k)
  {
    var c := Only(t);
    assert t.id in Ids(t) && Ids(c) <= Ids(t);
    assert Holds(C, c, Some(t.id)) && Proper(c);
    if c.Node? {
      RefHeld(C, c, Some(t.id));
    }
    if k.Down? {
      CtxFacts(C, root, k.side, k.id, k.black, k.sib, k.up, Ref(t));
    }
    HoldsReparent(C, C', c, Some(t.id), Above(k));
    CtxRefocus(C, C', root, root', k, Ref(t), Ref(c));
  }

  /** The balance after that, when the node was red. */
  lemma RedOut(k: Ctx, t: Tree)
    requires RedBlack(Plug(k, t)) && t.Node? && (t.left.Leaf? || t.right.Leaf?) && !t.black
    ensures RedBlack(Plug(k, Only(t)))
  {
    UnplugEven(k, t);
    UnplugRoot(k, t);
    assert Only(t) == Leaf by {
      assert Even(Only(t)) && BlackHeight(Only(t)) == 0 && BlackRoot(Only(t));
    }
    PlugEven(k, Only(t));
    PlugRootBlack(k, Only(t));
  }

  /** And when it was black. */
  lemma BlackOut(k: Ctx, t: Tree)
    requires RedBlack(Plug(k, t)) && t.Node? && (t.left.Leaf? || t.right.Leaf?) && t.black
    ensures Short(k, Only(t), InOrder(Plug(k, Only(t))))
  {
    UnplugEven(k, t);
    UnplugRoot(k, t);
  }

  // ----- putting one node in the place of another -----

  /** The cells once y has taken the place of x, with its children and its colour. */
  ghost predicate Replaced(C: Heap, C': Heap, k: Ctx, t: Tree, y: nat)
    requires t.Node?
  {
    && |C'| == |C| && y < |C| && t.id < |C| && C'[y] == C[t.id]
    && forall z: nat :: z < |C| && z != y && z != t.id ==>
      C'[z] == if Ref(t.left) == Some(z) || Ref(t.right) == Some(z) then C[z].(parent := Some(y))
               else if Above(k) == Some(z) then SetKid(C[z], k.side, Some(y))
               else C[z]
  }

  lemma ReplaceZip(C: Heap, C': Heap, root: Ptr, root': Ptr, k: Ctx, t: Tree, y: nat)
    requires Zipped(C, root, k, t) && t.Node? && Replaced(C, C', k, t, y) && y !in Ids(t) && y !in CtxIds(k)
    requires root' == if k.Top? then Some(y) else root
    ensures Zipped(C', root', k, t.(id := y))
  {
    var t' := t.(id := y);
    assert Ids(t') == Ids(t.left) + {y} + Ids(t.right);
    assert t.id in Ids(t);
    ReplaceKid(C, C', k, t, y, t.left);
    ReplaceKid(C, C', k, t, y, t.right);
    if k.Down? {
      CtxFacts(C, root, k.side, k.id, k.black, k.sib, k.up, Ref(t));
    }
    CtxRefocus(C, C', root, root', k, Ref(t), Some(y));
  }

  lemma ReplaceKid(C: Heap, C': Heap, k: Ctx, t: Tree, y: nat, c: Tree)
    requires Proper(t) && t.Node? && Ids(t) !! CtxIds(k) && Holds(C, t, Above(k)) && Replaced(C, C', k, t, y)
    requires y !in Ids(t)
    requires c == t.left || c == t.right
    ensures Holds(C', c, Some(y))
  {
    if t.left.Node? {
      RefHeld(C, t.left, Some(t.id));
    }
    if t.right.Node? {
      RefHeld(C, t.right, Some(t.id));
    }
    if k.Down? {
      assert k.id in CtxIds(k);
    }
    HoldsReparent(C, C', c, Some(t.id), Some(y));
  }

  // ----- the way to the successor -----

  /** kk is base, or leads from base to the left, and to the left again. */
  predicate LeftOf(kk: Ctx, base: Ctx)
    decreases kk
  {
    kk == base || (kk.Down? && kk.side && LeftOf(kk.up, base))
  }

  /** The subtree at base, once t is in the hole of kk. */
  function Fill(kk: Ctx, base: Ctx, t: Tree): Tree
    requires LeftOf(kk, base)
    decreases kk
  {
    if kk == base then t else Fill(kk.up, base, Mk(true, t, kk.id, kk.black, kk.sib))
  }

  /** kk, on another base. */
  function Rebase(kk: Ctx, base: Ctx, base': Ctx): Ctx
    requires LeftOf(kk, base)
    decreases kk
  {
    if kk == base then base' else kk.(up := Rebase(kk.up, base, base'))
  }

  lemma {:induction false} FillPlug(kk: Ctx, base: Ctx, base': Ctx, t: Tree)
    requires LeftOf(kk, base)
    ensures Plug(Rebase(kk, base, base'), t) == Plug(base', Fill(kk, base, t))
    ensures Plug(kk, t) == Plug(base, Fill(kk, base, t))
    ensures Before(kk) == Before(base)
    decreases kk
  {
    if kk != base {
      FillPlug(kk.up, base, base', Mk(true, t, kk.id, kk.black, kk.sib));
    }
  }

  lemma {:induction false} RebaseFits(kk: Ctx, base: Ctx, base': Ctx, h: nat)
    requires LeftOf(kk, base) && base.Down? && base'.Down? && base' == base.(id := base'.id)
    ensures Fits(Rebase(kk, base, base'), h) == Fits(kk, h)
    ensures BlackAbove(Rebase(kk, base, base')) == BlackAbove(kk) && RootBlack(Rebase(kk, base, base')) == RootBlack(kk)
    ensures Rebase(kk, base, base').Down?
    decreases kk
  {
    if kk != base {
      RebaseFits(kk.up, base, base', h + if kk.black then 1 else 0);
    }
  }

  // ----- rb_erase -----

  /** The last part of rb_erase: the tree without a node of the given colour, whose only child
      is now at the hole of k. */
  method Recolor(r: RbRoot, black: bool, child: Ptr, parent: Ptr, ghost k: Ctx, ghost c: Tree) returns (ghost T: Tree)
    requires Zipped(r.cells[..], r.rbNode, k, c) && child == Ref(c) && parent == Above(k)
    requires if black then Short(k, c, InOrder(Plug(k, c))) else RedBlack(Plug(k, c))
    modifies r, r.cells
    ensures Zipped(r.cells[..], r.rbNode, Top, T) && RedBlack(T) && InOrder(T) == InOrder(Plug(k, c))
  {
    if black {
      T := r.EraseColor(child, parent, k, c);
    } else {
      T := Plug(k, c);
      ZipTop(r.cells[..], r.rbNode, k, c);
    }
  }

  /** rb_erase for a node with at most one child. */
  method EraseEnd(r: RbRoot, node: nat, ghost k: Ctx, ghost t: Tree) returns (ghost T: Tree)
    requires Zipped(r.cells[..], r.rbNode, k, t) && RedBlack(Plug(k, t)) && t.Node? && t.id == node
    requires t.left.Leaf? || t.right.Leaf?
    modifies r, r.cells
    ensures Zipped(r.cells[..], r.rbNode, Top, T) && RedBlack(T) && InOrder(T) == InOrder(Plug(k, Only(t)))
  {
    ghost var C, root := r.cells[..], r.rbNode;
    NodeCells(C, root, k, t);
    var child := if r.cells[node].left.None? then r.cells[node].right else r.cells[node].left;
    var parent := r.cells[node].parent;
    var black := r.cells[node].black;
    if child.Some? {
      r.cells[child.value] := r.cells[child.value].(parent := parent);
    }
    if parent.Some? {
      if r.cells[parent.value].left == Some(node) {
        r.cells[parent.value] := r.cells[parent.value].(left := child);
      } else {
        r.cells[parent.value] := r.cells[parent.value].(right := child);
      }
    } else {
      r.rbNode := child;
    }
    BypassZip(C, r.cells[..], root, r.rbNode, k, t);
    if black {
      BlackOut(k, t);
    } else {
      RedOut(k, t);
    }
    T := Recolor(r, black, child, parent, k, Only(t));
  }

  /** What the program finds at a node, its children and its parent. */
  lemma NodeCells(C: Heap, root: Ptr, k: Ctx, t: Tree)
    requires Zipped(C, root, k, t) && t.Node?
    ensures t.id < |C| && C[t.id] == Cell(Ref(t.left), Ref(t.right), Above(k), t.black)
    ensures t.left.Node? ==>
      t.left.id < |C| && t.left.id != t.id && Some(t.left.id) != Above(k) && C[t.left.id].parent == Some(t.id)
    ensures t.right.Node? ==>
      t.right.id < |C| && t.right.id != t.id && Some(t.right.id) != Above(k) && C[t.right.id].parent == Some(t.id)
    ensures k.Down? ==>
      && k.id < |C| && k.id != t.id && (C[k.id].left == Some(t.id) <==> k.side)
      && Kid(C[k.id], k.side) == Some(t.id)
    ensures t.left.Node? && t.right.Node? ==> t.left.id != t.right.id
  {
    RefHeld(C, t, Above(k));
    if t.left.Node? {
      RefHeld(C, t.left, Some(t.id));
    }
    if t.right.Node? {
      RefHeld(C, t.right, Some(t.id));
    }
    if k.Down? {
      CtxFacts(C, root, k.side, k.id, k.black, k.sib, k.up, Ref(t));
      if k.sib.Node? {
        RefHeld(C, k.sib, Some(k.id));
      }
    }
  }

  lemma {:induction false} LeftDepth(kk: Ctx, base: Ctx)
    requires LeftOf(kk, base)
    ensures Depth(base) <= Depth(kk)
    ensures CtxIds(base) <= CtxIds(kk)
    ensures kk != base ==> CtxIds(base) <= CtxIds(kk.up)
    decreases kk
  {
    if kk != base {
      LeftDepth(kk.up, base);
    }
  }

  lemma {:induction false} FillIds(kk: Ctx, base: Ctx, t: Tree)
    requires LeftOf(kk, base)
    ensures Ids(Fill(kk, base, t)) + CtxIds(base) == Ids(t) + CtxIds(kk)
    decreases kk
  {
    if kk != base {
      var t' := Mk(true, t, kk.id, kk.black, kk.sib);
      FillIds(kk.up, base, t');
      assert Ids(t') == Ids(t) + {kk.id} + Ids(kk.sib);
      assert Ids(t') + CtxIds(kk.up) == Ids(t) + CtxIds(kk);
    }
  }

  /** Leaving out the leftmost node leaves out the first in order. */
  lemma {:induction false} FillFirst(kk: Ctx, base: Ctx, t: Tree, t': Tree, y: nat)
    requires LeftOf(kk, base) && InOrder(t) == [y] + InOrder(t')
    ensures InOrder(Fill(kk, base, t)) == [y] + InOrder(Fill(kk, base, t'))
    decreases kk
  {
    if kk != base {
      var u, u' := Mk(true, t, kk.id, kk.black, kk.sib), Mk(true, t', kk.id, kk.black, kk.sib);
      assert InOrder(u) == [y] + InOrder(u');
      FillFirst(kk.up, base, u, u', y);
    }
  }

  /** node = node->rb_right, then left for as long as there is a left child. */
  method FindSuccessor(r: RbRoot, right: nat, ghost base: Ctx, ghost R: Tree)
    returns (node: nat, ghost kk: Ctx, ghost ty: Tree)
    requires Zipped(r.cells[..], r.rbNode, base, R) && R.Node? && R.id == right
    ensures Zipped(r.cells[..], r.rbNode, kk, ty) && ty.Node? && ty.left.Leaf? && ty.id == node
    ensures LeftOf(kk, base) && Fill(kk, base, ty) == R
  {
    node := right;
    kk, ty := base, R;
    NodeCells(r.cells[..], r.rbNode, kk, ty);
    while r.cells[node].left.Some?
      invariant Zipped(r.cells[..], r.rbNode, kk, ty) && ty.Node? && ty.id == node && node < r.cells.Length
      invariant r.cells[node].left == Ref(ty.left)
      invariant LeftOf(kk, base) && Fill(kk, base, ty) == R
      decreases ty
    {
      node := r.cells[node].left.value;
      ZipStep(r.cells[..], r.rbNode, true, ty.id, ty.black, ty.right, kk, ty.left);
      LeftDepth(kk, base);
      kk, ty := Down(true, ty.id, ty.black, ty.right, kk), ty.left;
      NodeCells(r.cells[..], r.rbNode, kk, ty);
    }
  }

  /** The successor leaves its place. */
  method Detach(r: RbRoot, node: nat, gone: nat, ghost base: Ctx, ghost kk: Ctx, ghost ty: Tree)
    returns (child: Ptr, parent: nat, black: bool)
    requires Zipped(r.cells[..], r.rbNode, kk, ty) && ty.Node? && ty.left.Leaf? && ty.id == node
    requires LeftOf(kk, base) && base.Down? && !base.side && base.id == gone
    modifies r.cells
    ensures Zipped(r.cells[..], r.rbNode, kk, ty.right) && node !in Ids(ty.right) && node !in CtxIds(kk)
    ensures child == Ref(ty.right) && black == ty.black && kk.Down? && parent == if kk == base then node else kk.id
  {
    ghost var C := r.cells[..];
    NodeCells(C, r.rbNode, kk, ty);
    LeftDepth(kk, base);
    child := r.cells[node].right;
    parent := r.cells[node].parent.value;
    black := r.cells[node].black;
    if child.Some? {
      r.cells[child.value] := r.cells[child.value].(parent := Some(parent));
    }
    if parent == gone {
      r.cells[parent] := r.cells[parent].(right := child);
      parent := node;
    } else {
      r.cells[parent] := r.cells[parent].(left := child);
    }
    BypassZip(C, r.cells[..], r.rbNode, r.rbNode, kk, ty);
  }

  /** The successor takes the place of the node that is to go. */
  method TakePlace(r: RbRoot, node: nat, gone: nat, ghost k: Ctx, ghost t: Tree)
    requires Zipped(r.cells[..], r.rbNode, k, t) && t.Node? && t.id == gone && t.left.Node?
    requires node < r.cells.Length && node !in Ids(t) && node !in CtxIds(k)
    modifies r, r.cells
    ensures Zipped(r.cells[..], r.rbNode, k, t.(id := node))
  {
    ghost var C, root := r.cells[..], r.rbNode;
    NodeCells(C, root, k, t);
    r.cells[node] := r.cells[node].(parent := r.cells[gone].parent, black := r.cells[gone].black);
    r.cells[node] := r.cells[node].(right := r.cells[gone].right);
    r.cells[node] := r.cells[node].(left := r.cells[gone].left);
    var parent := r.cells[gone].parent;
    if parent.Some? {
      if r.cells[parent.value].left == Some(gone) {
        r.cells[parent.value] := r.cells[parent.value].(left := Some(node));
      } else {
        r.cells[parent.value] := r.cells[parent.value].(right := Some(node));
      }
    } else {
      r.rbNode := Some(node);
    }
    var left, right := r.cells[gone].left.value, r.cells[gone].right;
    r.cells[left] := r.cells[left].(parent := Some(node));
    if right.Some? {
      r.cells[right.value] := r.cells[right.value].(parent := Some(node));
    }
    ReplaceZip(C, r.cells[..], root, r.rbNode, k, t, node);
  }

  lemma RefocusFill(C: Heap, root: Ptr, kk: Ctx, base: Ctx, t: Tree)
    requires LeftOf(kk, base) && Zipped(C, root, kk, t)
    ensures Zipped(C, root, base, Fill(kk, base, t))
  {
    FillPlug(kk, base, base, t);
    ZipTop(C, root, kk, t);
    ZipTop(C, root, base, Fill(kk, base, t));
  }

  lemma RefocusRebase(C: Heap, root: Ptr, kk: Ctx, base: Ctx, base': Ctx, t: Tree)
    requires LeftOf(kk, base) && Zipped(C, root, base', Fill(kk, base, t))
    ensures Zipped(C, root, Rebase(kk, base, base'), t)
  {
    FillPlug(kk, base, base', t);
    ZipTop(C, root, base', Fill(kk, base, t));
    ZipTop(C, root, Rebase(kk, base, base'), t);
  }

  lemma SuccessorApart(kk: Ctx, base: Ctx, c: Tree, y: nat, k: Ctx, l: Tree, x: nat, black: bool)
    requires LeftOf(kk, base) && base == Down(false, x, black, l, k) && y !in Ids(c) && y !in CtxIds(kk)
    ensures y !in Ids(Node(l, x, black, Fill(kk, base, c))) && y !in CtxIds(k)
  {
    FillIds(kk, base, c);
    assert y !in Ids(Fill(kk, base, c)) + CtxIds(base);
    assert CtxIds(base) == {x} + Ids(l) + CtxIds(k);
  }

  /** Moving a balanced hole to another base keeps its balance. */
  lemma RebasedRed(kk: Ctx, base: Ctx, base': Ctx, c: Tree)
    requires LeftOf(kk, base) && base.Down? && base'.Down? && base' == base.(id := base'.id) && RedBlack(Plug(kk, c))
    ensures RedBlack(Plug(Rebase(kk, base, base'), c))
  {
    var kk' := Rebase(kk, base, base');
    UnplugEven(kk, c);
    UnplugRoot(kk, c);
    RebaseFits(kk, base, base', BlackHeight(c));
    PlugEven(kk', c);
    PlugRootBlack(kk', c);
  }

  lemma RebasedShort(kk: Ctx, base: Ctx, base': Ctx, c: Tree)
    requires LeftOf(kk, base) && base.Down? && base'.Down? && base' == base.(id := base'.id)
    requires Short(kk, c, InOrder(Plug(kk, c)))
    ensures var kk' := Rebase(kk, base, base'); Short(kk', c, InOrder(Plug(kk', c)))
  {
    RebaseFits(kk, base, base', BlackHeight(c) + 1);
  }

  /** The successor gone from its place, with its node further up, leaves the balance that its
      colour says. */
  lemma RebasedShape(kk: Ctx, base: Ctx, base': Ctx, ty: Tree)
    requires LeftOf(kk, base) && base.Down? && base'.Down? && base' == base.(id := base'.id)
    requires RedBlack(Plug(kk, ty)) && ty.Node? && ty.left.Leaf?
    ensures var kk' := Rebase(kk, base, base');
      if ty.black then Short(kk', ty.right, InOrder(Plug(kk', ty.right))) else RedBlack(Plug(kk', ty.right))
  {
    if ty.black {
      BlackOut(kk, ty);
      RebasedShort(kk, base, base', ty.right);
    } else {
      RedOut(kk, ty);
      RebasedRed(kk, base, base', ty.right);
    }
  }

  lemma BaseOrder(k: Ctx, l: Tree, y: nat, black: bool, t: Tree)
    ensures InOrder(Plug(Down(false, y, black, l, k), t)) == Before(k) + InOrder(l) + ([y] + InOrder(t)) + After(k)
  {
    PlugInOrder(Down(false, y, black, l, k), t);
  }

  lemma RebasedOrder(kk: Ctx, base: Ctx, base': Ctx, ty: Tree, k: Ctx, l: Tree, x: nat, black: bool)
    requires base == Down(false, x, black, l, k) && LeftOf(kk, base) && ty.Node? && ty.left.Leaf?
    requires base' == base.(id := ty.id)
    ensures InOrder(Plug(Rebase(kk, base, base'), ty.right)) ==
      Before(k) + InOrder(l) + InOrder(Fill(kk, base, ty)) + After(k)
  {
    FillPlug(kk, base, base', ty.right);
    BaseOrder(k, l, ty.id, black, Fill(kk, base, ty.right));
    FillFirst(kk, base, ty, ty.right, ty.id);
  }

  /** rb_erase for a node with two children. */
  method EraseInner(r: RbRoot, gone: nat, ghost k: Ctx, ghost t: Tree) returns (ghost T: Tree)
    requires Zipped(r.cells[..], r.rbNode, k, t) && RedBlack(Plug(k, t)) && t.Node? && t.id == gone && t.left.Node?
    requires t.right.Node?
    modifies r, r.cells
    ensures Zipped(r.cells[..], r.rbNode, Top, T) && RedBlack(T)
    ensures InOrder(T) == Before(k) + InOrder(t.left) + InOrder(t.right) + After(k)
  {
    NodeCells(r.cells[..], r.rbNode, k, t);
    ghost var base := Down(false, gone, t.black, t.left, k);
    ZipStep(r.cells[..], r.rbNode, false, gone, t.black, t.left, k, t.right);
    ghost var kk, ty;
    var node;
    node, kk, ty := FindSuccessor(r, r.cells[gone].right.value, base, t.right);
    FillPlug(kk, base, base, ty);
    var child, parent, black := Detach(r, node, gone, base, kk, ty);
    ghost var base', rest := base.(id := node), Fill(kk, base, ty.right);
    RefocusFill(r.cells[..], r.rbNode, kk, base, ty.right);
    ZipStep(r.cells[..], r.rbNode, false, gone, t.black, t.left, k, rest);
    SuccessorApart(kk, base, ty.right, node, k, t.left, gone, t.black);
    TakePlace(r, node, gone, k, Node(t.left, gone, t.black, rest));
    ZipStep(r.cells[..], r.rbNode, false, node, t.black, t.left, k, rest);
    ghost var kk' := Rebase(kk, base, base');
    RefocusRebase(r.cells[..], r.rbNode, kk, base, base', ty.right);
    RebasedShape(kk, base, base', ty);
    RebasedOrder(kk, base, base', ty, k, t.left, gone, t.black);
    T := Recolor(r, black, child, Some(parent), kk', ty.right);
  }

  /** rb_erase: exactly the one node goes, the rest keeps its order, and the tree is
      red-black again. */
  method Erase(r: RbRoot, node: nat, ghost k: Ctx, ghost t: Tree) returns (ghost T: Tree)
    requires Zipped(r.cells[..], r.rbNode, k, t) && RedBlack(Plug(k, t)) && t.Node? && t.id == node
    modifies r, r.cells
    ensures Zipped(r.cells[..], r.rbNode, Top, T) && RedBlack(T)
    ensures InOrder(T) == Before(k) + InOrder(t.left) + InOrder(t.right) + After(k)
  {
    NodeCells(r.cells[..], r.rbNode, k, t);
    if r.cells[node].left.None? || r.cells[node].right.None? {
      PlugInOrder(k, Only(t));
      assert Before(k) + InOrder(Only(t)) == Before(k) + InOrder(t.left) + InOrder(t.right);
      T := EraseEnd(r, node, k, t);
    } else {
      T := EraseInner(r, node, k, t);
    }
  }
}
