/** The red-black tree of rbtree.c: rotations, insertion, removal and the walks in order. A
    node is named by its index in the array of cells, as a pointer names it in memory; what
    the program does on the left and, mirrored, on the right is written once, with the side
    as a parameter. */
module RbTree {
  import opened Bpf
  import opened RbShape

  // ----- rotation -----

  /** Cell z after node x has been rotated down to the given side and y has taken its place. */
  function Rotated(C: Heap, side: bool, x: nat, y: nat, inner: Ptr, par: Ptr, z: nat): Cell
    requires z < |C|
  {
    if z == x then SetKid(C[z], !side, inner).(parent := Some(y))
    else if z == y then SetKid(C[z], side, Some(x)).(parent := par)
    else if inner == Some(z) then C[z].(parent := Some(x))
    else if par == Some(z) then SetKid(C[z], if Kid(C[z], side) == Some(x) then side else !side, Some(y))
    else C[z]
  }

  /** Three trees and two nodes without a node in common, nor with the node par. */
  predicate Apart(a: Tree, x: nat, b: Tree, y: nat, c: Tree, par: Ptr) {
    && Proper(a) && Proper(b) && Proper(c) && x != y
    && x !in Ids(a) && x !in Ids(b) && x !in Ids(c) && y !in Ids(a) && y !in Ids(b) && y !in Ids(c)
    && Ids(a) !! Ids(b) && Ids(a) !! Ids(c) && Ids(b) !! Ids(c)
    && (par.Some? ==>
         par.value != x && par.value != y && par.value !in Ids(a) && par.value !in Ids(b) && par.value !in Ids(c))
  }

  lemma RotatedParts(C: Heap, C': Heap, side: bool, a: Tree, x: nat, b: Tree, y: nat, c: Tree, par: Ptr)
    requires Apart(a, x, b, y, c, par) && |C'| == |C|
    requires Holds(C, a, Some(x)) && Holds(C, b, Some(y)) && Holds(C, c, Some(y))
    requires forall z: nat :: z < |C| ==> C'[z] == Rotated(C, side, x, y, Ref(b), par, z)
    ensures Holds(C', a, Some(x)) && Holds(C', b, Some(x)) && Holds(C', c, Some(y))
  {
    if b.Node? {
      RefHeld(C, b, Some(y));
    }
    forall z | z in Ids(a) && z < |C| ensures C'[z] == C[z] {
    }
    HoldsFrame(C, C', a, Some(x));
    HoldsFrame(C, C', c, Some(y));
    HoldsReparent(C, C', b, Some(y), Some(x));
  }

  lemma RotatedTree(C: Heap, C': Heap, side: bool, a: Tree, x: nat, cx: bool, b: Tree, y: nat, cy: bool, c: Tree,
                    par: Ptr)
    requires Apart(a, x, b, y, c, par) && |C'| == |C|
    requires Holds(C, Mk(side, a, x, cx, Mk(side, b, y, cy, c)), par)
    requires forall z: nat :: z < |C| ==> C'[z] == Rotated(C, side, x, y, Ref(b), par, z)
    ensures Holds(C', Mk(side, Mk(side, a, x, cx, b), y, cy, c), par)
  {
    MkFacts(C, side, a, x, cx, Mk(side, b, y, cy, c), par);
    MkFacts(C, side, b, y, cy, c, Some(x));
    RotatedParts(C, C', side, a, x, b, y, c, par);
    MkFacts(C', side, Mk(side, a, x, cx, b), y, cy, c, par);
    MkFacts(C', side, a, x, cx, b, Some(y));
  }

  lemma MkApart(C: Heap, side: bool, a: Tree, x: nat, cx: bool, b: Tree, y: nat, cy: bool, c: Tree, k: Ctx)
    requires var t := Mk(side, a, x, cx, Mk(side, b, y, cy, c)); Proper(t) && Ids(t) !! CtxIds(k)
    ensures Apart(a, x, b, y, c, Above(k))
    ensures var t, t' := Mk(side, a, x, cx, Mk(side, b, y, cy, c)), Mk(side, Mk(side, a, x, cx, b), y, cy, c);
      Ids(t') == Ids(t) == Ids(a) + {x} + Ids(b) + {y} + Ids(c) && Proper(t')
  {
    MkFacts(C, side, a, x, cx, Mk(side, b, y, cy, c), Above(k));
    MkFacts(C, side, b, y, cy, c, Some(x));
    MkFacts(C, side, Mk(side, a, x, cx, b), y, cy, c, Above(k));
    MkFacts(C, side, a, x, cx, b, Some(y));
    assert Above(k).Some? ==> Above(k).value in CtxIds(k);
  }

  lemma RotatedCtx(C: Heap, C': Heap, root: Ptr, root': Ptr, side: bool, k: Ctx, x: nat, y: nat, inner: Ptr)
    requires HoldsCtx(C, root, k, Some(x)) && CtxProper(k) && |C'| == |C| && x !in CtxIds(k) && y !in CtxIds(k)
    requires inner.Some? ==> inner.value !in CtxIds(k)
    requires forall z: nat :: z < |C| ==> C'[z] == Rotated(C, side, x, y, inner, Above(k), z)
    requires root' == if k.Top? then Some(y) else root
    ensures HoldsCtx(C', root', k, Some(y))
  {
    if k.Down? {
      CtxFacts(C, root, k.side, k.id, k.black, k.sib, k.up, Some(x));
      if k.sib.Node? {
        RefHeld(C, k.sib, Some(k.id));
      }
      assert C'[k.id] == SetKid(C[k.id], k.side, Some(y));
    }
    CtxRefocus(C, C', root, root', k, Some(x), Some(y));
  }

  lemma RotatedZip(C: Heap, C': Heap, root: Ptr, root': Ptr, side: bool, k: Ctx, a: Tree, x: nat, cx: bool, b: Tree,
                   y: nat, cy: bool, c: Tree)
    requires Zipped(C, root, k, Mk(side, a, x, cx, Mk(side, b, y, cy, c))) && |C'| == |C|
    requires forall z: nat :: z < |C| ==> C'[z] == Rotated(C, side, x, y, Ref(b), Above(k), z)
    requires root' == if k.Top? then Some(y) else root
    ensures Zipped(C', root', k, Mk(side, Mk(side, a, x, cx, b), y, cy, c))
  {
    MkApart(C, side, a, x, cx, b, y, cy, c, k);
    RotatedTree(C, C', side, a, x, cx, b, y, cy, c, Above(k));
    assert b.Node? ==> b.id in Ids(b);
    RotatedCtx(C, C', root, root', side, k, x, y, Ref(b));
  }

  class RbRoot {
    var rbNode: Ptr
    const cells: array<Cell>

    constructor (cells: array<Cell>)
      ensures this.cells == cells && rbNode == None
    {
      this.cells, rbNode := cells, None;
    }

    /** The assignments of __rb_rotate_left when side is set, of __rb_rotate_right otherwise. */
    method RotateCells(side: bool, node: nat)
      requires node < cells.Length && Kid(cells[node], !side).Some?
      requires var up := Kid(cells[node], !side).value;
        && up < cells.Length && up != node
        && (var inner := Kid(cells[up], side);
            inner.Some? ==>
              inner.value < cells.Length && inner.value != node && inner.value != up && inner != cells[node].parent)
        && (var top := cells[node].parent;
            top.Some? ==> top.value < cells.Length && top.value != node && top.value != up)
      modifies this, cells
      ensures var C := old(cells[..]); var up := Kid(C[node], !side).value;
        && (forall z: nat :: z < |C| ==> cells[z] == Rotated(C, side, node, up, Kid(C[up], side), C[node].parent, z))
        && rbNode == if C[node].parent.None? then Some(up) else old(rbNode)
    {
      var up := Kid(cells[node], !side).value;
      var parent := cells[node].parent;
      var inner := Kid(cells[up], side);
      cells[node] := SetKid(cells[node], !side, inner);
      if inner.Some? {
        cells[inner.value] := cells[inner.value].(parent := Some(node));
      }
      cells[up] := SetKid(cells[up], side, Some(node));
      cells[up] := cells[up].(parent := parent);
      if parent.Some? {
        var q := parent.value;
        if Kid(cells[q], side) == Some(node) {
          cells[q] := SetKid(cells[q], side, Some(up));
        } else {
          cells[q] := SetKid(cells[q], !side, Some(up));
        }
      } else {
        rbNode := Some(up);
      }
      cells[node] := cells[node].(parent := Some(up));
    }

    method Rotate(side: bool, x: nat, ghost k: Ctx, ghost a: Tree, ghost cx: bool, ghost b: Tree, ghost y: nat,
                  ghost cy: bool, ghost c: Tree)
      requires Zipped(cells[..], rbNode, k, Mk(side, a, x, cx, Mk(side, b, y, cy, c)))
      modifies this, cells
      ensures Zipped(cells[..], rbNode, k, Mk(side, Mk(side, a, x, cx, b), y, cy, c))
    {
      ghost var C, root := cells[..], rbNode;
      RotateDistinct(C, root, side, k, a, x, cx, b, y, cy, c);
      RotateCells(side, x);
      RotatedZip(C, cells[..], root, rbNode, side, k, a, x, cx, b, y, cy, c);
    }

    /** rb_set_black and rb_set_red */
    method SetColor(node: nat, black: bool, ghost k: Ctx, ghost t: Tree)
      requires Zipped(cells[..], rbNode, k, t) && t.Node? && t.id == node
      modifies cells
      ensures Zipped(cells[..], rbNode, k, Paint(t, black))
    {
      ghost var C := cells[..];
      cells[node] := cells[node].(black := black);
      PaintZip(C, cells[..], rbNode, k, t, black);
    }

    // ----- rb_insert_color -----

    /** The case of a red uncle: the red moves up to the grandparent. */
    method PushRed(parent: nat, gparent: nat, uncle: nat, ghost k: Ctx, ghost s: bool, ghost t: Tree, ghost sib: Tree,
                   ghost s2: bool, ghost u: Tree)
      requires Zipped(cells[..], rbNode, Down(s, parent, false, sib, Down(s2, gparent, true, u, k)), t) && u.Node?
      requires u.id == uncle
      modifies cells
      ensures Zipped(cells[..], rbNode, k, Mk(s2, Mk(s, t, parent, true, sib), gparent, false, Paint(u, true)))
    {
      ghost var p, root := Mk(s, t, parent, false, sib), rbNode;
      ZipStep(cells[..], root, s, parent, false, sib, Down(s2, gparent, true, u, k), t);
      ZipTurn(cells[..], root, s2, gparent, true, u, k, p);
      SetColor(uncle, true, Down(!s2, gparent, true, p, k), u);
      ZipTurn(cells[..], root, !s2, gparent, true, p, k, Paint(u, true));
      SetColor(parent, true, Down(s2, gparent, true, Paint(u, true), k), p);
      ZipStep(cells[..], root, s2, gparent, true, Paint(u, true), k, Paint(p, true));
      SetColor(gparent, false, k, Mk(s2, Paint(p, true), gparent, true, Paint(u, true)));
    }

    /** The case of a black uncle, once the red node and its red parent are on the same side:
        the parent, black now, takes the place of the grandparent. */
    method Raise(parent: nat, gparent: nat, s2: bool, ghost k: Ctx, ghost t: Tree, ghost sib: Tree, ghost u: Tree)
      requires Zipped(cells[..], rbNode, k, Mk(s2, Mk(s2, t, parent, false, sib), gparent, true, u))
      modifies this, cells
      ensures Zipped(cells[..], rbNode, k, Mk(s2, t, parent, true, Mk(s2, sib, gparent, false, u)))
    {
      ghost var p := Mk(s2, t, parent, false, sib);
      ZipStep(cells[..], rbNode, s2, gparent, true, u, k, p);
      SetColor(parent, true, Down(s2, gparent, true, u, k), p);
      ZipStep(cells[..], rbNode, s2, gparent, true, u, k, Paint(p, true));
      SetColor(gparent, false, k, Mk(s2, Paint(p, true), gparent, true, u));
      Rotate(!s2, gparent, k, u, false, sib, parent, true, t);
    }

    /** The red node on the inner side of its red parent: a rotation puts it in the parent's
        place, with the parent as the red node on the outer side. */
    method Straighten(parent: nat, side: bool, ghost sib: Tree, ghost gparent: nat, ghost u: Tree, ghost up: Ctx,
                      ghost b: Tree, ghost node: nat, ghost c: Tree, ghost order: seq<nat>)
      requires Zipped(cells[..], rbNode, Down(!side, parent, false, sib, Down(side, gparent, true, u, up)),
                      Mk(side, b, node, false, c))
      requires RedFocus(Down(!side, parent, false, sib, Down(side, gparent, true, u, up)),
                        Mk(side, b, node, false, c), order)
      modifies this, cells
      ensures Zipped(cells[..], rbNode, Down(side, node, false, c, Down(side, gparent, true, u, up)),
                     Mk(side, sib, parent, false, b))
      ensures RedFocus(Down(side, node, false, c, Down(side, gparent, true, u, up)),
                       Mk(side, sib, parent, false, b), order)
    {
      ghost var k := Down(side, gparent, true, u, up);
      StraightenShape(parent, sib, side, gparent, u, up, b, node, c, order);
      ZipStep(cells[..], rbNode, !side, parent, false, sib, k, Mk(side, b, node, false, c));
      Rotate(side, parent, k, sib, false, b, node, false, c);
      ZipStep(cells[..], rbNode, side, node, false, c, k, Mk(side, sib, parent, false, b));
    }

    /** Raise, seen from the red node. */
    method RaiseAbove(parent: nat, gparent: nat, side: bool, ghost sib: Tree, ghost u: Tree, ghost up: Ctx,
                      ghost t: Tree, ghost order: seq<nat>)
      requires Zipped(cells[..], rbNode, Down(side, parent, false, sib, Down(side, gparent, true, u, up)), t)
      requires RedFocus(Down(side, parent, false, sib, Down(side, gparent, true, u, up)), t, order) && BlackRoot(u)
      modifies this, cells
      ensures Zipped(cells[..], rbNode, Down(side, parent, true, Mk(side, sib, gparent, false, u), up), t)
      ensures RedFocus(Down(side, parent, true, Mk(side, sib, gparent, false, u), up), t, order)
    {
      RaiseShape(parent, sib, side, gparent, u, up, t, order);
      ZipStep(cells[..], rbNode, side, parent, false, sib, Down(side, gparent, true, u, up), t);
      ZipStep(cells[..], rbNode, side, gparent, true, u, up, Mk(side, t, parent, false, sib));
      Raise(parent, gparent, side, up, t, sib, u);
      ZipStep(cells[..], rbNode, side, parent, true, Mk(side, sib, gparent, false, u), up, t);
    }

    /** One round of rb_insert_color's loop, at a red node whose parent is red. */
    method InsertStep(node0: nat, ghost k0: Ctx, ghost t0: Tree, ghost order: seq<nat>)
      returns (node: nat, ghost k: Ctx, ghost t: Tree)
      requires Zipped(cells[..], rbNode, k0, t0) && RedFocus(k0, t0, order) && t0.id == node0 && k0.Down? && !k0.black
      modifies this, cells
      ensures Zipped(cells[..], rbNode, k, t) && RedFocus(k, t, order) && t.id == node && Depth(k) < Depth(k0)
    {
      ghost var s, sib, s2, u, up := k0.side, k0.sib, k0.up.side, k0.up.sib, k0.up.up;
      RefHeld(cells[..], t0, Above(k0));
      node := node0;
      var parent := cells[node].parent.value;
      CtxFacts(cells[..], rbNode, s, parent, false, sib, k0.up, Some(node));
      var gparent := cells[parent].parent.value;
      SideRight(cells[..], rbNode, s, parent, false, sib, s2, gparent, true, u, up, t0);
      var side := cells[gparent].left == Some(parent);
      var uncle := Kid(cells[gparent], !side);
      if uncle.Some? && !cells[uncle.value].black {
        PushRedShape(s, parent, sib, s2, gparent, u, up, t0, order);
        PushRed(parent, gparent, uncle.value, up, s, t0, sib, s2, u);
        node := gparent;
        t, k := Mk(s2, Mk(s, t0, parent, true, sib), gparent, false, Paint(u, true)), up;
      } else if Kid(cells[parent], !side) == Some(node) {
        ghost var b, c := if s2 then t0.left else t0.right, if s2 then t0.right else t0.left;
        Straighten(parent, side, sib, gparent, u, up, b, node, c, order);
        t, k := Mk(s2, sib, parent, false, b), Down(s2, node, true, Mk(s2, c, gparent, false, u), up);
        RaiseAbove(node, gparent, side, c, u, up, t, order);
        node := parent;
      } else {
        RaiseAbove(parent, gparent, side, sib, u, up, t0, order);
        t, k := t0, Down(s2, parent, true, Mk(s2, sib, gparent, false, u), up);
      }
    }

    /** rb_insert_color: node is the red node the loop starts from. */
    method InsertColor(node0: nat, ghost k0: Ctx, ghost t0: Tree) returns (ghost T: Tree)
      requires Zipped(cells[..], rbNode, k0, t0) && RedFocus(k0, t0, InOrder(Plug(k0, t0))) && t0.id == node0
      modifies this, cells
      ensures Zipped(cells[..], rbNode, Top, T) && RedBlack(T) && InOrder(T) == InOrder(Plug(k0, t0))
    {
      ghost var order := InOrder(Plug(k0, t0));
      var node := node0;
      ghost var k, t := k0, t0;
      RedParent(cells[..], rbNode, k, t);
      while cells[node].parent.Some? && !cells[cells[node].parent.value].black
        invariant Zipped(cells[..], rbNode, k, t) && RedFocus(k, t, order) && node == t.id && node < cells.Length
        invariant cells[node].parent == Above(k)
        invariant k.Down? ==> k.id < cells.Length && cells[k.id].black == k.black
        decreases Depth(k)
      {
        node, k, t := InsertStep(node, k, t, order);
        RedParent(cells[..], rbNode, k, t);
      }
      PlugEven(k, t);
      ZipTop(cells[..], rbNode, k, t);
      T := Plug(k, t);
      PlugNode(k, t);
      SetColor(rbNode.value, true, Top, T);
      T := Paint(T, true);
    }

    // ----- __rb_erase_color -----

    /** A red sibling: after the rotation the sibling is black. */
    method LowerSibling(s: bool, parent: nat, other: nat, ghost up: Ctx, ghost t: Tree, ghost inner: Tree,
                        ghost outer: Tree, ghost order: seq<nat>)
      requires Zipped(cells[..], rbNode, Down(s, parent, true, Mk(s, inner, other, false, outer), up), t)
      requires Short(Down(s, parent, true, Mk(s, inner, other, false, outer), up), t, order)
      modifies this, cells
      ensures Zipped(cells[..], rbNode, Down(s, parent, false, inner, Down(s, other, true, outer, up)), t)
      ensures Short(Down(s, parent, false, inner, Down(s, other, true, outer, up)), t, order)
    {
      ghost var o, root := Mk(s, inner, other, false, outer), rbNode;
      LowerShape(s, parent, other, up, t, inner, outer, order);
      ZipTurn(cells[..], root, s, parent, true, o, up, t);
      SetColor(other, true, Down(!s, parent, true, t, up), o);
      ZipTurn(cells[..], root, !s, parent, true, t, up, Paint(o, true));
      ZipStep(cells[..], root, s, parent, true, Paint(o, true), up, t);
      SetColor(parent, false, up, Mk(s, t, parent, true, Paint(o, true)));
      Rotate(s, parent, up, t, false, inner, other, true, outer);
      ZipStep(cells[..], rbNode, s, other, true, outer, up, Mk(s, t, parent, false, inner));
      ZipStep(cells[..], rbNode, s, parent, false, inner, Down(s, other, true, outer, up), t);
    }

    /** A black sibling with black children: it turns red, and the missing black is the
        parent's. */
    method ReddenSibling(s: bool, parent: nat, ghost black: bool, ghost o: Tree, ghost up: Ctx, ghost t: Tree,
                         ghost order: seq<nat>, other: nat)
      requires Zipped(cells[..], rbNode, Down(s, parent, black, o, up), t)
      requires Short(Down(s, parent, black, o, up), t, order)
      requires o.Node? && o.id == other && o.black && BlackRoot(o.left) && BlackRoot(o.right) && BlackRoot(t)
      modifies cells
      ensures Zipped(cells[..], rbNode, up, Mk(s, t, parent, black, Paint(o, false)))
      ensures Short(up, Mk(s, t, parent, black, Paint(o, false)), order)
    {
      ReddenShape(s, parent, black, o, up, t, order);
      ZipTurn(cells[..], rbNode, s, parent, black, o, up, t);
      SetColor(other, false, Down(!s, parent, black, t, up), o);
      ZipTurn(cells[..], rbNode, !s, parent, black, t, up, Paint(o, false));
      ZipStep(cells[..], rbNode, s, parent, black, Paint(o, false), up, t);
    }

    /** A black sibling whose red child is the inner one: after the rotation it is the outer
        one. */
    method TiltSibling(s: bool, parent: nat, ghost black: bool, ghost up: Ctx, ghost t: Tree, other: nat,
                       inner: nat, ghost i1: Tree, ghost i2: Tree, ghost outer: Tree, ghost order: seq<nat>)
      requires var k := Down(s, parent, black, Mk(s, Mk(s, i1, inner, false, i2), other, true, outer), up);
        Zipped(cells[..], rbNode, k, t) && Short(k, t, order) && BlackRoot(outer)
      modifies this, cells
      ensures var k := Down(s, parent, black, Mk(s, i1, inner, true, Mk(s, i2, other, false, outer)), up);
        Zipped(cells[..], rbNode, k, t) && Short(k, t, order)
    {
      ghost var i, k := Mk(s, i1, inner, false, i2), Down(!s, parent, black, t, up);
      TiltShape(s, parent, black, up, t, other, inner, i1, i2, outer, order);
      ZipTurn(cells[..], rbNode, s, parent, black, Mk(s, i, other, true, outer), up, t);
      ZipStep(cells[..], rbNode, s, other, true, outer, k, i);
      SetColor(inner, true, Down(s, other, true, outer, k), i);
      ZipStep(cells[..], rbNode, s, other, true, outer, k, Paint(i, true));
      SetColor(other, false, k, Mk(s, Paint(i, true), other, true, outer));
      Rotate(!s, other, k, outer, false, i2, inner, true, i1);
      ZipTurn(cells[..], rbNode, s, parent, black, Mk(s, i1, inner, true, Mk(s, i2, other, false, outer)), up, t);
    }

    /** A black sibling whose outer child is red: its colours and a rotation make up for the
        missing black. */
    method FillIn(s: bool, parent: nat, ghost black: bool, ghost up: Ctx, ghost t: Tree, other: nat, outer: nat,
                  ghost inner: Tree, ghost out: Tree, ghost order: seq<nat>)
      requires var k := Down(s, parent, black, Mk(s, inner, other, true, out), up);
        && Zipped(cells[..], rbNode, k, t) && Short(k, t, order) && BlackRoot(t)
        && out.Node? && !out.black && out.id == outer
      modifies this, cells
      ensures Zipped(cells[..], rbNode, up, Mk(s, Mk(s, t, parent, true, inner), other, black, Paint(out, true)))
      ensures var t' := Mk(s, Mk(s, t, parent, true, inner), other, black, Paint(out, true));
        && Even(t') && RedsApart(t') && Fits(up, BlackHeight(t')) && (BlackRoot(t') || BlackAbove(up))
        && InOrder(Plug(up, t')) == order
    {
      ghost var o, k := Mk(s, inner, other, true, out), Down(!s, parent, black, t, up);
      FillShape(s, parent, black, up, t, other, inner, out, order);
      ZipTurn(cells[..], rbNode, s, parent, black, o, up, t);
      RedParent(cells[..], rbNode, k, o);
      SetColor(other, cells[parent].black, k, o);
      ZipTurn(cells[..], rbNode, !s, parent, black, t, up, Paint(o, black));
      ZipStep(cells[..], rbNode, s, parent, black, Paint(o, black), up, t);
      SetColor(parent, true, up, Mk(s, t, parent, black, Paint(o, black)));
      ZipStep(cells[..], rbNode, s, parent, true, Paint(o, black), up, t);
      ZipTurn(cells[..], rbNode, s, parent, true, Paint(o, black), up, t);
      ghost var k' := Down(!s, parent, true, t, up);
      ZipStep(cells[..], rbNode, !s, other, black, inner, k', out);
      SetColor(outer, true, Down(!s, other, black, inner, k'), out);
      ZipStep(cells[..], rbNode, !s, other, black, inner, k', Paint(out, true));
      ZipTurn(cells[..], rbNode, !s, parent, true, t, up, Mk(s, inner, other, black, Paint(out, true)));
      ZipStep(cells[..], rbNode, s, parent, true, Mk(s, inner, other, black, Paint(out, true)), up, t);
      Rotate(s, parent, up, t, true, inner, other, black, Paint(out, true));
    }

    /** The second half of the loop of __rb_erase_color, with a black sibling; stop is set when
        the missing black has been made up for. */
    method EraseBlackSibling(s: bool, parent: nat, other: nat, ghost black: bool, ghost o: Tree, ghost up: Ctx,
                             ghost t: Tree, ghost order: seq<nat>)
      returns (stop: bool, ghost t': Tree)
      requires Zipped(cells[..], rbNode, Down(s, parent, black, o, up), t)
      requires Short(Down(s, parent, black, o, up), t, order)
      requires BlackRoot(t) && o.Node? && o.id == other && o.black
      modifies this, cells
      ensures Zipped(cells[..], rbNode, up, t') && t'.Node? && InOrder(Plug(up, t')) == order
      ensures !stop ==> Short(up, t', order) && t'.id == parent && t'.black == black
      ensures stop ==> Even(t') && RedsApart(t') && Fits(up, BlackHeight(t')) && (BlackRoot(t') || BlackAbove(up))
    {
      ghost var near, far := if s then o.left else o.right, if s then o.right else o.left;
      SiblingCells(cells[..], rbNode, s, parent, black, up, t, near, other, far);
      var o1, o2 := Kid(cells[other], s), Kid(cells[other], !s);
      if (o1.None? || cells[o1.value].black) && (o2.None? || cells[o2.value].black) {
        ReddenSibling(s, parent, black, o, up, t, order, other);
        stop, t' := false, Mk(s, t, parent, black, Paint(o, false));
      } else if o2.None? || cells[o2.value].black {
        ghost var i1, i2 := if s then near.left else near.right, if s then near.right else near.left;
        TiltSibling(s, parent, black, up, t, other, o1.value, i1, i2, far, order);
        FillIn(s, parent, black, up, t, o1.value, other, i1, Mk(s, i2, other, false, far), order);
        stop, t' := true, Mk(s, Mk(s, t, parent, true, i1), o1.value, black, Paint(Mk(s, i2, other, false, far), true));
      } else {
        FillIn(s, parent, black, up, t, other, o2.value, near, far, order);
        stop, t' := true, Mk(s, Mk(s, t, parent, true, near), other, black, Paint(far, true));
      }
    }

    /** One round of the loop of __rb_erase_color. */
    method EraseStep(node: Ptr, parent: nat, ghost k0: Ctx, ghost t: Tree, ghost order: seq<nat>)
      returns (stop: bool, ghost k: Ctx, ghost t': Tree)
      requires Zipped(cells[..], rbNode, k0, t) && Short(k0, t, order) && BlackRoot(t) && k0.Down?
      requires node == Ref(t) && Some(parent) == Above(k0)
      modifies this, cells
      ensures Zipped(cells[..], rbNode, k, t') && t'.Node? && InOrder(Plug(k, t')) == order
      ensures !stop ==> Short(k, t', order) && t'.id == parent && Pending(k, t') < Pending(k0, t)
      ensures stop ==> Even(t') && RedsApart(t') && Fits(k, BlackHeight(t')) && (BlackRoot(t') || BlackAbove(k))
    {
      ghost var black, sib, up := k0.black, k0.sib, k0.up;
      SideOf(cells[..], rbNode, k0, t);
      var s := cells[parent].left == node;
      var other := Kid(cells[parent], !s).value;
      if !cells[other].black {
        ghost var inner, outer := if s then sib.left else sib.right, if s then sib.right else sib.left;
        FitsDown(s, parent, black, sib, up, BlackHeight(t) + 1);
        LowerSibling(s, parent, other, up, t, inner, outer, order);
        k := Down(s, other, true, outer, up);
        SideOf(cells[..], rbNode, Down(s, parent, false, inner, k), t);
        other := Kid(cells[parent], !s).value;
        stop, t' := EraseBlackSibling(s, parent, other, false, inner, k, t, order);
      } else {
        k := up;
        stop, t' := EraseBlackSibling(s, parent, other, black, sib, up, t, order);
      }
    }

    /** __rb_erase_color */
    method EraseColor(node0: Ptr, parent0: Ptr, ghost k0: Ctx, ghost t0: Tree) returns (ghost T: Tree)
      requires Zipped(cells[..], rbNode, k0, t0) && Short(k0, t0, InOrder(Plug(k0, t0)))
      requires node0 == Ref(t0) && parent0 == Above(k0)
      modifies this, cells
      ensures Zipped(cells[..], rbNode, Top, T) && RedBlack(T) && InOrder(T) == InOrder(Plug(k0, t0))
    {
      ghost var order := InOrder(Plug(k0, t0));
      var node, parent, stop := node0, parent0, false;
      ghost var k, t := k0, t0;
      AtRoot(cells[..], rbNode, k, t);
      while !stop && (node.None? || cells[node.value].black) && node != rbNode
        invariant Zipped(cells[..], rbNode, k, t) && InOrder(Plug(k, t)) == order
        invariant !stop ==> Short(k, t, order) && node == Ref(t) && parent == Above(k)
        invariant stop ==> Even(t) && RedsApart(t) && Fits(k, BlackHeight(t)) && (BlackRoot(t) || BlackAbove(k))
        invariant stop ==> t.Node?
        invariant t.Node? ==> t.id < cells.Length && cells[t.id].black == t.black
        invariant k.Top? <==> rbNode == Ref(t)
        decreases !stop, Pending(k, t)
      {
        stop, k, t := EraseStep(node, parent.value, k, t, order);
        if stop {
          node := rbNode;
        } else {
          RedParent(cells[..], rbNode, k, t);
          node := parent;
          parent := cells[node.value].parent;
        }
        AtRoot(cells[..], rbNode, k, t);
      }
      if stop {
        PlugEven(k, t);
        ZipTop(cells[..], rbNode, k, t);
        T := Plug(k, t);
        PlugNode(k, t);
        SetColor(rbNode.value, true, Top, T);
        T := Paint(T, true);
      } else {
        T := Plug(k, Paint(t, true));
        if node.Some? {
          SetColor(node.value, true, k, t);
        }
        SettleShape(k, t, order);
        ZipTop(cells[..], rbNode, k, Paint(t, true));
      }
    }
  }

  /** How far the missing black can still travel. */
  function Pending(k: Ctx, t: Tree): nat {
    2 * Depth(k) + if BlackRoot(t) then 1 else 0
  }

  lemma AtRoot(C: Heap, root: Ptr, k: Ctx, t: Tree)
    requires Zipped(C, root, k, t)
    ensures k.Top? <==> root == Ref(t)
    ensures t.Node? ==> t.id < |C| && C[t.id].black == t.black
  {
    if t.Node? {
      RefHeld(C, t, Above(k));
    }
    if k.Down? {
      RootInCtx(C, root, k, Ref(t));
    }
  }

  lemma {:induction false} RootInCtx(C: Heap, root: Ptr, k: Ctx, p: Ptr)
    requires HoldsCtx(C, root, k, p) && k.Down?
    ensures root.Some? && root.value in CtxIds(k)
    decreases k
  {
    if k.up.Down? {
      RootInCtx(C, root, k.up, Some(k.id));
    }
  }

  lemma {:induction false} PlugRootBlack(k: Ctx, t: Tree)
    requires RootBlack(k) && (k.Top? ==> BlackRoot(t))
    ensures BlackRoot(Plug(k, t))
    decreases k
  {
    if k.Down? {
      PlugRootBlack(k.up, Mk(k.side, t, k.id, k.black, k.sib));
    }
  }

  /** When the missing black meets a red node or the root, painting it black is enough. */
  lemma SettleShape(k: Ctx, t: Tree, order: seq<nat>)
    requires Short(k, t, order) && (k.Top? || !BlackRoot(t))
    ensures RedBlack(Plug(k, Paint(t, true))) && InOrder(Plug(k, Paint(t, true))) == order
  {
    PlugEven(k, Paint(t, true));
    PlugRootBlack(k, Paint(t, true));
    SameOrder(k, t, Paint(t, true));
  }

  /** What the program finds at the children of a sibling. */
  lemma SiblingCells(C: Heap, root: Ptr, s: bool, p: nat, black: bool, up: Ctx, t: Tree, near: Tree, o: nat, far: Tree)
    requires Zipped(C, root, Down(s, p, black, Mk(s, near, o, true, far), up), t)
    ensures o < |C| && Kid(C[o], s) == Ref(near) && Kid(C[o], !s) == Ref(far)
    ensures near.Node? ==> near.id < |C| && C[near.id].black == near.black
    ensures far.Node? ==> far.id < |C| && C[far.id].black == far.black
  {
    CtxFacts(C, root, s, p, black, Mk(s, near, o, true, far), up, Ref(t));
    MkFacts(C, s, near, o, true, far, Some(p));
    if near.Node? {
      RefHeld(C, near, Some(o));
    }
    if far.Node? {
      RefHeld(C, far, Some(o));
    }
  }

  /** A subtree that is one black short has a sibling, and the program finds its side. */
  lemma SideOf(C: Heap, root: Ptr, k: Ctx, t: Tree)
    requires Zipped(C, root, k, t) && k.Down? && Fits(k, BlackHeight(t) + 1)
    ensures k.id < |C| && (C[k.id].left == Ref(t) <==> k.side) && k.sib.Node?
    ensures Kid(C[k.id], !k.side) == Some(k.sib.id) && k.sib.id < |C| && C[k.sib.id].black == k.sib.black
  {
    CtxFacts(C, root, k.side, k.id, k.black, k.sib, k.up, Ref(t));
    FitsDown(k.side, k.id, k.black, k.sib, k.up, BlackHeight(t) + 1);
    RefHeld(C, k.sib, Some(k.id));
    if t.Node? {
      RefHeld(C, t, Some(k.id));
    }
  }

  /** The subtree t of a tree that has the nodes of order in order is one black short. */
  predicate Short(k: Ctx, t: Tree, order: seq<nat>) {
    && Even(t) && RedsApart(Paint(t, true)) && Fits(k, BlackHeight(t) + 1) && RootBlack(k)
    && InOrder(Plug(k, t)) == order
  }

  lemma LowerShape(s: bool, p: nat, o: nat, up: Ctx, t: Tree, inner: Tree, outer: Tree, order: seq<nat>)
    requires Short(Down(s, p, true, Mk(s, inner, o, false, outer), up), t, order)
    ensures Short(Down(s, p, false, inner, Down(s, o, true, outer, up)), t, order)
  {
    var sib, h := Mk(s, inner, o, false, outer), BlackHeight(t) + 1;
    FitsDown(s, p, true, sib, up, h);
    FitsDown(s, o, true, outer, up, h);
    FitsDown(s, p, false, inner, Down(s, o, true, outer, up), h);
    SpliceOrder(s, t, p, inner, o, outer, true, false, false, true);
    PlugDown(s, p, true, sib, up, t);
    PlugDown(s, p, false, inner, Down(s, o, true, outer, up), t);
    PlugDown(s, o, true, outer, up, Mk(s, t, p, false, inner));
    SameOrder(up, Mk(s, t, p, true, sib), Mk(s, Mk(s, t, p, false, inner), o, true, outer));
  }

  lemma ReddenShape(s: bool, p: nat, black: bool, o: Tree, up: Ctx, t: Tree, order: seq<nat>)
    requires Short(Down(s, p, black, o, up), t, order)
    requires o.Node? && o.black && BlackRoot(o.left) && BlackRoot(o.right) && BlackRoot(t)
    ensures Short(up, Mk(s, t, p, black, Paint(o, false)), order)
  {
    var t' := Mk(s, t, p, black, Paint(o, false));
    FitsDown(s, p, black, o, up, BlackHeight(t) + 1);
    PlugDown(s, p, black, o, up, t);
    SameOrder(up, Mk(s, t, p, black, o), t');
  }

  lemma TiltShape(s: bool, p: nat, black: bool, up: Ctx, t: Tree, o: nat, i: nat, i1: Tree, i2: Tree, outer: Tree,
                  order: seq<nat>)
    requires Short(Down(s, p, black, Mk(s, Mk(s, i1, i, false, i2), o, true, outer), up), t, order) && BlackRoot(outer)
    ensures Short(Down(s, p, black, Mk(s, i1, i, true, Mk(s, i2, o, false, outer)), up), t, order)
  {
    var inner := Mk(s, i1, i, false, i2);
    var sib, sib' := Mk(s, inner, o, true, outer), Mk(s, i1, i, true, Mk(s, i2, o, false, outer));
    FitsDown(s, p, black, sib, up, BlackHeight(t) + 1);
    TiltedSibling(s, o, i, i1, i2, outer);
    FitsDown(s, p, black, sib', up, BlackHeight(t) + 1);
    SpliceOrder(s, i1, i, i2, o, outer, true, false, false, true);
    PlugDown(s, p, black, sib, up, t);
    PlugDown(s, p, black, sib', up, t);
    SameSibling(s, p, black, up, t, sib, sib');
  }

  lemma TiltedSibling(s: bool, o: nat, i: nat, i1: Tree, i2: Tree, outer: Tree)
    requires var sib := Mk(s, Mk(s, i1, i, false, i2), o, true, outer); Even(sib) && RedsApart(sib) && BlackRoot(outer)
    ensures var sib, sib' := Mk(s, Mk(s, i1, i, false, i2), o, true, outer),
      Mk(s, i1, i, true, Mk(s, i2, o, false, outer));
      Even(sib') && RedsApart(sib') && BlackHeight(sib') == BlackHeight(sib) && BlackRoot(sib')
  {
  }

  lemma SameSibling(s: bool, p: nat, black: bool, up: Ctx, t: Tree, sib: Tree, sib': Tree)
    requires InOrder(sib') == InOrder(sib)
    ensures InOrder(Plug(up, Mk(s, t, p, black, sib'))) == InOrder(Plug(up, Mk(s, t, p, black, sib)))
  {
    SameOrder(up, Mk(s, t, p, black, sib), Mk(s, t, p, black, sib'));
  }

  lemma FillShape(s: bool, p: nat, black: bool, up: Ctx, t: Tree, o: nat, inner: Tree, out: Tree, order: seq<nat>)
    requires Short(Down(s, p, black, Mk(s, inner, o, true, out), up), t, order) && BlackRoot(t) && out.Node?
    requires !out.black
    ensures var t' := Mk(s, Mk(s, t, p, true, inner), o, black, Paint(out, true));
      && Even(t') && RedsApart(t') && Fits(up, BlackHeight(t')) && (BlackRoot(t') || BlackAbove(up))
      && InOrder(Plug(up, t')) == order
  {
    var sib, low := Mk(s, inner, o, true, out), Mk(s, t, p, true, inner);
    FitsDown(s, p, black, sib, up, BlackHeight(t) + 1);
    FillOrder(s, p, black, up, t, o, inner, out);
  }

  lemma FillOrder(s: bool, p: nat, black: bool, up: Ctx, t: Tree, o: nat, inner: Tree, out: Tree)
    ensures InOrder(Plug(up, Mk(s, Mk(s, t, p, true, inner), o, black, Paint(out, true)))) ==
      InOrder(Plug(Down(s, p, black, Mk(s, inner, o, true, out), up), t))
  {
    var sib, low, out' := Mk(s, inner, o, true, out), Mk(s, t, p, true, inner), Paint(out, true);
    assert InOrder(out') == InOrder(out);
    SpliceOrder(s, t, p, inner, o, out, black, true, true, black);
    PlugDown(s, p, black, sib, up, t);
    SameOrder(up, Mk(s, t, p, black, sib), Mk(s, low, o, black, out'));
  }

  /** A rotation keeps the nodes in order, whatever it does to their colours. */
  lemma SpliceOrder(s: bool, a: Tree, x: nat, b: Tree, y: nat, c: Tree, cx: bool, cy: bool, dx: bool, dy: bool)
    ensures InOrder(Mk(s, Mk(s, a, x, dx, b), y, dy, c)) == InOrder(Mk(s, a, x, cx, Mk(s, b, y, cy, c)))
  {
  }

  lemma RedParent(C: Heap, root: Ptr, k: Ctx, t: Tree)
    requires Zipped(C, root, k, t) && t.Node?
    ensures t.id < |C| && C[t.id].parent == Above(k)
    ensures k.Down? ==> k.id < |C| && C[k.id].black == k.black
  {
    RefHeld(C, t, Above(k));
    if k.Down? {
      CtxFacts(C, root, k.side, k.id, k.black, k.sib, k.up, Ref(t));
    }
  }

  lemma {:induction false} PlugNode(k: Ctx, t: Tree)
    requires t.Node?
    ensures Plug(k, t).Node?
    decreases k
  {
    if k.Down? {
      PlugNode(k.up, Mk(k.side, t, k.id, k.black, k.sib));
    }
  }

  /** A red node, fit for its place but for the colour of its parent; the tree around it in
      order is order. */
  predicate RedFocus(k: Ctx, t: Tree, order: seq<nat>) {
    && t.Node? && !t.black && Even(t) && RedsApart(t)
    && Fits(k, BlackHeight(t)) && RootBlack(k) && InOrder(Plug(k, t)) == order
  }

  lemma PushRedShape(s: bool, p: nat, sib: Tree, s2: bool, g: nat, u: Tree, k: Ctx, t: Tree, order: seq<nat>)
    requires RedFocus(Down(s, p, false, sib, Down(s2, g, true, u, k)), t, order) && u.Node? && !u.black
    ensures RedFocus(k, Mk(s2, Mk(s, t, p, true, sib), g, false, Paint(u, true)), order)
  {
    FitsDown(s, p, false, sib, Down(s2, g, true, u, k), BlackHeight(t));
    FitsDown(s2, g, true, u, k, BlackHeight(t));
    PlugDown(s, p, false, sib, Down(s2, g, true, u, k), t);
    PlugDown(s2, g, true, u, k, Mk(s, t, p, false, sib));
    SameOrder(k, Mk(s2, Mk(s, t, p, false, sib), g, true, u), Mk(s2, Mk(s, t, p, true, sib), g, false, Paint(u, true)));
  }

  lemma StraightenShape(p: nat, sib: Tree, s2: bool, g: nat, u: Tree, k: Ctx, b: Tree, n: nat, c: Tree, order: seq<nat>)
    requires RedFocus(Down(!s2, p, false, sib, Down(s2, g, true, u, k)), Mk(s2, b, n, false, c), order)
    ensures RedFocus(Down(s2, n, false, c, Down(s2, g, true, u, k)), Mk(s2, sib, p, false, b), order)
  {
    var k1, t := Down(s2, g, true, u, k), Mk(s2, b, n, false, c);
    FitsDown(!s2, p, false, sib, k1, BlackHeight(t));
    FitsDown(s2, n, false, c, k1, BlackHeight(sib));
    StraightenOrder(p, sib, s2, k1, b, n, c);
  }

  lemma StraightenOrder(p: nat, sib: Tree, s2: bool, k: Ctx, b: Tree, n: nat, c: Tree)
    ensures InOrder(Plug(Down(s2, n, false, c, k), Mk(s2, sib, p, false, b))) ==
            InOrder(Plug(Down(!s2, p, false, sib, k), Mk(s2, b, n, false, c)))
  {
    var t, t' := Mk(s2, b, n, false, c), Mk(s2, sib, p, false, b);
    PlugDown(!s2, p, false, sib, k, t);
    PlugDown(s2, n, false, c, k, t');
    SameOrder(k, Mk(!s2, t, p, false, sib), Mk(s2, t', n, false, c));
  }

  lemma RaiseShape(p: nat, sib: Tree, s2: bool, g: nat, u: Tree, k: Ctx, t: Tree, order: seq<nat>)
    requires RedFocus(Down(s2, p, false, sib, Down(s2, g, true, u, k)), t, order) && BlackRoot(u)
    ensures RedFocus(Down(s2, p, true, Mk(s2, sib, g, false, u), k), t, order)
  {
    var h, far := BlackHeight(t), Mk(s2, sib, g, false, u);
    FitsDown(s2, p, false, sib, Down(s2, g, true, u, k), h);
    FitsDown(s2, g, true, u, k, h);
    FitsDown(s2, p, true, far, k, h);
    RaiseOrder(p, sib, s2, g, u, k, t);
  }

  lemma RaiseOrder(p: nat, sib: Tree, s2: bool, g: nat, u: Tree, k: Ctx, t: Tree)
    ensures InOrder(Plug(Down(s2, p, true, Mk(s2, sib, g, false, u), k), t)) ==
            InOrder(Plug(Down(s2, p, false, sib, Down(s2, g, true, u, k)), t))
  {
    var far, near := Mk(s2, sib, g, false, u), Mk(s2, t, p, false, sib);
    SpliceOrder(s2, t, p, sib, g, u, true, false, false, true);
    PlugDown(s2, p, false, sib, Down(s2, g, true, u, k), t);
    PlugDown(s2, g, true, u, k, near);
    PlugDown(s2, p, true, far, k, t);
    SameOrder(k, Mk(s2, near, g, true, u), Mk(s2, t, p, true, far));
  }

  /** What the program finds when it asks on which sides node and its parent are. */
  lemma SideRight(C: Heap, root: Ptr, s: bool, p: nat, cp: bool, sib: Tree, s2: bool, g: nat, cg: bool, u: Tree, k: Ctx,
                  t: Tree)
    requires Zipped(C, root, Down(s, p, cp, sib, Down(s2, g, cg, u, k)), t) && t.Node?
    ensures p < |C| && g < |C| && t.id < |C| && (C[g].left == Some(p) <==> s2) && Kid(C[g], !s2) == Ref(u)
    ensures Kid(C[p], !s2) == Some(t.id) <==> s != s2
    ensures u.Node? ==> u.id < |C| && C[u.id].black == u.black
  {
    var k1 := Down(s2, g, cg, u, k);
    CtxFacts(C, root, s, p, cp, sib, k1, Ref(t));
    CtxFacts(C, root, s2, g, cg, u, k, Some(p));
    RefHeld(C, t, Some(p));
    if u.Node? {
      RefHeld(C, u, Some(g));
    }
    if sib.Node? {
      RefHeld(C, sib, Some(p));
    }
  }

  lemma RotateDistinct(C: Heap, root: Ptr, side: bool, k: Ctx, a: Tree, x: nat, cx: bool, b: Tree, y: nat, cy: bool,
                       c: Tree)
    requires Zipped(C, root, k, Mk(side, a, x, cx, Mk(side, b, y, cy, c)))
    ensures x < |C| && y < |C| && x != y
    ensures C[x] == MkCell(side, Ref(a), Some(y), Above(k), cx) && C[y] == MkCell(side, Ref(b), Ref(c), Some(x), cy)
    ensures Ref(b).Some? ==> Ref(b).value < |C| && Ref(b) != Some(x) && Ref(b) != Some(y) && Ref(b) != Above(k)
    ensures Above(k).Some? ==> Above(k).value < |C| && Above(k) != Some(x) && Above(k) != Some(y)
  {
    MkFacts(C, side, a, x, cx, Mk(side, b, y, cy, c), Above(k));
    MkFacts(C, side, b, y, cy, c, Some(x));
    if b.Node? {
      RefHeld(C, b, Some(y));
    }
    assert Above(k).Some? ==> Above(k).value in CtxIds(k);
  }
}
