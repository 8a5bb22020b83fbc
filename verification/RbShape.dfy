/** Trees in a heap of red-black nodes: nodes with parent pointers, the tree they form, and
    the view of a tree from one of its nodes. */
module RbShape {
  import opened Bpf

  type Ptr = Option<nat>

  /** struct rb_node, with the two parts of rb_parent_color apart. */
  datatype Cell = Cell(left: Ptr, right: Ptr, parent: Ptr, black: bool)

  type Heap = seq<Cell>

  datatype Tree = Leaf | Node(left: Tree, id: nat, black: bool, right: Tree)

  /** The rest of a tree around one of its subtrees, which is the left child of node id when
      side is set; sib is the other child. */
  datatype Ctx = Top | Down(side: bool, id: nat, black: bool, sib: Tree, up: Ctx)

  /** A node whose child on the given side is near and whose other child is far. */
  function Mk(side: bool, near: Tree, x: nat, black: bool, far: Tree): Tree {
    if side then Node(near, x, black, far) else Node(far, x, black, near)
  }

  function Kid(c: Cell, side: bool): Ptr {
    if side then c.left else c.right
  }

  function SetKid(c: Cell, side: bool, p: Ptr): Cell {
    if side then c.(left := p) else c.(right := p)
  }

  function MkCell(side: bool, near: Ptr, far: Ptr, parent: Ptr, black: bool): Cell {
    if side then Cell(near, far, parent, black) else Cell(far, near, parent, black)
  }

  function Plug(k: Ctx, t: Tree): Tree
    decreases k
  {
    match k
    case Top => t
    case Down(side, x, black, sib, up) => Plug(up, Mk(side, t, x, black, sib))
  }

  function Ref(t: Tree): Ptr {
    if t.Leaf? then None else Some(t.id)
  }

  /** The node right above the hole. */
  function Above(k: Ctx): Ptr {
    if k.Top? then None else Some(k.id)
  }

  function Ids(t: Tree): set<nat> {
    match t
    case Leaf => {}
    case Node(l, x, _, r) => Ids(l) + {x} + Ids(r)
  }

  function CtxIds(k: Ctx): set<nat> {
    match k
    case Top => {}
    case Down(_, x, _, sib, up) => {x} + Ids(sib) + CtxIds(up)
  }

  /** No node occurs twice. */
  predicate Proper(t: Tree) {
    match t
    case Leaf => true
    case Node(l, x, _, r) => Proper(l) && Proper(r) && x !in Ids(l) && x !in Ids(r) && Ids(l) !! Ids(r)
  }

  predicate CtxProper(k: Ctx) {
    match k
    case Top => true
    case Down(_, x, _, sib, up) =>
      Proper(sib) && CtxProper(up) && x !in Ids(sib) && x !in CtxIds(up) && Ids(sib) !! CtxIds(up)
  }

  /** The cells of the nodes of t form t under the node par. */
  predicate Holds(C: Heap, t: Tree, par: Ptr) {
    match t
    case Leaf => true
    case Node(l, x, black, r) =>
      x < |C| && C[x] == Cell(Ref(l), Ref(r), par, black) && Holds(C, l, Some(x)) && Holds(C, r, Some(x))
  }

  /** The cells of the nodes of k form k around a subtree at p. */
  predicate HoldsCtx(C: Heap, root: Ptr, k: Ctx, p: Ptr)
    decreases k
  {
    match k
    case Top => root == p
    case Down(side, x, black, sib, up) =>
      && x < |C| && C[x] == MkCell(side, p, Ref(sib), Above(up), black)
      && Holds(C, sib, Some(x)) && HoldsCtx(C, root, up, Some(x))
  }

  predicate Zipped(C: Heap, root: Ptr, k: Ctx, t: Tree) {
    && Proper(t) && CtxProper(k) && Ids(t) !! CtxIds(k)
    && Holds(C, t, Above(k)) && HoldsCtx(C, root, k, Ref(t))
  }

  /** What the parts of a node say about the tree at it. */
  lemma MkFacts(C: Heap, side: bool, near: Tree, x: nat, black: bool, far: Tree, par: Ptr)
    ensures Ref(Mk(side, near, x, black, far)) == Some(x)
    ensures Ids(Mk(side, near, x, black, far)) == Ids(near) + {x} + Ids(far)
    ensures Proper(Mk(side, near, x, black, far)) <==>
      Proper(near) && Proper(far) && x !in Ids(near) && x !in Ids(far) && Ids(near) !! Ids(far)
    ensures Holds(C, Mk(side, near, x, black, far), par) <==>
      && x < |C| && C[x] == MkCell(side, Ref(near), Ref(far), par, black)
      && Holds(C, near, Some(x)) && Holds(C, far, Some(x))
  {
  }

  lemma CtxFacts(C: Heap, root: Ptr, side: bool, x: nat, black: bool, sib: Tree, up: Ctx, p: Ptr)
    ensures var k := Down(side, x, black, sib, up);
      && CtxIds(k) == {x} + Ids(sib) + CtxIds(up)
      && (HoldsCtx(C, root, k, p) <==>
          && x < |C| && C[x] == MkCell(side, p, Ref(sib), Above(up), black)
          && Holds(C, sib, Some(x)) && HoldsCtx(C, root, up, Some(x)))
      && (CtxProper(k) <==>
           Proper(sib) && CtxProper(up) && x !in Ids(sib) && x !in CtxIds(up) && Ids(sib) !! CtxIds(up))
  {
  }

  lemma PlugDown(side: bool, x: nat, black: bool, sib: Tree, up: Ctx, t: Tree)
    ensures Plug(Down(side, x, black, sib, up), t) == Plug(up, Mk(side, t, x, black, sib))
  {
  }

  /** The root of a tree is one of its nodes. */
  lemma RefHeld(C: Heap, t: Tree, par: Ptr)
    requires Holds(C, t, par) && t.Node?
    ensures t.id in Ids(t) && t.id < |C| && C[t.id].parent == par && C[t.id].black == t.black
  {
  }

  // ----- moving the view -----

  lemma ZipStep(C: Heap, root: Ptr, side: bool, x: nat, black: bool, sib: Tree, up: Ctx, t: Tree)
    ensures Zipped(C, root, Down(side, x, black, sib, up), t) <==> Zipped(C, root, up, Mk(side, t, x, black, sib))
  {
    var k := Down(side, x, black, sib, up);
    assert CtxIds(k) == {x} + Ids(sib) + CtxIds(up);
    assert Ids(Mk(side, t, x, black, sib)) == Ids(t) + {x} + Ids(sib);
  }

  /** The view from the other child. */
  lemma ZipTurn(C: Heap, root: Ptr, side: bool, x: nat, black: bool, sib: Tree, up: Ctx, t: Tree)
    ensures Zipped(C, root, Down(side, x, black, sib, up), t) <==> Zipped(C, root, Down(!side, x, black, t, up), sib)
  {
    ZipStep(C, root, side, x, black, sib, up, t);
    ZipStep(C, root, !side, x, black, t, up, sib);
  }

  lemma {:induction false} ZipTop(C: Heap, root: Ptr, k: Ctx, t: Tree)
    ensures Zipped(C, root, k, t) <==> Zipped(C, root, Top, Plug(k, t))
    decreases k
  {
    if k.Down? {
      ZipStep(C, root, k.side, k.id, k.black, k.sib, k.up, t);
      ZipTop(C, root, k.up, Mk(k.side, t, k.id, k.black, k.sib));
    }
  }

  // ----- what an update leaves alone -----

  lemma {:induction false} HoldsFrame(C: Heap, C': Heap, t: Tree, par: Ptr)
    requires Holds(C, t, par) && |C'| == |C| && forall z :: z in Ids(t) && z < |C| ==> C'[z] == C[z]
    ensures Holds(C', t, par)
    decreases t
  {
    if t.Node? {
      HoldsFrame(C, C', t.left, Some(t.id));
      HoldsFrame(C, C', t.right, Some(t.id));
    }
  }

  /** A subtree gets a new parent. */
  lemma HoldsReparent(C: Heap, C': Heap, t: Tree, par: Ptr, par': Ptr)
    requires Holds(C, t, par) && Proper(t) && |C'| == |C|
    requires t.Node? ==> C'[t.id] == C[t.id].(parent := par')
    requires forall z :: z in Ids(t) && z < |C| && Some(z) != Ref(t) ==> C'[z] == C[z]
    ensures Holds(C', t, par')
  {
    if t.Node? {
      HoldsFrame(C, C', t.left, Some(t.id));
      HoldsFrame(C, C', t.right, Some(t.id));
    }
  }

  lemma {:induction false} CtxFrame(C: Heap, C': Heap, root: Ptr, k: Ctx, p: Ptr)
    requires HoldsCtx(C, root, k, p) && |C'| == |C| && forall z :: z in CtxIds(k) && z < |C| ==> C'[z] == C[z]
    ensures HoldsCtx(C', root, k, p)
    decreases k
  {
    if k.Down? {
      HoldsFrame(C, C', k.sib, Some(k.id));
      CtxFrame(C, C', root, k.up, Some(k.id));
    }
  }

  /** Another subtree is put into the hole. */
  lemma CtxRefocus(C: Heap, C': Heap, root: Ptr, root': Ptr, k: Ctx, p: Ptr, p': Ptr)
    requires HoldsCtx(C, root, k, p) && CtxProper(k) && |C'| == |C|
    requires forall z :: z in CtxIds(k) && z < |C| && Some(z) != Above(k) ==> C'[z] == C[z]
    requires if k.Top? then root' == p' else root' == root && C'[k.id] == SetKid(C[k.id], k.side, p')
    ensures HoldsCtx(C', root', k, p')
  {
    if k.Down? {
      HoldsFrame(C, C', k.sib, Some(k.id));
      CtxFrame(C, C', root, k.up, Some(k.id));
    }
  }

  // ----- the nodes in order -----

  function InOrder(t: Tree): seq<nat> {
    match t
    case Leaf => []
    case Node(l, x, _, r) => InOrder(l) + [x] + InOrder(r)
  }

  function Before(k: Ctx): seq<nat> {
    match k
    case Top => []
    case Down(side, x, _, sib, up) => if side then Before(up) else Before(up) + InOrder(sib) + [x]
  }

  function After(k: Ctx): seq<nat> {
    match k
    case Top => []
    case Down(side, x, _, sib, up) => if side then [x] + InOrder(sib) + After(up) else After(up)
  }

  lemma Regroup(a: seq<nat>, b: seq<nat>, c: seq<nat>, d: seq<nat>, e: seq<nat>)
    ensures a + (b + c + d) + e == (a + b + c) + d + e
    ensures a + (b + c + d) + e == a + b + (c + d + e)
  {
  }

  lemma {:induction false} PlugInOrder(k: Ctx, t: Tree)
    ensures InOrder(Plug(k, t)) == Before(k) + InOrder(t) + After(k)
    decreases k
  {
    if k.Down? {
      PlugInOrder(k.up, Mk(k.side, t, k.id, k.black, k.sib));
      if k.side {
        Regroup(Before(k.up), InOrder(t), [k.id], InOrder(k.sib), After(k.up));
      } else {
        Regroup(Before(k.up), InOrder(k.sib), [k.id], InOrder(t), After(k.up));
      }
    }
  }

  // ----- balance -----

  predicate BlackRoot(t: Tree) {
    t.Leaf? || t.black
  }

  /** No red node has a red child. */
  predicate RedsApart(t: Tree) {
    match t
    case Leaf => true
    case Node(l, _, black, r) => RedsApart(l) && RedsApart(r) && (black || (BlackRoot(l) && BlackRoot(r)))
  }

  function BlackHeight(t: Tree): nat {
    match t
    case Leaf => 0
    case Node(l, _, black, _) => BlackHeight(l) + if black then 1 else 0
  }

  /** Every path down has the same number of black nodes. */
  predicate Even(t: Tree) {
    match t
    case Leaf => true
    case Node(l, _, _, r) => Even(l) && Even(r) && BlackHeight(l) == BlackHeight(r)
  }

  predicate RedBlack(t: Tree) {
    BlackRoot(t) && RedsApart(t) && Even(t)
  }

  /** Above a hole for a tree of black height h everything is in order; whether a red root
      would fit is another matter. */
  predicate Fits(k: Ctx, h: nat) {
    match k
    case Top => true
    case Down(_, _, black, sib, up) =>
      && Even(sib) && RedsApart(sib) && BlackHeight(sib) == h
      && Fits(up, h + if black then 1 else 0)
      && (black || (BlackRoot(sib) && BlackAbove(up)))
  }

  lemma FitsDown(side: bool, x: nat, black: bool, sib: Tree, up: Ctx, h: nat)
    ensures Fits(Down(side, x, black, sib, up), h) <==>
      && Even(sib) && RedsApart(sib) && BlackHeight(sib) == h && Fits(up, h + if black then 1 else 0)
      && (black || (BlackRoot(sib) && BlackAbove(up)))
    ensures RootBlack(Down(side, x, black, sib, up)) <==> if up.Top? then black else RootBlack(up)
  {
  }

  /** Around subtrees with the same nodes in order, so have the whole trees. */
  lemma SameOrder(k: Ctx, t: Tree, t': Tree)
    requires InOrder(t') == InOrder(t)
    ensures InOrder(Plug(k, t')) == InOrder(Plug(k, t))
  {
    PlugInOrder(k, t);
    PlugInOrder(k, t');
  }

  predicate BlackAbove(k: Ctx) {
    k.Top? || k.black
  }

  /** A tree that fits, put into the hole, leaves a tree that is red-black but for the colour
      of its root. */
  lemma {:induction false} PlugEven(k: Ctx, t: Tree)
    requires Even(t) && RedsApart(t) && Fits(k, BlackHeight(t)) && (BlackRoot(t) || BlackAbove(k))
    ensures Even(Plug(k, t)) && RedsApart(Plug(k, t))
    decreases k
  {
    if k.Down? {
      PlugEven(k.up, Mk(k.side, t, k.id, k.black, k.sib));
    }
  }

  /** The topmost node of k, if it has one, is black. */
  predicate RootBlack(k: Ctx) {
    k.Down? ==> if k.up.Top? then k.black else RootBlack(k.up)
  }

  function Depth(k: Ctx): nat {
    if k.Top? then 0 else 1 + Depth(k.up)
  }

  function Paint(t: Tree, black: bool): Tree {
    if t.Leaf? then Leaf else t.(black := black)
  }

  // ----- height -----

  function Height(t: Tree): nat {
    match t
    case Leaf => 0
    case Node(l, _, _, r) => 1 + if Height(l) > Height(r) then Height(l) else Height(r)
  }

  lemma {:induction false} HeightByBlackHeight(t: Tree)
    requires Even(t) && RedsApart(t)
    ensures Height(t) <= 2 * BlackHeight(t) + if BlackRoot(t) then 0 else 1
    ensures Pow2(BlackHeight(t)) <= |InOrder(t)| + 1
    decreases t
  {
    if t.Node? {
      HeightByBlackHeight(t.left);
      HeightByBlackHeight(t.right);
    }
  }

  lemma {:induction false} Pow2Monotone(a: nat, b: nat)
    requires a <= b
    ensures Pow2(a) <= Pow2(b)
    decreases b
  {
    if a < b {
      Pow2Monotone(a, b - 1);
    }
  }

  /** A red-black tree of n nodes is at most 2 log2(n + 1) high. */
  lemma HeightBound(t: Tree)
    requires RedBlack(t)
    ensures Pow2((Height(t) + 1) / 2) <= |InOrder(t)| + 1
  {
    HeightByBlackHeight(t);
    Pow2Monotone((Height(t) + 1) / 2, BlackHeight(t));
  }

  lemma PaintZip(C: Heap, C': Heap, root: Ptr, k: Ctx, t: Tree, black: bool)
    requires Zipped(C, root, k, t) && t.Node? && |C'| == |C|
    requires forall z :: 0 <= z < |C| ==> C'[z] == if z == t.id then C[z].(black := black) else C[z]
    ensures Zipped(C', root, k, Paint(t, black))
  {
    assert t.id in Ids(t) && t.id !in CtxIds(k);
    HoldsFrame(C, C', t.left, Some(t.id));
    HoldsFrame(C, C', t.right, Some(t.id));
    CtxFrame(C, C', root, k, Some(t.id));
    assert Ids(Paint(t, black)) == Ids(t);
  }
}
