/** What the boolean part of the code generator is for: a recursive wiring of a filter's
    tests, and the lists of open exits that gen_and, gen_or and gen_not thread through the
    unfilled successor pointers to build that wiring in place. */
module Wiring {
  import opened Bpf
  import opened Arith
  import opened Graph

  /** A filter: relations between arithmetic operands, other one-block tests, and their
      boolean combinations. A reversed relation is one gen_relation negates. */
  datatype Filter =
    | Prim(stmts: seq<Stmt>, term: Term)
    | Rel(op: JmpOp, left: Expr, right: Expr, reversed: bool)
    | Not(f: Filter)
    | Both(f0: Filter, f1: Filter)
    | Either(f0: Filter, f1: Filter)

  function Leaves(f: Filter): (n: nat)
    ensures n > 0
  {
    match f
    case Prim(_, _) => 1
    case Rel(_, _, _, _) => 1
    case Not(g) => Leaves(g)
    case Both(l, r) => Leaves(l) + Leaves(r)
    case Either(l, r) => Leaves(l) + Leaves(r)
  }

  /** The last leaf stands for the whole filter while it is under construction. */
  function Rep(f: Filter, lo: Id): Id {
    lo + Leaves(f) - 1
  }

  predicate Inside(f: Filter, lo: Id, k: Id) {
    lo <= k < lo + Leaves(f)
  }

  // ----- the wiring -----

  datatype Exit = To(id: Id) | OnTrue | OnFalse

  /** Where the two branches of leaf k lead when the filter's leaves are numbered from lo,
      truth is to continue at t and falsehood at x. */
  function Wire(f: Filter, lo: Id, k: Id, t: Exit, x: Exit): (Exit, Exit)
    requires Inside(f, lo, k)
    decreases f
  {
    match f
    case Prim(_, _) => (t, x)
    case Rel(_, _, _, reversed) => if reversed then (x, t) else (t, x)
    case Not(g) => Wire(g, lo, k, x, t)
    case Both(l, r) =>
      var mid := lo + Leaves(l);
      if k < mid then Wire(l, lo, k, To(mid), x) else Wire(r, mid, k, t, x)
    case Either(l, r) =>
      var mid := lo + Leaves(l);
      if k < mid then Wire(l, lo, k, t, To(mid)) else Wire(r, mid, k, t, x)
  }

  function Open(f: Filter, lo: Id, k: Id): (Exit, Exit)
    requires Inside(f, lo, k)
  {
    Wire(f, lo, k, OnTrue, OnFalse)
  }

  function Close(e: Exit, t: Exit, x: Exit): Exit {
    match e
    case To(_) => e
    case OnTrue => t
    case OnFalse => x
  }

  lemma {:induction false} WireCloses(f: Filter, lo: Id, k: Id, t: Exit, x: Exit)
    requires Inside(f, lo, k)
    ensures Wire(f, lo, k, t, x) == (Close(Open(f, lo, k).0, t, x), Close(Open(f, lo, k).1, t, x))
    decreases f
  {
    match f
    case Prim(_, _) =>
    case Rel(_, _, _, _) =>
    case Not(g) =>
      WireCloses(g, lo, k, x, t);
      WireCloses(g, lo, k, OnFalse, OnTrue);
    case Both(l, r) =>
      var mid := lo + Leaves(l);
      if k < mid {
        WireCloses(l, lo, k, To(mid), x);
        WireCloses(l, lo, k, To(mid), OnFalse);
      } else {
        WireCloses(r, mid, k, t, x);
      }
    case Either(l, r) =>
      var mid := lo + Leaves(l);
      if k < mid {
        WireCloses(l, lo, k, t, To(mid));
        WireCloses(l, lo, k, OnTrue, To(mid));
      } else {
        WireCloses(r, mid, k, t, x);
      }
  }

  // ----- the threaded lists -----

  /** The leaves with an open true exit, in list order. */
  function TList(f: Filter, lo: Id): seq<Id> {
    match f
    case Prim(_, _) => [lo]
    case Rel(_, _, _, _) => [lo]
    case Not(g) => FList(g, lo)
    case Both(l, r) => TList(r, lo + Leaves(l))
    case Either(l, r) => TList(r, lo + Leaves(l)) + TList(l, lo)
  }

  /** The leaves with an open false exit, in list order. */
  function FList(f: Filter, lo: Id): seq<Id> {
    match f
    case Prim(_, _) => [lo]
    case Rel(_, _, _, _) => [lo]
    case Not(g) => TList(g, lo)
    case Both(l, r) => FList(r, lo + Leaves(l)) + FList(l, lo)
    case Either(l, r) => FList(r, lo + Leaves(l))
  }

  /** A leaf's sense bit: whether its list link is the false successor. */
  function Sense(f: Filter, lo: Id, k: Id): bool
    requires Inside(f, lo, k)
    decreases f
  {
    match f
    case Prim(_, _) => false
    case Rel(_, _, _, reversed) => reversed
    case Not(g) => if k == Rep(g, lo) then !Sense(g, lo, k) else Sense(g, lo, k)
    case Both(l, r) =>
      var mid := lo + Leaves(l);
      if k >= mid then Sense(r, mid, k)
      else if k == Rep(l, lo) then !Sense(l, lo, k) else Sense(l, lo, k)
    case Either(l, r) =>
      var mid := lo + Leaves(l);
      if k >= mid then Sense(r, mid, k) else Sense(l, lo, k)
  }

  ghost predicate Descending(L: seq<Id>, lo: Id, hi: Id) {
    L == [] || (lo <= L[0] < hi && Descending(L[1..], lo, L[0]))
  }

  lemma {:induction false} DescendingAppend(L: seq<Id>, L': seq<Id>, lo: Id, mid: Id, hi: Id)
    requires Descending(L, mid, hi) && Descending(L', lo, mid) && lo <= mid <= hi
    ensures Descending(L + L', lo, hi)
    decreases L
  {
    if L == [] {
      assert L + L' == L';
      DescendingWidens(L', lo, mid, hi);
    } else {
      assert (L + L')[1..] == L[1..] + L';
      DescendingAppend(L[1..], L', lo, mid, L[0]);
    }
  }

  lemma DescendingWidens(L: seq<Id>, lo: Id, mid: Id, hi: Id)
    requires Descending(L, lo, mid) && mid <= hi
    ensures Descending(L, lo, hi)
  {
  }

  lemma {:induction false} DescendingBounds(L: seq<Id>, lo: Id, hi: Id)
    requires Descending(L, lo, hi)
    ensures forall i :: 0 <= i < |L| ==> lo <= L[i] < hi
    decreases L
  {
    if L != [] {
      DescendingBounds(L[1..], lo, L[0]);
      assert forall i :: 1 <= i < |L| ==> L[i] == L[1..][i - 1];
    }
  }

  lemma {:induction false} ListsOrder(f: Filter, lo: Id)
    ensures Descending(TList(f, lo), lo, lo + Leaves(f)) && Descending(FList(f, lo), lo, lo + Leaves(f))
    ensures TList(f, lo) != [] && TList(f, lo)[0] == Rep(f, lo)
    ensures FList(f, lo) != [] && FList(f, lo)[0] == Rep(f, lo)
  {
    match f
    case Prim(_, _) =>
    case Rel(_, _, _, _) =>
    case Not(g) =>
      ListsOrder(g, lo);
    case Both(l, r) =>
      var mid := lo + Leaves(l);
      ListsOrder(l, lo);
      ListsOrder(r, mid);
      DescendingLowers(TList(r, mid), lo, mid, lo + Leaves(f));
      DescendingAppend(FList(r, mid), FList(l, lo), lo, mid, lo + Leaves(f));
    case Either(l, r) =>
      var mid := lo + Leaves(l);
      ListsOrder(l, lo);
      ListsOrder(r, mid);
      DescendingLowers(FList(r, mid), lo, mid, lo + Leaves(f));
      DescendingAppend(TList(r, mid), TList(l, lo), lo, mid, lo + Leaves(f));
  }

  lemma ListsDescend(f: Filter, lo: Id)
    ensures Descending(TList(f, lo), lo, lo + Leaves(f)) && Descending(FList(f, lo), lo, lo + Leaves(f))
    ensures TList(f, lo) != [] && TList(f, lo)[0] == Rep(f, lo)
    ensures FList(f, lo) != [] && FList(f, lo)[0] == Rep(f, lo)
    ensures forall i :: 0 <= i < |TList(f, lo)| ==> Inside(f, lo, TList(f, lo)[i])
    ensures forall i :: 0 <= i < |FList(f, lo)| ==> Inside(f, lo, FList(f, lo)[i])
  {
    ListsOrder(f, lo);
    DescendingBounds(TList(f, lo), lo, lo + Leaves(f));
    DescendingBounds(FList(f, lo), lo, lo + Leaves(f));
  }

  lemma {:induction false} DescendingLowers(L: seq<Id>, lo: Id, mid: Id, hi: Id)
    requires Descending(L, mid, hi) && lo <= mid
    ensures Descending(L, lo, hi)
    decreases L
  {
    if L != [] {
      DescendingLowers(L[1..], lo, mid, L[0]);
    }
  }

  /** A leaf of another filter is in neither list. */
  lemma NotListed(f: Filter, lo: Id, k: Id)
    requires !Inside(f, lo, k)
    ensures k !in TList(f, lo) && k !in FList(f, lo)
  {
    ListsDescend(f, lo);
  }

  lemma RepListed(f: Filter, lo: Id)
    ensures Rep(f, lo) in TList(f, lo) && Rep(f, lo) in FList(f, lo)
  {
    ListsOrder(f, lo);
  }

  /** A leaf's link side and its other side. The representative is in both lists; any other
      leaf is linked exactly when its link side is open, and its other side is filled. */
  lemma {:induction false} Sides(f: Filter, lo: Id, k: Id)
    requires Inside(f, lo, k)
    ensures var (a, b) := Open(f, lo, k);
      var (link, other) := if Sense(f, lo, k) then (b, a) else (a, b);
      if k == Rep(f, lo) then link == OnTrue && other == OnFalse
      else other.To? && (link == OnTrue <==> k in TList(f, lo)) && (link == OnFalse <==> k in FList(f, lo))
    decreases f
  {
    match f
    case Prim(_, _) =>
    case Rel(_, _, _, _) =>
    case Not(g) =>
      WireCloses(g, lo, k, OnFalse, OnTrue);
      Sides(g, lo, k);
    case Both(l, r) =>
      var mid := lo + Leaves(l);
      if k < mid {
        NotListed(r, mid, k);
        RepListed(l, lo);
        WireCloses(l, lo, k, To(mid), OnFalse);
        Sides(l, lo, k);
      } else {
        NotListed(l, lo, k);
        Sides(r, mid, k);
      }
    case Either(l, r) =>
      var mid := lo + Leaves(l);
      if k < mid {
        NotListed(r, mid, k);
        RepListed(l, lo);
        WireCloses(l, lo, k, OnTrue, To(mid));
        Sides(l, lo, k);
      } else {
        NotListed(l, lo, k);
        Sides(r, mid, k);
      }
  }
}
