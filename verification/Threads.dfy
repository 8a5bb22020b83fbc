/** The sense bits and successor pointers of a filter under construction, as values, and
    what backpatch, merge and the sense flips do to them. */
module Threads {
  import opened Graph
  import opened Wiring

  datatype Ptr = Null | At(id: Id)

  datatype Cell = Cell(sense: bool, jt: Ptr, jf: Ptr)

  type Cells = seq<Cell>

  function Link(c: Cell): Ptr {
    if c.sense then c.jf else c.jt
  }

  function SetLink(c: Cell, p: Ptr): Cell {
    if c.sense then c.(jf := p) else c.(jt := p)
  }

  function Flip(c: Cell): Cell {
    c.(sense := !c.sense)
  }

  predicate Within(L: seq<Id>, cs: Cells) {
    forall i :: 0 <= i < |L| ==> L[i] < |cs|
  }

  /** Following link pointers from L[0] visits L and then ends. */
  ghost predicate Chain(cs: Cells, L: seq<Id>) {
    && Within(L, cs)
    && forall i {:trigger L[i]} :: 0 <= i < |L| ==> Link(cs[L[i]]) == LinkAt(L, i)
  }

  function LinkAt(L: seq<Id>, i: nat): Ptr
    requires i < |L|
  {
    if i + 1 < |L| then At(L[i + 1]) else Null
  }

  /** backpatch: every link of the list leads to target. */
  function Patched(cs: Cells, L: seq<Id>, target: Ptr): (r: Cells)
    requires Within(L, cs)
    ensures |r| == |cs|
    decreases L
  {
    if L == [] then cs else Patched(cs[L[0] := SetLink(cs[L[0]], target)], L[1..], target)
  }

  function Flipped(cs: Cells, k: Id): Cells
    requires k < |cs|
  {
    cs[k := Flip(cs[k])]
  }

  /** merge: the last link of the list leads to the head of the other. */
  function Joined(cs: Cells, L: seq<Id>, target: Ptr): Cells
    requires L != [] && Within(L, cs)
  {
    var last := L[|L| - 1];
    cs[last := SetLink(cs[last], target)]
  }

  lemma {:induction false} PatchedAt(cs: Cells, L: seq<Id>, target: Ptr, k: Id)
    requires Within(L, cs) && k < |cs|
    ensures Patched(cs, L, target)[k] == if k in L then SetLink(cs[k], target) else cs[k]
    decreases L
  {
    if L != [] {
      PatchedAt(cs[L[0] := SetLink(cs[L[0]], target)], L[1..], target, k);
      assert L == [L[0]] + L[1..];
    }
  }

  // ----- what the cells of a filter under construction hold -----

  /** The leaf after k on the list. */
  function Next(L: seq<Id>, k: Id): Ptr {
    if L == [] then Null
    else if L[0] == k then (if |L| > 1 then At(L[1]) else Null)
    else Next(L[1..], k)
  }

  function Lower(e: Exit, T: seq<Id>, F: seq<Id>, k: Id): Ptr {
    match e
    case To(id) => At(id)
    case OnTrue => Next(T, k)
    case OnFalse => Next(F, k)
  }

  function Expect(f: Filter, lo: Id, k: Id): Cell
    requires Inside(f, lo, k)
  {
    var (a, b) := Open(f, lo, k);
    Cell(Sense(f, lo, k), Lower(a, TList(f, lo), FList(f, lo), k), Lower(b, TList(f, lo), FList(f, lo), k))
  }

  /** Each leaf has its sense bit, filled branches lead where the wiring says, and open
      branches hold the threads of the two lists. */
  ghost predicate Threaded(f: Filter, lo: Id, cs: Cells) {
    && lo + Leaves(f) <= |cs|
    && forall k: Id {:trigger Expect(f, lo, k)} :: Inside(f, lo, k) ==> cs[k] == Expect(f, lo, k)
  }

  lemma {:induction false} NextAt(L: seq<Id>, lo: Id, hi: Id, i: nat)
    requires i < |L| && Descending(L, lo, hi)
    ensures Next(L, L[i]) == LinkAt(L, i)
    decreases L
  {
    if i > 0 {
      DescendingBounds(L[1..], lo, L[0]);
      assert L[i] == L[1..][i - 1] && L[i] in L[1..];
      NextAt(L[1..], lo, L[0], i - 1);
    }
  }

  lemma {:induction false} NextAppend(L: seq<Id>, L': seq<Id>, mid: Id, hi: Id, k: Id)
    requires L != [] && L' != [] && Descending(L, mid, hi)
    ensures k < mid ==> Next(L + L', k) == Next(L', k)
    ensures k in L ==> Next(L + L', k) == if k == L[|L| - 1] then At(L'[0]) else Next(L, k)
    decreases L
  {
    assert (L + L')[1..] == L[1..] + L';
    if |L| == 1 {
      assert L[1..] + L' == L';
    } else {
      DescendingBounds(L[1..], mid, L[0]);
      assert L[|L| - 1] == L[1..][|L| - 2] && L[1..][|L| - 2] in L[1..];
      NextAppend(L[1..], L', mid, L[0], k);
    }
  }

  lemma {:induction false} LinkIsNext(f: Filter, lo: Id, k: Id)
    requires Inside(f, lo, k)
    ensures var (c, T, F) := (Expect(f, lo, k), TList(f, lo), FList(f, lo));
      if k == Rep(f, lo) then Link(c) == Next(T, k) && Link(Flip(c)) == Next(F, k)
      else (k in T ==> Link(c) == Next(T, k)) && (k in F ==> Link(c) == Next(F, k))
  {
    Sides(f, lo, k);
  }

  /** The true list can be walked as it stands, the false list once the representative's
      sense is flipped. */
  lemma {:induction false} ChainsHold(f: Filter, lo: Id, cs: Cells)
    requires Threaded(f, lo, cs)
    ensures Rep(f, lo) < |cs| && Chain(cs, TList(f, lo)) && Chain(Flipped(cs, Rep(f, lo)), FList(f, lo))
  {
    ListsDescend(f, lo);
    forall i | 0 <= i < |TList(f, lo)| ensures Link(cs[TList(f, lo)[i]]) == LinkAt(TList(f, lo), i) {
      TrueLink(f, lo, cs, i);
    }
    forall i | 0 <= i < |FList(f, lo)|
      ensures Link(Flipped(cs, Rep(f, lo))[FList(f, lo)[i]]) == LinkAt(FList(f, lo), i)
    {
      FalseLink(f, lo, cs, i);
    }
  }

  lemma {:induction false} TrueLink(f: Filter, lo: Id, cs: Cells, i: nat)
    requires Threaded(f, lo, cs) && i < |TList(f, lo)|
    ensures TList(f, lo)[i] < |cs| && Link(cs[TList(f, lo)[i]]) == LinkAt(TList(f, lo), i)
  {
    var T := TList(f, lo);
    ListsDescend(f, lo);
    assert cs[T[i]] == Expect(f, lo, T[i]);
    LinkIsNext(f, lo, T[i]);
    NextAt(T, lo, lo + Leaves(f), i);
  }

  lemma {:induction false} FalseLink(f: Filter, lo: Id, cs: Cells, i: nat)
    requires Threaded(f, lo, cs) && i < |FList(f, lo)|
    ensures FList(f, lo)[i] < |cs| && Link(Flipped(cs, Rep(f, lo))[FList(f, lo)[i]]) == LinkAt(FList(f, lo), i)
  {
    var F := FList(f, lo);
    ListsDescend(f, lo);
    assert cs[F[i]] == Expect(f, lo, F[i]);
    LinkIsNext(f, lo, F[i]);
    NextAt(F, lo, lo + Leaves(f), i);
  }

  // ----- gen_not, gen_and, gen_or -----

  lemma {:induction false} NotThreads(f: Filter, lo: Id, cs: Cells)
    requires Threaded(f, lo, cs)
    ensures Rep(f, lo) < |cs| && Threaded(Not(f), lo, Flipped(cs, Rep(f, lo)))
  {
    var cs' := Flipped(cs, Rep(f, lo));
    forall k: Id | Inside(f, lo, k) ensures cs'[k] == Expect(Not(f), lo, k) {
      assert cs[k] == Expect(f, lo, k);
      WireCloses(f, lo, k, OnFalse, OnTrue);
    }
  }

  /** The cells after gen_and's five steps. */
  function AndCells(l: Filter, r: Filter, lo: Id, cs: Cells): Cells
    requires lo + Leaves(l) + Leaves(r) <= |cs| && Within(TList(l, lo), cs) && Within(FList(r, lo + Leaves(l)), cs)
    requires FList(r, lo + Leaves(l)) != []
  {
    var mid := lo + Leaves(l);
    var cs1 := Patched(cs, TList(l, lo), At(mid));
    var cs2 := Flipped(cs1, Rep(l, lo));
    var cs3 := Flipped(cs2, Rep(r, mid));
    var cs4 := Joined(cs3, FList(r, mid), At(Rep(l, lo)));
    Flipped(cs4, Rep(r, mid))
  }

  /** What those steps do to one cell. */
  function AndCell(l: Filter, r: Filter, lo: Id, k: Id, c: Cell): Cell
    requires FList(r, lo + Leaves(l)) != []
  {
    var F := FList(r, lo + Leaves(l));
    var c1 := if k in TList(l, lo) then SetLink(c, At(lo + Leaves(l))) else c;
    var c2 := if k == Rep(l, lo) then Flip(c1) else c1;
    var c3 := if k == Rep(r, lo + Leaves(l)) then Flip(c2) else c2;
    var c4 := if k == F[|F| - 1] then SetLink(c3, At(Rep(l, lo))) else c3;
    if k == Rep(r, lo + Leaves(l)) then Flip(c4) else c4
  }

  lemma {:induction false} AndLeft(l: Filter, r: Filter, lo: Id, k: Id)
    requires Inside(l, lo, k)
    ensures FList(r, lo + Leaves(l)) != [] && AndCell(l, r, lo, k, Expect(l, lo, k)) == Expect(Both(l, r), lo, k)
  {
    var mid := lo + Leaves(l);
    ListsDescend(l, lo);
    ListsDescend(r, mid);
    NextAppend(FList(r, mid), FList(l, lo), mid, mid + Leaves(r), k);
    Sides(l, lo, k);
    WireCloses(l, lo, k, To(mid), OnFalse);
  }

  lemma {:induction false} AndRight(l: Filter, r: Filter, lo: Id, k: Id)
    requires Inside(r, lo + Leaves(l), k)
    ensures FList(r, lo + Leaves(l)) != []
    ensures AndCell(l, r, lo, k, Expect(r, lo + Leaves(l), k)) == Expect(Both(l, r), lo, k)
  {
    var mid := lo + Leaves(l);
    ListsDescend(l, lo);
    ListsDescend(r, mid);
    NextAppend(FList(r, mid), FList(l, lo), mid, mid + Leaves(r), k);
    Sides(r, mid, k);
  }

  lemma AndCellAt(l: Filter, r: Filter, lo: Id, cs: Cells, k: Id)
    requires lo + Leaves(l) + Leaves(r) <= |cs| && k < |cs|
    requires Within(TList(l, lo), cs) && Within(FList(r, lo + Leaves(l)), cs) && FList(r, lo + Leaves(l)) != []
    ensures AndCells(l, r, lo, cs)[k] == AndCell(l, r, lo, k, cs[k])
  {
    PatchedAt(cs, TList(l, lo), At(lo + Leaves(l)), k);
  }

  lemma {:induction false} AndThreads(l: Filter, r: Filter, lo: Id, cs: Cells)
    requires Threaded(l, lo, cs) && Threaded(r, lo + Leaves(l), cs)
    ensures Within(TList(l, lo), cs) && FList(r, lo + Leaves(l)) != [] && Within(FList(r, lo + Leaves(l)), cs)
    ensures Threaded(Both(l, r), lo, AndCells(l, r, lo, cs))
  {
    var mid := lo + Leaves(l);
    ListsDescend(l, lo);
    ListsDescend(r, mid);
    forall k: Id | Inside(Both(l, r), lo, k) ensures AndCells(l, r, lo, cs)[k] == Expect(Both(l, r), lo, k) {
      AndCellAt(l, r, lo, cs, k);
      if k < mid {
        assert cs[k] == Expect(l, lo, k);
        AndLeft(l, r, lo, k);
      } else {
        assert cs[k] == Expect(r, mid, k);
        AndRight(l, r, lo, k);
      }
    }
  }

  /** The cells after gen_or's four steps. */
  function OrCells(l: Filter, r: Filter, lo: Id, cs: Cells): Cells
    requires lo + Leaves(l) + Leaves(r) <= |cs| && Within(FList(l, lo), cs) && Within(TList(r, lo + Leaves(l)), cs)
    requires TList(r, lo + Leaves(l)) != []
  {
    var mid := lo + Leaves(l);
    var cs1 := Flipped(cs, Rep(l, lo));
    var cs2 := Patched(cs1, FList(l, lo), At(mid));
    var cs3 := Flipped(cs2, Rep(l, lo));
    Joined(cs3, TList(r, mid), At(Rep(l, lo)))
  }

  function OrCell(l: Filter, r: Filter, lo: Id, k: Id, c: Cell): Cell
    requires TList(r, lo + Leaves(l)) != []
  {
    var T := TList(r, lo + Leaves(l));
    var c1 := if k == Rep(l, lo) then Flip(c) else c;
    var c2 := if k in FList(l, lo) then SetLink(c1, At(lo + Leaves(l))) else c1;
    var c3 := if k == Rep(l, lo) then Flip(c2) else c2;
    if k == T[|T| - 1] then SetLink(c3, At(Rep(l, lo))) else c3
  }

  lemma {:induction false} OrLeft(l: Filter, r: Filter, lo: Id, k: Id)
    requires Inside(l, lo, k)
    ensures TList(r, lo + Leaves(l)) != [] && OrCell(l, r, lo, k, Expect(l, lo, k)) == Expect(Either(l, r), lo, k)
  {
    var mid := lo + Leaves(l);
    ListsDescend(l, lo);
    ListsDescend(r, mid);
    NextAppend(TList(r, mid), TList(l, lo), mid, mid + Leaves(r), k);
    Sides(l, lo, k);
    WireCloses(l, lo, k, OnTrue, To(mid));
  }

  lemma {:induction false} OrRight(l: Filter, r: Filter, lo: Id, k: Id)
    requires Inside(r, lo + Leaves(l), k)
    ensures TList(r, lo + Leaves(l)) != []
    ensures OrCell(l, r, lo, k, Expect(r, lo + Leaves(l), k)) == Expect(Either(l, r), lo, k)
  {
    var mid := lo + Leaves(l);
    ListsDescend(l, lo);
    ListsDescend(r, mid);
    NextAppend(TList(r, mid), TList(l, lo), mid, mid + Leaves(r), k);
    Sides(r, mid, k);
  }

  lemma OrCellAt(l: Filter, r: Filter, lo: Id, cs: Cells, k: Id)
    requires lo + Leaves(l) + Leaves(r) <= |cs| && k < |cs|
    requires Within(FList(l, lo), cs) && Within(TList(r, lo + Leaves(l)), cs) && TList(r, lo + Leaves(l)) != []
    ensures OrCells(l, r, lo, cs)[k] == OrCell(l, r, lo, k, cs[k])
  {
    PatchedAt(Flipped(cs, Rep(l, lo)), FList(l, lo), At(lo + Leaves(l)), k);
  }

  lemma {:induction false} OrThreads(l: Filter, r: Filter, lo: Id, cs: Cells)
    requires Threaded(l, lo, cs) && Threaded(r, lo + Leaves(l), cs)
    ensures Within(FList(l, lo), cs) && TList(r, lo + Leaves(l)) != [] && Within(TList(r, lo + Leaves(l)), cs)
    ensures Threaded(Either(l, r), lo, OrCells(l, r, lo, cs))
  {
    var mid := lo + Leaves(l);
    ListsDescend(l, lo);
    ListsDescend(r, mid);
    forall k: Id | Inside(Either(l, r), lo, k) ensures OrCells(l, r, lo, cs)[k] == Expect(Either(l, r), lo, k) {
      OrCellAt(l, r, lo, cs, k);
      if k < mid {
        assert cs[k] == Expect(l, lo, k);
        OrLeft(l, r, lo, k);
      } else {
        assert cs[k] == Expect(r, mid, k);
        OrRight(l, r, lo, k);
      }
    }
  }

  // ----- finish_parse -----

  /** What patching the true list to t, flipping the representative and patching the false
      list to x do to one cell. */
  function FinishCell(f: Filter, lo: Id, k: Id, c: Cell, t: Id, x: Id): Cell {
    var c1 := if k in TList(f, lo) then SetLink(c, At(t)) else c;
    var c2 := if k == Rep(f, lo) then Flip(c1) else c1;
    if k in FList(f, lo) then SetLink(c2, At(x)) else c2
  }

  lemma {:induction false} FinishWires(f: Filter, lo: Id, k: Id, t: Id, x: Id)
    requires Inside(f, lo, k)
    ensures var c := FinishCell(f, lo, k, Expect(f, lo, k), t, x);
      var (a, b) := Wire(f, lo, k, To(t), To(x));
      a.To? && b.To? && c.jt == At(a.id) && c.jf == At(b.id)
  {
    ListsDescend(f, lo);
    Sides(f, lo, k);
    WireCloses(f, lo, k, To(t), To(x));
  }

  /** Patching the true list does not disturb the walk of the false list. */
  lemma {:induction false} FalseChainStays(f: Filter, lo: Id, cs: Cells, t: Ptr)
    requires Threaded(f, lo, cs)
    ensures Within(TList(f, lo), cs) && Rep(f, lo) < |cs|
    ensures Chain(Flipped(Patched(cs, TList(f, lo), t), Rep(f, lo)), FList(f, lo))
  {
    ListsDescend(f, lo);
    ChainsHold(f, lo, cs);
    var F, cs', cs'' := FList(f, lo), Flipped(cs, Rep(f, lo)), Flipped(Patched(cs, TList(f, lo), t), Rep(f, lo));
    forall i | 0 <= i < |F| ensures Link(cs''[F[i]]) == LinkAt(F, i) {
      PatchedAt(cs, TList(f, lo), t, F[i]);
      Sides(f, lo, F[i]);
      assert F[i] in F && Link(cs'[F[i]]) == LinkAt(F, i);
    }
  }
}
