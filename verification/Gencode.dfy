/** The in-place code generator for filters: backpatch, merge, gen_and, gen_or, gen_not,
    gen_relation and finish_parse over blocks whose unfilled successor pointers double as
    list links. */
module Gencode {
  import opened Graph
  import opened Blocks
  import opened Wiring
  import opened Threads

  // ----- the heap behind a sequence of cells -----

  ghost predicate Shows(hp: Heap, q: Block?, p: Ptr) {
    if p.Null? then q == null else Points(hp, q, p.id)
  }

  /** The objects listed by hp carry the sense bits and pointers of cs. */
  ghost predicate HeapIs(S: set<Block>, hp: Heap, cs: Cells)
    reads S`sense, S`jt, S`jf
  {
    && |hp| == |cs|
    && forall k {:trigger cs[k]} :: 0 <= k < |cs| ==>
      && hp[k] in S && hp[k].key == k && hp[k].sense == cs[k].sense
      && Shows(hp, hp[k].jt, cs[k].jt) && Shows(hp, hp[k].jf, cs[k].jf)
  }

  /** The leaves numbered from lo to hi are objects of D. */
  ghost predicate Owned(D: set<Block>, S: set<Block>, hp: Heap, lo: Id, hi: Id) {
    D <= S && hi <= |hp| && forall k :: lo <= k < hi ==> hp[k] in D
  }

  lemma ChainTail(cs: Cells, L: seq<Id>, target: Ptr, lo: Id, hi: Id)
    requires L != [] && Chain(cs, L) && Descending(L, lo, hi)
    ensures Chain(cs[L[0] := SetLink(cs[L[0]], target)], L[1..]) && Descending(L[1..], lo, hi)
  {
    DescendingBounds(L[1..], lo, L[0]);
    DescendingWidens(L[1..], lo, L[0], hi);
    var cs' := cs[L[0] := SetLink(cs[L[0]], target)];
    forall i | 0 <= i < |L[1..]| ensures Link(cs'[L[1..][i]]) == LinkAt(L[1..], i) {
      assert L[1..][i] == L[i + 1];
    }
  }

  /** Redirects the link pointer of b, returning where it led. */
  method Relink(b: Block, target: Block, ghost S: set<Block>, ghost hp: Heap, ghost cs: Cells) returns (next: Block?)
    requires HeapIs(S, hp, cs) && Points(hp, b, b.key) && Points(hp, target, target.key)
    modifies b`jt, b`jf
    ensures Shows(hp, next, Link(cs[b.key]))
    ensures HeapIs(S, hp, cs[b.key := SetLink(cs[b.key], At(target.key))])
  {
    assert cs[b.key].sense == b.sense;
    if !b.sense {
      next := b.jt;
      b.jt := target;
    } else {
      next := b.jf;
      b.jf := target;
    }
    ghost var cs' := cs[b.key := SetLink(cs[b.key], At(target.key))];
    assert Shows(hp, b.jt, cs'[b.key].jt) && Shows(hp, b.jf, cs'[b.key].jf);
    forall k | 0 <= k < |cs| && k != b.key ensures hp[k] != b && cs'[k] == cs[k] {
      assert cs[k].sense == old(hp[k].sense);
    }
  }

  /** backpatch: fills every link of the list with target. */
  method Backpatch(list: Block, target: Block, ghost D: set<Block>, ghost S: set<Block>, ghost hp: Heap,
                   ghost cs: Cells, ghost L: seq<Id>, ghost lo: Id, ghost hi: Id)
    requires HeapIs(S, hp, cs) && Owned(D, S, hp, lo, hi) && Points(hp, target, target.key)
    requires L != [] && Chain(cs, L) && Descending(L, lo, hi) && list == hp[L[0]]
    modifies D`jt, D`jf
    ensures HeapIs(S, hp, Patched(cs, L, At(target.key)))
  {
    var cur: Block? := list;
    ghost var now, rest := cs, L;
    while cur != null
      invariant HeapIs(S, hp, now) && Chain(now, rest) && Descending(rest, lo, hi)
      invariant cur == if rest == [] then null else hp[rest[0]]
      invariant Patched(now, rest, At(target.key)) == Patched(cs, L, At(target.key))
      decreases |rest|
    {
      ghost var k := rest[0];
      assert now[k].sense == cur.sense && LinkAt(rest, 0) == Link(now[k]);
      ChainTail(now, rest, At(target.key), lo, hi);
      cur := Relink(cur, target, S, hp, now);
      now, rest := now[k := SetLink(now[k], At(target.key))], rest[1..];
    }
  }

  /** merge: walks to the end of the first list and links it to b1. */
  method Merge(b0: Block, b1: Block, ghost D: set<Block>, ghost S: set<Block>, ghost hp: Heap,
               ghost cs: Cells, ghost L: seq<Id>, ghost lo: Id, ghost hi: Id)
    requires HeapIs(S, hp, cs) && Owned(D, S, hp, lo, hi) && Points(hp, b1, b1.key)
    requires L != [] && Chain(cs, L) && Descending(L, lo, hi) && b0 == hp[L[0]]
    modifies D`jt, D`jf
    ensures HeapIs(S, hp, Joined(cs, L, At(b1.key)))
  {
    var p := b0;
    ghost var i := 0;
    while (if !p.sense then p.jt else p.jf) != null
      invariant 0 <= i < |L| && p == hp[L[i]]
      decreases |L| - i
    {
      assert cs[L[i]].sense == p.sense && LinkAt(L, i) == Link(cs[L[i]]);
      p := if !p.sense then p.jt else p.jf;
      i := i + 1;
    }
    assert cs[L[i]].sense == p.sense && LinkAt(L, i) == Link(cs[L[i]]);
    DescendingBounds(L, lo, hi);
    var _ := Relink(p, b1, S, hp, cs);
  }

  method FlipSense(b: Block, ghost S: set<Block>, ghost hp: Heap, ghost cs: Cells)
    requires HeapIs(S, hp, cs) && b in S && Points(hp, b, b.key)
    modifies b`sense
    ensures HeapIs(S, hp, Flipped(cs, b.key))
  {
    assert cs[b.key].sense == b.sense;
    b.sense := !b.sense;
  }

  /** Block b stands for filter f, whose leaves are numbered from lo. */
  ghost predicate Built(b: Block, f: Filter, lo: Id, hp: Heap, cs: Cells)
    reads b`head
  {
    Threaded(f, lo, cs) && |hp| == |cs| && Points(hp, b, Rep(f, lo)) && Points(hp, b.head, lo)
  }

  method GenNot(b: Block, ghost f: Filter, ghost lo: Id, ghost S: set<Block>, ghost hp: Heap, ghost cs: Cells)
    requires HeapIs(S, hp, cs) && Built(b, f, lo, hp, cs) && b in S
    modifies b`sense
    ensures HeapIs(S, hp, Flipped(cs, b.key)) && Built(b, Not(f), lo, hp, Flipped(cs, b.key))
  {
    NotThreads(f, lo, cs);
    FlipSense(b, S, hp, cs);
  }

  /** gen_and up to its merge: b0's true list leads to b1's first leaf, and both senses are
      turned. */
  method FillTrue(b0: Block, b1: Block, ghost l: Filter, ghost r: Filter, ghost lo: Id, ghost D: set<Block>,
                  ghost S: set<Block>, ghost hp: Heap, ghost cs: Cells, ghost cs1: Cells, ghost cs2: Cells)
    requires HeapIs(S, hp, cs) && Owned(D, S, hp, lo, lo + Leaves(l) + Leaves(r))
    requires Points(hp, b0, Rep(l, lo)) && Points(hp, b1, Rep(r, lo + Leaves(l))) && Points(hp, b1.head, lo + Leaves(l))
    requires TList(l, lo) != [] && TList(l, lo)[0] == Rep(l, lo) && Descending(TList(l, lo), lo, lo + Leaves(l))
    requires Chain(cs, TList(l, lo)) && cs1 == Patched(cs, TList(l, lo), At(lo + Leaves(l)))
    requires |cs1| == |cs| && cs2 == Flipped(cs1, Rep(l, lo))
    modifies D`sense, D`jt, D`jf
    ensures HeapIs(S, hp, Flipped(cs2, Rep(r, lo + Leaves(l))))
  {
    assert b0 in D && b1 in D;
    Backpatch(b0, b1.head, D, S, hp, cs, TList(l, lo), lo, lo + Leaves(l));
    FlipSense(b0, S, hp, cs1);
    FlipSense(b1, S, hp, cs2);
  }

  method GenAnd(b0: Block, b1: Block, ghost l: Filter, ghost r: Filter, ghost lo: Id,
                ghost D: set<Block>, ghost S: set<Block>, ghost hp: Heap, ghost cs: Cells) returns (ghost cs': Cells)
    requires HeapIs(S, hp, cs) && Built(b0, l, lo, hp, cs) && Built(b1, r, lo + Leaves(l), hp, cs)
    requires Owned(D, S, hp, lo, lo + Leaves(l) + Leaves(r))
    modifies D`sense, D`jt, D`jf, b1`head
    ensures HeapIs(S, hp, cs') && Built(b1, Both(l, r), lo, hp, cs') && |cs'| == |cs|
    ensures forall k :: 0 <= k < lo ==> cs'[k] == cs[k]
  {
    ghost var mid, cs1, cs2, cs3, cs4;
    mid, cs1, cs2, cs3, cs4, cs' := AndPlan(l, r, lo, cs);
    FillTrue(b0, b1, l, r, lo, D, S, hp, cs, cs1, cs2);
    Merge(b1, b0, D, S, hp, cs3, FList(r, mid), mid, mid + Leaves(r));
    FlipSense(b1, S, hp, cs4);
    b1.head := b0.head;
  }

  /** The cells between gen_and's steps, with the walks those steps rely on. */
  lemma AndPlan(l: Filter, r: Filter, lo: Id, cs: Cells)
    returns (mid: Id, cs1: Cells, cs2: Cells, cs3: Cells, cs4: Cells, cs5: Cells)
    requires Threaded(l, lo, cs) && Threaded(r, lo + Leaves(l), cs)
    ensures mid == lo + Leaves(l) && |cs| == |cs1| == |cs2| == |cs3| == |cs4| == |cs5|
    ensures TList(l, lo) != [] && TList(l, lo)[0] == Rep(l, lo) && Descending(TList(l, lo), lo, mid)
    ensures FList(r, mid) != [] && FList(r, mid)[0] == Rep(r, mid) && Descending(FList(r, mid), mid, mid + Leaves(r))
    ensures Chain(cs, TList(l, lo)) && cs1 == Patched(cs, TList(l, lo), At(mid))
    ensures cs2 == Flipped(cs1, Rep(l, lo)) && cs3 == Flipped(cs2, Rep(r, mid)) && Chain(cs3, FList(r, mid))
    ensures cs4 == Joined(cs3, FList(r, mid), At(Rep(l, lo))) && cs5 == Flipped(cs4, Rep(r, mid))
    ensures Rep(Both(l, r), lo) == Rep(r, mid) && mid <= Rep(r, mid) < |cs| && lo <= Rep(l, lo) < mid
    ensures Threaded(Both(l, r), lo, cs5) && forall k :: 0 <= k < lo ==> cs5[k] == cs[k]
  {
    mid := lo + Leaves(l);
    AndThreads(l, r, lo, cs);
    ListsDescend(l, lo);
    ListsDescend(r, mid);
    ChainsHold(l, lo, cs);
    cs1 := Patched(cs, TList(l, lo), At(mid));
    cs2 := Flipped(cs1, Rep(l, lo));
    cs3 := Flipped(cs2, Rep(r, mid));
    cs4 := Joined(cs3, FList(r, mid), At(Rep(l, lo)));
    cs5 := Flipped(cs4, Rep(r, mid));
    assert cs5 == AndCells(l, r, lo, cs);
    AfterPatch(cs, TList(l, lo), lo, mid, At(mid));
    assert Threaded(r, mid, cs2);
    ChainsHold(r, mid, cs2);
  }

  method GenOr(b0: Block, b1: Block, ghost l: Filter, ghost r: Filter, ghost lo: Id,
               ghost D: set<Block>, ghost S: set<Block>, ghost hp: Heap, ghost cs: Cells) returns (ghost cs': Cells)
    requires HeapIs(S, hp, cs) && Built(b0, l, lo, hp, cs) && Built(b1, r, lo + Leaves(l), hp, cs)
    requires Owned(D, S, hp, lo, lo + Leaves(l) + Leaves(r))
    modifies D`sense, D`jt, D`jf, b1`head
    ensures HeapIs(S, hp, cs') && Built(b1, Either(l, r), lo, hp, cs') && |cs'| == |cs|
    ensures forall k :: 0 <= k < lo ==> cs'[k] == cs[k]
  {
    ghost var mid, cs1, cs2, cs3;
    mid, cs1, cs2, cs3, cs' := OrPlan(l, r, lo, cs);
    FlipSense(b0, S, hp, cs);
    Backpatch(b0, b1.head, D, S, hp, cs1, FList(l, lo), lo, mid);
    FlipSense(b0, S, hp, cs2);
    Merge(b1, b0, D, S, hp, cs3, TList(r, mid), mid, mid + Leaves(r));
    b1.head := b0.head;
  }

  /** The cells between gen_or's steps, with the walks those steps rely on. */
  lemma OrPlan(l: Filter, r: Filter, lo: Id, cs: Cells)
    returns (mid: Id, cs1: Cells, cs2: Cells, cs3: Cells, cs4: Cells)
    requires Threaded(l, lo, cs) && Threaded(r, lo + Leaves(l), cs)
    ensures mid == lo + Leaves(l) && |cs| == |cs1| == |cs2| == |cs3| == |cs4|
    ensures FList(l, lo) != [] && FList(l, lo)[0] == Rep(l, lo) && Descending(FList(l, lo), lo, mid)
    ensures TList(r, mid) != [] && TList(r, mid)[0] == Rep(r, mid) && Descending(TList(r, mid), mid, mid + Leaves(r))
    ensures cs1 == Flipped(cs, Rep(l, lo)) && Chain(cs1, FList(l, lo)) && cs2 == Patched(cs1, FList(l, lo), At(mid))
    ensures cs3 == Flipped(cs2, Rep(l, lo)) && Chain(cs3, TList(r, mid))
    ensures cs4 == Joined(cs3, TList(r, mid), At(Rep(l, lo)))
    ensures Rep(Either(l, r), lo) == Rep(r, mid) && mid <= Rep(r, mid) < |cs| && lo <= Rep(l, lo) < mid
    ensures Threaded(Either(l, r), lo, cs4) && forall k :: 0 <= k < lo ==> cs4[k] == cs[k]
  {
    mid := lo + Leaves(l);
    OrThreads(l, r, lo, cs);
    ListsDescend(l, lo);
    ListsDescend(r, mid);
    ChainsHold(l, lo, cs);
    cs1 := Flipped(cs, Rep(l, lo));
    cs2 := Patched(cs1, FList(l, lo), At(mid));
    cs3 := Flipped(cs2, Rep(l, lo));
    cs4 := Joined(cs3, TList(r, mid), At(Rep(l, lo)));
    assert cs4 == OrCells(l, r, lo, cs);
    AfterPatch(cs1, FList(l, lo), lo, mid, At(mid));
    assert Threaded(r, mid, cs3);
    ChainsHold(r, mid, cs3);
  }

  /** Patching leaves between lo and mid leaves the others as they were. */
  lemma AfterPatch(cs: Cells, L: seq<Id>, lo: Id, mid: Id, target: Ptr)
    requires Threads.Within(L, cs) && Descending(L, lo, mid)
    ensures forall k {:trigger Patched(cs, L, target)[k]} :: 0 <= k < |cs| && !(lo <= k < mid) ==>
      Patched(cs, L, target)[k] == cs[k]
  {
    DescendingBounds(L, lo, mid);
    forall k | 0 <= k < |cs| && !(lo <= k < mid) ensures Patched(cs, L, target)[k] == cs[k] {
      PatchedAt(cs, L, target, k);
    }
  }
}
