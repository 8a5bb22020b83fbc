/** Where or_pullup and and_pullup find something to do, and what they do there, in the branches of
    the blocks. */
module Rows {
  import opened Bpf
  import opened Graph
  import opened ValueNumbers
  import opened Dominators
  import opened Pullup
  import opened Conflicts
  import opened Dependencies

  /** Some edges lead to b, and on all of them the accumulator has the number v. The first k of the
      blocks of ids and its last one end with that number too, and the others do not. */
  ghost predicate NumbersFit(g: Net, val: seq<Numbers>, edges: seq<nat>, v: nat, ids: seq<Id>, k: nat) {
    && |val| == |g| && edges != [] && k + 1 < |ids|
    && (forall i: nat {:trigger edges[i]} :: i < |edges| ==>
         Pred(|g|, edges[i]) < |g| && val[Pred(|g|, edges[i])][A_ATOM] == v)
    && forall i: nat {:trigger ids[i]} :: i < |ids| ==>
      ids[i] < |g| && (val[ids[i]][A_ATOM] == v <==> i < k || i == |ids| - 1)
  }

  /** Tests dominated by the first of them, b, each going to the next one when it fails, and all to
      the same block when they hold. */
  ghost predicate OrRow(g: Net, M: set<Id>, doms: seq<set<Id>>, b: Id, ids: seq<Id>) {
    && b < |g| == |doms| && ids != [] && ids[0] == b
    && forall i: nat {:trigger ids[i]} :: i < |ids| ==>
      && ids[i] in M && ids[i] < |g| && b in doms[ids[i]] && !g[ids[i]].term.Ret? && g[ids[i]].jt == g[b].jt
      && (i + 1 < |ids| ==> g[ids[i]].jf == ids[i + 1])
  }

  /** Each going to the next one when it holds, and all to the same block when they fail. */
  ghost predicate AndRow(g: Net, M: set<Id>, doms: seq<set<Id>>, b: Id, ids: seq<Id>) {
    && b < |g| == |doms| && ids != [] && ids[0] == b
    && forall i: nat {:trigger ids[i]} :: i < |ids| ==>
      && ids[i] in M && ids[i] < |g| && b in doms[ids[i]] && !g[ids[i]].term.Ret? && g[ids[i]].jf == g[b].jf
      && (i + 1 < |ids| ==> g[ids[i]].jt == ids[i + 1])
  }

  /** A place for or_pullup is a row of alternatives with fitting numbers. */
  lemma OrSite(g: Net, M: set<Id>, doms: seq<set<Id>>, val: seq<Numbers>, edges: seq<nat>, b: Id, v: nat, ids: seq<Id>,
               k: nat)
    requires b < |g| == |doms| == |val|
    ensures Site(g, M, doms, val, edges, true, b, v, ids, k) <==>
      OrRow(g, M, doms, b, ids) && NumbersFit(g, val, edges, v, ids, k)
  {
    if OrRow(g, M, doms, b, ids) && NumbersFit(g, val, edges, v, ids, k) {
      var rest := Onward(g[ids[|ids| - 1]], true);
      forall i: nat | i < |ids|
        ensures ids[i] < |g| && !g[ids[i]].term.Ret? && Exit(g[ids[i]], true) == Exit(g[b], true)
        ensures Onward(g[ids[i]], true) == Then(ids, rest, i)
      {
        assert ids[i] in M;
      }
      assert Links(g, true, ids, Exit(g[b], true), rest);
    } else if Site(g, M, doms, val, edges, true, b, v, ids, k) {
      forall i: nat | i < |ids|
        ensures ids[i] < |g| && !g[ids[i]].term.Ret? && g[ids[i]].jt == g[b].jt
        ensures i + 1 < |ids| ==> g[ids[i]].jf == ids[i + 1]
      {
        var next := Then(ids, Onward(g[ids[|ids| - 1]], true), i);
      }
    }
  }

  /** One for and_pullup is a row of conditions with fitting numbers. */
  lemma AndSite(g: Net, M: set<Id>, doms: seq<set<Id>>, val: seq<Numbers>, edges: seq<nat>, b: Id, v: nat, ids: seq<Id>,
                k: nat)
    requires b < |g| == |doms| == |val|
    ensures Site(g, M, doms, val, edges, false, b, v, ids, k) <==>
      AndRow(g, M, doms, b, ids) && NumbersFit(g, val, edges, v, ids, k)
  {
    if AndRow(g, M, doms, b, ids) && NumbersFit(g, val, edges, v, ids, k) {
      var rest := Onward(g[ids[|ids| - 1]], false);
      forall i: nat | i < |ids|
        ensures ids[i] < |g| && !g[ids[i]].term.Ret? && Exit(g[ids[i]], false) == Exit(g[b], false)
        ensures Onward(g[ids[i]], false) == Then(ids, rest, i)
      {
        assert ids[i] in M;
      }
      assert Links(g, false, ids, Exit(g[b], false), rest);
    } else if Site(g, M, doms, val, edges, false, b, v, ids, k) {
      forall i: nat | i < |ids|
        ensures ids[i] < |g| && !g[ids[i]].term.Ret? && g[ids[i]].jf == g[b].jf
        ensures i + 1 < |ids| ==> g[ids[i]].jt == ids[i + 1]
      {
        var next := Then(ids, Onward(g[ids[|ids| - 1]], false), i);
      }
    }
  }

  /** Where block i of a row leads once the last one has moved to place k. */
  lemma RowMoved(g: Net, net: Net, rk: Rank, M: set<Id>, or: bool, ids: seq<Id>, k: nat, out: Id, rest: Id, i: nat)
    requires Ranked(g, rk) && Chain(g, or, ids, out, rest) && k + 1 < |ids| && i < |ids|
    requires Moved(g, net, M, or, ids, k, rest) && ids[i] < |g| && ids[i] in M && !g[ids[i]].term.Ret?
    requires Exit(g[ids[i]], or) == out && Onward(g[ids[i]], or) == Then(ids, rest, i)
    ensures Exit(net[ids[i]], or) == out
    ensures Onward(net[ids[i]], or) ==
      if i == |ids| - 1 then ids[k] else if i == |ids| - 2 then rest else if i + 1 == k then ids[|ids| - 1]
        else ids[i + 1]
  {
    ChainDistinct(g, rk, or, ids, out, rest);
    assert net[ids[i]] == MovedNode(g, M, or, ids, k, rest, ids[i]);
    assert ids[i] != ids[|ids| - 1] || i == |ids| - 1;
    assert ids[i] != ids[|ids| - 2] || i == |ids| - 2;
    assert k > 0 ==> ids[i] != ids[k - 1] || i == k - 1;
    assert out != ids[0] && (i + 1 < |ids| ==> ids[i + 1] != ids[0]);
  }

  lemma SameCode(g: Net, net: Net, M: set<Id>, or: bool, ids: seq<Id>, k: nat, rest: Id, x: Id)
    requires k + 1 < |ids| && Moved(g, net, M, or, ids, k, rest) && x < |g|
    ensures net[x].stmts == g[x].stmts && net[x].term == g[x].term
  {
    assert net[x] == MovedNode(g, M, or, ids, k, rest, x);
  }

  /** And the blocks outside. */
  lemma OutsideMoved(g: Net, net: Net, M: set<Id>, or: bool, ids: seq<Id>, k: nat, rest: Id, x: Id)
    requires k + 1 < |ids| && Moved(g, net, M, or, ids, k, rest) && x < |g| && x !in ids
    ensures net[x] ==
      if k == 0 && x in M &&
        !g[x].term.Ret? then g[x].(jt := Redirected(ids, k, g[x].jt), jf := Redirected(ids, k, g[x].jf))
      else g[x]
  {
    assert ids[|ids| - 1] in ids && ids[|ids| - 2] in ids && (k > 0 ==> ids[k - 1] in ids);
    assert net[x] == MovedNode(g, M, or, ids, k, rest, x);
  }

  /** What or_pullup then does: the last block of the row goes in front of the k-th, be that its
      head, and nothing else changes; here for block i of the row and any other block x. */
  lemma OrPulled(g: Net, net: Net, rk: Rank, M: set<Id>, doms: seq<set<Id>>, val: seq<Numbers>, edges: seq<nat>,
                 b: Id, v: nat, ids: seq<Id>, k: nat, i: nat, x: Id)
    requires Ranked(g, rk) && OrRow(g, M, doms, b, ids) && NumbersFit(g, val, edges, v, ids, k)
    requires PulledAt(g, net, M, doms, val, edges, true, b) && i < |ids| && x < |g|
    ensures |net| == |g| && net[x].stmts == g[x].stmts && net[x].term == g[x].term
    ensures ids[i] < |g| && net[ids[i]].jt == g[b].jt
    ensures var pull := ids[|ids| - 1];
      && pull < |g|
      && (i == |ids| - 1 ==> net[ids[i]].jf == ids[k])
      && (i == |ids| - 2 ==> net[ids[i]].jf == g[pull].jf)
      && (i + 1 == k ==> net[ids[i]].jf == pull)
      && (i + 1 != k && i < |ids| - 2 ==> net[ids[i]].jf == ids[i + 1])
    ensures x !in ids && (k > 0 || x !in M || g[x].term.Ret?) ==> net[x] == g[x]
    ensures x !in ids && k == 0 && x in M && !g[x].term.Ret? ==>
      && net[x].jt == (if g[x].jt == b then ids[|ids| - 1] else g[x].jt)
      && net[x].jf == (if g[x].jf == b then ids[|ids| - 1] else g[x].jf)
  {
    OrSite(g, M, doms, val, edges, b, v, ids, k);
    assert ids[i] in M && ids[|ids| - 1] in M;
    var rest := Onward(g[ids[|ids| - 1]], true);
    var next := Then(ids, rest, i);
    LinksChain(g, true, ids, g[b].jt, rest);
    RowMoved(g, net, rk, M, true, ids, k, g[b].jt, rest, i);
    SameCode(g, net, M, true, ids, k, rest, x);
    if x !in ids {
      OutsideMoved(g, net, M, true, ids, k, rest, x);
    }
  }

  /** What and_pullup then does: the last block of the row goes in front of the k-th, be that its
      head, and nothing else changes; here for block i of the row and any other block x. */
  lemma AndPulled(g: Net, net: Net, rk: Rank, M: set<Id>, doms: seq<set<Id>>, val: seq<Numbers>, edges: seq<nat>,
                 b: Id, v: nat, ids: seq<Id>, k: nat, i: nat, x: Id)
    requires Ranked(g, rk) && AndRow(g, M, doms, b, ids) && NumbersFit(g, val, edges, v, ids, k)
    requires PulledAt(g, net, M, doms, val, edges, false, b) && i < |ids| && x < |g|
    ensures |net| == |g| && net[x].stmts == g[x].stmts && net[x].term == g[x].term
    ensures ids[i] < |g| && net[ids[i]].jf == g[b].jf
    ensures var pull := ids[|ids| - 1];
      && pull < |g|
      && (i == |ids| - 1 ==> net[ids[i]].jt == ids[k])
      && (i == |ids| - 2 ==> net[ids[i]].jt == g[pull].jt)
      && (i + 1 == k ==> net[ids[i]].jt == pull)
      && (i + 1 != k && i < |ids| - 2 ==> net[ids[i]].jt == ids[i + 1])
    ensures x !in ids && (k > 0 || x !in M || g[x].term.Ret?) ==> net[x] == g[x]
    ensures x !in ids && k == 0 && x in M && !g[x].term.Ret? ==>
      && net[x].jt == (if g[x].jt == b then ids[|ids| - 1] else g[x].jt)
      && net[x].jf == (if g[x].jf == b then ids[|ids| - 1] else g[x].jf)
  {
    AndSite(g, M, doms, val, edges, b, v, ids, k);
    assert ids[i] in M && ids[|ids| - 1] in M;
    var rest := Onward(g[ids[|ids| - 1]], false);
    var next := Then(ids, rest, i);
    LinksChain(g, false, ids, g[b].jf, rest);
    RowMoved(g, net, rk, M, false, ids, k, g[b].jf, rest, i);
    SameCode(g, net, M, false, ids, k, rest, x);
    if x !in ids {
      OutsideMoved(g, net, M, false, ids, k, rest, x);
    }
  }

  /** Where there is no such row nothing moves. */
  lemma OrIdle(g: Net, net: Net, M: set<Id>, doms: seq<set<Id>>, val: seq<Numbers>, edges: seq<nat>, b: Id)
    requires b < |g| == |doms| == |val| && PulledAt(g, net, M, doms, val, edges, true, b)
    requires forall v: nat, ids: seq<Id>, k: nat ::
      !(OrRow(g, M, doms, b, ids) && NumbersFit(g, val, edges, v, ids, k))
    ensures net == g
  {
    forall v: nat, ids: seq<Id>, k: nat ensures !Site(g, M, doms, val, edges, true, b, v, ids, k) {
      OrSite(g, M, doms, val, edges, b, v, ids, k);
    }
  }

  /** Where there is no such row nothing moves. */
  lemma AndIdle(g: Net, net: Net, M: set<Id>, doms: seq<set<Id>>, val: seq<Numbers>, edges: seq<nat>, b: Id)
    requires b < |g| == |doms| == |val| && PulledAt(g, net, M, doms, val, edges, false, b)
    requires forall v: nat, ids: seq<Id>, k: nat ::
      !(AndRow(g, M, doms, b, ids) && NumbersFit(g, val, edges, v, ids, k))
    ensures net == g
  {
    forall v: nat, ids: seq<Id>, k: nat ensures !Site(g, M, doms, val, edges, false, b, v, ids, k) {
      AndSite(g, M, doms, val, edges, b, v, ids, k);
    }
  }

  // ----- a row of conditions -----

  /** The byte at 9 is tested, then that byte, the one at 10 and the first again, all three for the
      true verdict. */
  function Conditions(): Net {
    [Node([BYTE], JmpK(Jge, 1), 1, 5), Node([BYTE], JmpK(Jeq, 6), 2, 5), Node([OTHER], JmpK(Jeq, 5), 3, 5),
     Node([BYTE], JmpK(Jgt, 3), 4, 5), Node([], Ret(1), 0, 0), Node([], Ret(0), 0, 0)]
  }

  function ConditionNumbers(): seq<Numbers> {
    [Num(1, 0), Num(1, 0), Num(2, 0), Num(1, 0), Num(1, 0), Num(0, 0)]
  }

  const CONDITIONS_RANK: Rank := [4, 3, 2, 1, 0, 0]

  lemma IntoCondition(x: Id)
    ensures BlockStep(Conditions())(x, 1) <==> x == 0
    ensures BlockStep(Conditions())(x, 2) <==> x == 1
    ensures BlockStep(Conditions())(x, 3) <==> x == 2
  {
    assert x == 0 || x == 1 || x == 2 || x == 3 || x == 4 || x == 5 || x > 5;
  }

  lemma ConditionsDominated()
    ensures var doms := Doms(Conditions()); 1 in doms[1] && 1 in doms[2] && 1 in doms[3]
  {
    var step := BlockStep(Conditions());
    forall x: Id ensures (step(x, 1) <==> x == 0) && (step(x, 2) <==> x == 1) && (step(x, 3) <==> x == 2) {
      IntoCondition(x);
    }
    DominatesStep(step, {0}, 1, 1, {0});
    DominatesStep(step, {0}, 1, 2, {1});
    DominatesStep(step, {0}, 1, 3, {2});
  }

  lemma ConditionsRow()
    ensures AndRow(Conditions(), BLOCKS, Doms(Conditions()), 1, [1, 2, 3])
  {
    var g, ids := Conditions(), [1, 2, 3];
    ConditionsDominated();
    forall i: nat | i < 3
      ensures ids[i] in BLOCKS && 1 in Doms(g)[ids[i]] && !g[ids[i]].term.Ret? && g[ids[i]].jf == 5
      ensures i < 2 ==> g[ids[i]].jt == ids[i + 1]
    {
      assert i == 0 || i == 1 || i == 2;
    }
  }

  lemma ConditionsFit()
    ensures NumbersFit(Conditions(), ConditionNumbers(), [0], 1, [1, 2, 3], 1)
  {
  }

  lemma ConditionMoved(net: Net, x: Id)
    requires Moved(Conditions(), net, BLOCKS, false, [1, 2, 3], 1, 4) && x < 6
    ensures var g := Conditions();
      net[x] == if x == 1 then g[1].(jt := 3) else if x == 2 then g[2].(jt := 4) else if x == 3 then g[3].(jt := 2)
                else g[x]
  {
    assert net[x] == MovedNode(Conditions(), BLOCKS, false, [1, 2, 3], 1, 4, x);
  }

  /** and_pullup moves the third of them in front of the second. */
  lemma ConditionsPulled(net: Net)
    requires PulledAt(Conditions(), net, BLOCKS, Doms(Conditions()), ConditionNumbers(), [0], false, 1)
    ensures var g := Conditions();
      net == g[1 := g[1].(jt := 3)][2 := g[2].(jt := 4)][3 := g[3].(jt := 2)]
  {
    var g, ids := Conditions(), [1, 2, 3];
    ConditionsRow();
    ConditionsFit();
    AndSite(g, BLOCKS, Doms(g), ConditionNumbers(), [0], 1, 1, ids, 1);
    forall x: Id | x < 6
      ensures |net| == 6 && net[x] == g[1 := g[1].(jt := 3)][2 := g[2].(jt := 4)][3 := g[3].(jt := 2)][x]
    {
      ConditionMoved(net, x);
    }
  }
}
