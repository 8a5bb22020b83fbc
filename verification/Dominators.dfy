/** find_dom and find_edom: the blocks on every path to a block, and the edges on every path
    through an edge. */
module Dominators {
  import opened Graph
  import opened Levels

  // ----- dominance in any graph -----

  /** The edge relation of a graph over numbers. */
  type Step = (nat, nat) -> bool

  /** s is a path from one of the starts to x. */
  ghost predicate Path(step: Step, starts: set<nat>, s: seq<nat>, x: nat)
    decreases |s|
  {
    && |s| > 0 && s[|s| - 1] == x
    && if |s| == 1 then x in starts else step(s[|s| - 2], x) && Path(step, starts, s[..|s| - 1], s[|s| - 2])
  }

  /** d is on every path to x. */
  ghost predicate Dominates(step: Step, starts: set<nat>, d: nat, x: nat) {
    forall s {:trigger Path(step, starts, s, x)} :: Path(step, starts, s, x) ==> d in s
  }

  ghost predicate Reached(step: Step, starts: set<nat>, x: nat) {
    exists s :: Path(step, starts, s, x)
  }

  lemma PathExtend(step: Step, starts: set<nat>, s: seq<nat>, p: nat, x: nat)
    requires Path(step, starts, s, p) && step(p, x)
    ensures Path(step, starts, s + [x], x)
  {
    assert (s + [x])[..|s|] == s;
  }

  /** What dominates x is x itself and whatever dominates all its predecessors, if a path
      can only come in through those. */
  lemma DominatesStep(step: Step, starts: set<nat>, d: nat, x: nat, preds: set<nat>)
    requires forall p :: p in preds ==> step(p, x)
    requires forall p :: step(p, x) && Reached(step, starts, p) ==> p in preds
    ensures Dominates(step, starts, d, x) <==>
      d == x || (x !in starts && forall p :: p in preds ==> Dominates(step, starts, d, p))
  {
    if d == x {
      forall s | Path(step, starts, s, x) ensures d in s {
        assert s[|s| - 1] == x;
      }
    } else if x in starts {
      assert Path(step, starts, [x], x);
      assert d !in [x];
    } else {
      if Dominates(step, starts, d, x) {
        forall p, s | p in preds && Path(step, starts, s, p) ensures d in s {
          PathExtend(step, starts, s, p, x);
          assert d in s + [x];
        }
      }
      if forall p :: p in preds ==> Dominates(step, starts, d, p) {
        forall s | Path(step, starts, s, x) ensures d in s {
          var p := s[|s| - 2];
          assert Path(step, starts, s[..|s| - 1], p) && Reached(step, starts, p);
          assert Dominates(step, starts, d, p);
        }
      }
    }
  }

  // ----- the sets the passes leave -----

  /** What dominates c. */
  ghost function DomSet(step: Step, starts: set<nat>, n: nat, c: nat): set<nat> {
    set d | d in FirstIds(n) && Dominates(step, starts, d, c)
  }

  /** What the predecessors of c in done leave in its set. */
  ghost function Meet(step: Step, starts: set<nat>, n: nat, done: set<nat>, c: nat): set<nat> {
    if c in starts then {}
    else set d | d in FirstIds(n) && forall p :: p in done && step(p, c) ==> d in DomSet(step, starts, n, p)
  }

  lemma MeetComplete(step: Step, starts: set<nat>, n: nat, done: set<nat>, c: nat)
    requires c < n && forall p :: step(p, c) && Reached(step, starts, p) ==> p in done
    ensures Meet(step, starts, n, done, c) + {c} == DomSet(step, starts, n, c)
  {
    var preds := set p | p in done && step(p, c);
    forall d | d in FirstIds(n) ensures d in Meet(step, starts, n, done, c) + {c} <==> d in DomSet(step, starts, n, c) {
      DominatesStep(step, starts, d, c, preds);
      if d != c && c !in starts {
        assert (forall p :: p in preds ==> Dominates(step, starts, d, p)) <==> d in Meet(step, starts, n, done, c);
      }
    }
  }

  /** Among the numbers of live, those of done have their final sets, the others what those
      leave them. */
  ghost predicate Swept(step: Step, starts: set<nat>, live: set<nat>, done: set<nat>, dom: seq<set<nat>>) {
    forall c: nat {:trigger dom[c]} :: c < |dom| && c in live ==>
      dom[c] == if c in done then DomSet(step, starts, |dom|, c) else Meet(step, starts, |dom|, done, c)
  }

  /** e has been added to its own set and the sets of its successors cut down to that. */
  ghost predicate Cut(step: Step, e: nat, dom: seq<set<nat>>, dom': seq<set<nat>>) {
    && |dom'| == |dom| && e < |dom| && dom'[e] == dom[e] + {e}
    && forall c: nat {:trigger dom[c]} {:trigger dom'[c]} :: c < |dom| && c != e ==>
      dom'[c] == if step(e, c) then dom[c] * (dom[e] + {e}) else dom[c]
  }

  /** It is e's turn: its predecessors are done, its successors are not. */
  ghost predicate Turn(step: Step, starts: set<nat>, e: nat, done: set<nat>) {
    && (forall p :: step(p, e) && Reached(step, starts, p) ==> p in done)
    && forall c :: step(e, c) ==> c !in done && c !in starts && c != e
  }

  lemma SweptNext(step: Step, starts: set<nat>, live: set<nat>, done: set<nat>, dom: seq<set<nat>>, e: nat,
                  dom': seq<set<nat>>)
    requires Swept(step, starts, live, done, dom) && Cut(step, e, dom, dom') && e in live && e !in done
    requires Turn(step, starts, e, done)
    ensures Swept(step, starts, live, done + {e}, dom')
  {
    MeetComplete(step, starts, |dom|, done, e);
    assert dom[e] + {e} == DomSet(step, starts, |dom|, e);
    forall c: nat | c < |dom'| && c in live
      ensures dom'[c] == if c in done + {e} then DomSet(step, starts, |dom'|, c)
        else Meet(step, starts, |dom'|, done + {e}, c)
    {
    }
  }

  // ----- find_dom -----

  function BlockStep(g: Net): Step {
    (a: nat, b: nat) => a < |g| && !g[a].term.Ret? && (g[a].jt == b || g[a].jf == b)
  }

  lemma {:induction false} ReachFrom(g: Net, rk: Rank, root: Id, s: seq<nat>, a: Id, c: Id)
    requires Ranked(g, rk) && a < |g| && Path(BlockStep(g), {root}, s, a) && c in Reach(g, rk, a)
    ensures Reached(BlockStep(g), {root}, c)
    decreases rk[a]
  {
    if c != a {
      var b := if c in Reach(g, rk, g[a].jt) then g[a].jt else g[a].jf;
      PathExtend(BlockStep(g), {root}, s, a, b);
      ReachFrom(g, rk, root, s + [b], b, c);
    }
  }

  lemma {:induction false} PathReach(g: Net, rk: Rank, root: Id, s: seq<nat>, c: Id)
    requires Ranked(g, rk) && root < |g| && Path(BlockStep(g), {root}, s, c)
    ensures c in Reach(g, rk, root) && forall d :: d in s ==> d < |g|
    decreases |s|
  {
    if |s| > 1 {
      var b := s[|s| - 2];
      PathReach(g, rk, root, s[..|s| - 1], b);
      ReachTransitive(g, rk, root, b);
      assert g[b] == g[b] && c in Reach(g, rk, b);
      assert s == s[..|s| - 1] + [c];
    }
  }

  /** The blocks root reaches are the ones a path from it leads to. */
  lemma ReachIsPaths(g: Net, rk: Rank, root: Id, c: Id)
    requires Ranked(g, rk) && root < |g|
    ensures c in Reach(g, rk, root) <==> Reached(BlockStep(g), {root}, c)
  {
    if c in Reach(g, rk, root) {
      assert Path(BlockStep(g), {root}, [root], root);
      ReachFrom(g, rk, root, [root], root, c);
    } else if Reached(BlockStep(g), {root}, c) {
      var s :| Path(BlockStep(g), {root}, s, c);
      PathReach(g, rk, root, s, c);
    }
  }

  /** The predecessors of the blocks of ids are done, and their successors are neither done
      nor of ids. */
  ghost predicate Ready(g: Net, root: Id, M: set<Id>, ids: seq<Id>, done: set<Id>) {
    forall b: Id {:trigger b in ids} :: b in ids ==>
      && b < |g| && b in M && b !in done
      && (forall p: Id :: p in M && BlockStep(g)(p, b) ==> p in done)
      && (!g[b].term.Ret? ==> g[b].jt !in done && g[b].jf !in done && g[b].jt !in ids && g[b].jf !in ids
                              && g[b].jt != root && g[b].jf != root)
  }

  lemma LevelReady(g: Net, rk: Rank, root: Id, level: seq<nat>, ids: seq<Id>, i: nat, done: set<Id>)
    requires Ranked(g, rk) && root < |g| && |level| == |g|
    requires forall b :: b in Reach(g, rk, root) ==> level[b] == Height(g, rk, b)
    requires forall b: Id :: b in ids <==> b in Reach(g, rk, root) && level[b] == i
    requires forall b: Id :: b in done <==> b in Reach(g, rk, root) && level[b] > i
    ensures Ready(g, root, Reach(g, rk, root), ids, done)
  {
    LowerLevels(g, rk, root, level);
    forall b: Id | b in ids && !g[b].term.Ret? ensures g[b].jt != root && g[b].jf != root {
      assert g[b] == g[b];
    }
    forall b, p: Id | b in ids && p in Reach(g, rk, root) && BlockStep(g)(p, b) ensures p in done {
      assert g[p] == g[p];
    }
  }

  class DomFinder {
    const dom: array<set<Id>>

    constructor (n: nat)
      ensures dom.Length == n && fresh(dom)
    {
      dom := new set<Id>[n];
    }

    /** find_dom: the highest level first, so that a block's set is final when it is read. */
    method FindDom(root: Id, g: Net, ghost rk: Rank, level: seq<nat>, levels: seq<seq<Id>>)
      requires Ranked(g, rk) && root < |g| && Leveled(g, rk, Reach(g, rk, root), level, levels) && dom.Length == |g|
      modifies dom
      ensures forall c: Id :: c in Reach(g, rk, root) ==> dom[c] == DomSet(BlockStep(g), {root}, |g|, c)
    {
      ghost var M := Reach(g, rk, root);
      LowerLevels(g, rk, root, level);
      StartSets(root);
      ghost var done: set<Id> := {};
      for i := level[root] + 1 downto 0
        invariant forall b: Id :: b in done <==> b in M && level[b] >= i
        invariant Swept(BlockStep(g), {root}, M, done, dom[..])
      {
        LevelReady(g, rk, root, level, levels[i], i, done);
        IntersectLevel(levels[i], root, g, rk, done);
        done := done + set b | b in levels[i];
      }
      forall c: Id | c in M ensures dom[c] == DomSet(BlockStep(g), {root}, |g|, c) {
        assert dom[..][c] == dom[c];
      }
    }

    method StartSets(root: Id)
      requires root < dom.Length
      modifies dom
      ensures forall c: Id :: c < dom.Length ==> dom[c] == if c == root then {} else FirstIds(dom.Length)
    {
      for i := 0 to dom.Length
        invariant forall c :: 0 <= c < i ==> dom[c] == FirstIds(dom.Length)
      {
        dom[i] := FirstIds(dom.Length);
      }
      dom[root] := {};
    }

    method IntersectLevel(ids: seq<Id>, root: Id, g: Net, ghost rk: Rank, ghost done: set<Id>)
      requires Ranked(g, rk) && root < |g| == dom.Length && done <= Reach(g, rk, root)
      requires NoRepeats(ids) && Ready(g, root, Reach(g, rk, root), ids, done)
      requires Swept(BlockStep(g), {root}, Reach(g, rk, root), done, dom[..])
      modifies dom
      ensures Swept(BlockStep(g), {root}, Reach(g, rk, root), done + (set b | b in ids), dom[..])
    {
      ghost var now := done;
      for j := 0 to |ids|
        invariant forall b :: b in now <==> b in done || b in ids[..j]
        invariant Swept(BlockStep(g), {root}, Reach(g, rk, root), now, dom[..])
      {
        var b := ids[j];
        assert b in ids && ids[..j + 1] == ids[..j] + [b] && b !in ids[..j];
        ghost var before := dom[..];
        Intersect(b, g);
        forall p | BlockStep(g)(p, b) && Reached(BlockStep(g), {root}, p) ensures p in now {
          ReachIsPaths(g, rk, root, p);
        }
        assert g[b] == g[b];
        SweptNext(BlockStep(g), {root}, Reach(g, rk, root), now, before, b, dom[..]);
        now := now + {b};
      }
      assert ids[..|ids|] == ids && now == done + (set b | b in ids);
    }

    /** The body of find_dom's inner loop. */
    method Intersect(b: Id, g: Net)
      requires b < |g| == dom.Length
      requires !g[b].term.Ret? ==> g[b].jt < |g| && g[b].jf < |g| && g[b].jt != b && g[b].jf != b
      modifies dom
      ensures Cut(BlockStep(g), b, old(dom[..]), dom[..])
    {
      dom[b] := dom[b] + {b};
      if !g[b].term.Ret? {
        dom[g[b].jt] := dom[g[b].jt] * dom[b];
        dom[g[b].jf] := dom[g[b].jf] * dom[b];
      }
    }
  }

  // ----- find_edom -----

  /** Edge e leaves the block edge f enters. */
  function EdgeStep(g: Net): Step {
    (f: nat, e: nat) => f < 2 * |g| && e < 2 * |g| && !g[Pred(|g|, f)].term.Ret? && Succ(g, f) == Pred(|g|, e)
  }

  function RootEdges(n: nat, root: Id): set<nat> {
    {root, n + root}
  }

  lemma {:induction false} EdgePathReach(g: Net, rk: Rank, root: Id, s: seq<nat>, e: nat)
    requires Ranked(g, rk) && root < |g| && Path(EdgeStep(g), RootEdges(|g|, root), s, e)
    ensures e < 2 * |g| && Pred(|g|, e) in Reach(g, rk, root)
    decreases |s|
  {
    if |s| > 1 {
      var f := s[|s| - 2];
      EdgePathReach(g, rk, root, s[..|s| - 1], f);
      var b := Pred(|g|, f);
      ReachTransitive(g, rk, root, b);
      assert g[b] == g[b] && Pred(|g|, e) in Reach(g, rk, b);
    }
  }

  /** The edges out of the blocks of done. */
  ghost function EdgesOf(n: nat, done: set<Id>): set<nat> {
    set e: nat | e < 2 * n && Pred(n, e) in done
  }

  /** Only edges out of blocks of M are on paths from the root. */
  ghost predicate Spans(g: Net, root: Id, M: set<Id>) {
    forall e: nat {:trigger Reached(EdgeStep(g), RootEdges(|g|, root), e)} ::
      Reached(EdgeStep(g), RootEdges(|g|, root), e) ==> e < 2 * |g| && Pred(|g|, e) in M
  }

  /** edges has all edges out of the blocks of done and otherwise only edges out of ids. */
  ghost predicate Around(n: nat, edges: set<nat>, done: set<Id>, ids: seq<Id>) {
    forall f: nat {:trigger f in edges} :: f < 2 * n ==>
      (Pred(n, f) in done ==> f in edges) && (f in edges ==> Pred(n, f) in done || Pred(n, f) in ids)
  }

  lemma EdgesAdd(n: nat, now: set<Id>, b: Id)
    requires b < n
    ensures EdgesOf(n, now + {b}) == EdgesOf(n, now) + {b} + {n + b}
  {
    var edges, edges' := EdgesOf(n, now), EdgesOf(n, now + {b});
    forall e: nat ensures e in edges' <==> e in edges || e == b || e == n + b {
      assert e in edges' <==> e < 2 * n && Pred(n, e) in now + {b};
      assert e in edges <==> e < 2 * n && Pred(n, e) in now;
    }
  }

  lemma EdgesAround(n: nat, done: set<Id>, ids: seq<Id>, now: set<Id>, b: Id)
    requires b < n && b in ids && b !in now && done <= now && forall c :: c in now ==> c in done || c in ids
    ensures b !in EdgesOf(n, now) && n + b !in EdgesOf(n, now) + {b}
    ensures Around(n, EdgesOf(n, now), done, ids) && Around(n, EdgesOf(n, now) + {b}, done, ids)
  {
  }

  lemma EdgeReady(g: Net, root: Id, M: set<Id>, ids: seq<Id>, done: set<Id>, b: Id, e: nat, now: set<nat>)
    requires root < |g| && Ready(g, root, M, ids, done) && Spans(g, root, M) && b in ids && e < 2 * |g|
    requires Pred(|g|, e) == b
    requires Around(|g|, now, done, ids)
    ensures Turn(EdgeStep(g), RootEdges(|g|, root), e, now)
  {
    forall f | EdgeStep(g)(f, e) && Reached(EdgeStep(g), RootEdges(|g|, root), f) ensures f in now {
      assert BlockStep(g)(Pred(|g|, f), b);
    }
    forall c | EdgeStep(g)(e, c) ensures c !in now && c !in RootEdges(|g|, root) && c != e {
      assert Pred(|g|, c) == g[b].jt || Pred(|g|, c) == g[b].jf;
    }
  }

  class EdomFinder {
    const edom: array<set<nat>>

    constructor (n: nat)
      ensures edom.Length == 2 * n && fresh(edom)
    {
      edom := new set<nat>[2 * n];
    }

    method Propedom(e: nat, g: Net)
      requires e < 2 * |g| == edom.Length
      requires var b := Pred(|g|, e); !g[b].term.Ret? ==> Succ(g, e) < |g| && Succ(g, e) != b
      modifies edom
      ensures Cut(EdgeStep(g), e, old(edom[..]), edom[..])
    {
      edom[e] := edom[e] + {e};
      if !g[Pred(|g|, e)].term.Ret? {
        var succ := Succ(g, e);
        edom[succ] := edom[succ] * edom[e];
        edom[|g| + succ] := edom[|g| + succ] * edom[e];
      }
    }

    method Clear(root: Id, n: nat)
      requires root < n && edom.Length == 2 * n
      modifies edom
      ensures forall e: nat :: e < 2 * n ==> edom[e] == if e in RootEdges(n, root) then {} else FirstIds(2 * n)
    {
      for i := 0 to 2 * n
        invariant forall c :: 0 <= c < i ==> edom[c] == FirstIds(2 * n)
      {
        edom[i] := FirstIds(2 * n);
      }
      edom[root] := {};
      edom[n + root] := {};
    }

    /** find_edom */
    method FindEdom(root: Id, g: Net, ghost rk: Rank, level: seq<nat>, levels: seq<seq<Id>>)
      requires Ranked(g, rk) && root < |g| && Leveled(g, rk, Reach(g, rk, root), level, levels)
      requires edom.Length == 2 * |g|
      modifies edom
      ensures forall e: nat :: e < 2 * |g| && Pred(|g|, e) in Reach(g, rk, root) ==>
        edom[e] == DomSet(EdgeStep(g), RootEdges(|g|, root), 2 * |g|, e)
    {
      ghost var M, step, starts := Reach(g, rk, root), EdgeStep(g), RootEdges(|g|, root);
      ghost var live := EdgesOf(|g|, M);
      LowerLevels(g, rk, root, level);
      forall e: nat | Reached(step, starts, e) ensures e < 2 * |g| && Pred(|g|, e) in M {
        var s :| Path(step, starts, s, e);
        EdgePathReach(g, rk, root, s, e);
      }
      Clear(root, |g|);
      assert EdgesOf(|g|, {}) == {};
      ghost var done: set<Id> := {};
      for i := level[root] + 1 downto 0
        invariant forall b: Id :: b in done <==> b in M && level[b] >= i
        invariant Swept(step, starts, live, EdgesOf(|g|, done), edom[..])
      {
        LevelReady(g, rk, root, level, levels[i], i, done);
        ReadyRanked(g, rk, root, M, levels[i], done);
        PropLevel(levels[i], root, g, M, done);
        done := done + set b | b in levels[i];
      }
      forall e: nat | e < 2 * |g| && Pred(|g|, e) in M ensures edom[e] == DomSet(step, starts, 2 * |g|, e) {
        assert edom[..][e] == edom[e] && e in live && e in EdgesOf(|g|, done);
      }
    }

    method PropLevel(ids: seq<Id>, root: Id, g: Net, ghost M: set<Id>, ghost done: set<Id>)
      requires root < |g| && 2 * |g| == edom.Length && Spans(g, root, M) && Lower(g, ids)
      requires NoRepeats(ids) && Ready(g, root, M, ids, done)
      requires Swept(EdgeStep(g), RootEdges(|g|, root), EdgesOf(|g|, M), EdgesOf(|g|, done), edom[..])
      modifies edom
      ensures Swept(EdgeStep(g), RootEdges(|g|, root), EdgesOf(|g|, M), EdgesOf(|g|, done + (set b | b in ids)),
        edom[..])
    {
      ghost var now := done;
      for j := 0 to |ids|
        invariant forall b :: b in now <==> b in done || b in ids[..j]
        invariant Swept(EdgeStep(g), RootEdges(|g|, root), EdgesOf(|g|, M), EdgesOf(|g|, now), edom[..])
      {
        var b := ids[j];
        assert b in ids && ids[..j + 1] == ids[..j] + [b] && b !in ids[..j];
        PropBlock(b, root, g, M, ids, done, now);
        now := now + {b};
      }
      assert ids[..|ids|] == ids && now == done + (set b | b in ids);
    }

    /** Both edges of a block. */
    method PropBlock(b: Id, root: Id, g: Net, ghost M: set<Id>, ghost ids: seq<Id>, ghost done: set<Id>,
                     ghost now: set<Id>)
      requires root < |g| && 2 * |g| == edom.Length && Spans(g, root, M) && Lower(g, ids)
      requires Ready(g, root, M, ids, done)
      requires b in ids && b !in now && done <= now && forall c :: c in now ==> c in done || c in ids
      requires Swept(EdgeStep(g), RootEdges(|g|, root), EdgesOf(|g|, M), EdgesOf(|g|, now), edom[..])
      modifies edom
      ensures Swept(EdgeStep(g), RootEdges(|g|, root), EdgesOf(|g|, M), EdgesOf(|g|, now + {b}), edom[..])
    {
      ghost var live, starts, edges := EdgesOf(|g|, M), RootEdges(|g|, root), EdgesOf(|g|, now);
      EdgesAround(|g|, done, ids, now, b);
      EdgeReady(g, root, M, ids, done, b, b, edges);
      EdgeReady(g, root, M, ids, done, b, |g| + b, edges + {b});
      EdgesAdd(|g|, now, b);
      PropEdge(b, g, starts, live, edges);
      PropEdge(|g| + b, g, starts, live, edges + {b});
    }

    method PropEdge(e: nat, g: Net, ghost starts: set<nat>, ghost live: set<nat>, ghost edges: set<nat>)
      requires e < 2 * |g| == edom.Length && e in live && e !in edges && Turn(EdgeStep(g), starts, e, edges)
      requires var b := Pred(|g|, e); !g[b].term.Ret? ==> Succ(g, e) < |g| && Succ(g, e) != b
      requires Swept(EdgeStep(g), starts, live, edges, edom[..])
      modifies edom
      ensures Swept(EdgeStep(g), starts, live, edges + {e}, edom[..])
    {
      ghost var before := edom[..];
      Propedom(e, g);
      SweptNext(EdgeStep(g), starts, live, edges, before, e, edom[..]);
    }
  }

  /** The successors of the blocks of ids are other blocks of the graph. */
  ghost predicate Lower(g: Net, ids: seq<Id>) {
    forall b: Id {:trigger b in ids} :: b in ids && b < |g| && !g[b].term.Ret? ==>
      g[b].jt < |g| && g[b].jt != b && g[b].jf < |g| && g[b].jf != b
  }

  lemma ReadyRanked(g: Net, rk: Rank, root: Id, M: set<Id>, ids: seq<Id>, done: set<Id>)
    requires Ranked(g, rk) && Ready(g, root, M, ids, done)
    ensures Lower(g, ids)
  {
    forall b: Id | b in ids && b < |g| && !g[b].term.Ret?
      ensures g[b].jt < |g| && g[b].jt != b && g[b].jf < |g| && g[b].jf != b
    {
      assert g[b] == g[b];
    }
  }
}
