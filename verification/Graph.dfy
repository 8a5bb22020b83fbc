/** The block graph of the filter compiler as a value, what it computes, and the
    depth-first walks the passes make over it. */
module Graph {
  import opened Bpf

  type Id = nat

  /** A block: its statements, its terminator and the names of its two successors, which
      mean nothing when it ends in a return. */
  datatype Node = Node(stmts: seq<Stmt>, term: Term, jt: Id, jf: Id)

  type Net = seq<Node>
  type Rank = seq<nat>

  /** rk witnesses that g is closed and acyclic: every edge goes strictly down. */
  ghost predicate Ranked(g: Net, rk: Rank) {
    && |rk| == |g|
    && forall b {:trigger g[b]} :: 0 <= b < |g| && !g[b].term.Ret? ==>
      && g[b].jt < |g| && rk[g[b].jt] < rk[b]
      && g[b].jf < |g| && rk[g[b].jf] < rk[b]
  }

  /** Edge e is the true edge of block e when e is below the number of blocks, and the false
      edge of block e - n otherwise. */
  function Pred(n: nat, e: nat): nat {
    if e < n then e else e - n
  }

  function Succ(g: Net, e: nat): Id
    requires e < 2 * |g|
  {
    if e < |g| then g[e].jt else g[e - |g|].jf
  }

  function Choose(n: Node, st: State): Id
    requires !n.term.Ret?
  {
    if Decide(n.term, st) then n.jt else n.jf
  }

  /** The word the graph returns when entered at b in state st. */
  ghost function Run(g: Net, rk: Rank, b: Id, st: State, p: Packet): Word
    requires Ranked(g, rk) && b < |g|
    decreases rk[b]
  {
    var n := g[b];
    if n.term.Ret? then n.term.k
    else
      var st' := ExecAll(n.stmts, st, p);
      Run(g, rk, Choose(n, st'), st', p)
  }

  /** The run from block a in state st comes to block b. */
  ghost predicate Visits(g: Net, rk: Rank, a: Id, st: State, p: Packet, b: Id)
    requires Ranked(g, rk) && a < |g|
    decreases rk[a]
  {
    a == b || (!g[a].term.Ret? && var st1 := ExecAll(g[a].stmts, st, p); Visits(g, rk, Choose(g[a], st1), st1, p, b))
  }

  /** The state in which it does. */
  ghost function StateAt(g: Net, rk: Rank, a: Id, st: State, p: Packet, b: Id): State
    requires Ranked(g, rk) && a < |g| && Visits(g, rk, a, st, p, b)
    decreases rk[a]
  {
    if a == b then st
    else
      var st1 := ExecAll(g[a].stmts, st, p);
      StateAt(g, rk, Choose(g[a], st1), st1, p, b)
  }

  lemma {:induction false} VisitsDescends(g: Net, rk: Rank, a: Id, st: State, p: Packet, b: Id)
    requires Ranked(g, rk) && a < |g| && Visits(g, rk, a, st, p, b)
    ensures b < |g| && rk[b] <= rk[a] && (a != b ==> rk[b] < rk[a])
    ensures Run(g, rk, a, st, p) == Run(g, rk, b, StateAt(g, rk, a, st, p, b), p)
    decreases rk[a]
  {
    if a != b {
      var st1 := ExecAll(g[a].stmts, st, p);
      VisitsDescends(g, rk, Choose(g[a], st1), st1, p, b);
    }
  }

  /** Where the run goes from a block it comes to. */
  lemma {:induction false} VisitsFurther(g: Net, rk: Rank, a: Id, st: State, p: Packet, b: Id, c: Id)
    requires Ranked(g, rk) && a < |g| && Visits(g, rk, a, st, p, b) && b < |g|
    requires Visits(g, rk, b, StateAt(g, rk, a, st, p, b), p, c)
    ensures Visits(g, rk, a, st, p, c)
    ensures StateAt(g, rk, a, st, p, c) == StateAt(g, rk, b, StateAt(g, rk, a, st, p, b), p, c)
    decreases rk[a]
  {
    if a != b {
      var st1 := ExecAll(g[a].stmts, st, p);
      VisitsFurther(g, rk, Choose(g[a], st1), st1, p, b, c);
      VisitsDescends(g, rk, a, st, p, b);
      VisitsDescends(g, rk, b, StateAt(g, rk, a, st, p, b), p, c);
    }
  }

  /** The verdict does not depend on the ranking used to define it. */
  lemma {:induction false} RunIgnoresRank(g: Net, rk: Rank, rk': Rank, b: Id, st: State, p: Packet)
    requires Ranked(g, rk) && Ranked(g, rk') && b < |g|
    ensures Run(g, rk, b, st, p) == Run(g, rk', b, st, p)
    decreases rk[b]
  {
    if !g[b].term.Ret? {
      var st' := ExecAll(g[b].stmts, st, p);
      RunIgnoresRank(g, rk, rk', Choose(g[b], st'), st', p);
    }
  }

  /** The blocks reachable from b. */
  ghost function Reach(g: Net, rk: Rank, b: Id): (r: set<Id>)
    requires Ranked(g, rk) && b < |g|
    ensures b in r && forall c :: c in r ==> c < |g|
    decreases rk[b]
  {
    if g[b].term.Ret? then {b} else {b} + Reach(g, rk, g[b].jt) + Reach(g, rk, g[b].jf)
  }

  lemma {:induction false} ReachDescends(g: Net, rk: Rank, b: Id, c: Id)
    requires Ranked(g, rk) && b < |g| && c in Reach(g, rk, b)
    ensures c == b || rk[c] < rk[b]
    decreases rk[b]
  {
    if c != b {
      ReachDescends(g, rk, if c in Reach(g, rk, g[b].jt) then g[b].jt else g[b].jf, c);
    }
  }

  lemma {:induction false} ReachTransitive(g: Net, rk: Rank, b: Id, c: Id)
    requires Ranked(g, rk) && b < |g| && c in Reach(g, rk, b)
    ensures Reach(g, rk, c) <= Reach(g, rk, b)
    decreases rk[b]
  {
    if c != b {
      ReachTransitive(g, rk, if c in Reach(g, rk, g[b].jt) then g[b].jt else g[b].jf, c);
    }
  }

  // ----- depth-first walks -----

  /** The marked blocks after a depth-first walk from b that starts with M marked. */
  ghost function Visit(g: Net, rk: Rank, b: Id, M: set<Id>, jtFirst: bool): set<Id>
    requires Ranked(g, rk) && b < |g|
    decreases rk[b]
  {
    if b in M then M
    else if g[b].term.Ret? then M + {b}
    else if jtFirst then Visit(g, rk, g[b].jf, Visit(g, rk, g[b].jt, M + {b}, jtFirst), jtFirst)
    else Visit(g, rk, g[b].jt, Visit(g, rk, g[b].jf, M + {b}, jtFirst), jtFirst)
  }

  /** The total weight of the blocks such a walk marks. */
  ghost function Tally(g: Net, rk: Rank, w: seq<nat>, b: Id, M: set<Id>, jtFirst: bool): nat
    requires Ranked(g, rk) && b < |g| && |w| == |g|
    decreases rk[b]
  {
    if b in M then 0
    else if g[b].term.Ret? then w[b]
    else
      var (first, second) := if jtFirst then (g[b].jt, g[b].jf) else (g[b].jf, g[b].jt);
      w[b] + Tally(g, rk, w, first, M + {b}, jtFirst)
           + Tally(g, rk, w, second, Visit(g, rk, first, M + {b}, jtFirst), jtFirst)
  }

  /** Whatever b reaches inside M has everything it reaches inside M. */
  ghost predicate Shut(g: Net, rk: Rank, b: Id, M: set<Id>)
    requires Ranked(g, rk) && b < |g|
  {
    forall c :: c in M && c in Reach(g, rk, b) ==> Reach(g, rk, c) <= M
  }

  lemma {:induction false} ShutStep(g: Net, rk: Rank, b: Id, M: set<Id>, first: Id, second: Id)
    requires Ranked(g, rk) && b < |g| && b !in M && Shut(g, rk, b, M) && !g[b].term.Ret?
    requires (first, second) == (g[b].jt, g[b].jf) || (first, second) == (g[b].jf, g[b].jt)
    ensures Shut(g, rk, first, M + {b})
    ensures Shut(g, rk, second, M + {b} + Reach(g, rk, first))
    ensures b !in Reach(g, rk, first) && b !in Reach(g, rk, second)
  {
    if b in Reach(g, rk, first) {
      ReachDescends(g, rk, first, b);
    }
    if b in Reach(g, rk, second) {
      ReachDescends(g, rk, second, b);
    }
    forall c | c in M + {b} && c in Reach(g, rk, first) ensures Reach(g, rk, c) <= M + {b} {
      assert c in Reach(g, rk, b);
    }
    forall c | c in M + {b} + Reach(g, rk, first) && c in Reach(g, rk, second)
      ensures Reach(g, rk, c) <= M + {b} + Reach(g, rk, first)
    {
      if c in Reach(g, rk, first) {
        ReachTransitive(g, rk, first, c);
      } else {
        assert c in Reach(g, rk, b);
      }
    }
  }

  /** A walk marks exactly what b reaches, in either order, and tallies each block once. */
  lemma {:induction false} WalkMeasuresReach(g: Net, rk: Rank, w: seq<nat>, b: Id, M: set<Id>, jtFirst: bool)
    requires Ranked(g, rk) && b < |g| && |w| == |g| && Shut(g, rk, b, M)
    ensures Visit(g, rk, b, M, jtFirst) == M + Reach(g, rk, b)
    ensures Tally(g, rk, w, b, M, jtFirst) == Sum(w, Reach(g, rk, b) - M)
    decreases rk[b]
  {
    if b in M {
      assert Reach(g, rk, b) - M == {};
    } else if g[b].term.Ret? {
      assert Reach(g, rk, b) - M == {b};
      SumSplit(w, {b}, b, {}, {});
    } else {
      var (first, second) := if jtFirst then (g[b].jt, g[b].jf) else (g[b].jf, g[b].jt);
      var m1 := M + {b};
      var m2 := m1 + Reach(g, rk, first);
      ShutStep(g, rk, b, M, first, second);
      WalkMeasuresReach(g, rk, w, first, m1, jtFirst);
      WalkMeasuresReach(g, rk, w, second, m2, jtFirst);
      SumSplit(w, Reach(g, rk, b) - M, b, Reach(g, rk, first) - m1, Reach(g, rk, second) - m2);
    }
  }

  // ----- sums of block sizes -----

  predicate Within(s: set<Id>, w: seq<nat>) {
    forall x :: x in s ==> x < |w|
  }

  ghost function Sum(w: seq<nat>, s: set<Id>): nat
    requires Within(s, w)
  {
    if s == {} then 0 else var x :| x in s; w[x] + Sum(w, s - {x})
  }

  lemma {:induction false} SumRemove(w: seq<nat>, s: set<Id>, x: Id)
    requires Within(s, w) && x in s
    ensures Sum(w, s) == w[x] + Sum(w, s - {x})
    decreases s
  {
    var y :| y in s && Sum(w, s) == w[y] + Sum(w, s - {y});
    if y != x {
      SumRemove(w, s - {y}, x);
      SumRemove(w, s - {x}, y);
      assert s - {y} - {x} == s - {x} - {y};
    }
  }

  lemma {:induction false} SumUnion(w: seq<nat>, s: set<Id>, t: set<Id>)
    requires Within(s, w) && Within(t, w) && s !! t
    ensures Sum(w, s + t) == Sum(w, s) + Sum(w, t)
    decreases s
  {
    if s == {} {
      assert s + t == t;
    } else {
      var x :| x in s;
      SumUnion(w, s - {x}, t);
      SumRemove(w, s, x);
      SumRemove(w, s + t, x);
      assert s + t - {x} == (s - {x}) + t;
    }
  }

  lemma {:induction false} SumSplit(w: seq<nat>, all: set<Id>, x: Id, s: set<Id>, t: set<Id>)
    requires Within(all, w) && all == {x} + s + t && x !in s && x !in t && s !! t
    ensures Sum(w, all) == w[x] + Sum(w, s) + Sum(w, t)
  {
    SumRemove(w, all, x);
    assert all - {x} == s + t;
    SumUnion(w, s, t);
  }
}
