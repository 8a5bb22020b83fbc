/** opt_j: an edge goes straight past a test whose outcome an earlier edge has fixed. */
module Threading {
  import opened Bpf
  import opened Graph
  import opened Levels
  import opened Liveness
  import opened ValueNumbers
  import opened Renumbering
  import opened Dominators
  import opened Stateless
  import opened EdgeFold

  // ----- edges taken -----

  /** An edge of a block that does not return. */
  predicate Branch(g: Net, M: set<Id>, e: nat) {
    e < 2 * |g| && Pred(|g|, e) in M && !g[Pred(|g|, e)].term.Ret?
  }

  function Sense(n: nat, e: nat): bool {
    e < n
  }

  function EdgeOf(n: nat, b: Id, sense: bool): nat {
    if sense then b else n + b
  }

  /** The state at the end of a block that the run from a comes to. */
  ghost function StateAfter(g: Net, rk: Rank, a: Id, st: State, p: Packet, b: Id): State
    requires Ranked(g, rk) && a < |g| && Visits(g, rk, a, st, p, b) && b < |g|
  {
    ExecAll(g[b].stmts, StateAt(g, rk, a, st, p, b), p)
  }

  /** The run from root leaves a block by edge e. */
  ghost predicate Takes(g: Net, rk: Rank, root: Id, st: State, p: Packet, e: nat)
    requires Ranked(g, rk) && root < |g| && e < 2 * |g|
  {
    var b := Pred(|g|, e);
    && Visits(g, rk, root, st, p, b) && !g[b].term.Ret?
    && Decide(g[b].term, StateAfter(g, rk, root, st, p, b)) == Sense(|g|, e)
  }

  /** Where a run goes that takes e. */
  lemma TakesOn(g: Net, rk: Rank, root: Id, st: State, p: Packet, e: nat)
    requires Ranked(g, rk) && root < |g| && e < 2 * |g| && Takes(g, rk, root, st, p, e)
    ensures Succ(g, e) < |g| && Visits(g, rk, root, st, p, Succ(g, e))
    ensures StateAt(g, rk, root, st, p, Succ(g, e)) == StateAfter(g, rk, root, st, p, Pred(|g|, e))
  {
    var b, c := Pred(|g|, e), Succ(g, e);
    var at := StateAt(g, rk, root, st, p, b);
    assert g[b] == g[b] && Choose(g[b], ExecAll(g[b].stmts, at, p)) == c;
    assert Visits(g, rk, c, ExecAll(g[b].stmts, at, p), p, c);
    assert Visits(g, rk, b, at, p, c) && StateAt(g, rk, b, at, p, c) == ExecAll(g[b].stmts, at, p);
    VisitsFurther(g, rk, root, st, p, b, c);
  }

  /** The edge by which a run leaves a block. */
  lemma LeavesBy(g: Net, rk: Rank, root: Id, st: State, p: Packet, b: Id) returns (e: nat)
    requires Ranked(g, rk) && root < |g| && Visits(g, rk, root, st, p, b) && b < |g| && !g[b].term.Ret?
    ensures e < 2 * |g| && Pred(|g|, e) == b && Takes(g, rk, root, st, p, e)
    ensures Sense(|g|, e) == Decide(g[b].term, StateAfter(g, rk, root, st, p, b))
    ensures Succ(g, e) == Choose(g[b], StateAfter(g, rk, root, st, p, b))
  {
    e := EdgeOf(|g|, b, Decide(g[b].term, StateAfter(g, rk, root, st, p, b)));
  }

  /** All edges of s are taken. */
  ghost predicate AllTaken(g: Net, rk: Rank, root: Id, st: State, p: Packet, s: seq<nat>)
    requires Ranked(g, rk) && root < |g|
  {
    forall f {:trigger f in s} :: f in s ==> f < 2 * |g| && Takes(g, rk, root, st, p, f)
  }

  /** The edges taken from block a to edge e, behind those of s. */
  lemma {:induction false} TakenPath(g: Net, rk: Rank, root: Id, st: State, p: Packet, s: seq<nat>, a: Id, e: nat)
    returns (s': seq<nat>)
    requires Ranked(g, rk) && root < |g| && a < |g| && e < 2 * |g| && AllTaken(g, rk, root, st, p, s)
    requires if s == [] then a == root
      else Path(EdgeStep(g), RootEdges(|g|, root), s, s[|s| - 1]) && Succ(g, s[|s| - 1]) == a
    requires Visits(g, rk, root, st, p, a) && Visits(g, rk, a, StateAt(g, rk, root, st, p, a), p, Pred(|g|, e))
    requires Takes(g, rk, root, st, p, e)
    ensures Path(EdgeStep(g), RootEdges(|g|, root), s', e) && AllTaken(g, rk, root, st, p, s')
    decreases rk[a]
  {
    if !g[a].term.Ret? {
      var f := LeavesBy(g, rk, root, st, p, a);
      var s1 := s + [f];
      if s != [] {
        assert s[|s| - 1] in s;
        PathExtend(EdgeStep(g), RootEdges(|g|, root), s, s[|s| - 1], f);
      }
      assert Path(EdgeStep(g), RootEdges(|g|, root), s1, f);
      if a == Pred(|g|, e) {
        assert f == e;
        s' := s1;
      } else {
        TakesOn(g, rk, root, st, p, f);
        s' := TakenPath(g, rk, root, st, p, s1, Succ(g, f), e);
      }
    }
  }

  /** A run that takes e has taken every edge that dominates e. */
  lemma DominatingTaken(g: Net, rk: Rank, root: Id, st: State, p: Packet, e: nat, f: nat)
    requires Ranked(g, rk) && root < |g| && e < 2 * |g| && Takes(g, rk, root, st, p, e)
    requires f in DomSet(EdgeStep(g), RootEdges(|g|, root), 2 * |g|, e)
    ensures f < 2 * |g| && Takes(g, rk, root, st, p, f)
  {
    var s := TakenPath(g, rk, root, st, p, [], root, e);
    assert f in s;
  }

  /** An edge that dominates another one leaves no lower block. */
  lemma {:induction false} PathAbove(g: Net, rk: Rank, starts: set<nat>, s: seq<nat>, e: nat, f: nat)
    requires Ranked(g, rk) && Path(EdgeStep(g), starts, s, e) && f in s && e < 2 * |g|
    ensures f < 2 * |g| && rk[Pred(|g|, e)] <= rk[Pred(|g|, f)]
    decreases |s|
  {
    if f != e {
      var d := s[|s| - 2];
      assert s == s[..|s| - 1] + [e] && g[Pred(|g|, d)] == g[Pred(|g|, d)];
      PathAbove(g, rk, starts, s[..|s| - 1], d, f);
    }
  }

  lemma DominatorAbove(g: Net, rk: Rank, root: Id, st: State, p: Packet, e: nat, f: nat)
    requires Ranked(g, rk) && root < |g| && e < 2 * |g| && Takes(g, rk, root, st, p, e)
    requires f in DomSet(EdgeStep(g), RootEdges(|g|, root), 2 * |g|, e)
    ensures f < 2 * |g| && rk[Pred(|g|, e)] <= rk[Pred(|g|, f)]
  {
    var s := TakenPath(g, rk, root, st, p, [], root, e);
    assert f in s;
    PathAbove(g, rk, RootEdges(|g|, root), s, e, f);
  }

  // ----- fold_edge -----

  /** The outcome of a numbered test, from the numbers alone. */
  lemma DecidesByNumbers(T: Table, t: Term, val: Numbers, oval: nat, after: State, p: Packet)
    requires TestKnown(T, t, val, oval) && !t.Ret? && Describes(T, val, after, p)
    ensures Solid(T, val[A_ATOM]) && Solid(T, oval)
    ensures Decide(t, after) == Test(t.op, Den(T, val[A_ATOM], p), Den(T, oval, p))
  {
    assert A_ATOM in TermUses(t);
    assert after[A_ATOM] == Den(T, val[A_ATOM], p);
    if t.JmpX? {
      assert X_ATOM in TermUses(t) && after[X_ATOM] == Den(T, val[X_ATOM], p);
    }
  }

  /** fold_edge on block child and edge k. */
  function FoldAt(net: Net, val: seq<Numbers>, oval: seq<nat>, child: Id, k: nat): Option<Id>
    requires child < |net| == |val| == |oval| && k < 2 * |net|
  {
    var b := Pred(|net|, k);
    FoldEdge(net[child], val[child][A_ATOM], oval[child], net[b].term, val[b][A_ATOM], oval[b], Sense(|net|, k))
  }

  /** The outcome it goes by. */
  function SenseAt(net: Net, val: seq<Numbers>, oval: seq<nat>, c: Id, k: nat): Option<bool>
    requires c < |net| == |val| == |oval| && k < 2 * |net|
  {
    var b := Pred(|net|, k);
    FoldSense(net[c].term, val[c][A_ATOM], oval[c], net[b].term, val[b][A_ATOM], oval[b], Sense(|net|, k))
  }

  ghost predicate OperandsNumbered(g: Net, M: set<Id>, T: Table, val: seq<Numbers>, oval: seq<nat>) {
    |g| == |val| == |oval| && forall b: Id {:trigger g[b]} :: b < |g| && b in M ==>
      OperandNumbered(T, g[b].term, val[b], oval[b])
  }

  /** Where fold_edge names a branch of a test because of one above it, the test is settled. */
  ghost predicate AllSettled(g: Net, rk: Rank, M: set<Id>, T: Table, val: seq<Numbers>, oval: seq<nat>)
    requires Ranked(g, rk) && |g| == |val| == |oval|
  {
    forall c: Id, k: nat {:trigger SenseAt(g, val, oval, c, k)} ::
      && c < |g| && c in M && k < 2 * |g| && Pred(|g|, k) in M && rk[c] < rk[Pred(|g|, k)]
      && SenseAt(g, val, oval, c, k).Some? ==>
      Settled(T, g[c].term.op, val[c][A_ATOM], oval[c])
  }

  /** Tests read known values only. */
  ghost predicate TestsKnown(g: Net, M: set<Id>, T: Table, val: seq<Numbers>, oval: seq<nat>) {
    |g| == |val| == |oval| && forall b: Id {:trigger g[b]} :: b < |g| && b in M ==>
      TestKnown(T, g[b].term, val[b], oval[b])
  }

  /** Then they are all settled. */
  lemma KnownSettled(g: Net, rk: Rank, M: set<Id>, T: Table, val: seq<Numbers>, oval: seq<nat>)
    requires Ranked(g, rk) && TestsKnown(g, M, T, val, oval)
    ensures AllSettled(g, rk, M, T, val, oval)
  {
    forall c: Id, k: nat
      | c < |g| && c in M && k < 2 * |g| && Pred(|g|, k) in M && SenseAt(g, val, oval, c, k).Some?
      ensures Settled(T, g[c].term.op, val[c][A_ATOM], oval[c])
    {
      assert TestKnown(T, g[c].term, val[c], oval[c]) && A_ATOM in TermUses(g[c].term);
    }
  }

  // ----- use_conflict -----

  predicate UseConflict(val: Numbers, succVal: Numbers, outUse: set<Atom>) {
    exists atom :: atom in outUse && val[atom] != succVal[atom]
  }

  // ----- opt_j -----

  /** What the passes before opt_j found out about the graph at hand. */
  ghost predicate Analysed(g: Net, rk: Rank, root: Id, M: set<Id>, T: Table, valIn: seq<Numbers>, val: seq<Numbers>,
                           oval: seq<nat>, edom: seq<set<nat>>) {
    && Ranked(g, rk) && root in M && root < |g| == |valIn| == |val| == |oval| && |edom| == 2 * |g|
    && Distinct(T) && Closed(g, M) && Annotated(g, M, T, valIn, val) && Unknown(valIn[root])
    && OperandsNumbered(g, M, T, val, oval)
    && forall e: nat {:trigger edom[e]} :: e < 2 * |g| && Pred(|g|, e) in M ==>
      edom[e] == DomSet(EdgeStep(g), RootEdges(|g|, root), 2 * |g|, e)
  }

  /** The part of it that speaks of runs. */
  lemma RunNumbered(g: Net, rk: Rank, root: Id, M: set<Id>, T: Table, valIn: seq<Numbers>, val: seq<Numbers>, st: State,
                    p: Packet, b: Id)
    requires Ranked(g, rk) && root in M && root < |g| && Annotated(g, M, T, valIn, val) && Unknown(valIn[root])
    requires Visits(g, rk, root, st, p, b)
    ensures b in M && b < |g| && Describes(T, valIn[b], StateAt(g, rk, root, st, p, b), p)
    ensures Describes(T, val[b], StateAfter(g, rk, root, st, p, b), p)
  {
    assert Describes(T, valIn[root], st, p);
    EveryRunDescribed(g, rk, M, T, valIn, val, root, st, p, b);
  }

  /** c is below the block that e leaves, and, if that is sure, every run that takes e goes there. */
  ghost predicate Bypass(g: Net, rk: Rank, root: Id, M: set<Id>, sure: bool, e: nat, c: Id)
    requires Ranked(g, rk) && root < |g| && e < 2 * |g|
  {
    && c < |g| && c in M && rk[c] < rk[Pred(|g|, e)]
    && (sure ==> forall st: State, p: Packet {:trigger Takes(g, rk, root, st, p, e)} ::
      Takes(g, rk, root, st, p, e) ==> Visits(g, rk, root, st, p, c))
  }

  /** net is g with edges that bypass blocks, and without stores that nobody needed in g. */
  ghost predicate Rewired(g: Net, rk: Rank, root: Id, M: set<Id>, sure: bool, net: Net)
    requires Ranked(g, rk) && root < |g|
  {
    && |net| == |g|
    && (forall b: Id {:trigger net[b]} :: b < |g| ==>
         && net[b].term == g[b].term && (b !in M ==> net[b] == g[b])
         && SameLive(LiveOut(g, rk, b) + TermUses(g[b].term), g[b].stmts, net[b].stmts))
    && forall e: nat {:trigger Succ(net, e)} :: e < 2 * |g| && Pred(|g|, e) in M && !g[Pred(|g|, e)].term.Ret? ==>
      Bypass(g, rk, root, M, sure, e, Succ(net, e))
  }

  /** An edge bypasses nothing where it leads. */
  lemma OwnBypass(g: Net, rk: Rank, root: Id, M: set<Id>, sure: bool, e: nat)
    requires Ranked(g, rk) && root < |g| && Closed(g, M)
    requires e < 2 * |g| && Pred(|g|, e) in M && !g[Pred(|g|, e)].term.Ret?
    ensures Bypass(g, rk, root, M, sure, e, Succ(g, e))
  {
    assert g[Pred(|g|, e)] == g[Pred(|g|, e)];
    forall st: State, p: Packet | sure && Takes(g, rk, root, st, p, e)
      ensures Visits(g, rk, root, st, p, Succ(g, e))
    {
      TakesOn(g, rk, root, st, p, e);
    }
  }

  /** So is the graph after opt_deadstores. */
  lemma ClearedRewired(g: Net, rk: Rank, root: Id, M: set<Id>, sure: bool, net: Net)
    requires Ranked(g, rk) && root < |g| == |net| && Closed(g, M)
    requires forall b: Id {:trigger net[b]} :: b < |g| ==>
      if b in M then Cleared(g[b], net[b], LiveOut(g, rk, b)) else net[b] == g[b]
    ensures Rewired(g, rk, root, M, sure, net)
  {
    forall b: Id | b < |g|
      ensures net[b].term == g[b].term && net[b].jt == g[b].jt && net[b].jf == g[b].jf && (b !in M ==> net[b] == g[b])
      ensures SameLive(LiveOut(g, rk, b) + TermUses(g[b].term), g[b].stmts, net[b].stmts)
    {
      assert net[b] == net[b];
      if b in M {
        ClearedLive(g[b], net[b], LiveOut(g, rk, b));
      }
    }
    forall e: nat | e < 2 * |g| && Pred(|g|, e) in M && !g[Pred(|g|, e)].term.Ret?
      ensures Bypass(g, rk, root, M, sure, e, Succ(net, e))
    {
      assert Succ(net, e) == Succ(g, e);
      OwnBypass(g, rk, root, M, sure, e);
    }
  }

  /** A run that takes e also goes where net sends it at the end of e's target. */
  lemma BypassRun(g: Net, rk: Rank, root: Id, M: set<Id>, net: Net, e: nat, st: State, p: Packet)
    requires Ranked(g, rk) && root < |g| && Rewired(g, rk, root, M, true, net) && e < 2 * |g|
    requires Pred(|g|, e) in M && Takes(g, rk, root, st, p, e)
    requires var child := Succ(net, e); child < |g| && !net[child].term.Ret?
    ensures var child := Succ(net, e);
      && Visits(g, rk, root, st, p, child)
      && Visits(g, rk, root, st, p, Choose(net[child], StateAfter(g, rk, root, st, p, child)))
  {
    var child := Succ(net, e);
    assert Bypass(g, rk, root, M, true, e, child);
    assert net[child].term == g[child].term;
    var e' := LeavesBy(g, rk, root, st, p, child);
    assert Bypass(g, rk, root, M, true, e', Succ(net, e'));
  }

  /** Every run over e that net sends on at its target goes to target. */
  ghost predicate SendsTo(g: Net, rk: Rank, root: Id, net: Net, e: nat, child: Id, target: Id)
    requires Ranked(g, rk) && root < |g| == |net| && e < 2 * |g| && child < |g| && !net[child].term.Ret?
  {
    forall st: State, p: Packet {:trigger Takes(g, rk, root, st, p, e)} ::
      Takes(g, rk, root, st, p, e) && Visits(g, rk, root, st, p, child) ==>
      target == Choose(net[child], StateAfter(g, rk, root, st, p, child))
  }

  /** An edge may go on to where its target always sends the runs that take it. */
  lemma BypassFurther(g: Net, rk: Rank, root: Id, M: set<Id>, sure: bool, net: Net, e: nat, target: Id)
    requires Ranked(g, rk) && root < |g| && Rewired(g, rk, root, M, sure, net)
    requires e < 2 * |g| && Pred(|g|, e) in M && !g[Pred(|g|, e)].term.Ret?
    requires var child := Succ(net, e);
      && child < |g| && !net[child].term.Ret? && (target == net[child].jt || target == net[child].jf)
      && (sure ==> SendsTo(g, rk, root, net, e, child, target))
    ensures Bypass(g, rk, root, M, sure, e, target)
  {
    var child := Succ(net, e);
    assert Bypass(g, rk, root, M, sure, e, child) && net[child].term == g[child].term;
    var f := EdgeOf(|g|, child, target == net[child].jt);
    assert Bypass(g, rk, root, M, sure, f, Succ(net, f));
    forall st: State, p: Packet | sure && Takes(g, rk, root, st, p, e) ensures Visits(g, rk, root, st, p, target) {
      BypassRun(g, rk, root, M, net, e, st, p);
    }
  }

  function Redirect(n: Node, sense: bool, target: Id): Node {
    if sense then n.(jt := target) else n.(jf := target)
  }

  lemma RewiredNext(g: Net, rk: Rank, root: Id, M: set<Id>, sure: bool, net: Net, e: nat, target: Id)
    requires Ranked(g, rk) && root < |g| && Rewired(g, rk, root, M, sure, net)
    requires e < 2 * |g| && Pred(|g|, e) in M && Bypass(g, rk, root, M, sure, e, target)
    ensures var b := Pred(|g|, e); Rewired(g, rk, root, M, sure, net[b := Redirect(net[b], Sense(|g|, e), target)])
  {
    var b := Pred(|g|, e);
    var net' := net[b := Redirect(net[b], Sense(|g|, e), target)];
    forall f: nat | f < 2 * |g| && Pred(|g|, f) in M && !g[Pred(|g|, f)].term.Ret?
      ensures Bypass(g, rk, root, M, sure, f, Succ(net', f))
    {
      assert f != e ==> Succ(net', f) == Succ(net, f);
    }
    forall c: Id | c < |g|
      ensures net'[c].term == g[c].term && (c !in M ==> net'[c] == g[c])
      ensures SameLive(LiveOut(g, rk, c) + TermUses(g[c].term), g[c].stmts, net'[c].stmts)
    {
      assert net[c] == net[c];
    }
  }

  lemma RewiredRanked(g: Net, rk: Rank, root: Id, M: set<Id>, sure: bool, net: Net)
    requires Ranked(g, rk) && root < |g| && Rewired(g, rk, root, M, sure, net)
    ensures Ranked(net, rk)
  {
    forall b: Id | b < |net| && !net[b].term.Ret?
      ensures net[b].jt < |g| && rk[net[b].jt] < rk[b] && net[b].jf < |g| && rk[net[b].jf] < rk[b]
    {
      assert g[b] == g[b];
      if b in M {
        assert Bypass(g, rk, root, M, sure, b, Succ(net, b)) &&
          Bypass(g, rk, root, M, sure, |g| + b, Succ(net, |g| + b));
      }
    }
  }

  // ----- the outcomes that fold_edge goes by -----

  /** On every run that takes e and comes to c, the test there has this outcome. */
  ghost predicate Outcome(g: Net, rk: Rank, root: Id, e: nat, c: Id, sense: bool)
    requires Ranked(g, rk) && root < |g| && e < 2 * |g| && c < |g| && !g[c].term.Ret?
  {
    forall st: State, p: Packet {:trigger Takes(g, rk, root, st, p, e)} ::
      Takes(g, rk, root, st, p, e) && Visits(g, rk, root, st, p, c) ==>
      Decide(g[c].term, StateAfter(g, rk, root, st, p, c)) == sense
  }

  /** fold_edge is right about all tests below an edge, because of any that dominates it. */
  ghost predicate FoldsRight(g: Net, rk: Rank, root: Id, M: set<Id>, val: seq<Numbers>, oval: seq<nat>,
                             edom: seq<set<nat>>)
    requires Ranked(g, rk) && root < |g| == |val| == |oval| && |edom| == 2 * |g|
  {
    forall e: nat, c: Id, k: nat {:trigger SenseAt(g, val, oval, c, k), k in edom[e]} ::
      && Branch(g, M, e) && c < |g| && c in M && rk[c] < rk[Pred(|g|, e)] && k < 2 * |g| && k in edom[e]
      && SenseAt(g, val, oval, c, k).Some? ==>
      Outcome(g, rk, root, e, c, SenseAt(g, val, oval, c, k).value)
  }

  /** It is where the tests it decides are settled. */
  lemma SettledRight(g: Net, rk: Rank, root: Id, M: set<Id>, T: Table, valIn: seq<Numbers>, val: seq<Numbers>,
                     oval: seq<nat>, edom: seq<set<nat>>)
    requires Analysed(g, rk, root, M, T, valIn, val, oval, edom) && AllSettled(g, rk, M, T, val, oval)
    ensures FoldsRight(g, rk, root, M, val, oval, edom)
  {
    forall e: nat, c: Id, k: nat
      | && Branch(g, M, e) && c < |g| && c in M && rk[c] < rk[Pred(|g|, e)] && k < 2 * |g| && k in edom[e]
        && SenseAt(g, val, oval, c, k).Some?
      ensures Outcome(g, rk, root, e, c, SenseAt(g, val, oval, c, k).value)
    {
      forall st: State, p: Packet | Takes(g, rk, root, st, p, e) && Visits(g, rk, root, st, p, c)
        ensures Decide(g[c].term, StateAfter(g, rk, root, st, p, c)) == SenseAt(g, val, oval, c, k).value
      {
        SettledOutcome(g, rk, root, M, T, valIn, val, oval, edom, e, c, k, st, p);
      }
    }
  }

  lemma SettledOutcome(g: Net, rk: Rank, root: Id, M: set<Id>, T: Table, valIn: seq<Numbers>, val: seq<Numbers>,
                       oval: seq<nat>, edom: seq<set<nat>>, e: nat, c: Id, k: nat, st: State, p: Packet)
    requires Analysed(g, rk, root, M, T, valIn, val, oval, edom) && AllSettled(g, rk, M, T, val, oval)
    requires Branch(g, M, e) && c < |g| && c in M && rk[c] < rk[Pred(|g|, e)] && k < 2 * |g| && k in edom[e]
    requires SenseAt(g, val, oval, c, k).Some?
    requires Takes(g, rk, root, st, p, e) && Visits(g, rk, root, st, p, c)
    ensures Decide(g[c].term, StateAfter(g, rk, root, st, p, c)) == SenseAt(g, val, oval, c, k).value
  {
    var b := Pred(|g|, k);
    DominatingTaken(g, rk, root, st, p, e, k);
    DominatorAbove(g, rk, root, st, p, e, k);
    RunNumbered(g, rk, root, M, T, valIn, val, st, p, c);
    RunNumbered(g, rk, root, M, T, valIn, val, st, p, b);
    assert g[c] == g[c] && g[b] == g[b];
    FoldSound(T, g[c].term, val[c], oval[c], StateAfter(g, rk, root, st, p, c),
              g[b].term, val[b], oval[b], StateAfter(g, rk, root, st, p, b), p);
  }

  /** Then the branch it names is where the runs over e go on. */
  lemma FoldSends(g: Net, rk: Rank, root: Id, M: set<Id>, val: seq<Numbers>, oval: seq<nat>, edom: seq<set<nat>>,
                  net: Net, e: nat, c: Id, k: nat, target: Id)
    requires Ranked(g, rk) && root < |g| == |val| == |oval| == |net| && |edom| == 2 * |g| && Branch(g, M, e)
    requires c in M && c < |g| && rk[c] < rk[Pred(|g|, e)] && k < 2 * |g| && k in edom[e]
    requires net[c].term == g[c].term && net[Pred(|g|, k)].term == g[Pred(|g|, k)].term
    requires FoldAt(net, val, oval, c, k) == Some(target)
    ensures !net[c].term.Ret? && (target == net[c].jt || target == net[c].jf)
    ensures FoldsRight(g, rk, root, M, val, oval, edom) ==> SendsTo(g, rk, root, net, e, c, target)
  {
    var sense := SenseAt(g, val, oval, c, k);
    if FoldsRight(g, rk, root, M, val, oval, edom) {
      assert Outcome(g, rk, root, e, c, sense.value);
    }
  }

  // ----- which redirections keep the verdict -----

  /** The atoms of live hold what the known numbers among vin stand for. */
  ghost predicate Holds(T: Table, vin: Numbers, live: set<Atom>, st: State, p: Packet) {
    forall a {:trigger a in live} :: a in live && Solid(T, vin[a]) ==> st[a] == Den(T, vin[a], p)
  }

  /** Every atom of live that is known into a block has the same number in val. */
  predicate Inherits(T: Table, val: Numbers, vin: Numbers, live: set<Atom>) {
    forall a :: a in live && Solid(T, vin[a]) ==> val[a] == vin[a]
  }

  /** A state that vin describes and that is like st in the atoms of live. */
  function Completed(T: Table, vin: Numbers, live: set<Atom>, st: State, p: Packet): State {
    seq(18, a requires 0 <= a < 18 => if a !in live && Solid(T, vin[a]) then Den(T, vin[a], p) else st[a])
  }

  /** From what is known of the atoms live into a block follow the outcome of its test and what
      is known of the atoms live out of it. */
  lemma HoldsThrough(g: Net, rk: Rank, M: set<Id>, T: Table, valIn: seq<Numbers>, val: seq<Numbers>, oval: seq<nat>,
                     b: Id, now: State, p: Packet)
    requires Ranked(g, rk) && Annotated(g, M, T, valIn, val) && TestsKnown(g, M, T, val, oval) && b in M && b < |g|
    requires Holds(T, valIn[b], LiveIn(g, rk, b), now, p)
    ensures var after := ExecAll(g[b].stmts, now, p);
      && Holds(T, val[b], LiveOut(g, rk, b), after, p)
      && (!g[b].term.Ret? ==>
           var a, o := val[b][A_ATOM], oval[b];
           Solid(T, a) && Solid(T, o) && Decide(g[b].term, after) == Test(g[b].term.op, Den(T, a, p), Den(T, o, p)))
  {
    assert g[b] == g[b];
    var full := Completed(T, valIn[b], LiveIn(g, rk, b), now, p);
    assert Describes(T, valIn[b], full, p);
    LiveThrough(g, rk, b, full, now, p);
    if !g[b].term.Ret? {
      DecidesByNumbers(T, g[b].term, val[b], oval[b], ExecAll(g[b].stmts, full, p), p);
    }
  }

  /** Over an edge of the graph. */
  lemma HoldsInto(g: Net, rk: Rank, M: set<Id>, T: Table, valIn: seq<Numbers>, val: seq<Numbers>, b: Id, c: Id,
                  after: State, p: Packet)
    requires Ranked(g, rk) && Annotated(g, M, T, valIn, val) && b in M && b < |g| && !g[b].term.Ret?
    requires c == g[b].jt || c == g[b].jf
    requires Holds(T, val[b], LiveOut(g, rk, b), after, p)
    ensures c in M && c < |g| && Holds(T, valIn[c], LiveIn(g, rk, c), after, p)
  {
    assert g[b] == g[b];
    forall a | a in LiveIn(g, rk, c) && Solid(T, valIn[c][a]) ensures after[a] == Den(T, valIn[c][a], p) {
      assert valIn[c][a] == val[b][a] && a in LiveOut(g, rk, b);
    }
  }

  /** So the branch is the same in every state that holds this. */
  lemma BranchByNumbers(g: Net, rk: Rank, M: set<Id>, T: Table, valIn: seq<Numbers>, val: seq<Numbers>,
                        oval: seq<nat>, b: Id, st: State, st': State, p: Packet)
    requires Ranked(g, rk) && Annotated(g, M, T, valIn, val) && TestsKnown(g, M, T, val, oval) && b in M && b < |g|
    requires Holds(T, valIn[b], LiveIn(g, rk, b), st, p) && Holds(T, valIn[b], LiveIn(g, rk, b), st', p)
    requires !g[b].term.Ret?
    ensures Decide(g[b].term, ExecAll(g[b].stmts, st, p)) == Decide(g[b].term, ExecAll(g[b].stmts, st', p))
    ensures Holds(T, val[b], LiveOut(g, rk, b), ExecAll(g[b].stmts, st, p), p)
    ensures Holds(T, val[b], LiveOut(g, rk, b), ExecAll(g[b].stmts, st', p), p)
  {
    HoldsThrough(g, rk, M, T, valIn, val, oval, b, st, p);
    HoldsThrough(g, rk, M, T, valIn, val, oval, b, st', p);
  }

  /** The verdict from a block is determined by what is known of the atoms live into it. */
  lemma {:induction false} NumbersDecide(g: Net, rk: Rank, M: set<Id>, T: Table, valIn: seq<Numbers>, val: seq<Numbers>,
                                         oval: seq<nat>, b: Id, st: State, st': State, p: Packet)
    requires Ranked(g, rk) && Annotated(g, M, T, valIn, val) && TestsKnown(g, M, T, val, oval) && b in M && b < |g|
    requires Holds(T, valIn[b], LiveIn(g, rk, b), st, p) && Holds(T, valIn[b], LiveIn(g, rk, b), st', p)
    ensures Run(g, rk, b, st, p) == Run(g, rk, b, st', p)
    decreases rk[b]
  {
    if !g[b].term.Ret? {
      BranchByNumbers(g, rk, M, T, valIn, val, oval, b, st, st', p);
      var after, after' := ExecAll(g[b].stmts, st, p), ExecAll(g[b].stmts, st', p);
      var c := Choose(g[b], after);
      HoldsInto(g, rk, M, T, valIn, val, b, c, after, p);
      HoldsInto(g, rk, M, T, valIn, val, b, c, after', p);
      NumbersDecide(g, rk, M, T, valIn, val, oval, c, after, after', p);
    }
  }

  /** Edge e leads where it led in g, or to a block that inherits at the end of Pred(e) what is
      known into it, in atoms that were live there already. */
  ghost predicate Carried(g: Net, rk: Rank, T: Table, valIn: seq<Numbers>, val: seq<Numbers>, e: nat, c: Id)
    requires Ranked(g, rk) && |g| == |valIn| == |val| && e < 2 * |g|
  {
    c == Succ(g, e) || (c < |g| && Pred(|g|, e) < |g| && var b := Pred(|g|, e);
      && Inherits(T, val[b], valIn[c], LiveIn(g, rk, c))
      && forall a :: a in LiveIn(g, rk, c) && Solid(T, valIn[c][a]) ==> a in LiveOut(g, rk, b))
  }

  ghost predicate AllCarried(g: Net, rk: Rank, M: set<Id>, T: Table, valIn: seq<Numbers>, val: seq<Numbers>, net: Net)
    requires Ranked(g, rk) && |g| == |valIn| == |val| == |net|
  {
    forall e: nat {:trigger Succ(net, e)} :: e < 2 * |g| && Pred(|g|, e) in M && !g[Pred(|g|, e)].term.Ret? ==>
      Carried(g, rk, T, valIn, val, e, Succ(net, e))
  }

  /** Where the run goes on in the rewired graph, and what holds there. */
  lemma RewiredNextBlock(g: Net, rk: Rank, root: Id, M: set<Id>, T: Table, valIn: seq<Numbers>, val: seq<Numbers>,
                         oval: seq<nat>, net: Net, st: State, p: Packet, b: Id, now: State)
    returns (c: Id)
    requires Ranked(g, rk) && root in M && root < |g| && Annotated(g, M, T, valIn, val) && Unknown(valIn[root])
    requires TestsKnown(g, M, T, val, oval)
    requires Rewired(g, rk, root, M, true, net) && AllCarried(g, rk, M, T, valIn, val, net)
    requires Visits(g, rk, root, st, p, b) && b < |g| && b in M && Holds(T, valIn[b], LiveIn(g, rk, b), now, p)
    requires !g[b].term.Ret?
    ensures net[b].term == g[b].term
    ensures c == Choose(net[b], ExecAll(net[b].stmts, now, p)) && Visits(g, rk, root, st, p, c)
    ensures c < |g| && c in M && rk[c] < rk[b] && Holds(T, valIn[c], LiveIn(g, rk, c), ExecAll(net[b].stmts, now, p), p)
  {
    var at := StateAt(g, rk, root, st, p, b);
    assert net[b].term == g[b].term;
    RunNumbered(g, rk, root, M, T, valIn, val, st, p, b);
    BranchByNumbers(g, rk, M, T, valIn, val, oval, b, at, now, p);
    ClearedHolds(T, val[b], LiveOut(g, rk, b), g[b], net[b], now, p);
    var e := LeavesBy(g, rk, root, st, p, b);
    c := Succ(net, e);
    CarriedInto(g, rk, root, M, T, valIn, val, net, b, e, ExecAll(net[b].stmts, now, p), p);
  }

  /** Without the stores nobody needed the block leaves what is live as it did and decides alike. */
  lemma ClearedHolds(T: Table, vout: Numbers, live: set<Atom>, n: Node, n': Node, now: State, p: Packet)
    requires SameLive(live + TermUses(n.term), n.stmts, n'.stmts) && !n.term.Ret?
    requires Holds(T, vout, live, ExecAll(n.stmts, now, p), p)
    ensures Holds(T, vout, live, ExecAll(n'.stmts, now, p), p)
    ensures Decide(n.term, ExecAll(n'.stmts, now, p)) == Decide(n.term, ExecAll(n.stmts, now, p))
  {
    var after, after' := ExecAll(n.stmts, now, p), ExecAll(n'.stmts, now, p);
    assert Agree(live + TermUses(n.term), after, after');
    assert forall a :: a in live + TermUses(n.term) ==> after[a] == after'[a];
    assert A_ATOM in TermUses(n.term) && (n.term.JmpX? ==> X_ATOM in TermUses(n.term));
  }

  lemma CarriedInto(g: Net, rk: Rank, root: Id, M: set<Id>, T: Table, valIn: seq<Numbers>, val: seq<Numbers>, net: Net,
                    b: Id, e: nat, after: State, p: Packet)
    requires Ranked(g, rk) && root < |g| && Annotated(g, M, T, valIn, val)
    requires Rewired(g, rk, root, M, true, net) && AllCarried(g, rk, M, T, valIn, val, net)
    requires b in M && b < |g| && !g[b].term.Ret? && e < 2 * |g| && Pred(|g|, e) == b
    requires Holds(T, val[b], LiveOut(g, rk, b), after, p)
    ensures var c := Succ(net, e); Bypass(g, rk, root, M, true, e, c) && Holds(T, valIn[c], LiveIn(g, rk, c), after, p)
  {
    var c := Succ(net, e);
    assert Bypass(g, rk, root, M, true, e, c) && Carried(g, rk, T, valIn, val, e, c);
    if c == Succ(g, e) {
      HoldsInto(g, rk, M, T, valIn, val, b, c, after, p);
    }
  }

  /** Any number of redirected edges, each judged by the sets of the graph before the first, keep
      the verdict of every packet from every state, when all are carried, also where the stores
      that are dead by the same sets have gone. */
  lemma {:induction false} RewiredKeepsVerdict(g: Net, rk: Rank, root: Id, M: set<Id>, T: Table, valIn: seq<Numbers>,
                                               val: seq<Numbers>, oval: seq<nat>, net: Net, st: State, p: Packet, b: Id,
                                               now: State)
    requires Ranked(g, rk) && root in M && root < |g| && Annotated(g, M, T, valIn, val) && Unknown(valIn[root])
    requires TestsKnown(g, M, T, val, oval)
    requires Rewired(g, rk, root, M, true, net) && AllCarried(g, rk, M, T, valIn, val, net)
    requires Visits(g, rk, root, st, p, b) && b < |g| && b in M && Holds(T, valIn[b], LiveIn(g, rk, b), now, p)
    ensures Ranked(net, rk) && Run(net, rk, b, now, p) == Run(g, rk, b, StateAt(g, rk, root, st, p, b), p)
    decreases rk[b]
  {
    RewiredRanked(g, rk, root, M, true, net);
    assert net[b].term == g[b].term;
    if !g[b].term.Ret? {
      var now' := ExecAll(net[b].stmts, now, p);
      var c := RewiredNextBlock(g, rk, root, M, T, valIn, val, oval, net, st, p, b, now);
      RewiredKeepsVerdict(g, rk, root, M, T, valIn, val, oval, net, st, p, c, now');
      VisitsDescends(g, rk, root, st, p, b);
      VisitsDescends(g, rk, root, st, p, c);
    }
  }

  lemma CarriedKeepVerdict(g: Net, rk: Rank, root: Id, M: set<Id>, T: Table, valIn: seq<Numbers>, val: seq<Numbers>,
                           oval: seq<nat>, net: Net)
    requires Ranked(g, rk) && root in M && root < |g| && Annotated(g, M, T, valIn, val) && Unknown(valIn[root])
    requires TestsKnown(g, M, T, val, oval)
    requires Rewired(g, rk, root, M, true, net) && AllCarried(g, rk, M, T, valIn, val, net)
    ensures Ranked(net, rk) && forall st: State, p: Packet :: Run(net, rk, root, st, p) == Run(g, rk, root, st, p)
  {
    RewiredRanked(g, rk, root, M, true, net);
    forall st: State, p: Packet ensures Run(net, rk, root, st, p) == Run(g, rk, root, st, p) {
      RewiredKeepsVerdict(g, rk, root, M, T, valIn, val, oval, net, st, p, root, st);
    }
  }

  lemma AnalysedVerdict(g: Net, rk: Rank, root: Id, M: set<Id>, T: Table, valIn: seq<Numbers>, val: seq<Numbers>,
                        oval: seq<nat>, edom: seq<set<nat>>, net: Net)
    requires Analysed(g, rk, root, M, T, valIn, val, oval, edom)
    requires Rewired(g, rk, root, M, FoldsRight(g, rk, root, M, val, oval, edom), net) && Ranked(net, rk)
    ensures AllSettled(g, rk, M, T, val, oval) ==> Rewired(g, rk, root, M, true, net)
    ensures TestsKnown(g, M, T, val, oval) && AllCarried(g, rk, M, T, valIn, val, net) ==>
      forall st: State, p: Packet :: Run(net, rk, root, st, p) == Run(g, rk, root, st, p)
  {
    if TestsKnown(g, M, T, val, oval) {
      KnownSettled(g, rk, M, T, val, oval);
    }
    if AllSettled(g, rk, M, T, val, oval) {
      SettledRight(g, rk, root, M, T, valIn, val, oval, edom);
      if TestsKnown(g, M, T, val, oval) && AllCarried(g, rk, M, T, valIn, val, net) {
        CarriedKeepVerdict(g, rk, root, M, T, valIn, val, oval, net);
      }
    }
  }

  /** One redirected edge keeps the verdict when its new target inherits what is known into it,
      whether that was live before or not. */
  lemma {:induction false} RedirectKeepsVerdict(g: Net, rk: Rank, root: Id, M: set<Id>, T: Table, valIn: seq<Numbers>,
                                                val: seq<Numbers>, oval: seq<nat>, e: nat, c: Id, st: State, p: Packet,
                                                b: Id)
    requires Ranked(g, rk) && root in M && root < |g| && Annotated(g, M, T, valIn, val) && Unknown(valIn[root])
    requires TestsKnown(g, M, T, val, oval)
    requires e < 2 * |g| && Pred(|g|, e) in M && !g[Pred(|g|, e)].term.Ret? && Bypass(g, rk, root, M, true, e, c)
    requires Inherits(T, val[Pred(|g|, e)], valIn[c], LiveIn(g, rk, c))
    requires Visits(g, rk, root, st, p, b) && b < |g|
    ensures var q := Pred(|g|, e);
      var net, at := g[q := Redirect(g[q], Sense(|g|, e), c)], StateAt(g, rk, root, st, p, b);
      Ranked(net, rk) && Run(net, rk, b, at, p) == Run(g, rk, b, at, p)
    decreases rk[b]
  {
    var q := Pred(|g|, e);
    var net, at := g[q := Redirect(g[q], Sense(|g|, e), c)], StateAt(g, rk, root, st, p, b);
    if !g[b].term.Ret? {
      var f := LeavesBy(g, rk, root, st, p, b);
      TakesOn(g, rk, root, st, p, f);
      var after := StateAfter(g, rk, root, st, p, b);
      if f == e {
        RunNumbered(g, rk, root, M, T, valIn, val, st, p, b);
        RunNumbered(g, rk, root, M, T, valIn, val, st, p, c);
        NumbersDecide(g, rk, M, T, valIn, val, oval, c, StateAt(g, rk, root, st, p, c), after, p);
        BelowUnchanged(g, rk, q, net, c, after, p);
        VisitsDescends(g, rk, root, st, p, b);
        VisitsDescends(g, rk, root, st, p, c);
      } else {
        assert Choose(net[b], after) == Succ(g, f);
        RedirectKeepsVerdict(g, rk, root, M, T, valIn, val, oval, e, c, st, p, Succ(g, f));
      }
    }
  }

  /** A change at q does not matter to runs from below it. */
  lemma {:induction false} BelowUnchanged(g: Net, rk: Rank, q: Id, net: Net, b: Id, st: State, p: Packet)
    requires Ranked(g, rk) && Ranked(net, rk) && q < |g| == |net| && b < |g| && rk[b] < rk[q]
    requires forall x: Id :: x < |g| && x != q ==> net[x] == g[x]
    ensures Run(net, rk, b, st, p) == Run(g, rk, b, st, p)
    decreases rk[b]
  {
    if !g[b].term.Ret? {
      var after := ExecAll(g[b].stmts, st, p);
      BelowUnchanged(g, rk, q, net, Choose(g[b], after), after, p);
    }
  }

  /** Blocks that define what they read inherit nothing, so every redirection is carried. */
  lemma StatelessCarried(g: Net, rk: Rank, root: Id, M: set<Id>, T: Table, valIn: seq<Numbers>, val: seq<Numbers>,
                         sure: bool, net: Net)
    requires Ranked(g, rk) && root < |g| == |valIn| == |val| && Rewired(g, rk, root, M, sure, net) && Closed(g, M)
    requires AllStateFree(g, M)
    ensures AllCarried(g, rk, M, T, valIn, val, net)
  {
    forall e: nat | e < 2 * |g| && Pred(|g|, e) in M && !g[Pred(|g|, e)].term.Ret?
      ensures Carried(g, rk, T, valIn, val, e, Succ(net, e))
    {
      assert Bypass(g, rk, root, M, sure, e, Succ(net, e));
      NothingLive(g, rk, M, Succ(net, e));
    }
  }

  /** Edge k does not redirect e: it leaves the test of e's target open, or leads to a block
      whose uses conflict. */
  ghost predicate Rejected(net: Net, val: seq<Numbers>, oval: seq<nat>, outUse: seq<set<Atom>>, e: nat, k: nat) {
    && |net| == |val| == |oval| == |outUse| && e < 2 * |net| && Succ(net, e) < |net| && k < 2 * |net|
    && var t := FoldAt(net, val, oval, Succ(net, e), k);
      t.Some? ==> t.value < |net| && UseConflict(val[Pred(|net|, e)], val[t.value], outUse[t.value])
  }

  ghost predicate Stuck(net: Net, val: seq<Numbers>, oval: seq<nat>, outUse: seq<set<Atom>>, edges: set<nat>, e: nat,
                        hi: nat)
  {
    forall k: nat :: k in edges && k < hi ==> Rejected(net, val, oval, outUse, e, k)
  }

  lemma StuckNext(net: Net, val: seq<Numbers>, oval: seq<nat>, outUse: seq<set<Atom>>, edges: set<nat>, e: nat, k: nat)
    requires Stuck(net, val, oval, outUse, edges, e, k) && (k in edges ==> Rejected(net, val, oval, outUse, e, k))
    ensures Stuck(net, val, oval, outUse, edges, e, k + 1)
  {
  }

  /** Nothing but e has changed, and if it has, it leads to a lower block. */
  ghost predicate Lowered(was: Net, net: Net, rk: Rank, e: nat) {
    && |net| == |was| == |rk| && e < 2 * |was| && Succ(net, e) < |was| && Succ(was, e) < |was|
    && net == was[Pred(|was|, e) := Redirect(was[Pred(|was|, e)], Sense(|was|, e), Succ(net, e))]
    && (Succ(net, e) == Succ(was, e) || rk[Succ(net, e)] < rk[Succ(was, e)])
  }

  lemma LoweredFurther(was: Net, mid: Net, net: Net, rk: Rank, e: nat)
    requires Lowered(was, mid, rk, e) && Lowered(mid, net, rk, e)
    ensures Lowered(was, net, rk, e) && rk[Succ(net, e)] <= rk[Succ(mid, e)] <= rk[Succ(was, e)]
    ensures Succ(net, e) == Succ(was, e) ==> mid == was && net == mid
  {
    var b := Pred(|was|, e);
    assert net[b] == Redirect(was[b], Sense(|was|, e), Succ(net, e));
  }

  /** Both branches of e's target lead to one block, whose uses do not conflict. */
  ghost predicate Passable(net: Net, val: seq<Numbers>, outUse: seq<set<Atom>>, e: nat)
    requires |net| == |val| == |outUse| && e < 2 * |net| && Succ(net, e) < |net|
  {
    var n := net[Succ(net, e)];
    !n.term.Ret? && n.jt == n.jf && n.jt < |net| && !UseConflict(val[Pred(|net|, e)], val[n.jt], outUse[n.jt])
  }

  /** The edges of blocks that do not return lead to lower levels. */
  ghost predicate Downhill(g: Net, M: set<Id>, level: seq<nat>, net: Net) {
    && |net| == |level| == |g|
    && forall e: nat {:trigger Succ(net, e)} :: e < 2 * |g| && Pred(|g|, e) in M && !g[Pred(|g|, e)].term.Ret? ==>
      Succ(net, e) < |g| && level[Succ(net, e)] < level[Pred(|g|, e)]
  }

  /** So do the arms of the block that an edge leads to. */
  lemma ArmsDownhill(g: Net, M: set<Id>, level: seq<nat>, net: Net, e: nat)
    requires Downhill(g, M, level, net) && Branch(g, M, e)
    requires Succ(net, e) < |g| && Succ(net, e) in M && !g[Succ(net, e)].term.Ret?
    ensures var n := net[Succ(net, e)];
      n.jt < |g| && level[n.jt] < level[Pred(|g|, e)] && n.jf < |g| && level[n.jf] < level[Pred(|g|, e)]
  {
    var c := Succ(net, e);
    assert Succ(net, c) == net[c].jt && Succ(net, |g| + c) == net[c].jf;
  }

  lemma DownhillNext(g: Net, M: set<Id>, level: seq<nat>, net: Net, e: nat, target: Id)
    requires Downhill(g, M, level, net) && e < 2 * |g| && target < |g| && level[target] < level[Pred(|g|, e)]
    ensures Downhill(g, M, level, net[Pred(|g|, e) := Redirect(net[Pred(|g|, e)], Sense(|g|, e), target)])
  {
    var net' := net[Pred(|g|, e) := Redirect(net[Pred(|g|, e)], Sense(|g|, e), target)];
    forall f: nat | f < 2 * |g| && Pred(|g|, f) in M && !g[Pred(|g|, f)].term.Ret?
      ensures Succ(net', f) < |g| && level[Succ(net', f)] < level[Pred(|g|, f)]
    {
      assert f != e ==> Succ(net', f) == Succ(net, f);
    }
  }

  /** Edge e leads where opt_j has nothing left to do for it: to a return, or where no dominating
      edge moves it on; and it has not been left before a common branch. */
  ghost predicate Settles(g: Net, net: Net, val: seq<Numbers>, oval: seq<nat>, outUse: seq<set<Atom>>,
                          edges: set<nat>, e: nat)
  {
    && |net| == |val| == |oval| == |outUse| == |g| && e < 2 * |g| && Succ(net, e) < |net|
    && (net[Succ(net, e)].term.Ret? || Stuck(net, val, oval, outUse, edges, e, 2 * |g|))
    && (Succ(net, e) == Succ(g, e) ==> !Passable(net, val, outUse, e))
  }

  /** When it has been passed on where that was possible, and then as far as it would go. */
  lemma SettlesAfter(was: Net, mid: Net, net: Net, rk: Rank, val: seq<Numbers>, oval: seq<nat>, outUse: seq<set<Atom>>,
                     edges: set<nat>, e: nat)
    requires Lowered(was, mid, rk, e) && Lowered(mid, net, rk, e) && |net| == |val| == |oval| == |outUse|
    requires Succ(mid, e) == Succ(was, e) ==> !Passable(was, val, outUse, e)
    requires net[Succ(net, e)].term.Ret? || Stuck(net, val, oval, outUse, edges, e, 2 * |was|)
    ensures Lowered(was, net, rk, e) && Settles(was, net, val, oval, outUse, edges, e)
  {
    LoweredFurther(was, mid, net, rk, e);
  }

  /** That stays while other edges change, of blocks to which e does not lead. */
  lemma SettlesStill(g: Net, was: Net, net: Net, rk: Rank, val: seq<Numbers>, oval: seq<nat>, outUse: seq<set<Atom>>,
                     edges: set<nat>, e: nat, f: nat)
    requires Lowered(was, net, rk, e) && f < 2 * |g| && f != e && Settles(g, was, val, oval, outUse, edges, f)
    requires Succ(was, f) != Pred(|g|, e)
    ensures Succ(net, f) == Succ(was, f) && Settles(g, net, val, oval, outUse, edges, f)
  {
    forall k: nat | k in edges && k < 2 * |g| && !net[Succ(net, f)].term.Ret?
      ensures Rejected(net, val, oval, outUse, f, k)
    {
      assert Rejected(was, val, oval, outUse, f, k);
      assert FoldAt(net, val, oval, Succ(net, f), k) == FoldAt(was, val, oval, Succ(was, f), k);
    }
  }

  // ----- by which ways edges move -----

  /** fold_edge names d for block c because of an edge of edges, and use_conflict lets e go there. */
  ghost predicate Folds(net: Net, val: seq<Numbers>, oval: seq<nat>, outUse: seq<set<Atom>>, edges: set<nat>, e: nat,
                        c: Id, d: Id)
  {
    && |net| == |val| == |oval| == |outUse| && e < 2 * |net| && c < |net| && d < |net|
    && !UseConflict(val[Pred(|net|, e)], val[d], outUse[d])
    && exists k: nat {:trigger FoldAt(net, val, oval, c, k)} ::
      k in edges && k < 2 * |net| && FoldAt(net, val, oval, c, k) == Some(d)
  }

  /** Both branches of block c lead to d, and use_conflict lets e go there. */
  ghost predicate Skips(net: Net, val: seq<Numbers>, outUse: seq<set<Atom>>, e: nat, c: Id, d: Id) {
    && |net| == |val| == |outUse| && e < 2 * |net| && c < |net| && d < |net|
    && !net[c].term.Ret? && net[c].jt == net[c].jf == d && !UseConflict(val[Pred(|net|, e)], val[d], outUse[d])
  }

  /** e has moved along the blocks of s: past a common branch at first, if at all, and then by what
      fold_edge says. */
  ghost predicate Way(start: Net, net: Net, val: seq<Numbers>, oval: seq<nat>, outUse: seq<set<Atom>>, edges: set<nat>,
                      e: nat, s: seq<Id>)
  {
    && |start| == |net| == |val| && e < 2 * |net| && s != [] && s[0] == Succ(start, e) && s[|s| - 1] == Succ(net, e)
    && forall i: nat {:trigger s[i]} :: i < |s| - 1 ==>
      || (i == 0 && Skips(net, val, outUse, e, s[i], s[i + 1]))
      || Folds(net, val, oval, outUse, edges, e, s[i], s[i + 1])
  }

  /** The blocks of s are on levels below hi. */
  predicate Low(level: seq<nat>, hi: nat, s: seq<Id>) {
    forall i :: 0 <= i < |s| ==> s[i] < |level| && level[s[i]] < hi
  }

  lemma FoldsStill(was: Net, net: Net, rk: Rank, val: seq<Numbers>, oval: seq<nat>, outUse: seq<set<Atom>>,
                   edges: set<nat>, e: nat, f: nat, c: Id, d: Id)
    requires Lowered(was, net, rk, e) && c != Pred(|was|, e)
    ensures Folds(was, val, oval, outUse, edges, f, c, d) ==> Folds(net, val, oval, outUse, edges, f, c, d)
    ensures Skips(was, val, outUse, f, c, d) ==> Skips(net, val, outUse, f, c, d)
  {
    if Folds(was, val, oval, outUse, edges, f, c, d) {
      var k: nat :| k in edges && k < 2 * |was| && FoldAt(was, val, oval, c, k) == Some(d);
      assert FoldAt(net, val, oval, c, k) == Some(d);
    }
  }

  /** A way stays one while edges of other blocks move. */
  lemma WayStill(start: Net, was: Net, net: Net, rk: Rank, level: seq<nat>, val: seq<Numbers>, oval: seq<nat>,
                 outUse: seq<set<Atom>>, edges: set<nat>, e: nat, f: nat, s: seq<Id>)
    requires Lowered(was, net, rk, e) && Way(start, was, val, oval, outUse, edges, f, s) && f != e
    requires |level| == |was| && Low(level, level[Pred(|was|, e)], s)
    ensures Way(start, net, val, oval, outUse, edges, f, s)
  {
    assert Succ(net, f) == Succ(was, f);
    forall i: nat | i < |s| - 1
      ensures (i == 0 && Skips(net, val, outUse, f, s[i], s[i + 1]))
              || Folds(net, val, oval, outUse, edges, f, s[i], s[i + 1])
    {
      FoldsStill(was, net, rk, val, oval, outUse, edges, e, f, s[i], s[i + 1]);
    }
  }

  lemma WayStart(net: Net, rk: Rank, level: seq<nat>, val: seq<Numbers>, oval: seq<nat>, outUse: seq<set<Atom>>,
                 edges: set<nat>, e: nat)
    requires |net| == |val| == |level| && e < 2 * |net| && Pred(|net|, e) < |net|
    requires Succ(net, e) < |net| && level[Succ(net, e)] < level[Pred(|net|, e)]
    ensures Way(net, net, val, oval, outUse, edges, e, [Succ(net, e)])
    ensures Low(level, level[Pred(|net|, e)], [Succ(net, e)])
  {
  }

  /** A further move of the edge itself. */
  lemma WayOn(start: Net, was: Net, net: Net, rk: Rank, level: seq<nat>, val: seq<Numbers>, oval: seq<nat>,
              outUse: seq<set<Atom>>, edges: set<nat>, e: nat, s: seq<Id>)
    requires Lowered(was, net, rk, e) && Way(start, was, val, oval, outUse, edges, e, s)
    requires |level| == |was| && Low(level, level[Pred(|was|, e)], s) && level[Succ(net, e)] < level[Pred(|was|, e)]
    requires Folds(was, val, oval, outUse, edges, e, Succ(was, e), Succ(net, e))
             || (|s| == 1 && Skips(was, val, outUse, e, Succ(was, e), Succ(net, e)))
    ensures Way(start, net, val, oval, outUse, edges, e, s + [Succ(net, e)])
    ensures Low(level, level[Pred(|was|, e)], s + [Succ(net, e)])
  {
    var s' := s + [Succ(net, e)];
    forall i: nat | i < |s'| - 1
      ensures (i == 0 && Skips(net, val, outUse, e, s'[i], s'[i + 1]))
              || Folds(net, val, oval, outUse, edges, e, s'[i], s'[i + 1])
    {
      assert s'[i] == s[i] && (i < |s| - 1 ==> s'[i + 1] == s[i + 1]);
      FoldsStill(was, net, rk, val, oval, outUse, edges, e, e, s'[i], s'[i + 1]);
    }
  }

  /** The edges of done have moved by such ways since start. */
  ghost predicate WaysTaken(start: Net, net: Net, level: seq<nat>, val: seq<Numbers>, oval: seq<nat>,
                            outUse: seq<set<Atom>>, edom: seq<set<nat>>, done: set<nat>)
  {
    && |start| == |net| == |level| && |edom| == 2 * |net|
    && forall e: nat {:trigger edom[e]} :: e in done ==>
      && e < 2 * |net| && Pred(|net|, e) < |net|
      && exists s :: Way(start, net, val, oval, outUse, edom[e], e, s) && Low(level, level[Pred(|net|, e)], s)
  }

  lemma WaysNext(g: Net, rk: Rank, M: set<Id>, level: seq<nat>, start: Net, was: Net, net: Net, val: seq<Numbers>,
                 oval: seq<nat>, outUse: seq<set<Atom>>, edom: seq<set<nat>>, done: set<nat>, e: nat, s: seq<Id>)
    requires WaysTaken(start, was, level, val, oval, outUse, edom, done) && |g| == |was|
    requires DueEdge(g, M, level, done, e) && Lowered(was, net, rk, e)
    requires Way(was, net, val, oval, outUse, edom[e], e, s) && Low(level, level[Pred(|g|, e)], s)
    requires Succ(was, e) == Succ(start, e)
    ensures WaysTaken(start, net, level, val, oval, outUse, edom, done + {e})
  {
    forall f: nat | f in done + {e}
      ensures f < 2 * |net| && Pred(|net|, f) < |net| &&
        exists t :: Way(start, net, val, oval, outUse, edom[f], f, t) && Low(level, level[Pred(|net|, f)], t)
    {
      if f != e {
        assert f in done && level[Pred(|g|, f)] <= level[Pred(|g|, e)];
        var t :| Way(start, was, val, oval, outUse, edom[f], f, t) && Low(level, level[Pred(|was|, f)], t);
        WayStill(start, was, net, rk, level, val, oval, outUse, edom[f], e, f, t);
      } else {
        assert Way(start, net, val, oval, outUse, edom[e], e, s);
      }
    }
  }

  /** All edges have moved by such ways. */
  ghost predicate AllMoved(g: Net, M: set<Id>, start: Net, net: Net, val: seq<Numbers>, oval: seq<nat>,
                           outUse: seq<set<Atom>>, edom: seq<set<nat>>)
  {
    |edom| == 2 * |g| && forall e: nat {:trigger edom[e]} :: Branch(g, M, e) ==>
      exists s :: Way(start, net, val, oval, outUse, edom[e], e, s)
  }

  /** Only edges differ. */
  ghost predicate SameBlocks(start: Net, net: Net) {
    |net| == |start| && forall b: Id {:trigger net[b]} :: b < |net| ==>
      net[b].stmts == start[b].stmts && net[b].term == start[b].term
  }

  /** There is nothing left to do for any edge. */
  ghost predicate AllSettle(g: Net, M: set<Id>, start: Net, net: Net, val: seq<Numbers>, oval: seq<nat>,
                            outUse: seq<set<Atom>>, edom: seq<set<nat>>)
  {
    && SameBlocks(start, net) && |start| == |net| == |g| && |edom| == 2 * |g|
    && forall e: nat {:trigger Succ(net, e)} :: Branch(g, M, e) ==>
      Settles(start, net, val, oval, outUse, edom[e], e)
  }

  /** In terms of the numbers: where an edge leads to a test whose outcome an edge that dominates it
      forces, the block behind that branch has an atom live out of it with another number than the
      block the edge leaves. */
  lemma NothingLeft(g: Net, M: set<Id>, start: Net, net: Net, val: seq<Numbers>, oval: seq<nat>,
                    outUse: seq<set<Atom>>, edom: seq<set<nat>>, e: nat, k: nat, o: bool)
    requires AllSettle(g, M, start, net, val, oval, outUse, edom) && |val| == |oval| == |outUse| == |g|
    requires Branch(g, M, e) && k in edom[e] && k < 2 * |g| && Succ(net, e) < |g|
    requires var (c, q) := (Succ(net, e), Pred(|g|, k));
      && !net[c].term.Ret? && !net[q].term.Ret? && net[c].term.JmpK? == net[q].term.JmpK?
      && net[c].term.op == net[q].term.op && val[c][A_ATOM] == val[q][A_ATOM]
      && Forced(net[c].term.op, net[c].term.JmpK?, oval[c] == oval[q], Sense(|g|, k), o)
    ensures var target := if o then net[Succ(net, e)].jt else net[Succ(net, e)].jf;
      && target < |g|
      && exists a :: a in outUse[target] && val[Pred(|g|, e)][a] != val[target][a]
  {
    var c, q := Succ(net, e), Pred(|g|, k);
    FoldNames(net[c].term, val[c][A_ATOM], oval[c], net[q].term, val[q][A_ATOM], oval[q], Sense(|g|, k), o);
    assert Settles(start, net, val, oval, outUse, edom[e], e);
    assert Rejected(net, val, oval, outUse, e, k);
  }

  /** An edge that has moved finds the numbers it left with in all atoms live out of its new target,
      which is a branch target of a test. */
  lemma MovedFreely(g: Net, M: set<Id>, start: Net, net: Net, val: seq<Numbers>, oval: seq<nat>, outUse: seq<set<Atom>>,
                    edom: seq<set<nat>>, e: nat)
    returns (c: Id)
    requires AllMoved(g, M, start, net, val, oval, outUse, edom) && Branch(g, M, e)
    requires |start| == |net| == |val| == |outUse| == |g| && Succ(net, e) != Succ(start, e)
    ensures var d := Succ(net, e);
      && d < |g| && (forall a :: a in outUse[d] ==> val[Pred(|g|, e)][a] == val[d][a])
      && c < |g| && !net[c].term.Ret? && (net[c].jt == d || net[c].jf == d)
  {
    assert edom[e] == edom[e];
    var s :| Way(start, net, val, oval, outUse, edom[e], e, s);
    var i := |s| - 2;
    c := s[i];
    assert i >= 0 && s[i + 1] == Succ(net, e);
  }

  /** An edge to a test with one branch target, whose live atoms have the same numbers, has moved. */
  lemma CommonPassed(g: Net, M: set<Id>, start: Net, net: Net, val: seq<Numbers>, oval: seq<nat>,
                     outUse: seq<set<Atom>>, edom: seq<set<nat>>, e: nat)
    requires AllSettle(g, M, start, net, val, oval, outUse, edom) && |val| == |oval| == |outUse| == |g|
    requires Branch(g, M, e) && Succ(net, e) < |g|
    requires var n := net[Succ(net, e)];
      && !n.term.Ret? && n.jt == n.jf && n.jt < |g|
      && forall a :: a in outUse[n.jt] ==> val[Pred(|g|, e)][a] == val[n.jt][a]
    ensures Succ(net, e) != Succ(start, e)
  {
    assert Settles(start, net, val, oval, outUse, edom[e], e);
  }

  /** The edges of done have had their turn, and no other one has moved. */
  ghost predicate TurnsTaken(g: Net, M: set<Id>, start: Net, net: Net, val: seq<Numbers>, oval: seq<nat>,
                        outUse: seq<set<Atom>>, edom: seq<set<nat>>, done: set<nat>)
  {
    && SameBlocks(start, net) && |start| == |net| == |g| && |edom| == 2 * |g|
    && forall e: nat {:trigger Succ(net, e)} :: Branch(g, M, e) ==>
      if e in done then Settles(start, net, val, oval, outUse, edom[e], e) else Succ(net, e) == Succ(start, e)
  }

  /** The edges of a block. */
  function BothEdges(n: nat, b: Id): set<nat> {
    {b, n + b}
  }

  lemma BothAdded(n: nat, b: Id, done: set<nat>)
    ensures done + {b} + {n + b} == done + BothEdges(n, b)
  {
  }

  /** done' has the edges of done and those of the blocks of ids. */
  ghost predicate WithEdges(g: Net, M: set<Id>, done: set<nat>, ids: seq<Id>, done': set<nat>) {
    forall e: nat :: e in done' <==> e in done || (Branch(g, M, e) && Pred(|g|, e) in ids)
  }

  /** The edges on the levels below i. */
  ghost predicate BelowLevel(g: Net, M: set<Id>, level: seq<nat>, i: nat, done: set<nat>)
    requires |level| == |g|
  {
    forall e: nat :: e in done <==> Branch(g, M, e) && level[Pred(|g|, e)] < i
  }

  /** ids are the blocks on level i that do not return. */
  ghost predicate OnLevel(g: Net, M: set<Id>, level: seq<nat>, i: nat, ids: seq<Id>)
    requires |level| == |g|
  {
    NoRepeats(ids) && forall b: Id :: b in ids <==> b < |g| && b in M && !g[b].term.Ret? && level[b] == i
  }

  lemma LevelDone(g: Net, M: set<Id>, level: seq<nat>, i: nat, done: set<nat>, ids: seq<Id>, done': set<nat>)
    requires |level| == |g| && BelowLevel(g, M, level, i, done) && OnLevel(g, M, level, i, ids)
    requires WithEdges(g, M, done, ids[..|ids|], done')
    ensures BelowLevel(g, M, level, i + 1, done')
  {
    assert ids[..|ids|] == ids;
  }

  /** The edges of b have not had their turn, and all that have leave blocks no higher. */
  ghost predicate Due(g: Net, M: set<Id>, level: seq<nat>, done: set<nat>, b: Id) {
    && b < |g| == |level| && b in M && !g[b].term.Ret? && b !in done && |g| + b !in done
    && forall f: nat :: f in done ==> Branch(g, M, f) && level[Pred(|g|, f)] <= level[b]
  }

  /** So for one edge. */
  ghost predicate DueEdge(g: Net, M: set<Id>, level: seq<nat>, done: set<nat>, e: nat) {
    && |level| == |g| && Branch(g, M, e) && Pred(|g|, e) < |g| && e !in done
    && forall f: nat :: f in done ==> Branch(g, M, f) && level[Pred(|g|, f)] <= level[Pred(|g|, e)]
  }

  lemma BothDue(g: Net, M: set<Id>, level: seq<nat>, done: set<nat>, b: Id)
    requires Due(g, M, level, done, b)
    ensures DueEdge(g, M, level, done, b) && DueEdge(g, M, level, done + {b}, |g| + b)
  {
  }

  lemma WithEdgesNext(g: Net, M: set<Id>, level: seq<nat>, i: nat, done: set<nat>, ids: seq<Id>, j: nat,
                      done': set<nat>)
    requires |level| == |g| && OnLevel(g, M, level, i, ids) && j < |ids| && WithEdges(g, M, done, ids[..j], done')
    requires BelowLevel(g, M, level, i, done)
    ensures Due(g, M, level, done', ids[j])
    ensures WithEdges(g, M, done, ids[..j + 1], done' + BothEdges(|g|, ids[j]))
  {
    var b := ids[j];
    assert b in ids && b !in ids[..j] && ids[..j + 1] == ids[..j] + [b];
    forall e: nat
      ensures e in done' + BothEdges(|g|, b) <==> e in done || (Branch(g, M, e) && Pred(|g|, e) in ids[..j + 1])
    {
      assert e in done' <==> e in done || (Branch(g, M, e) && Pred(|g|, e) in ids[..j]);
    }
    forall f: nat | f in done' ensures Branch(g, M, f) && level[Pred(|g|, f)] <= i {
      assert Pred(|g|, f) in ids[..j] ==> Pred(|g|, f) in ids;
    }
  }

  lemma TurnTaken(g: Net, rk: Rank, M: set<Id>, level: seq<nat>, start: Net, was: Net, net: Net, val: seq<Numbers>,
                  oval: seq<nat>, outUse: seq<set<Atom>>, edom: seq<set<nat>>, done: set<nat>, e: nat)
    requires TurnsTaken(g, M, start, was, val, oval, outUse, edom, done) && Downhill(g, M, level, was)
    requires DueEdge(g, M, level, done, e) && Lowered(was, net, rk, e)
    requires Settles(was, net, val, oval, outUse, edom[e], e)
    ensures TurnsTaken(g, M, start, net, val, oval, outUse, edom, done + {e})
  {
    assert Succ(was, e) == Succ(start, e);
    forall f: nat | Branch(g, M, f)
      ensures if f in done + {e} then Settles(start, net, val, oval, outUse, edom[f], f)
              else Succ(net, f) == Succ(start, f)
    {
      if f in done {
        assert level[Succ(was, f)] < level[Pred(|g|, f)];
        SettlesStill(start, was, net, rk, val, oval, outUse, edom[f], e, f);
      } else if f != e {
        assert Succ(net, f) == Succ(was, f);
      }
    }
  }

  /** Every edge has had its turn. */
  lemma AllDone(g: Net, M: set<Id>, level: seq<nat>, hi: nat, start: Net, net: Net, val: seq<Numbers>, oval: seq<nat>,
                outUse: seq<set<Atom>>, edom: seq<set<nat>>, done: set<nat>)
    requires TurnsTaken(g, M, start, net, val, oval, outUse, edom, done) && |level| == |g|
    requires WaysTaken(start, net, level, val, oval, outUse, edom, done)
    requires BelowLevel(g, M, level, hi, done)
    requires forall e: nat :: Branch(g, M, e) ==> Pred(|g|, e) < |g| && level[Pred(|g|, e)] < hi
    ensures AllSettle(g, M, start, net, val, oval, outUse, edom)
    ensures AllMoved(g, M, start, net, val, oval, outUse, edom)
  {
    forall e: nat | Branch(g, M, e)
      ensures Settles(start, net, val, oval, outUse, edom[e], e)
      ensures exists s :: Way(start, net, val, oval, outUse, edom[e], e, s)
    {
      assert e in done && Succ(net, e) == Succ(net, e);
    }
  }

  class Threader {
    const net: array<Node>
    /** What opt_blk left: the numbers at the end of each block and of each test's operand. */
    const val: array<Numbers>
    const oval: array<nat>
    const outUse: array<set<Atom>>
    const edom: array<set<nat>>

    /** net is g with the edges redirected so far. */
    ghost predicate Valid(g: Net, rk: Rank, root: Id, M: set<Id>, level: seq<nat>)
      reads this, net, val, oval, outUse, edom
    {
      && net.Length == outUse.Length == val.Length == oval.Length == |g| && edom.Length == 2 * |g|
      && Ranked(g, rk) && root < |g| && Downhill(g, M, level, net[..])
      && Rewired(g, rk, root, M, Sure(g, rk, root, M), net[..])
    }

    /** The edges of done have had their turn since start. */
    ghost predicate Turned(g: Net, rk: Rank, root: Id, M: set<Id>, level: seq<nat>, start: Net, done: set<nat>)
      reads this, net, val, oval, outUse, edom
    {
      && Valid(g, rk, root, M, level)
      && TurnsTaken(g, M, start, net[..], val[..], oval[..], outUse[..], edom[..], done)
      && WaysTaken(start, net[..], level, val[..], oval[..], outUse[..], edom[..], done)
    }

    /** What fold_edge finds is right. */
    ghost predicate Sure(g: Net, rk: Rank, root: Id, M: set<Id>)
      requires Ranked(g, rk) && root < |g| == val.Length == oval.Length && edom.Length == 2 * |g|
      reads val, oval, edom
    {
      FoldsRight(g, rk, root, M, val[..], oval[..], edom[..])
    }

    constructor (net: array<Node>, val: array<Numbers>, oval: array<nat>, outUse: array<set<Atom>>,
                 edom: array<set<nat>>)
      ensures this.net == net && this.val == val && this.oval == oval && this.outUse == outUse && this.edom == edom
    {
      this.net, this.val, this.oval, this.outUse, this.edom := net, val, oval, outUse, edom;
    }

    /** The search at the label top: the first dominating edge that fixes the test of e's
        target and does not conflict. */
    method FindFold(e: nat, ghost g: Net, ghost rk: Rank, ghost root: Id, ghost M: set<Id>, ghost level: seq<nat>)
      returns (target: Option<Id>)
      requires Valid(g, rk, root, M, level) && Branch(g, M, e)
      ensures target.Some? ==>
        && Bypass(g, rk, root, M, Sure(g, rk, root, M), e, target.value) && rk[target.value] < rk[Succ(net[..], e)]
        && level[target.value] < level[Pred(|g|, e)]
        && Folds(net[..], val[..], oval[..], outUse[..], edom[e], e, Succ(net[..], e), target.value)
      ensures target.None? ==> Stuck(net[..], val[..], oval[..], outUse[..], edom[e], e, 2 * |g|)
    {
      var n := net.Length;
      for k := 0 to 2 * n
        invariant Stuck(net[..], val[..], oval[..], outUse[..], edom[e], e, k)
      {
        if k in edom[e] {
          target := TryEdge(e, k, g, rk, root, M, level);
          if target.Some? {
            return;
          }
        }
        StuckNext(net[..], val[..], oval[..], outUse[..], edom[e], e, k);
      }
      target := None;
    }

    /** One dominating edge of the search. */
    method TryEdge(e: nat, k: nat, ghost g: Net, ghost rk: Rank, ghost root: Id, ghost M: set<Id>,
                   ghost level: seq<nat>)
      returns (target: Option<Id>)
      requires Valid(g, rk, root, M, level) && Branch(g, M, e)
      requires k < 2 * |g| && k in edom[e]
      ensures target.Some? ==>
        && Bypass(g, rk, root, M, Sure(g, rk, root, M), e, target.value) && rk[target.value] < rk[Succ(net[..], e)]
        && level[target.value] < level[Pred(|g|, e)]
        && Folds(net[..], val[..], oval[..], outUse[..], edom[e], e, Succ(net[..], e), target.value)
      ensures target.None? ==> Rejected(net[..], val[..], oval[..], outUse[..], e, k)
    {
      var n := net.Length;
      var succ := Succ(net[..], e);
      assert Bypass(g, rk, root, M, Sure(g, rk, root, M), e, succ);
      RewiredRanked(g, rk, root, M, Sure(g, rk, root, M), net[..]);
      target := FoldAt(net[..], val[..], oval[..], succ, k);
      if target.Some? {
        assert net[..][succ].term == g[succ].term && net[..][Pred(n, k)].term == g[Pred(n, k)].term;
        FoldSends(g, rk, root, M, val[..], oval[..], edom[..], net[..], e, succ, k, target.value);
        if UseConflict(val[Pred(n, e)], val[target.value], outUse[target.value]) {
          target := None;
        } else {
          BypassFurther(g, rk, root, M, Sure(g, rk, root, M), net[..], e, target.value);
          ArmsDownhill(g, M, level, net[..], e);
        }
      }
    }

    /** opt_j: e ends at a block below, or where no dominating edge moves it on; a test with
        one common branch is passed unless that conflicts. On its way s it only goes where
        fold_edge, or the common branch at first, and use_conflict let it. */
    method OptJ(e: nat, ghost g: Net, ghost rk: Rank, ghost root: Id, ghost M: set<Id>, ghost level: seq<nat>)
      returns (ghost s: seq<Id>)
      requires Valid(g, rk, root, M, level) && Branch(g, M, e)
      modifies net
      ensures Valid(g, rk, root, M, level) && Lowered(old(net[..]), net[..], rk, e)
      ensures Settles(old(net[..]), net[..], val[..], oval[..], outUse[..], edom[e], e)
      ensures OnWay(level, old(net[..]), e, s)
    {
      ghost var was := net[..];
      var ret;
      ret, s := PassCommon(e, g, rk, root, M, level);
      ghost var mid := net[..];
      s := FoldAll(e, ret, g, rk, root, M, level, was, s);
      SettlesAfter(was, mid, net[..], rk, val[..], oval[..], outUse[..], edom[e], e);
    }

    /** From the label top on, unless e leads to a return; s is the way e has come from start. */
    method FoldAll(e: nat, ret: bool, ghost g: Net, ghost rk: Rank, ghost root: Id, ghost M: set<Id>,
                   ghost level: seq<nat>, ghost start: Net, ghost s: seq<Id>)
      returns (ghost s': seq<Id>)
      requires Valid(g, rk, root, M, level) && Branch(g, M, e) && OnWay(level, start, e, s)
      requires ret ==> Succ(net[..], e) < |g| && net[Succ(net[..], e)].term.Ret?
      modifies net
      ensures Valid(g, rk, root, M, level) && Lowered(old(net[..]), net[..], rk, e) && OnWay(level, start, e, s')
      ensures net[Succ(net[..], e)].term.Ret? || Stuck(net[..], val[..], oval[..], outUse[..], edom[e], e, 2 * |g|)
    {
      ghost var was := net[..];
      assert Succ(was, e) < |g| by {
        assert Bypass(g, rk, root, M, Sure(g, rk, root, M), e, Succ(was, e));
      }
      var again := !ret;
      s' := s;
      while again
        invariant Valid(g, rk, root, M, level) && Lowered(was, net[..], rk, e) && OnWay(level, start, e, s')
        invariant !again ==>
          || net[Succ(net[..], e)].term.Ret?
          || Stuck(net[..], val[..], oval[..], outUse[..], edom[e], e, 2 * |g|)
        decreases again, rk[Succ(net[..], e)]
      {
        ghost var mid := net[..];
        again, s' := FoldOnce(e, g, rk, root, M, level, start, s');
        LoweredFurther(was, mid, net[..], rk, e);
      }
    }

    /** s is the way e has come from start, by blocks below its own. */
    ghost predicate OnWay(level: seq<nat>, start: Net, e: nat, s: seq<Id>)
      reads this, net, val, oval, outUse, edom
    {
      && e < edom.Length && Pred(net.Length, e) < net.Length == |level|
      && Way(start, net[..], val[..], oval[..], outUse[..], edom[e], e, s)
      && Low(level, level[Pred(net.Length, e)], s)
    }

    /** One search from the label top, and the redirection it leads to. */
    method FoldOnce(e: nat, ghost g: Net, ghost rk: Rank, ghost root: Id, ghost M: set<Id>, ghost level: seq<nat>,
                    ghost start: Net, ghost s: seq<Id>)
      returns (again: bool, ghost s': seq<Id>)
      requires Valid(g, rk, root, M, level) && Branch(g, M, e) && OnWay(level, start, e, s)
      modifies net
      ensures Valid(g, rk, root, M, level) && Lowered(old(net[..]), net[..], rk, e) && OnWay(level, start, e, s')
      ensures if again then Succ(net[..], e) != Succ(old(net[..]), e)
              else net[Succ(net[..], e)].term.Ret? || Stuck(net[..], val[..], oval[..], outUse[..], edom[e], e, 2 * |g|)
    {
      ghost var was := net[..];
      assert Bypass(g, rk, root, M, Sure(g, rk, root, M), e, Succ(net[..], e));
      var target := FindFold(e, g, rk, root, M, level);
      again, s' := false, s;
      if target.Some? {
        SetSucc(e, target.value, g, rk, root, M, level);
        again := !net[target.value].term.Ret?;
        WayOn(start, was, net[..], rk, level, val[..], oval[..], outUse[..], edom[e], e, s);
        s' := s + [target.value];
      }
    }

    /** The elimination of a common branch target; ret is set when e leads to a return. */
    method PassCommon(e: nat, ghost g: Net, ghost rk: Rank, ghost root: Id, ghost M: set<Id>, ghost level: seq<nat>)
      returns (ret: bool, ghost s: seq<Id>)
      requires Valid(g, rk, root, M, level) && Branch(g, M, e)
      modifies net
      ensures Valid(g, rk, root, M, level) && Lowered(old(net[..]), net[..], rk, e)
      ensures OnWay(level, old(net[..]), e, s)
      ensures ret ==> net[..] == old(net[..]) && net[Succ(net[..], e)].term.Ret?
      ensures Succ(net[..], e) == Succ(old(net[..]), e) ==> !Passable(old(net[..]), val[..], outUse[..], e)
    {
      ghost var was := net[..];
      var succ := Succ(net[..], e);
      s := [succ];
      WayStart(was, rk, level, val[..], oval[..], outUse[..], edom[e], e);
      assert Bypass(g, rk, root, M, Sure(g, rk, root, M), e, succ);
      RewiredRanked(g, rk, root, M, Sure(g, rk, root, M), net[..]);
      ret := net[succ].term.Ret?;
      if !ret && net[succ].jt == net[succ].jf {
        var target := net[succ].jt;
        BypassFurther(g, rk, root, M, Sure(g, rk, root, M), net[..], e, target);
        ArmsDownhill(g, M, level, net[..], e);
        if !UseConflict(val[Pred(net.Length, e)], val[target], outUse[target]) {
          s := SkipTo(e, target, g, rk, root, M, level);
        }
      }
    }

    method SkipTo(e: nat, target: Id, ghost g: Net, ghost rk: Rank, ghost root: Id, ghost M: set<Id>,
                  ghost level: seq<nat>)
      returns (ghost s: seq<Id>)
      requires Valid(g, rk, root, M, level) && Branch(g, M, e) && target < |g| && Succ(net[..], e) < |g|
      requires rk[target] < rk[Succ(net[..], e)] && level[Succ(net[..], e)] < level[Pred(|g|, e)]
      requires Bypass(g, rk, root, M, Sure(g, rk, root, M), e, target) && level[target] < level[Pred(|g|, e)]
      requires Skips(net[..], val[..], outUse[..], e, Succ(net[..], e), target)
      modifies net
      ensures Valid(g, rk, root, M, level) && Lowered(old(net[..]), net[..], rk, e) && Succ(net[..], e) == target
      ensures OnWay(level, old(net[..]), e, s)
    {
      ghost var was := net[..];
      WayStart(was, rk, level, val[..], oval[..], outUse[..], edom[e], e);
      SetSucc(e, target, g, rk, root, M, level);
      WayOn(was, was, net[..], rk, level, val[..], oval[..], outUse[..], edom[e], e, [Succ(was, e)]);
      s := [Succ(was, e)] + [target];
    }

    /** The second loop of opt_blks: both edges of every block, lowest level first, all judged
        by the sets and numbers found before any was redirected. At the end there is nothing left
        to do for any edge. The verdicts stay when the tests read known values and all redirections
        are carried, as they are when every block defines what it reads. */
    method OptEdges(ghost g: Net, ghost rk: Rank, root: Id, ghost M: set<Id>, level: seq<nat>, levels: seq<seq<Id>>,
                    ghost T: Table, ghost valIn: seq<Numbers>)
      requires Valid(g, rk, root, M, level) && M == Reach(g, rk, root) && Leveled(g, rk, M, level, levels)
      modifies net
      ensures Valid(g, rk, root, M, level) && Ranked(net[..], rk)
      ensures AllSettle(g, M, old(net[..]), net[..], val[..], oval[..], outUse[..], edom[..])
      ensures AllMoved(g, M, old(net[..]), net[..], val[..], oval[..], outUse[..], edom[..])
      ensures Analysed(g, rk, root, M, T, valIn, val[..], oval[..], edom[..]) ==>
        && (AllSettled(g, rk, M, T, val[..], oval[..]) ==> Rewired(g, rk, root, M, true, net[..]))
        && (TestsKnown(g, M, T, val[..], oval[..]) && AllCarried(g, rk, M, T, valIn, val[..], net[..]) ==>
             forall st: State, p: Packet :: Run(net[..], rk, root, st, p) == Run(g, rk, root, st, p))
      ensures |valIn| == |g| && Closed(g, M) && AllStateFree(g, M) ==> AllCarried(g, rk, M, T, valIn, val[..], net[..])
    {
      Sweep(g, rk, root, M, level, levels);
      RewiredRanked(g, rk, root, M, Sure(g, rk, root, M), net[..]);
      if |valIn| == |g| && Closed(g, M) && AllStateFree(g, M) {
        StatelessCarried(g, rk, root, M, T, valIn, val[..], Sure(g, rk, root, M), net[..]);
      }
      if Analysed(g, rk, root, M, T, valIn, val[..], oval[..], edom[..]) {
        AnalysedVerdict(g, rk, root, M, T, valIn, val[..], oval[..], edom[..], net[..]);
      }
    }

    method Sweep(ghost g: Net, ghost rk: Rank, root: Id, ghost M: set<Id>, level: seq<nat>, levels: seq<seq<Id>>)
      requires Valid(g, rk, root, M, level) && M == Reach(g, rk, root) && Leveled(g, rk, M, level, levels)
      modifies net
      ensures Valid(g, rk, root, M, level)
      ensures AllSettle(g, M, old(net[..]), net[..], val[..], oval[..], outUse[..], edom[..])
      ensures AllMoved(g, M, old(net[..]), net[..], val[..], oval[..], outUse[..], edom[..])
    {
      LowerLevels(g, rk, root, level);
      ghost var start, done := net[..], {};
      for i := 1 to level[root] + 1
        invariant Turned(g, rk, root, M, level, start, done)
        invariant BelowLevel(g, M, level, i, done)
      {
        assert OnLevel(g, M, level, i, levels[i]);
        done := OptEdgesOf(levels[i], i, g, rk, root, M, level, start, done);
      }
      AllDone(g, M, level, level[root] + 1, start, net[..], val[..], oval[..], outUse[..], edom[..], done);
    }

    method OptEdgesOf(ids: seq<Id>, ghost i: nat, ghost g: Net, ghost rk: Rank, ghost root: Id, ghost M: set<Id>,
                      ghost level: seq<nat>, ghost start: Net, ghost done: set<nat>)
      returns (ghost done': set<nat>)
      requires Turned(g, rk, root, M, level, start, done)
      requires OnLevel(g, M, level, i, ids) && BelowLevel(g, M, level, i, done)
      modifies net
      ensures Turned(g, rk, root, M, level, start, done') && BelowLevel(g, M, level, i + 1, done')
    {
      done' := done;
      for j := 0 to |ids|
        invariant Turned(g, rk, root, M, level, start, done') && WithEdges(g, M, done, ids[..j], done')
      {
        done' := OptOne(ids, j, i, g, rk, root, M, level, start, done, done');
      }
      LevelDone(g, M, level, i, done, ids, done');
    }

    method OptOne(ids: seq<Id>, j: nat, ghost i: nat, ghost g: Net, ghost rk: Rank, ghost root: Id, ghost M: set<Id>,
                  ghost level: seq<nat>, ghost start: Net, ghost done: set<nat>, ghost now: set<nat>)
      returns (ghost done': set<nat>)
      requires Turned(g, rk, root, M, level, start, now) && j < |ids| && WithEdges(g, M, done, ids[..j], now)
      requires OnLevel(g, M, level, i, ids) && BelowLevel(g, M, level, i, done)
      modifies net
      ensures Turned(g, rk, root, M, level, start, done') && WithEdges(g, M, done, ids[..j + 1], done')
    {
      WithEdgesNext(g, M, level, i, done, ids, j, now);
      OptBoth(ids[j], g, rk, root, M, level, start, now);
      done' := now + BothEdges(|g|, ids[j]);
    }

    /** The two edges of a block. */
    method OptBoth(b: Id, ghost g: Net, ghost rk: Rank, ghost root: Id, ghost M: set<Id>, ghost level: seq<nat>,
                   ghost start: Net, ghost done: set<nat>)
      requires Turned(g, rk, root, M, level, start, done) && Due(g, M, level, done, b)
      modifies net
      ensures Turned(g, rk, root, M, level, start, done + BothEdges(|g|, b))
    {
      BothAdded(|g|, b, done);
      BothDue(g, M, level, done, b);
      OptTurn(b, g, rk, root, M, level, start, done, done + {b});
      OptTurn(net.Length + b, g, rk, root, M, level, start, done + {b}, done + BothEdges(|g|, b));
    }

    /** One edge has its turn. */
    method OptTurn(e: nat, ghost g: Net, ghost rk: Rank, ghost root: Id, ghost M: set<Id>, ghost level: seq<nat>,
                   ghost start: Net, ghost done: set<nat>, ghost done': set<nat>)
      requires Turned(g, rk, root, M, level, start, done) && DueEdge(g, M, level, done, e) && done' == done + {e}
      modifies net
      ensures Turned(g, rk, root, M, level, start, done')
    {
      ghost var was := net[..];
      ghost var s := OptJ(e, g, rk, root, M, level);
      TurnTaken(g, rk, M, level, start, was, net[..], val[..], oval[..], outUse[..], edom[..], done, e);
      WaysNext(g, rk, M, level, start, was, net[..], val[..], oval[..], outUse[..], edom[..], done, e, s);
    }

    method SetSucc(e: nat, target: Id, ghost g: Net, ghost rk: Rank, ghost root: Id, ghost M: set<Id>,
                   ghost level: seq<nat>)
      requires Valid(g, rk, root, M, level) && e < 2 * |g| && Pred(|g|, e) in M
      requires Bypass(g, rk, root, M, Sure(g, rk, root, M), e, target) && level[target] < level[Pred(|g|, e)]
      modifies net
      ensures Valid(g, rk, root, M, level) && Succ(net[..], e) == target
      ensures net[..] == old(net[..])[Pred(|g|, e) := Redirect(old(net[Pred(|g|, e)]), Sense(|g|, e), target)]
    {
      var b := Pred(net.Length, e);
      RewiredNext(g, rk, root, M, Sure(g, rk, root, M), net[..], e, target);
      DownhillNext(g, M, level, net[..], e, target);
      ghost var net' := net[..][b := Redirect(net[b], Sense(|g|, e), target)];
      net[b] := Redirect(net[b], Sense(net.Length, e), target);
      assert net[..] == net';
    }
  }

  // ----- what use_conflict looks at -----

  /** use_conflict lets a redirection to a block pass only if the block inherits what is known
      into it, whatever block the edge leaves, exactly when all of that is also live out of the
      block, with the same number. */
  lemma ConflictSees(T: Table, valIn: Numbers, valOut: Numbers, liveIn: set<Atom>, liveOut: set<Atom>)
    requires liveIn <= ATOMS && liveOut <= ATOMS
    ensures (forall val: Numbers :: !UseConflict(val, valOut, liveOut) ==> Inherits(T, val, valIn, liveIn))
            <==> forall a :: a in liveIn && Solid(T, valIn[a]) ==> a in liveOut && valOut[a] == valIn[a]
  {
    if forall val: Numbers :: !UseConflict(val, valOut, liveOut) ==> Inherits(T, val, valIn, liveIn) {
      var other: Numbers := seq(18, a requires 0 <= a < 18 => if a in liveOut then valOut[a] else valIn[a] + 1);
      assert !UseConflict(other, valOut, liveOut);
    }
  }

  /** All that the blocks of M read of earlier values they also hand on. */
  ghost predicate AllHandOn(g: Net, rk: Rank, M: set<Id>)
    requires Ranked(g, rk)
  {
    forall b: Id {:trigger g[b]} :: b in M && b < |g| ==> LiveIn(g, rk, b) <= LiveOut(g, rk, b)
  }

  /** That is so only in a graph in which no block reads earlier values at all. */
  lemma HandOnExactly(g: Net, rk: Rank, M: set<Id>)
    requires Ranked(g, rk) && Closed(g, M)
    ensures AllHandOn(g, rk, M) <==> AllStateFree(g, M)
  {
    forall b: Id | b in M && b < |g|
      ensures AllStateFree(g, M) ==> LiveIn(g, rk, b) == {}
      ensures AllHandOn(g, rk, M) ==> StateFree(g[b])
    {
      if AllStateFree(g, M) {
        NothingLive(g, rk, M, b);
      }
      if AllHandOn(g, rk, M) {
        NothingHandedOn(g, rk, M, b);
      }
    }
  }

  lemma {:induction false} NothingHandedOn(g: Net, rk: Rank, M: set<Id>, b: Id)
    requires Ranked(g, rk) && Closed(g, M) && AllHandOn(g, rk, M) && b in M && b < |g|
    ensures LiveIn(g, rk, b) == {}
    decreases rk[b]
  {
    assert g[b] == g[b];
    if !g[b].term.Ret? {
      NothingHandedOn(g, rk, M, g[b].jt);
      NothingHandedOn(g, rk, M, g[b].jf);
    }
  }
}
