/** or_pullup and and_pullup: a test of a value already at hand moves up a chain of tests that
    share one exit. */
module Pullup {
  import opened Bpf
  import opened Graph
  import opened Levels
  import opened Liveness
  import opened ValueNumbers
  import opened Renumbering
  import opened Dominators
  import opened Stateless
  import opened Crossing

  /** The exit the blocks of a chain share, and the way on to the next of them: for a chain
      of alternatives (or) the true branch and the false branch, for a chain of conditions
      the other way round. */
  function Exit(n: Node, or: bool): Id {
    if or then n.jt else n.jf
  }

  function Onward(n: Node, or: bool): Id {
    if or then n.jf else n.jt
  }

  function SetOnward(n: Node, or: bool, c: Id): Node {
    if or then n.(jf := c) else n.(jt := c)
  }

  /** ids are tests, each going onward to the next and the last to rest, all leaving for the
      same block otherwise. */
  ghost predicate Chain(g: Net, or: bool, ids: seq<Id>, out: Id, rest: Id)
    decreases |ids|
  {
    && |ids| > 0 && ids[0] < |g| && !g[ids[0]].term.Ret? && Exit(g[ids[0]], or) == out
    && if |ids| == 1 then Onward(g[ids[0]], or) == rest
       else Onward(g[ids[0]], or) == ids[1] && Chain(g, or, ids[1..], out, rest)
  }

  /** The tests of a chain; where they lead is left out. */
  function At(g: Net, x: Id): Node {
    if x < |g| then Node(g[x].stmts, g[x].term, 0, 0) else Node([], Ret(0), 0, 0)
  }

  function Nodes(g: Net, ids: seq<Id>): seq<Node> {
    seq(|ids|, i requires 0 <= i < |ids| => At(g, ids[i]))
  }

  lemma {:induction false} ChainTests(g: Net, or: bool, ids: seq<Id>, out: Id, rest: Id)
    requires Chain(g, or, ids, out, rest)
    ensures Tests(Nodes(g, ids))
    decreases |ids|
  {
    assert Nodes(g, ids)[1..] == Nodes(g, ids[1..]);
    if |ids| > 1 {
      ChainTests(g, or, ids[1..], out, rest);
    }
  }

  /** A run that enters a chain goes on behind it, out where a test has fired and past the last
      one where none has. */
  lemma {:induction false} ChainRun(g: Net, rk: Rank, or: bool, ids: seq<Id>, out: Id, rest: Id, st: State, p: Packet)
    requires Ranked(g, rk) && Chain(g, or, ids, out, rest) && Tests(Nodes(g, ids))
    ensures out < |g| && rest < |g|
    ensures var way := Through(Nodes(g, ids), or, st, p);
      Run(g, rk, ids[0], st, p) == Run(g, rk, if way.fired then out else rest, way.state, p)
    decreases |ids|
  {
    var c := ids[0];
    var after := ExecAll(g[c].stmts, st, p);
    assert g[c] == g[c] && Nodes(g, ids)[1..] == Nodes(g, ids[1..]);
    assert Run(g, rk, c, st, p) == Run(g, rk, Choose(g[c], after), after, p);
    if |ids| > 1 {
      ChainTests(g, or, ids[1..], out, rest);
      ChainRun(g, rk, or, ids[1..], out, rest, after, p);
    }
  }

  // ----- the only way into a chain -----

  lemma {:induction false} PathPasses(g: Net, rk: Rank, starts: set<Id>, s: seq<nat>, b: Id, x: Id)
    requires Ranked(g, rk) && b < |g| && Path(BlockStep(g), starts, s, x) && b in s
    ensures x in Reach(g, rk, b)
    decreases |s|
  {
    if x != b {
      var y := s[|s| - 2];
      assert s == s[..|s| - 1] + [x];
      PathPasses(g, rk, starts, s[..|s| - 1], b, y);
      ReachTransitive(g, rk, b, y);
      assert g[y] == g[y] && x in Reach(g, rk, y);
    }
  }

  /** What the head of a chain reaches and what leads to block c of the chain is the block
      before c. */
  lemma {:induction false} ChainEntry(g: Net, rk: Rank, or: bool, ids: seq<Id>, out: Id, rest: Id, x: Id, i: nat)
    requires Ranked(g, rk) && Chain(g, or, ids, out, rest) && 0 < i < |ids|
    requires x in Reach(g, rk, ids[0]) && x < |g| && BlockStep(g)(x, ids[i])
    ensures x == ids[i - 1]
    decreases |ids|
  {
    ChainRanks(g, rk, or, ids, out, rest, 0, i);
    assert g[x] == g[x] && g[ids[0]] == g[ids[0]];
    if x == ids[0] {
      if i > 1 {
        ChainRanks(g, rk, or, ids, out, rest, 1, i);
      }
    } else if x in Reach(g, rk, out) {
      ReachDescends(g, rk, out, x);
      assert false;
    } else {
      assert x in Reach(g, rk, ids[1]);
      if i == 1 {
        ReachDescends(g, rk, ids[1], x);
        assert false;
      } else {
        ChainEntry(g, rk, or, ids[1..], out, rest, x, i - 1);
      }
    }
  }

  /** Ranks fall along a chain, and its exits are below all of it. */
  lemma {:induction false} ChainRanks(g: Net, rk: Rank, or: bool, ids: seq<Id>, out: Id, rest: Id, i: nat, j: nat)
    requires Ranked(g, rk) && Chain(g, or, ids, out, rest) && i <= j < |ids|
    ensures forall k :: 0 <= k < |ids| ==> ids[k] < |g|
    ensures i < j ==> rk[ids[j]] < rk[ids[i]]
    ensures out < |g| && rest < |g| && rk[out] < rk[ids[j]] && rk[rest] < rk[ids[j]]
    decreases |ids|
  {
    assert g[ids[0]] == g[ids[0]];
    if |ids| > 1 {
      ChainRanks(g, rk, or, ids[1..], out, rest, if i == 0 then 0 else i - 1, if j == 0 then 0 else j - 1);
      forall k | 0 <= k < |ids| ensures ids[k] < |g| {
        assert k > 0 ==> ids[k] == ids[1..][k - 1];
      }
      if j > 0 {
        ChainRanks(g, rk, or, ids[1..], out, rest, 0, j - 1);
      }
    }
  }

  // ----- the move -----

  function Then(ids: seq<Id>, rest: Id, i: nat): Id {
    if i + 1 < |ids| then ids[i + 1] else rest
  }

  /** A chain, link by link. */
  ghost predicate Links(g: Net, or: bool, ids: seq<Id>, out: Id, rest: Id) {
    && |ids| > 0
    && forall i: nat {:trigger Then(ids, rest, i)} :: i < |ids| ==>
      ids[i] < |g| && !g[ids[i]].term.Ret? && Exit(g[ids[i]], or) == out && Onward(g[ids[i]], or) == Then(ids, rest, i)
  }

  lemma {:induction false} LinksChain(g: Net, or: bool, ids: seq<Id>, out: Id, rest: Id)
    requires Links(g, or, ids, out, rest)
    ensures Chain(g, or, ids, out, rest)
    decreases |ids|
  {
    var next := Then(ids, rest, 0);
    if |ids| > 1 {
      forall i: nat | i < |ids| - 1
        ensures ids[1..][i] < |g| && !g[ids[1..][i]].term.Ret? && Exit(g[ids[1..][i]], or) == out
        ensures Onward(g[ids[1..][i]], or) == Then(ids[1..], rest, i)
      {
        assert Then(ids, rest, i + 1) == Then(ids[1..], rest, i);
      }
      LinksChain(g, or, ids[1..], out, rest);
    }
  }

  lemma {:induction false} ChainLinks(g: Net, or: bool, ids: seq<Id>, out: Id, rest: Id)
    requires Chain(g, or, ids, out, rest)
    ensures Links(g, or, ids, out, rest)
    decreases |ids|
  {
    if |ids| > 1 {
      ChainLinks(g, or, ids[1..], out, rest);
      forall i: nat | i < |ids|
        ensures ids[i] < |g| && !g[ids[i]].term.Ret? && Exit(g[ids[i]], or) == out
        ensures Onward(g[ids[i]], or) == Then(ids, rest, i)
      {
        if i > 0 {
          assert ids[i] == ids[1..][i - 1] && Then(ids[1..], rest, i - 1) == Then(ids, rest, i);
        }
      }
    }
  }

  /** The last block of the chain moves to position k. */
  function Promoted(ids: seq<Id>, k: nat): seq<Id>
    requires k < |ids| - 1
  {
    ids[..k] + [ids[|ids| - 1]] + ids[k..|ids| - 1]
  }

  /** Where an arm that led to x leads afterwards. */
  function Redirected(ids: seq<Id>, k: nat, x: Id): Id
    requires k < |ids| - 1
  {
    if k == 0 && x == ids[0] then ids[|ids| - 1] else x
  }

  /** Block x after the move. */
  function MovedNode(g: Net, M: set<Id>, or: bool, ids: seq<Id>, k: nat, rest: Id, x: Id): Node
    requires k < |ids| - 1 && x < |g|
  {
    var m := |ids| - 1;
    if x == ids[m] then SetOnward(g[x], or, ids[k])
    else if x == ids[m - 1] then SetOnward(g[x], or, rest)
    else if k > 0 && x == ids[k - 1] then SetOnward(g[x], or, ids[m])
    else if x in M && !g[x].term.Ret? then g[x].(jt := Redirected(ids, k, g[x].jt), jf := Redirected(ids, k, g[x].jf))
    else g[x]
  }

  ghost predicate Moved(g: Net, g': Net, M: set<Id>, or: bool, ids: seq<Id>, k: nat, rest: Id)
    requires k < |ids| - 1
  {
    |g'| == |g| && forall x: Id {:trigger g'[x]} :: x < |g| ==> g'[x] == MovedNode(g, M, or, ids, k, rest, x)
  }

  /** What the passes found out about the graph at hand, and the chain they found. */
  ghost predicate Pullable(g: Net, rk: Rank, M: set<Id>, root: Id, or: bool, ids: seq<Id>, k: nat, out: Id, rest: Id) {
    && Ranked(g, rk) && root < |g| && root in M && Closed(g, M) && k < |ids| - 1 && Chain(g, or, ids, out, rest)
    && (forall i: nat :: i < |ids| ==> ids[i] in M && ids[i] < |g| && ids[i] != root)
    && forall x: Id, i: nat {:trigger BlockStep(g)(x, ids[i])} :: x in M && 0 < i < |ids| && BlockStep(g)(x, ids[i]) ==>
         x == ids[i - 1]
  }

  /** Ids along a chain differ. */
  lemma ChainDistinct(g: Net, rk: Rank, or: bool, ids: seq<Id>, out: Id, rest: Id)
    requires Ranked(g, rk) && Chain(g, or, ids, out, rest)
    ensures out < |g| && rest < |g| && forall i :: 0 <= i < |ids| ==> ids[i] < |g|
    ensures forall i :: 0 <= i < |ids| ==> rk[out] < rk[ids[i]] && rk[rest] < rk[ids[i]]
    ensures forall i, j :: 0 <= i < j < |ids| ==> ids[i] != ids[j] && rk[ids[j]] < rk[ids[i]]
  {
    ChainRanks(g, rk, or, ids, out, rest, 0, 0);
    forall i, j | 0 <= i <= j < |ids|
      ensures i < j ==> ids[i] != ids[j] && rk[ids[j]] < rk[ids[i]]
      ensures rk[out] < rk[ids[j]] && rk[rest] < rk[ids[j]]
    {
      ChainRanks(g, rk, or, ids, out, rest, i, j);
    }
  }

  lemma PromotedChain(g: Net, g': Net, rk: Rank, M: set<Id>, root: Id, or: bool, ids: seq<Id>, k: nat, out: Id,
                      rest: Id)
    requires Pullable(g, rk, M, root, or, ids, k, out, rest) && Moved(g, g', M, or, ids, k, rest)
    ensures Chain(g', or, Promoted(ids, k), out, rest)
  {
    ChainDistinct(g, rk, or, ids, out, rest);
    ChainLinks(g, or, ids, out, rest);
    var m, ids' := |ids| - 1, Promoted(ids, k);
    forall i: nat | i < |ids'|
      ensures ids'[i] < |g'| && !g'[ids'[i]].term.Ret? && Exit(g'[ids'[i]], or) == out
      ensures Onward(g'[ids'[i]], or) == Then(ids', rest, i)
    {
      var j := if i < k then i else if i == k then m else i - 1;
      assert ids'[i] == ids[j];
      var next := Then(ids, rest, j);
      assert out != ids[0];
    }
    LinksChain(g', or, ids', out, rest);
  }

  /** The pulled block ranks just above the one it is put before; unreachable blocks rank
      above all others. */
  function PullRank(rk: Rank, M: set<Id>, root: Id, pull: Id, diff: Id): Rank
    requires root < |rk| && diff < |rk|
  {
    seq(|rk|, x requires 0 <= x < |rk| =>
      (if x in M then 0 else 2 * rk[root] + 2) + if x == pull then 2 * rk[diff] + 1 else 2 * rk[x])
  }

  function Arm(n: Node, sense: bool): Id {
    if sense then n.jt else n.jf
  }

  /** The arms of the three blocks of the chain that change. */
  lemma MovedLink(g: Net, rk: Rank, M: set<Id>, root: Id, or: bool, ids: seq<Id>, k: nat, out: Id, rest: Id, i: nat,
                  sense: bool)
    requires Pullable(g, rk, M, root, or, ids, k, out, rest)
    requires i == |ids| - 1 || i == |ids| - 2 || i + 1 == k
    ensures ids[i] < |g| && !g[ids[i]].term.Ret? && ids[|ids| - 1] < |g| && ids[k] < |g|
    ensures var arm, rk' := Arm(MovedNode(g, M, or, ids, k, rest, ids[i]), sense),
      PullRank(rk, M, root, ids[|ids| - 1], ids[k]);
      arm < |g| && rk'[arm] < rk'[ids[i]] && arm in M
  {
    ChainDistinct(g, rk, or, ids, out, rest);
    ChainLinks(g, or, ids, out, rest);
    var last, link := Then(ids, rest, |ids| - 1), Then(ids, rest, i);
    assert g[ids[i]] == g[ids[i]] && g[ids[|ids| - 1]] == g[ids[|ids| - 1]];
  }

  /** The arms of the other blocks. */
  lemma MovedOther(g: Net, rk: Rank, M: set<Id>, root: Id, or: bool, ids: seq<Id>, k: nat, out: Id, rest: Id, x: Id,
                   sense: bool)
    requires Pullable(g, rk, M, root, or, ids, k, out, rest) && x < |g| && !g[x].term.Ret?
    requires x != ids[|ids| - 1] && x != ids[|ids| - 2] && (k > 0 ==> x != ids[k - 1])
    requires forall y: Id :: y < |g| && y in M ==> rk[y] <= rk[root]
    ensures ids[|ids| - 1] < |g| && ids[k] < |g|
    ensures var arm, rk' := Arm(MovedNode(g, M, or, ids, k, rest, x), sense),
      PullRank(rk, M, root, ids[|ids| - 1], ids[k]);
      arm < |g| && rk'[arm] < rk'[x] && (x in M ==> arm in M)
  {
    var m := |ids| - 1;
    var arm := Arm(g[x], sense);
    assert arm < |g| && rk[arm] < rk[x] && (x in M ==> arm in M) && BlockStep(g)(x, arm);
    assert x in M ==> arm != ids[m];
    assert rk[ids[0]] <= rk[root] && rk[ids[k]] <= rk[root];
  }

  lemma MovedArm(g: Net, rk: Rank, M: set<Id>, root: Id, or: bool, ids: seq<Id>, k: nat, out: Id, rest: Id, x: Id,
                 sense: bool)
    requires Pullable(g, rk, M, root, or, ids, k, out, rest) && x < |g| && !g[x].term.Ret?
    requires forall y: Id :: y < |g| && y in M ==> rk[y] <= rk[root]
    ensures ids[|ids| - 1] < |g| && ids[k] < |g|
    ensures var arm, rk' := Arm(MovedNode(g, M, or, ids, k, rest, x), sense),
      PullRank(rk, M, root, ids[|ids| - 1], ids[k]);
      arm < |g| && rk'[arm] < rk'[x] && (x in M ==> arm in M)
  {
    if x == ids[|ids| - 1] {
      MovedLink(g, rk, M, root, or, ids, k, out, rest, |ids| - 1, sense);
    } else if x == ids[|ids| - 2] {
      MovedLink(g, rk, M, root, or, ids, k, out, rest, |ids| - 2, sense);
    } else if k > 0 && x == ids[k - 1] {
      MovedLink(g, rk, M, root, or, ids, k, out, rest, k - 1, sense);
    } else {
      MovedOther(g, rk, M, root, or, ids, k, out, rest, x, sense);
    }
  }

  /** The graph stays acyclic. */
  lemma MovedRanked(g: Net, g': Net, rk: Rank, M: set<Id>, root: Id, or: bool, ids: seq<Id>, k: nat, out: Id, rest: Id)
    requires Pullable(g, rk, M, root, or, ids, k, out, rest) && Moved(g, g', M, or, ids, k, rest)
    requires forall x: Id :: x < |g| && x in M ==> rk[x] <= rk[root]
    ensures ids[|ids| - 1] < |g| && ids[k] < |g|
    ensures Ranked(g', PullRank(rk, M, root, ids[|ids| - 1], ids[k]))
    ensures Closed(g', M)
  {
    ChainDistinct(g, rk, or, ids, out, rest);
    var rk' := PullRank(rk, M, root, ids[|ids| - 1], ids[k]);
    forall x: Id | x < |g'| && !g'[x].term.Ret?
      ensures g'[x].jt < |g| && rk'[g'[x].jt] < rk'[x] && g'[x].jf < |g| && rk'[g'[x].jf] < rk'[x]
      ensures x in M ==> g'[x].jt in M && g'[x].jf in M
    {
      MovedArm(g, rk, M, root, or, ids, k, out, rest, x, true);
      MovedArm(g, rk, M, root, or, ids, k, out, rest, x, false);
    }
  }

  lemma OutsideStays(g: Net, rk: Rank, M: set<Id>, root: Id, or: bool, ids: seq<Id>, k: nat, out: Id, rest: Id, x: Id,
                     y: Id)
    requires Pullable(g, rk, M, root, or, ids, k, out, rest) && x in M && BlockStep(g)(x, y)
    ensures y in ids[1..] ==> x in ids
  {
    if y in ids[1..] {
      var i :| 0 < i < |ids| && ids[i] == y;
      assert BlockStep(g)(x, ids[i]);
      assert x == ids[i - 1];
    }
  }

  /** No data flow between the test that moves and the ones it moves in front of, nor from there
      to what is read behind the chain. */
  ghost predicate Independent(g: Net, rk: Rank, ids: seq<Id>, k: nat, out: Id, rest: Id)
    requires Ranked(g, rk)
  {
    && k < |ids| - 1 && out < |g| && rest < |g|
    && var ns, pull := Nodes(g, ids[k..|ids| - 1]), At(g, ids[|ids| - 1]);
       Apart(ns, pull) && Unseen(ns, pull, LiveIn(g, rk, out), LiveIn(g, rk, rest))
  }

  /** The tests in the order of the moved chain. */
  lemma PromotedNodes(g: Net, g': Net, M: set<Id>, or: bool, ids: seq<Id>, k: nat, rest: Id)
    requires k < |ids| - 1 && Moved(g, g', M, or, ids, k, rest)
    ensures var ms, ns, pull := Nodes(g, ids[..k]), Nodes(g, ids[k..|ids| - 1]), At(g, ids[|ids| - 1]);
      Nodes(g, ids) == ms + (ns + [pull]) && Nodes(g', Promoted(ids, k)) == ms + ([pull] + ns)
  {
    var ids' := Promoted(ids, k);
    forall x: Id | x < |g| ensures At(g', x) == At(g, x) {
      assert g'[x] == g'[x];
    }
    assert Nodes(g', ids') == Nodes(g, ids');
  }

  /** Before and after the move a run leaves the chain for the same block, in states that do not
      differ where it matters there. */
  lemma PulledThrough(g: Net, g': Net, rk: Rank, M: set<Id>, root: Id, or: bool, ids: seq<Id>, k: nat, out: Id,
                      rest: Id, st: State, p: Packet)
    requires Pullable(g, rk, M, root, or, ids, k, out, rest) && Moved(g, g', M, or, ids, k, rest)
    requires Independent(g, rk, ids, k, out, rest)
    requires Tests(Nodes(g, ids)) && Tests(Nodes(g', Promoted(ids, k)))
    ensures Alike(Through(Nodes(g, ids), or, st, p), Through(Nodes(g', Promoted(ids, k)), or, st, p),
                  LiveIn(g, rk, out), LiveIn(g, rk, rest))
  {
    var ms, ns, pull := Nodes(g, ids[..k]), Nodes(g, ids[k..|ids| - 1]), At(g, ids[|ids| - 1]);
    PromotedNodes(g, g', M, or, ids, k, rest);
    TestsAppend(ms, ns + [pull]);
    TestsAppend(ms, [pull] + ns);
    TestsAppend(ns, [pull]);
    ThroughAppend(ms, ns + [pull], or, st, p);
    ThroughAppend(ms, [pull] + ns, or, st, p);
    var way := Through(ms, or, st, p);
    if !way.fired {
      Crosses(ns, pull, or, LiveIn(g, rk, out), LiveIn(g, rk, rest), way.state, p);
    }
  }

  /** Where a run goes from the head of the chain, before and after the move. */
  lemma ThroughChain(g: Net, g': Net, rk: Rank, rk': Rank, M: set<Id>, root: Id, or: bool, ids: seq<Id>, k: nat,
                     out: Id, rest: Id, st: State, p: Packet) returns (next: Id, st': State)
    requires Pullable(g, rk, M, root, or, ids, k, out, rest) && Moved(g, g', M, or, ids, k, rest)
    requires Independent(g, rk, ids, k, out, rest) && Ranked(g', rk')
    ensures next < |g| && next in M && next !in ids && ids[0] < |g| && rk[next] < rk[ids[0]]
    ensures Promoted(ids, k)[0] < |g'|
    ensures Run(g, rk, ids[0], st, p) == Run(g, rk, next, st', p)
    ensures Run(g', rk', Promoted(ids, k)[0], st, p) == Run(g', rk', next, st', p)
  {
    var ids', last := Promoted(ids, k), |ids| - 1;
    PromotedChain(g, g', rk, M, root, or, ids, k, out, rest);
    ChainDistinct(g, rk, or, ids, out, rest);
    ChainTests(g, or, ids, out, rest);
    ChainTests(g', or, ids', out, rest);
    ChainRun(g, rk, or, ids, out, rest, st, p);
    ChainRun(g', rk', or, ids', out, rest, st, p);
    PulledThrough(g, g', rk, M, root, or, ids, k, out, rest, st, p);
    ChainExits(g, or, ids, out, rest);
    assert g[ids[0]] == g[ids[0]] && g[ids[last]] == g[ids[last]];
    var way, way' := Through(Nodes(g, ids), or, st, p), Through(Nodes(g', ids'), or, st, p);
    next, st' := if way.fired then out else rest, way'.state;
    LiveSound(g, rk, next, way.state, st', p);
  }

  lemma {:induction false} ChainExits(g: Net, or: bool, ids: seq<Id>, out: Id, rest: Id)
    requires Chain(g, or, ids, out, rest)
    ensures ids[0] < |g| && !g[ids[0]].term.Ret? && Exit(g[ids[0]], or) == out
    ensures var last := ids[|ids| - 1]; last < |g| && !g[last].term.Ret? && Onward(g[last], or) == rest
    decreases |ids|
  {
    if |ids| > 1 {
      ChainExits(g, or, ids[1..], out, rest);
    }
  }

  /** From every block before the chain, and from its head unless the pulled block now comes
      first, the verdict is what it was, in every state. */
  lemma {:induction false} MovedKeepsVerdict(g: Net, g': Net, rk: Rank, rk': Rank, M: set<Id>, root: Id, or: bool,
                                             ids: seq<Id>, k: nat, out: Id, rest: Id, x: Id, st: State, p: Packet)
    requires Pullable(g, rk, M, root, or, ids, k, out, rest) && Moved(g, g', M, or, ids, k, rest)
    requires Independent(g, rk, ids, k, out, rest) && Ranked(g', rk')
    requires x in M && x < |g| && x !in ids[1..] && (k == 0 ==> x != ids[0])
    ensures Run(g', rk', x, st, p) == Run(g, rk, x, st, p)
    decreases rk[x]
  {
    assert g'[x].term == g[x].term && g'[x].stmts == g[x].stmts;
    if x == ids[0] {
      var next, st' := ThroughChain(g, g', rk, rk', M, root, or, ids, k, out, rest, st, p);
      MovedKeepsVerdict(g, g', rk, rk', M, root, or, ids, k, out, rest, next, st', p);
    } else if !g[x].term.Ret? {
      var after := ExecAll(g[x].stmts, st, p);
      var y := OutsideNext(g, g', rk, rk', M, root, or, ids, k, out, rest, x, st, p);
      if k == 0 && y == ids[0] {
        var next, st' := ThroughChain(g, g', rk, rk', M, root, or, ids, k, out, rest, after, p);
        MovedKeepsVerdict(g, g', rk, rk', M, root, or, ids, k, out, rest, next, st', p);
      } else {
        MovedKeepsVerdict(g, g', rk, rk', M, root, or, ids, k, out, rest, y, after, p);
      }
    }
  }

  /** Where a run outside the chain goes, before and after the move. */
  lemma OutsideNext(g: Net, g': Net, rk: Rank, rk': Rank, M: set<Id>, root: Id, or: bool, ids: seq<Id>, k: nat, out: Id,
                    rest: Id, x: Id, st: State, p: Packet) returns (y: Id)
    requires Pullable(g, rk, M, root, or, ids, k, out, rest) && Moved(g, g', M, or, ids, k, rest)
    requires Ranked(g', rk') && x in M && x < |g| && x !in ids && !g[x].term.Ret?
    ensures var y' := if k == 0 && y == ids[0] then Promoted(ids, k)[0] else y;
      && y < |g| && y in M && y !in ids[1..] && rk[y] < rk[x] && y' < |g'|
      && var after := ExecAll(g[x].stmts, st, p);
         && Run(g, rk, x, st, p) == Run(g, rk, y, after, p)
         && Run(g', rk', x, st, p) == Run(g', rk', y', after, p)
  {
    y := Choose(g[x], ExecAll(g[x].stmts, st, p));
    assert g[x] == g[x] && g'[x] == MovedNode(g, M, or, ids, k, rest, x);
    OutsideStays(g, rk, M, root, or, ids, k, out, rest, x, y);
  }

  /** Where every block defines what it reads there is no data flow at all. */
  lemma StatelessIndependent(g: Net, rk: Rank, M: set<Id>, ids: seq<Id>, k: nat, out: Id, rest: Id)
    requires Ranked(g, rk) && AllStateFree(g, M) && Closed(g, M) && k < |ids| - 1
    requires out in M && out < |g| && rest in M && rest < |g|
    requires forall i: nat :: i < |ids| ==> ids[i] in M && ids[i] < |g|
    ensures Independent(g, rk, ids, k, out, rest)
  {
    NothingLive(g, rk, M, out);
    NothingLive(g, rk, M, rest);
    forall i: nat | i < |ids| ensures LocalUd(At(g, ids[i])).use == {} {
      assert StateFree(g[ids[i]]);
    }
  }

  // ----- the walk -----

  /** ids is the part of the chain from b walked so far, next the block after it. */
  ghost predicate Walked(g: Net, M: set<Id>, doms: seq<set<Id>>, or: bool, b: Id, ids: seq<Id>, next: Id)
    requires b < |g| == |doms|
  {
    && (if ids == [] then next == b else ids[0] == b && Links(g, or, ids, Exit(g[b], or), next))
    && forall i: nat {:trigger ids[i]} :: i < |ids| ==>
      ids[i] in M && ids[i] < |g| && b in doms[ids[i]]
  }

  lemma WalkedNext(g: Net, M: set<Id>, doms: seq<set<Id>>, or: bool, b: Id, ids: seq<Id>, next: Id)
    requires b < |g| == |doms| && Walked(g, M, doms, or, b, ids, next) && next in M && next < |g| && !g[next].term.Ret?
    requires Exit(g[next], or) == Exit(g[b], or) && b in doms[next]
    ensures Walked(g, M, doms, or, b, ids + [next], Onward(g[next], or))
  {
    var ids', rest := ids + [next], Onward(g[next], or);
    forall i: nat | i < |ids'|
      ensures ids'[i] < |g| && !g[ids'[i]].term.Ret? && Exit(g[ids'[i]], or) == Exit(g[b], or)
      ensures Onward(g[ids'[i]], or) == Then(ids', rest, i)
    {
      if i < |ids| {
        var link := Then(ids, next, i);
        assert ids'[i] == ids[i];
      }
    }
  }

  /** The chain from b does not go on to c. */
  ghost predicate Stops(g: Net, doms: seq<set<Id>>, or: bool, b: Id, c: Id)
    requires b < |g| == |doms|
  {
    c < |g| ==> g[c].term.Ret? || Exit(g[c], or) != Exit(g[b], or) || b !in doms[c]
  }

  /** All edges come from blocks that end with the number v in the accumulator. */
  ghost predicate Common(val: seq<Numbers>, edges: seq<nat>, v: nat) {
    edges != [] && forall i: nat {:trigger edges[i]} :: i < |edges| ==>
      Pred(|val|, edges[i]) < |val| && val[Pred(|val|, edges[i])][A_ATOM] == v
  }

  lemma CommonOnce(val: seq<Numbers>, edges: seq<nat>, v: nat, w: nat)
    requires Common(val, edges, v)
    ensures Common(val, edges, w) ==> w == v
  {
    assert val[Pred(|val|, edges[0])][A_ATOM] == v;
  }

  /** A place for a pull-up: on the way to b the accumulator has the number v; the first k blocks
      of the chain from b and its last one have it too, the ones between, of which there are
      some, do not. */
  ghost predicate Site(g: Net, M: set<Id>, doms: seq<set<Id>>, val: seq<Numbers>, edges: seq<nat>, or: bool, b: Id,
                       v: nat, ids: seq<Id>, k: nat)
    requires b < |g| == |doms|
  {
    && |val| == |g| && Common(val, edges, v) && k < |ids| - 1 && ids[|ids| - 1] < |g|
    && Walked(g, M, doms, or, b, ids, Onward(g[ids[|ids| - 1]], or))
    && Marks(val, ids, v, k, |ids|) && val[ids[|ids| - 1]][A_ATOM] == v
  }

  /** Up to hi, the blocks before k end with the number v in the accumulator, and after those,
      except the last of ids, none does. */
  ghost predicate Marks(val: seq<Numbers>, ids: seq<Id>, v: nat, k: nat, hi: nat) {
    forall i: nat {:trigger ids[i]} :: i < hi && i < |ids| ==>
      ids[i] < |val| && (val[ids[i]][A_ATOM] == v <==> (i < k || i == hi - 1))
  }

  /** A test has moved to block b if there was a place for it, and nothing otherwise. */
  ghost predicate PulledAt(g: Net, net: Net, M: set<Id>, doms: seq<set<Id>>, val: seq<Numbers>, edges: seq<nat>,
                           or: bool, b: Id)
    requires b < |g| == |doms|
  {
    && (forall v: nat, ids: seq<Id>, k: nat :: Site(g, M, doms, val, edges, or, b, v, ids, k) ==>
         Moved(g, net, M, or, ids, k, Onward(g[ids[|ids| - 1]], or)))
    && ((forall v: nat, ids: seq<Id>, k: nat :: !Site(g, M, doms, val, edges, or, b, v, ids, k)) ==> net == g)
  }

  lemma SitePulled(g: Net, net: Net, M: set<Id>, doms: seq<set<Id>>, val: seq<Numbers>, edges: seq<nat>, or: bool,
                   b: Id, v: nat, ids: seq<Id>, k: nat)
    requires b < |g| == |doms| && Site(g, M, doms, val, edges, or, b, v, ids, k)
    requires Moved(g, net, M, or, ids, k, Onward(g[ids[|ids| - 1]], or))
    ensures PulledAt(g, net, M, doms, val, edges, or, b)
  {
    forall v': nat, ids': seq<Id>, k': nat | Site(g, M, doms, val, edges, or, b, v', ids', k')
      ensures ids' == ids && k' == k
    {
      OneSite(g, M, doms, val, edges, or, b, v, ids, k, v', ids', k');
    }
  }

  /** Wherever there is a place for a pull-up, the test that moves is independent of the others. */
  ghost predicate SitesIndependent(g: Net, rk: Rank, M: set<Id>, doms: seq<set<Id>>, val: seq<Numbers>,
                                   edges: seq<nat>, or: bool, b: Id)
    requires Ranked(g, rk) && b < |g| == |doms|
  {
    forall v: nat, ids: seq<Id>, k: nat :: Site(g, M, doms, val, edges, or, b, v, ids, k) ==>
      Independent(g, rk, ids, k, Exit(g[b], or), Onward(g[ids[|ids| - 1]], or))
  }

  /** There is one way to walk. */
  lemma {:induction false} OneWalk(g: Net, M: set<Id>, doms: seq<set<Id>>, or: bool, b: Id, s: seq<Id>, next: Id,
                                   t: seq<Id>, next': Id, i: nat)
    requires b < |g| == |doms| && Walked(g, M, doms, or, b, s, next) && Walked(g, M, doms, or, b, t, next')
    requires i <= |s| && i < |t|
    ensures t[i] == (if i < |s| then s[i] else next) && t[i] < |g| && !Stops(g, doms, or, b, t[i])
    decreases i
  {
    var link := Then(t, next', i);
    if i > 0 {
      OneWalk(g, M, doms, or, b, s, next, t, next', i - 1);
      var sThen, tThen := Then(s, next, i - 1), Then(t, next', i - 1);
    }
  }

  /** Where the first walk ends without a block of another number, no pull-up applies. */
  lemma NothingDiffers(g: Net, M: set<Id>, doms: seq<set<Id>>, val: seq<Numbers>, edges: seq<nat>, or: bool, b: Id,
                       v: nat, ids: seq<Id>, c: Id, ids': seq<Id>, k: nat)
    requires b < |g| == |doms| && |val| == |g| && Walked(g, M, doms, or, b, ids, c) && Stops(g, doms, or, b, c)
    requires forall i: nat {:trigger ids[i]} :: i < |ids| ==> ids[i] < |g| && val[ids[i]][A_ATOM] == v
    ensures !Site(g, M, doms, val, edges, or, b, v, ids', k)
  {
    if Site(g, M, doms, val, edges, or, b, v, ids', k) {
      var next := Onward(g[ids'[|ids'| - 1]], or);
      if |ids'| <= |ids| {
        OneWalk(g, M, doms, or, b, ids, c, ids', next, k);
      } else {
        OneWalk(g, M, doms, or, b, ids, c, ids', next, |ids|);
      }
    }
  }

  /** Neither does it where the second one ends without a block of the same number. */
  lemma NothingSame(g: Net, M: set<Id>, doms: seq<set<Id>>, val: seq<Numbers>, edges: seq<nat>, or: bool, b: Id, v: nat,
                    ids: seq<Id>, k: nat, c: Id, ids': seq<Id>, k': nat)
    requires b < |g| == |doms| && |val| == |g| && Walked(g, M, doms, or, b, ids, c) && Stops(g, doms, or, b, c)
    requires k < |ids|
    requires forall i: nat {:trigger ids[i]} :: i < |ids| ==> ids[i] < |g| && (val[ids[i]][A_ATOM] == v <==> i < k)
    ensures !Site(g, M, doms, val, edges, or, b, v, ids', k')
  {
    if Site(g, M, doms, val, edges, or, b, v, ids', k') {
      var next := Onward(g[ids'[|ids'| - 1]], or);
      if |ids'| <= |ids| {
        OneWalk(g, M, doms, or, b, ids, c, ids', next, |ids'| - 1);
        OneWalk(g, M, doms, or, b, ids, c, ids', next, k');
      } else {
        OneWalk(g, M, doms, or, b, ids, c, ids', next, |ids|);
      }
    }
  }

  lemma SiteNotLonger(g: Net, M: set<Id>, doms: seq<set<Id>>, val: seq<Numbers>, edges: seq<nat>, or: bool, b: Id,
                      v: nat, s: seq<Id>, k: nat, v': nat, t: seq<Id>, k': nat)
    requires b < |g| == |doms| && Site(g, M, doms, val, edges, or, b, v, s, k)
    requires Site(g, M, doms, val, edges, or, b, v', t, k')
    ensures v' == v && |t| <= |s|
  {
    assert val[Pred(|val|, edges[0])][A_ATOM] == v;
    if |t| > |s| {
      OneWalk(g, M, doms, or, b, s, Onward(g[s[|s| - 1]], or), t, Onward(g[t[|t| - 1]], or), |s| - 1);
      OneWalk(g, M, doms, or, b, s, Onward(g[s[|s| - 1]], or), t, Onward(g[t[|t| - 1]], or), k);
    }
  }

  /** There is one place at most. */
  lemma OneSite(g: Net, M: set<Id>, doms: seq<set<Id>>, val: seq<Numbers>, edges: seq<nat>, or: bool, b: Id, v: nat,
                s: seq<Id>, k: nat, v': nat, t: seq<Id>, k': nat)
    requires b < |g| == |doms| && Site(g, M, doms, val, edges, or, b, v, s, k)
    requires Site(g, M, doms, val, edges, or, b, v', t, k')
    ensures v' == v && t == s && k' == k
  {
    SiteNotLonger(g, M, doms, val, edges, or, b, v, s, k, v', t, k');
    SiteNotLonger(g, M, doms, val, edges, or, b, v', t, k', v, s, k);
    forall i | 0 <= i < |s| ensures t[i] == s[i] {
      OneWalk(g, M, doms, or, b, s, Onward(g[s[|s| - 1]], or), t, Onward(g[t[|t| - 1]], or), i);
    }
    assert t[k] == s[k] && t[k'] == s[k'];
  }

  /** M is like what root reaches: closed, and with root on top. */
  ghost predicate Rooted(g: Net, rk: Rank, root: Id, M: set<Id>) {
    && Ranked(g, rk) && root < |g| && root in M && Closed(g, M)
    && forall x: Id {:trigger rk[x]} :: x < |g| && x in M ==> rk[x] <= rk[root]
  }

  lemma ReachRooted(g: Net, rk: Rank, root: Id)
    requires Ranked(g, rk) && root < |g|
    ensures Rooted(g, rk, root, Reach(g, rk, root))
  {
    forall c: Id | c in Reach(g, rk, root)
      ensures rk[c] <= rk[root]
      ensures !g[c].term.Ret? ==> g[c].jt in Reach(g, rk, root) && g[c].jf in Reach(g, rk, root)
    {
      ReachDescends(g, rk, root, c);
      ReachTransitive(g, rk, root, c);
      if !g[c].term.Ret? {
        assert g[c].jt in Reach(g, rk, c) && g[c].jf in Reach(g, rk, c);
      }
    }
  }

  /** doms are the sets of find_dom. */
  ghost predicate DomsRight(g: Net, root: Id, M: set<Id>, doms: seq<set<Id>>) {
    && |doms| == |g|
    && forall c: Id {:trigger doms[c]} :: c < |g| && c in M ==> doms[c] == DomSet(BlockStep(g), {root}, |g|, c)
  }

  /** What leads to a block is reached from the others in its set. */
  ghost predicate Headed(g: Net, rk: Rank, M: set<Id>, doms: seq<set<Id>>)
    requires Ranked(g, rk)
  {
    && |doms| == |g|
    && forall b: Id, x: Id, c: Id {:trigger BlockStep(g)(x, c), b in doms[c]} ::
         b < |g| && x in M && c < |g| && c in M && c != b && BlockStep(g)(x, c) && b in doms[c] ==> x in Reach(g, rk, b)
  }

  lemma WalkedPullable(g: Net, rk: Rank, M: set<Id>, root: Id, doms: seq<set<Id>>, or: bool, b: Id, ids: seq<Id>,
                       k: nat, rest: Id)
    requires Rooted(g, rk, root, M) && Headed(g, rk, M, doms) && b < |g| && b != root
    requires Walked(g, M, doms, or, b, ids, rest) && k < |ids| - 1
    ensures Pullable(g, rk, M, root, or, ids, k, Exit(g[b], or), rest)
  {
    var out := Exit(g[b], or);
    LinksChain(g, or, ids, out, rest);
    ChainDistinct(g, rk, or, ids, out, rest);
    forall i: nat | i < |ids| ensures ids[i] in M && ids[i] < |g| && ids[i] != root {
      assert ids[0] in M && rk[ids[0]] <= rk[root];
      assert i > 0 ==> rk[ids[i]] < rk[ids[0]];
    }
    forall x: Id, i: nat | x in M && 0 < i < |ids| && BlockStep(g)(x, ids[i]) ensures x == ids[i - 1] {
      assert ids[i] != ids[0];
      assert b in doms[ids[i]] && BlockStep(g)(x, ids[i]);
      ChainEntry(g, rk, or, ids, out, rest, x, i);
    }
  }

  /** Whatever leads to a block that b dominates is reached from b. */
  lemma DominatedEntry(g: Net, rk: Rank, root: Id, doms: seq<set<Id>>, b: Id, x: Id, c: Id)
    requires Ranked(g, rk) && root < |g| && DomsRight(g, root, Reach(g, rk, root), doms)
    requires b < |g| && x in Reach(g, rk, root) && BlockStep(g)(x, c) && c != b
    requires c < |g| && c in Reach(g, rk, root) && b in doms[c]
    ensures x in Reach(g, rk, b)
  {
    ReachIsPaths(g, rk, root, x);
    var s :| Path(BlockStep(g), {root}, s, x);
    PathExtend(BlockStep(g), {root}, s, x, c);
    assert b in s + [c];
    PathPasses(g, rk, {root}, s, b, x);
  }

  lemma DomsHeaded(g: Net, rk: Rank, root: Id, doms: seq<set<Id>>)
    requires Ranked(g, rk) && root < |g| && DomsRight(g, root, Reach(g, rk, root), doms)
    ensures Headed(g, rk, Reach(g, rk, root), doms)
  {
    var M := Reach(g, rk, root);
    forall b: Id, x: Id, c: Id
      | b < |g| && x in M && c < |g| && c in M && c != b && BlockStep(g)(x, c) && b in doms[c]
      ensures x in Reach(g, rk, b)
    {
      DominatedEntry(g, rk, root, doms, b, x, c);
    }
  }

  // ----- redirecting the edges into the head of the chain -----

  function Count(n: nat, edges: seq<nat>, x: Id): nat {
    (if x in edges then 1 else 0) + if n + x in edges then 1 else 0
  }

  /** A block after c of its edges to b have been redirected to pull, the true edge first. */
  function Partly(n: Node, b: Id, pull: Id, c: nat): Node {
    if c == 0 || n.term.Ret? then n
    else if n.jt == b then (if c > 1 && n.jf == b then n.(jt := pull, jf := pull) else n.(jt := pull))
    else if n.jf == b then n.(jf := pull)
    else n
  }

  /** The loop over the in-edges of b. */
  method RedirectInto(net: array<Node>, edges: seq<nat>, b: Id, pull: Id)
    requires NoRepeats(edges) && pull != b
    requires forall e :: e in edges ==>
      e < 2 * net.Length && !net[Pred(net.Length, e)].term.Ret? && Succ(net[..], e) == b
    modifies net
    ensures forall x :: 0 <= x < net.Length ==> net[x] == Partly(old(net[x]), b, pull, Count(net.Length, edges, x))
  {
    var n := net.Length;
    for j := 0 to |edges|
      invariant forall x :: 0 <= x < n ==> net[x] == Partly(old(net[x]), b, pull, Count(n, edges[..j], x))
    {
      var e := edges[j];
      assert e in edges;
      var q := Pred(n, e);
      ghost var c := Count(n, edges[..j], q);
      if net[q].jt == b {
        net[q] := net[q].(jt := pull);
      } else {
        net[q] := net[q].(jf := pull);
      }
    }
    assert edges[..|edges|] == edges;
  }

  /** The graph once the last block of the chain has been taken out and points to block k. */
  function Unhooked(g: Net, or: bool, ids: seq<Id>, k: nat, rest: Id): Net
    requires k < |ids| - 1 && ids[|ids| - 1] < |g| && ids[|ids| - 2] < |g|
  {
    var g' := g[ids[|ids| - 2] := SetOnward(g[ids[|ids| - 2]], or, rest)];
    g'[ids[|ids| - 1] := SetOnward(g'[ids[|ids| - 1]], or, ids[k])]
  }

  lemma MovedInside(g: Net, rk: Rank, M: set<Id>, root: Id, or: bool, ids: seq<Id>, k: nat, out: Id, rest: Id, g': Net)
    requires Pullable(g, rk, M, root, or, ids, k, out, rest) && k > 0
    requires ids[|ids| - 1] < |g| && ids[|ids| - 2] < |g| && ids[k - 1] < |g|
    requires var mid := Unhooked(g, or, ids, k, rest);
      g' == mid[ids[k - 1] := SetOnward(mid[ids[k - 1]], or, ids[|ids| - 1])]
    ensures Moved(g, g', M, or, ids, k, rest)
  {
    ChainDistinct(g, rk, or, ids, out, rest);
  }

  lemma MovedFirst(g: Net, M: set<Id>, or: bool, ids: seq<Id>, rest: Id, ins: seq<seq<nat>>, g': Net)
    requires Inward(g, M, ins) && |g'| == |g| && |ids| > 1 && ids[0] < |g|
    requires var m := |ids| - 1; ids[m] < |g| && ids[m - 1] < |g| && ids[m] != ids[m - 1]
    requires Count(|g|, ins[ids[0]], ids[|ids| - 1]) == 0 && Count(|g|, ins[ids[0]], ids[|ids| - 2]) == 0
    requires forall x: Id :: x < |g| ==>
      g'[x] == Partly(Unhooked(g, or, ids, 0, rest)[x], ids[0], ids[|ids| - 1], Count(|g|, ins[ids[0]], x))
    ensures Moved(g, g', M, or, ids, 0, rest)
  {
    var m, mid := |ids| - 1, Unhooked(g, or, ids, 0, rest);
    forall x: Id | x < |g'| ensures g'[x] == MovedNode(g, M, or, ids, 0, rest, x) {
      assert g'[x] == Partly(mid[x], ids[0], ids[m], Count(|g|, ins[ids[0]], x));
      if x != ids[m] && x != ids[m - 1] {
        assert mid[x] == g[x];
      }
    }
  }

  class Puller {
    const net: array<Node>
    const val: array<Numbers>
    const ins: array<seq<nat>>
    const dom: array<set<Id>>

    constructor (net: array<Node>, val: array<Numbers>, ins: array<seq<nat>>, dom: array<set<Id>>)
      ensures this.net == net && this.val == val && this.ins == ins && this.dom == dom
    {
      this.net, this.val, this.ins, this.dom := net, val, ins, dom;
    }

    /** The sets are those of the graph at hand. */
    ghost predicate Analysed(g: Net, rk: Rank, root: Id, M: set<Id>)
      reads this, net, ins, dom
    {
      && Rooted(g, rk, root, M) && net[..] == g && val.Length == ins.Length == dom.Length == |g|
      && Inward(g, M, ins[..]) && Headed(g, rk, M, dom[..])
    }

    /** Walk the chain from next for as long as the accumulator's number there is v or, with
        until set, until it is; ok is false when the blocks stop forming a chain. */
    method Walk(b: Id, or: bool, v: nat, until: bool, next: Id, ghost g: Net, ghost rk: Rank, ghost root: Id,
                ghost M: set<Id>, ghost ids: seq<Id>)
      returns (ok: bool, c: Id, prev: Option<Id>, ghost ids': seq<Id>)
      requires Analysed(g, rk, root, M) && b < |g| && Walked(g, M, dom[..], or, b, ids, next)
      requires b in M && !g[b].term.Ret? && next < |g| && next in M
      ensures c < |g| && ids <= ids' && Walked(g, M, dom[..], or, b, ids', c)
      ensures ok ==> c in M && !g[c].term.Ret? && Exit(g[c], or) == Exit(g[b], or) && b in dom[c]
      ensures if ok then (val[c][A_ATOM] == v) == until else Stops(g, dom[..], or, b, c)
      ensures forall i: nat {:trigger ids'[i]} :: |ids| <= i < |ids'| ==> (val[ids'[i]][A_ATOM] == v) == !until
      ensures if prev.None? then ids' == ids else ids < ids' && ids'[|ids'| - 1] == prev.value
    {
      c, prev, ids' := next, None, ids;
      while true
        invariant c < |g| && c in M
        invariant ids <= ids' && Walked(g, M, dom[..], or, b, ids', c)
        invariant forall i: nat {:trigger ids'[i]} :: |ids| <= i < |ids'| ==> (val[ids'[i]][A_ATOM] == v) == !until
        invariant if prev.None? then ids' == ids else ids < ids' && ids'[|ids'| - 1] == prev.value
        decreases rk[c]
      {
        if net[c].term.Ret? || Exit(net[c], or) != Exit(net[b], or) || b !in dom[c] {
          ok := false;
          return;
        }
        if (val[c][A_ATOM] == v) == until {
          ok := true;
          return;
        }
        WalkedNext(g, M, dom[..], or, b, ids', c);
        prev, ids' := Some(c), ids' + [c];
        c := Onward(net[c], or);
      }
    }

    /** The reconnection at the end of a pull-up: pull leaves its place behind samePrev and
        comes before diff, which prev led to, or the in-edges of b when diff is b. */
    method Reconnect(b: Id, or: bool, prev: Option<Id>, diff: Id, samePrev: Id, pull: Id,
                     ghost g: Net, ghost rk: Rank, ghost root: Id, ghost M: set<Id>, ghost ids: seq<Id>, ghost k: nat,
                     ghost rest: Id)
      requires net[..] == g && ins.Length == |g| && Inward(g, M, ins[..])
      requires b < |g| && Pullable(g, rk, M, root, or, ids, k, Exit(g[b], or), rest)
      requires b == ids[0] && diff == ids[k] && samePrev == ids[|ids| - 2] && pull == ids[|ids| - 1]
      requires Onward(g[pull], or) == rest
      requires if k == 0 then prev.None? else prev == Some(ids[k - 1])
      modifies net
      ensures Moved(g, net[..], M, or, ids, k, rest)
    {
      ChainDistinct(g, rk, or, ids, Exit(g[b], or), rest);
      Unhook(or, diff, samePrev, pull, g, ids, k, rest);
      if prev.Some? {
        net[prev.value] := SetOnward(net[prev.value], or, pull);
        MovedInside(g, rk, M, root, or, ids, k, Exit(g[b], or), rest, net[..]);
      } else {
        HookFirst(b, or, pull, g, rk, root, M, ids, rest);
      }
    }

    method Unhook(or: bool, diff: Id, samePrev: Id, pull: Id, ghost g: Net, ghost ids: seq<Id>, ghost k: nat,
                  ghost rest: Id)
      requires net[..] == g && k < |ids| - 1 && diff == ids[k] && samePrev == ids[|ids| - 2] && pull == ids[|ids| - 1]
      requires samePrev < |g| && pull < |g| && samePrev != pull && Onward(g[pull], or) == rest
      modifies net
      ensures net[..] == Unhooked(g, or, ids, k, rest)
    {
      net[samePrev] := SetOnward(net[samePrev], or, Onward(net[pull], or));
      net[pull] := SetOnward(net[pull], or, diff);
    }

    method HookFirst(b: Id, or: bool, pull: Id, ghost g: Net, ghost rk: Rank, ghost root: Id, ghost M: set<Id>,
                     ghost ids: seq<Id>, ghost rest: Id)
      requires b < |g| && Pullable(g, rk, M, root, or, ids, 0, Exit(g[b], or), rest) && b == ids[0]
      requires pull == ids[|ids| - 1]
      requires ins.Length == |g| && Inward(g, M, ins[..])
      requires ids[|ids| - 1] < |g| && ids[|ids| - 2] < |g| && net[..] == Unhooked(g, or, ids, 0, rest)
      modifies net
      ensures Moved(g, net[..], M, or, ids, 0, rest)
    {
      ghost var mid := net[..];
      ChainDistinct(g, rk, or, ids, Exit(g[b], or), rest);
      InEdgesApart(g, rk, M, root, or, ids, Exit(g[b], or), rest, ins[..], mid);
      RedirectInto(net, ins[b], b, pull);
      assert Count(|g|, ins[b], ids[|ids| - 1]) == 0 && Count(|g|, ins[b], ids[|ids| - 2]) == 0;
      MovedFirst(g, M, or, ids, rest, ins[..], net[..]);
    }

    /** The number of the accumulator at the end of every block before b, if it is the same. */
    method SameNumber(b: Id, ghost g: Net, ghost rk: Rank, ghost root: Id, ghost M: set<Id>) returns (v: Option<nat>)
      requires Analysed(g, rk, root, M) && b < |g|
      ensures v.Some? ==> b != root && Common(val[..], ins[b], v.value)
      ensures v.None? ==> forall w: nat :: !Common(val[..], ins[b], w)
    {
      var edges := ins[b];
      if edges == [] {
        return None;
      }
      forall k | 0 <= k < |edges| ensures Pred(net.Length, edges[k]) < net.Length && EdgeInto(g, M, edges[k], b) {
        assert edges[k] in edges && edges[k] in ins[..][b];
      }
      var first := val[Pred(net.Length, edges[0])][A_ATOM];
      for k := 1 to |edges|
        invariant forall i: nat {:trigger edges[i]} :: i < k ==> val[Pred(net.Length, edges[i])][A_ATOM] == first
      {
        if first != val[Pred(net.Length, edges[k])][A_ATOM] {
          forall w: nat ensures !Common(val[..], edges, w) {
          }
          return None;
        }
      }
      v := Some(first);
    }

    /** or_pullup when or is set, and_pullup otherwise: the test moves where there is a place for
        it, and nothing moves where there is none. */
    method Pullup(b: Id, or: bool, ghost g: Net, ghost rk: Rank, ghost root: Id, ghost M: set<Id>)
      returns (ghost rk': Rank)
      requires Analysed(g, rk, root, M) && b < |g| && b in M && !g[b].term.Ret?
      modifies net
      ensures Ranked(net[..], rk')
      ensures SitesIndependent(g, rk, M, dom[..], val[..], ins[b], or, b) ==>
        forall st: State, p: Packet :: Run(net[..], rk', root, st, p) == Run(g, rk, root, st, p)
      ensures PulledAt(g, net[..], M, dom[..], val[..], ins[b], or, b)
    {
      rk' := rk;
      var found, prev, diff, samePrev, pull;
      ghost var v, ids, k;
      found, prev, diff, samePrev, pull, v, ids, k := FindSite(b, or, g, rk, root, M);
      if !found {
        return;
      }
      ghost var rest := Onward(g[pull], or);
      WalkedPullable(g, rk, M, root, dom[..], or, b, ids, k, rest);
      Reconnect(b, or, prev, diff, samePrev, pull, g, rk, root, M, ids, k, rest);
      SitePulled(g, net[..], M, dom[..], val[..], ins[b], or, b, v, ids, k);
      rk' := PulledRanked(g, net[..], rk, root, M, or, ids, k, Exit(g[b], or), rest);
      if SitesIndependent(g, rk, M, dom[..], val[..], ins[b], or, b) {
        PulledVerdict(g, net[..], rk, rk', root, M, or, ids, k, Exit(g[b], or), rest);
      }
    }

    /** The two walks along the chain. */
    method FindSite(b: Id, or: bool, ghost g: Net, ghost rk: Rank, ghost root: Id, ghost M: set<Id>)
      returns (found: bool, prev: Option<Id>, diff: Id, samePrev: Id, pull: Id, ghost v: nat, ghost ids: seq<Id>,
               ghost k: nat)
      requires Analysed(g, rk, root, M) && b < |g| && b in M && !g[b].term.Ret?
      ensures if found then Site(g, M, dom[..], val[..], ins[b], or, b, v, ids, k) && b != root
              else forall v': nat, t: seq<Id>, k': nat :: !Site(g, M, dom[..], val[..], ins[b], or, b, v', t, k')
      ensures found ==> diff == ids[k] && samePrev == ids[|ids| - 2] && pull == ids[|ids| - 1]
      ensures found ==> if k == 0 then prev.None? else prev == Some(ids[k - 1])
    {
      found, prev, diff, samePrev, pull, v, ids, k := false, None, 0, 0, 0, 0, [], 0;
      var same := SameNumber(b, g, rk, root, M);
      if same.None? {
        return;
      }
      v := same.value;
      found, diff, prev, ids := Walk(b, or, same.value, false, b, g, rk, root, M, []);
      if !found {
        forall v': nat, ids': seq<Id>, k': nat ensures !Site(g, M, dom[..], val[..], ins[b], or, b, v', ids', k') {
          CommonOnce(val[..], ins[b], v, v');
          NothingDiffers(g, M, dom[..], val[..], ins[b], or, b, v, ids, diff, ids', k');
        }
        return;
      }
      k := |ids|;
      found, samePrev, pull, ids := FindSame(b, or, same.value, diff, g, rk, root, M, ids);
    }

    method FindSame(b: Id, or: bool, v: nat, diff: Id, ghost g: Net, ghost rk: Rank, ghost root: Id, ghost M: set<Id>,
                    ghost ids: seq<Id>)
      returns (found: bool, samePrev: Id, pull: Id, ghost chain: seq<Id>)
      requires Analysed(g, rk, root, M) && b < |g| && b in M && !g[b].term.Ret? && Common(val[..], ins[b], v)
      requires Walked(g, M, dom[..], or, b, ids, diff) && diff in M && diff < |g| && !g[diff].term.Ret?
      requires Exit(g[diff], or) == Exit(g[b], or) && b in dom[diff] && val[diff][A_ATOM] != v
      requires forall i: nat {:trigger ids[i]} :: i < |ids| ==> val[ids[i]][A_ATOM] == v
      ensures if found then Site(g, M, dom[..], val[..], ins[b], or, b, v, chain, |ids|)
              else forall v': nat, t: seq<Id>, k: nat :: !Site(g, M, dom[..], val[..], ins[b], or, b, v', t, k)
      ensures found ==> ids + [diff] <= chain && samePrev == chain[|chain| - 2] && pull == chain[|chain| - 1]
    {
      WalkedNext(g, M, dom[..], or, b, ids, diff);
      ghost var ids';
      var prev;
      found, pull, prev, ids' := Walk(b, or, v, true, Onward(net[diff], or), g, rk, root, M, ids + [diff]);
      samePrev := if prev.Some? then prev.value else diff;
      chain := ids' + [pull];
      if found {
        WalkedNext(g, M, dom[..], or, b, ids', pull);
        assert Marks(val[..], chain, v, |ids|, |chain|);
      } else {
        forall v': nat, t: seq<Id>, k: nat ensures !Site(g, M, dom[..], val[..], ins[b], or, b, v', t, k) {
          CommonOnce(val[..], ins[b], v, v');
          NothingSame(g, M, dom[..], val[..], ins[b], or, b, v, ids', |ids|, pull, t, k);
        }
      }
    }
  }

  /** The blocks with edges into the head of the chain are not in the chain. */
  lemma InEdgesApart(g: Net, rk: Rank, M: set<Id>, root: Id, or: bool, ids: seq<Id>, out: Id, rest: Id,
                     ins: seq<seq<nat>>, mid: Net)
    requires Pullable(g, rk, M, root, or, ids, 0, out, rest) && Inward(g, M, ins) && |mid| == |g|
    requires forall x: Id :: x < |g| && x !in ids ==> mid[x] == g[x]
    ensures forall e :: e in ins[ids[0]] ==> e < 2 * |mid| && !mid[Pred(|mid|, e)].term.Ret? && Succ(mid, e) == ids[0]
    ensures forall i: nat {:trigger ids[i]} :: i < |ids| ==> Count(|g|, ins[ids[0]], ids[i]) == 0
  {
    ChainDistinct(g, rk, or, ids, out, rest);
    forall e | e in ins[ids[0]]
      ensures e < 2 * |mid| && Pred(|g|, e) !in ids && mid[Pred(|g|, e)] == g[Pred(|g|, e)] && Succ(g, e) == ids[0]
    {
      assert EdgeInto(g, M, e, ids[0]);
      assert g[Pred(|g|, e)] == g[Pred(|g|, e)];
    }
  }

  lemma StatelessSites(g: Net, rk: Rank, M: set<Id>, doms: seq<set<Id>>, val: seq<Numbers>, edges: seq<nat>, or: bool,
                       b: Id)
    requires Ranked(g, rk) && AllStateFree(g, M) && Closed(g, M) && b < |g| == |doms|
    ensures SitesIndependent(g, rk, M, doms, val, edges, or, b)
  {
    forall v: nat, ids: seq<Id>, k: nat | Site(g, M, doms, val, edges, or, b, v, ids, k)
      ensures Independent(g, rk, ids, k, Exit(g[b], or), Onward(g[ids[|ids| - 1]], or))
    {
      var rest := Onward(g[ids[|ids| - 1]], or);
      var first, last := Then(ids, rest, 0), Then(ids, rest, |ids| - 1);
      assert ids[0] in M && ids[|ids| - 1] in M;
      assert g[b] == g[b] && g[ids[|ids| - 1]] == g[ids[|ids| - 1]];
      StatelessIndependent(g, rk, M, ids, k, Exit(g[b], or), rest);
    }
  }

  /** A pull-up keeps the graph acyclic. */
  lemma PulledRanked(g: Net, g': Net, rk: Rank, root: Id, M: set<Id>, or: bool, ids: seq<Id>, k: nat, out: Id,
                     rest: Id) returns (rk': Rank)
    requires Rooted(g, rk, root, M) && Pullable(g, rk, M, root, or, ids, k, out, rest)
    requires Moved(g, g', M, or, ids, k, rest)
    ensures Ranked(g', rk')
  {
    MovedRanked(g, g', rk, M, root, or, ids, k, out, rest);
    rk' := PullRank(rk, M, root, ids[|ids| - 1], ids[k]);
  }

  /** It keeps the verdict of every packet, from every state, if the test that moves is
      independent of those it passes and of what is read behind them. */
  lemma PulledVerdict(g: Net, g': Net, rk: Rank, rk': Rank, root: Id, M: set<Id>, or: bool, ids: seq<Id>, k: nat,
                      out: Id, rest: Id)
    requires Pullable(g, rk, M, root, or, ids, k, out, rest) && Moved(g, g', M, or, ids, k, rest) && Ranked(g', rk')
    requires Independent(g, rk, ids, k, out, rest)
    ensures forall st: State, p: Packet :: Run(g', rk', root, st, p) == Run(g, rk, root, st, p)
  {
    forall st: State, p: Packet ensures Run(g', rk', root, st, p) == Run(g, rk, root, st, p) {
      MovedKeepsVerdict(g, g', rk, rk', M, root, or, ids, k, out, rest, root, st, p);
    }
  }
}
