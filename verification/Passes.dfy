/** The passes in the order in which the optimizer runs them, each on the sets of the graph at
    hand: levels, liveness and edge dominators, value numbers, redirected edges; and levels,
    dominators and in-edges for a pull-up. */
module Passes {
  import opened Bpf
  import opened Graph
  import opened Levels
  import opened Liveness
  import opened Stateless
  import opened ValueNumbers
  import opened Folding
  import opened Renumbering
  import opened Dominators
  import opened EdgeFold
  import opened Threading
  import opened Trimming
  import Pullup

  // ----- what the numbering hands to opt_j -----

  /** A scan that finds nothing used has found every atom defined before it was read. */
  lemma {:induction false} ScanDefinedFirst(ss: seq<Stmt>, ud: Ud, K: set<Atom>)
    requires Scan(ss, ud).use == {} && ud.kill <= ud.def <= K
    ensures DefinedFirst(K, ss) && ud.use == {} && Scan(ss, ud).def <= K + DefinedAll(ss)
    decreases |ss|
  {
    ScanGrows(ss, ud);
    if ss != [] {
      var next := Write(Read(ud, Uses(ss[0])), Def(ss[0]));
      ScanGrows(ss[1..], next);
      assert Read(ud, Uses(ss[0])).use == {};
      forall a | a in Uses(ss[0]) ensures a in ud.def {
        assert a in Read(ud, Uses(ss[0])).use || a in ud.def;
      }
      ScanDefinedFirst(ss[1..], next, K + Defined(ss[0]));
      assert K + DefinedAll(ss) == K + Defined(ss[0]) + DefinedAll(ss[1..]);
    }
  }

  /** A block that defines what it reads reads nothing unknown. */
  lemma StateFreeReadsKnown(T: Table, vin: Numbers, n: Node)
    requires StateFree(n)
    ensures ReadsKnown(T, vin, n)
  {
    var none := Ud({}, {}, {});
    var scan := Scan(n.stmts, none);
    forall a | a in TermUses(n.term) ensures a in scan.def {
      assert a in Read(scan, TermUses(n.term)).use || a in scan.def;
    }
    ScanDefinedFirst(n.stmts, none, KnownAtoms(T, vin));
  }

  lemma AllReadKnownBy(g: Net, M: set<Id>, T: Table, valIn: seq<Numbers>)
    requires |valIn| == |g| && AllStateFree(g, M)
    ensures AllReadKnown(g, M, T, valIn)
  {
    forall b: Id | b < |g| && b in M ensures ReadsKnown(T, valIn[b], g[b]) {
      assert g[b] == g[b];
      StateFreeReadsKnown(T, valIn[b], g[b]);
    }
  }

  /** The numbers of opt_blks and the sets of find_edom are what opt_j needs; if every block reads
      known values, so does every test. */
  lemma NumberingAnalyses(g: Net, rk: Rank, root: Id, ins: seq<seq<nat>>, T: Table, valIn: seq<Numbers>,
                          valOut: seq<Numbers>, oval: seq<nat>, edom: seq<set<nat>>)
    requires Ranked(g, rk) && root < |g| && Inward(g, Reach(g, rk, root), ins) && Distinct(T)
    requires BlocksNumbered(g, g, ins, Reach(g, rk, root), T, valIn, valOut, oval, false)
    requires |edom| == 2 * |g|
    requires forall e: nat {:trigger edom[e]} :: e < 2 * |g| && Pred(|g|, e) in Reach(g, rk, root) ==>
      edom[e] == DomSet(EdgeStep(g), RootEdges(|g|, root), 2 * |g|, e)
    ensures Analysed(g, rk, root, Reach(g, rk, root), T, valIn, valOut, oval, edom)
    ensures AllReadKnown(g, Reach(g, rk, root), T, valIn) ==> TestsKnown(g, Reach(g, rk, root), T, valOut, oval)
  {
    var M := Reach(g, rk, root);
    NumberingAnnotates(g, rk, root, g, ins, T, valIn, valOut, oval, false);
    Pullup.ReachRooted(g, rk, root);
    forall b: Id | b < |g| && b in M
      ensures OperandNumbered(T, g[b].term, valOut[b], oval[b])
      ensures AllReadKnown(g, M, T, valIn) ==> TestKnown(T, g[b].term, valOut[b], oval[b])
    {
      assert g[b] == g[b] && NumberedAt(g, g, ins, T, valIn, valOut, oval, false, b);
      if AllReadKnown(g, M, T, valIn) {
        NumbersSound(g, rk, root, g, ins, T, valIn, valOut, oval, false, b);
      }
    }
  }

  /** Without changing statements the first loop of opt_blks leaves the graph alone. */
  lemma NothingChanged(g: Net, net: Net, ins: seq<seq<nat>>, M: set<Id>, T: Table, valIn: seq<Numbers>,
                       valOut: seq<Numbers>, oval: seq<nat>)
    requires BlocksNumbered(g, net, ins, M, T, valIn, valOut, oval, false)
    requires forall b: Id :: b < |g| && b !in M ==> net[b] == g[b]
    ensures net == g
  {
    forall b: Id | b < |g| ensures net[b] == g[b] {
      if b in M {
        assert net[b] == net[b] && NumberedAt(g, net, ins, T, valIn, valOut, oval, false, b);
        BlockMeans(T, g[b], net[b], valIn[b], valOut[b], false);
      }
    }
  }

  // ----- the passes -----

  /** find_levels, find_ud and find_edom on a graph. */
  method FindSets(root: Id, g: Net, ghost rk: Rank)
    returns (level: seq<nat>, levels: seq<seq<Id>>, outUse: array<set<Atom>>, edom: array<set<nat>>)
    requires Ranked(g, rk) && root < |g|
    ensures Leveled(g, rk, Reach(g, rk, root), level, levels)
    ensures fresh(outUse) && outUse.Length == |g|
    ensures forall b: Id :: b in Reach(g, rk, root) ==> outUse[b] == LiveOut(g, rk, b)
    ensures fresh(edom) && edom.Length == 2 * |g|
    ensures forall e: nat {:trigger edom[e]} :: e < 2 * |g| && Pred(|g|, e) in Reach(g, rk, root) ==>
      edom[e] == DomSet(EdgeStep(g), RootEdges(|g|, root), 2 * |g|, e)
  {
    var levelFinder := new LevelFinder(|g|);
    levelFinder.FindLevels(root, g, rk);
    level, levels := levelFinder.level[..], levelFinder.levels[..];
    var udFinder := new UdFinder(|g|);
    udFinder.FindUd(root, g, rk, level, levels);
    outUse := udFinder.outUse;
    var edomFinder := new EdomFinder(|g|);
    edomFinder.FindEdom(root, g, rk, level, levels);
    edom := edomFinder.edom;
  }

  /** The first loop of opt_blks, on new tables. */
  method NumberAll(root: Id, net: array<Node>, ghost rk: Rank, hash: Triple -> nat, level: seq<nat>,
                   levels: seq<seq<Id>>, outUse: seq<set<Atom>>, alter: bool)
    returns (ok: bool, val: array<Numbers>, ops: array<nat>, ghost ins: seq<seq<nat>>, ghost T: Table,
             ghost valIn: seq<Numbers>, ghost mid: seq<Node>)
    requires Ranked(net[..], rk) && root < net.Length == |outUse|
    requires Leveled(net[..], rk, Reach(net[..], rk, root), level, levels)
    modifies net
    ensures fresh(val) && fresh(ops) && Distinct(T) && Inward(old(net[..]), Reach(old(net[..]), rk, root), ins)
    ensures ok ==>
      BlocksDone(old(net[..]), mid, net[..], ins, Reach(old(net[..]), rk, root), T, valIn, val[..], ops[..], outUse,
        alter)
    ensures !ok ==> alter && HaltedIn(old(net[..]), mid, ins, Reach(old(net[..]), rk, root), T, valIn, val[..], ops[..])
  {
    var table := new Numbering(hash);
    var folder := new Folder(table);
    var none: Numbers := seq(18, i => 0);
    var edges := new seq<nat>[net.Length];
    val, ops := new Numbers[net.Length](_ => none), new nat[net.Length];
    ok, valIn, mid := OptBlks(folder, root, net, rk, level, levels, edges, val, ops, outUse, alter);
    ins, T := edges[..], table.T();
  }

  /** net is g without the dead stores of the blocks of M. */
  ghost predicate AllCleared(g: Net, rk: Rank, M: set<Id>, net: Net)
    requires Ranked(g, rk)
  {
    |net| == |g| && forall b: Id {:trigger net[b]} :: b < |g| ==>
      if b in M then Cleared(g[b], net[b], LiveOut(g, rk, b)) else net[b] == g[b]
  }

  lemma DoneCleared(g: Net, rk: Rank, M: set<Id>, mid: seq<Node>, net: Net, ins: seq<seq<nat>>, T: Table,
                     valIn: seq<Numbers>, valOut: seq<Numbers>, oval: seq<nat>, outUse: seq<set<Atom>>)
    requires Ranked(g, rk) && BlocksDone(g, mid, net, ins, M, T, valIn, valOut, oval, outUse, false)
    requires forall b: Id :: b < |g| && b in M ==> outUse[b] == LiveOut(g, rk, b)
    ensures mid == g && AllCleared(g, rk, M, net)
  {
    assert forall b: Id :: b < |g| && b !in M ==> mid[b] == g[b];
    NothingChanged(g, mid, ins, M, T, valIn, valOut, oval);
    assert forall b: Id :: b < |g| ==> mid[b] == g[b];
  }

  /** The first loop of opt_blks, without altering statements: the blocks are numbered and lose
      exactly their dead stores, and every packet keeps its verdict from every block and state. */
  method NumberBlocks(root: Id, net: array<Node>, ghost rk: Rank, hash: Triple -> nat, level: seq<nat>,
                      levels: seq<seq<Id>>, outUse: seq<set<Atom>>, ghost edom: seq<set<nat>>)
    returns (valOut: array<Numbers>, oval: array<nat>, ghost T: Table, ghost valIn: seq<Numbers>)
    requires Ranked(net[..], rk) && root < net.Length == |outUse|
    requires Leveled(net[..], rk, Reach(net[..], rk, root), level, levels)
    requires forall b: Id :: b < net.Length && b in Reach(net[..], rk, root) ==> outUse[b] == LiveOut(net[..], rk, b)
    requires |edom| == 2 * net.Length
    requires forall e: nat {:trigger edom[e]} ::
      e < 2 * net.Length && Pred(net.Length, e) in Reach(net[..], rk, root) ==>
      edom[e] == DomSet(EdgeStep(net[..]), RootEdges(net.Length, root), 2 * net.Length, e)
    modifies net
    ensures fresh(valOut) && fresh(oval) && AllCleared(old(net[..]), rk, Reach(old(net[..]), rk, root), net[..])
    ensures Ranked(net[..], rk)
    ensures forall b: Id, st: State, p: Packet :: b < net.Length ==>
      Run(net[..], rk, b, st, p) == Run(old(net[..]), rk, b, st, p)
    ensures Analysed(old(net[..]), rk, root, Reach(old(net[..]), rk, root), T, valIn, valOut[..], oval[..], edom)
    ensures AllReadKnown(old(net[..]), Reach(old(net[..]), rk, root), T, valIn) ==>
      TestsKnown(old(net[..]), Reach(old(net[..]), rk, root), T, valOut[..], oval[..])
  {
    ghost var g, M := net[..], Reach(net[..], rk, root);
    var ok;
    ghost var ins, mid;
    ok, valOut, oval, ins, T, valIn, mid := NumberAll(root, net, rk, hash, level, levels, outUse, false);
    DoneCleared(g, rk, M, mid, net[..], ins, T, valIn, valOut[..], oval[..], outUse);
    NumberingAnalyses(g, rk, root, ins, T, valIn, valOut[..], oval[..], edom);
    ClearedVerdicts(g, rk, M, net[..]);
  }

  lemma ClearedVerdicts(g: Net, rk: Rank, M: set<Id>, net: Net)
    requires Ranked(g, rk) && AllCleared(g, rk, M, net)
    ensures Ranked(net, rk)
    ensures forall b: Id, st: State, p: Packet :: b < |g| ==> Run(net, rk, b, st, p) == Run(g, rk, b, st, p)
  {
    forall c | 0 <= c < |g|
      ensures net[c].term == g[c].term && net[c].jt == g[c].jt && net[c].jf == g[c].jf
      ensures SameLive(LiveOut(g, rk, c) + TermUses(g[c].term), g[c].stmts, net[c].stmts)
    {
      assert net[c] == net[c];
      if c in M {
        ClearedLive(g[c], net[c], LiveOut(g, rk, c));
      }
    }
    forall b: Id, st: State, p: Packet | b < |g|
      ensures Ranked(net, rk) && Run(net, rk, b, st, p) == Run(g, rk, b, st, p)
    {
      DeadstoresKeepVerdict(g, net, rk, b, st, p);
    }
    assert Ranked(net, rk) by {
      assert forall c | 0 <= c < |g| :: net[c].term == g[c].term && net[c].jt == g[c].jt && net[c].jf == g[c].jf;
      assert forall c | 0 <= c < |g| :: net[c] == net[c] && g[c] == g[c];
    }
  }

  /** What the first loop of opt_blks and the passes before it found out about g: valIn and valOut
      are right about every run, oval numbers the operands, edom and outUse are exact. */
  ghost predicate Studied(g: Net, rk: Rank, root: Id, T: Table, valIn: seq<Numbers>, valOut: seq<Numbers>,
                          oval: seq<nat>, outUse: seq<set<Atom>>, edom: seq<set<nat>>)
    requires Ranked(g, rk) && root < |g|
  {
    && Analysed(g, rk, root, Reach(g, rk, root), T, valIn, valOut, oval, edom) && |outUse| == |g|
    && forall b: Id {:trigger outUse[b]} :: b < |g| && b in Reach(g, rk, root) ==> outUse[b] == LiveOut(g, rk, b)
  }

  /** The blocks read known values, and the redirections carry them on. */
  ghost predicate Handed(g: Net, rk: Rank, root: Id, T: Table, valIn: seq<Numbers>, valOut: seq<Numbers>, net: Net)
    requires Ranked(g, rk) && root < |g|
  {
    && |valIn| == |valOut| == |net| == |g| && AllReadKnown(g, Reach(g, rk, root), T, valIn)
    && AllCarried(g, rk, Reach(g, rk, root), T, valIn, valOut, net)
  }

  /** opt_blks without altering statements, up to its second loop: the blocks are numbered, lose
      their dead stores, and all edges are redirected, until there is nothing left to do for any.
      Every packet keeps its verdict from every state if the blocks read known values and the
      redirections carry them on, always if they define what they read. */
  method RedirectEdges(root: Id, net: array<Node>, ghost rk: Rank, hash: Triple -> nat)
    returns (ghost T: Table, ghost valIn: seq<Numbers>, ghost valOut: seq<Numbers>, ghost oval: seq<nat>,
             ghost outUse: seq<set<Atom>>, ghost edom: seq<set<nat>>, ghost mid: seq<Node>)
    requires Ranked(net[..], rk) && root < net.Length
    modifies net
    ensures Ranked(net[..], rk) && Studied(old(net[..]), rk, root, T, valIn, valOut, oval, outUse, edom)
    ensures AllCleared(old(net[..]), rk, Reach(old(net[..]), rk, root), mid)
    ensures AllSettle(old(net[..]), Reach(old(net[..]), rk, root), mid, net[..], valOut, oval, outUse, edom)
    ensures AllMoved(old(net[..]), Reach(old(net[..]), rk, root), mid, net[..], valOut, oval, outUse, edom)
    ensures Handed(old(net[..]), rk, root, T, valIn, valOut, net[..]) ==>
      forall st: State, p: Packet :: Run(net[..], rk, root, st, p) == Run(old(net[..]), rk, root, st, p)
    ensures AllStateFree(old(net[..]), Reach(old(net[..]), rk, root)) ==>
      forall st: State, p: Packet :: Run(net[..], rk, root, st, p) == Run(old(net[..]), rk, root, st, p)
  {
    ghost var g := net[..];
    var level, levels, uses, doms := FindSets(root, net[..], rk);
    var val, ops;
    val, ops, T, valIn := NumberBlocks(root, net, rk, hash, level, levels, uses[..], doms[..]);
    valOut, oval, outUse, edom, mid := val[..], ops[..], uses[..], doms[..], net[..];
    RedirectStudied(root, net, val, ops, uses, doms, g, rk, level, levels, T, valIn);
    if AllStateFree(g, Reach(g, rk, root)) {
      AllReadKnownBy(g, Reach(g, rk, root), T, valIn);
    }
  }

  lemma LevelsDownhill(g: Net, rk: Rank, root: Id, level: seq<nat>, levels: seq<seq<Id>>)
    requires Ranked(g, rk) && root < |g| && Leveled(g, rk, Reach(g, rk, root), level, levels)
    ensures Downhill(g, Reach(g, rk, root), level, g)
  {
    LowerLevels(g, rk, root, level);
    forall e: nat | Branch(g, Reach(g, rk, root), e)
      ensures Succ(g, e) < |g| && level[Succ(g, e)] < level[Pred(|g|, e)]
    {
      assert g[Pred(|g|, e)] == g[Pred(|g|, e)];
    }
  }

  lemma ClearedDownhill(g: Net, rk: Rank, M: set<Id>, level: seq<nat>, net: Net)
    requires Ranked(g, rk) && Downhill(g, M, level, g) && AllCleared(g, rk, M, net)
    ensures Downhill(g, M, level, net)
  {
    forall e: nat | Branch(g, M, e) ensures Succ(net, e) < |g| && level[Succ(net, e)] < level[Pred(|g|, e)] {
      assert net[Pred(|g|, e)] == net[Pred(|g|, e)] && Succ(net, e) == Succ(g, e);
    }
  }

  /** The second loop of opt_blks. */
  method RedirectStudied(root: Id, net: array<Node>, val: array<Numbers>, oval: array<nat>, outUse: array<set<Atom>>,
                         edom: array<set<nat>>, ghost g: Net, ghost rk: Rank, level: seq<nat>, levels: seq<seq<Id>>,
                         ghost T: Table, ghost valIn: seq<Numbers>)
    requires Ranked(g, rk) && root < |g| && AllCleared(g, rk, Reach(g, rk, root), net[..])
    requires Leveled(g, rk, Reach(g, rk, root), level, levels)
    requires Studied(g, rk, root, T, valIn, val[..], oval[..], outUse[..], edom[..])
    requires AllReadKnown(g, Reach(g, rk, root), T, valIn) ==>
      TestsKnown(g, Reach(g, rk, root), T, val[..], oval[..])
    modifies net
    ensures Ranked(net[..], rk)
    ensures AllSettle(g, Reach(g, rk, root), old(net[..]), net[..], val[..], oval[..], outUse[..], edom[..])
    ensures AllMoved(g, Reach(g, rk, root), old(net[..]), net[..], val[..], oval[..], outUse[..], edom[..])
    ensures Handed(g, rk, root, T, valIn, val[..], net[..]) ==>
      forall st: State, p: Packet :: Run(net[..], rk, root, st, p) == Run(g, rk, root, st, p)
    ensures AllStateFree(g, Reach(g, rk, root)) ==>
      AllCarried(g, rk, Reach(g, rk, root), T, valIn, val[..], net[..])
  {
    ghost var M := Reach(g, rk, root);
    var threader := new Threader(net, val, oval, outUse, edom);
    ClearedRewired(g, rk, root, M, threader.Sure(g, rk, root, M), net[..]);
    LevelsDownhill(g, rk, root, level, levels);
    ClearedDownhill(g, rk, M, level, net[..]);
    threader.OptEdges(g, rk, root, M, level, levels, T, valIn);
  }

  // ----- statements -----

  /** Both graphs give the same verdict from the root, on every packet and from every state. */
  ghost predicate Alike(g: Net, net: Net, rk: Rank, root: Id)
    requires Ranked(g, rk) && root < |g|
  {
    && |net| == |g| && Ranked(net, rk)
    && forall st: State, p: Packet :: Run(net, rk, root, st, p) == Run(g, rk, root, st, p)
  }

  /** Blocks that read known values keep what they do, and the root its verdict. */
  lemma KnownKeepsVerdict(g: Net, rk: Rank, root: Id, net: seq<Node>, ins: seq<seq<nat>>, T: Table,
                          valIn: seq<Numbers>, valOut: seq<Numbers>, oval: seq<nat>)
    requires Ranked(g, rk) && root < |g| && Inward(g, Reach(g, rk, root), ins)
    requires BlocksNumbered(g, net, ins, Reach(g, rk, root), T, valIn, valOut, oval, true)
    requires forall b: Id {:trigger net[b]} :: b < |g| && b !in Reach(g, rk, root) ==> net[b] == g[b]
    requires AllReadKnown(g, Reach(g, rk, root), T, valIn)
    ensures Alike(g, net, rk, root)
  {
    forall b: Id | b < |g| && b in Reach(g, rk, root) ensures BlockKept(T, g[b], net[b], valIn[b], valOut[b], true) {
      NumbersSound(g, rk, root, net, ins, T, valIn, valOut, oval, true, b);
    }
    forall st: State, p: Packet ensures Ranked(net, rk) && Run(net, rk, root, st, p) == Run(g, rk, root, st, p) {
      OptBlksKeepsVerdict(g, rk, root, net, ins, T, valIn, valOut, oval, true, st, p);
    }
    var some: State, quiet := Blank(), Packet(0, (size, k) => 0, k => 0);
    OptBlksKeepsVerdict(g, rk, root, net, ins, T, valIn, valOut, oval, true, some, quiet);
  }

  /** Where the blocks read known values, the blocks as opt_stmt left them do what they did, and
      those that are emptied have known values in their registers. */
  lemma DoneTrimmed(g: Net, rk: Rank, root: Id, mid: seq<Node>, net: Net, ins: seq<seq<nat>>, T: Table,
                     valIn: seq<Numbers>, valOut: seq<Numbers>, oval: seq<nat>, outUse: seq<set<Atom>>)
    requires Ranked(g, rk) && root < |g| && Inward(g, Reach(g, rk, root), ins)
    requires BlocksDone(g, mid, net, ins, Reach(g, rk, root), T, valIn, valOut, oval, outUse, true)
    requires AllReadKnown(g, Reach(g, rk, root), T, valIn)
    ensures Alike(g, mid, rk, root) && TrimmedAll(mid, Reach(g, rk, root), T, net, valIn, valOut, outUse, true)
    ensures Annotated(mid, Reach(g, rk, root), T, valIn, valOut) && Unknown(valIn[root])
  {
    var M := Reach(g, rk, root);
    KnownKeepsVerdict(g, rk, root, mid, ins, T, valIn, valOut, oval);
    NumberingAnnotates(g, rk, root, mid, ins, T, valIn, valOut, oval, true);
    forall b: Id | b < |g| && b in M
      ensures Trimmed(mid[b], net[b], valIn[b], valOut[b], outUse[b], true)
      ensures Refilled(T, mid[b], valIn[b], valOut[b], outUse[b], true)
      ensures mid[b].term == g[b].term && mid[b].jt == g[b].jt && mid[b].jf == g[b].jf
      ensures FollowsAll(T, valIn[b], valOut[b], mid[b].stmts)
    {
      assert mid[b] == mid[b] && g[b] == g[b] && NumberedAt(g, mid, ins, T, valIn, valOut, oval, true, b);
      NumbersSound(g, rk, root, mid, ins, T, valIn, valOut, oval, true, b);
      BlockMeans(T, g[b], mid[b], valIn[b], valOut[b], true);
    }
  }

  /** Then the verdict stays, unless something reads what a block has lost. */
  lemma TrimmedAlike(g: Net, rk: Rank, root: Id, mid: seq<Node>, net: Net, ins: seq<seq<nat>>, T: Table,
                     valIn: seq<Numbers>, valOut: seq<Numbers>, oval: seq<nat>, outUse: seq<set<Atom>>)
    requires Ranked(g, rk) && Ranked(net, rk) && root < |g| && Inward(g, Reach(g, rk, root), ins)
    requires BlocksDone(g, mid, net, ins, Reach(g, rk, root), T, valIn, valOut, oval, outUse, true)
    requires AllReadKnown(g, Reach(g, rk, root), T, valIn)
    requires NothingMissed(mid, rk, Reach(g, rk, root), net, valIn, valOut, outUse, true)
    ensures Alike(g, net, rk, root)
  {
    DoneTrimmed(g, rk, root, mid, net, ins, T, valIn, valOut, oval, outUse);
    forall st: State, p: Packet ensures Run(net, rk, root, st, p) == Run(g, rk, root, st, p) {
      assert Describes(T, valIn[root], st, p) && Run(mid, rk, root, st, p) == Run(g, rk, root, st, p);
      TrimmedKeepsVerdict(mid, rk, Reach(g, rk, root), T, net, valIn, valOut, outUse, true, root, st, st, p);
    }
  }

  lemma DoneRanked(g: Net, rk: Rank, M: set<Id>, mid: seq<Node>, net: Net, ins: seq<seq<nat>>, T: Table,
                    valIn: seq<Numbers>, valOut: seq<Numbers>, oval: seq<nat>, outUse: seq<set<Atom>>, alter: bool)
    requires Ranked(g, rk) && BlocksDone(g, mid, net, ins, M, T, valIn, valOut, oval, outUse, alter)
    ensures Ranked(net, rk)
  {
    forall b: Id | b < |g| ensures net[b].term == g[b].term && net[b].jt == g[b].jt && net[b].jf == g[b].jf {
      assert net[b] == net[b] && g[b] == g[b];
      if b in M {
        assert mid[b] == mid[b] && NumberedAt(g, mid, ins, T, valIn, valOut, oval, alter, b);
        BlockMeans(T, g[b], mid[b], valIn[b], valOut[b], alter);
      }
    }
    assert forall b: Id :: b < |g| ==> net[b] == net[b] && g[b] == g[b];
  }

  /** If the blocks of g read known values, and no block of net reads what another has lost, every
      packet keeps its verdict. */
  ghost predicate TrimmedRight(g: Net, rk: Rank, root: Id, mid: seq<Node>, net: Net, T: Table, valIn: seq<Numbers>,
                               valOut: seq<Numbers>, outUse: seq<set<Atom>>)
    requires Ranked(g, rk) && root < |g|
  {
    && |mid| == |net| == |valIn| == |valOut| == |outUse| == |g| && Ranked(net, rk)
    && (AllReadKnown(g, Reach(g, rk, root), T, valIn) ==>
         NothingMissed(mid, rk, Reach(g, rk, root), net, valIn, valOut, outUse, true) ==> Alike(g, net, rk, root))
  }

  /** opt_blks where statements may be altered: the blocks are numbered, simplified and trimmed, or
      one is found to divide a constant by the constant zero. Every packet keeps its verdict from
      every state if the blocks read known values, as they do if they define what they read, and
      if none reads in the new graph what another has lost. */
  method SimplifyBlocks(root: Id, net: array<Node>, ghost rk: Rank, hash: Triple -> nat)
    returns (ok: bool, ghost mid: seq<Node>, ghost ins: seq<seq<nat>>, ghost T: Table, ghost valIn: seq<Numbers>,
             ghost valOut: seq<Numbers>, ghost oval: seq<nat>, ghost outUse: seq<set<Atom>>)
    requires Ranked(net[..], rk) && root < net.Length
    modifies net
    ensures Inward(old(net[..]), Reach(old(net[..]), rk, root), ins) && |outUse| == net.Length
    ensures forall b: Id :: b in Reach(old(net[..]), rk, root) ==>
      b < net.Length && outUse[b] == LiveOut(old(net[..]), rk, b)
    ensures ok ==>
      BlocksDone(old(net[..]), mid, net[..], ins, Reach(old(net[..]), rk, root), T, valIn, valOut, oval, outUse, true)
    ensures !ok ==> HaltedIn(old(net[..]), mid, ins, Reach(old(net[..]), rk, root), T, valIn, valOut, oval)
    ensures AllStateFree(old(net[..]), Reach(old(net[..]), rk, root)) && |valIn| == net.Length ==>
      AllReadKnown(old(net[..]), Reach(old(net[..]), rk, root), T, valIn)
    ensures ok ==> TrimmedRight(old(net[..]), rk, root, mid, net[..], T, valIn, valOut, outUse)
  {
    ghost var g, M := net[..], Reach(net[..], rk, root);
    var level, levels, uses, edom := FindSets(root, net[..], rk);
    outUse := uses[..];
    LowerLevels(g, rk, root, level);
    var val, ops;
    ok, val, ops, ins, T, valIn, mid := NumberAll(root, net, rk, hash, level, levels, uses[..], true);
    valOut, oval := val[..], ops[..];
    if |valIn| == |g| && AllStateFree(g, M) {
      AllReadKnownBy(g, M, T, valIn);
    }
    if ok {
      DoneRanked(g, rk, M, mid, net[..], ins, T, valIn, valOut, oval, outUse, true);
      if AllReadKnown(g, M, T, valIn) && NothingMissed(mid, rk, M, net[..], valIn, valOut, outUse, true) {
        TrimmedAlike(g, rk, root, mid, net[..], ins, T, valIn, valOut, oval, outUse);
      }
    }
  }

  // ----- pull-ups -----

  /** find_levels, find_dom and find_inedges on a graph. */
  method FindChains(root: Id, g: Net, ghost rk: Rank) returns (dom: array<set<Id>>, ins: array<seq<nat>>)
    requires Ranked(g, rk) && root < |g|
    ensures fresh(dom) && fresh(ins) && Inward(g, Reach(g, rk, root), ins[..])
    ensures Pullup.Rooted(g, rk, root, Reach(g, rk, root)) && Pullup.DomsRight(g, root, Reach(g, rk, root), dom[..])
  {
    var levelFinder := new LevelFinder(|g|);
    levelFinder.FindLevels(root, g, rk);
    var level, levels := levelFinder.level[..], levelFinder.levels[..];
    var domFinder := new DomFinder(|g|);
    domFinder.FindDom(root, g, rk, level, levels);
    dom := domFinder.dom;
    ins := new seq<nat>[|g|];
    FindInedges(root, g, rk, level, levels, ins);
    Pullup.ReachRooted(g, rk, root);
  }

  /** One pull-up on the in-edges and dominators of the graph at hand: the test moves where there
      is a place for it, and nothing moves where there is none. */
  method PullupOnce(root: Id, net: array<Node>, val: array<Numbers>, b: Id, or: bool, ghost rk: Rank)
    returns (ghost rk': Rank, ghost doms: seq<set<Id>>, ghost edges: seq<nat>)
    requires Ranked(net[..], rk) && root < net.Length == val.Length
    requires b in Reach(net[..], rk, root) && b < net.Length && !net[b].term.Ret?
    modifies net
    ensures Ranked(net[..], rk')
    ensures |doms| == net.Length && Pullup.DomsRight(old(net[..]), root, Reach(old(net[..]), rk, root), doms)
    ensures NoRepeats(edges)
    ensures forall e: nat :: e in edges <==> EdgeInto(old(net[..]), Reach(old(net[..]), rk, root), e, b)
    ensures Pullup.PulledAt(old(net[..]), net[..], Reach(old(net[..]), rk, root), doms, val[..], edges, or, b)
    ensures AllStateFree(old(net[..]), Reach(old(net[..]), rk, root)) ==>
      forall st: State, p: Packet :: Run(net[..], rk', root, st, p) == Run(old(net[..]), rk, root, st, p)
    ensures Pullup.SitesIndependent(old(net[..]), rk, Reach(old(net[..]), rk, root), doms, val[..], edges, or, b) ==>
      forall st: State, p: Packet :: Run(net[..], rk', root, st, p) == Run(old(net[..]), rk, root, st, p)
  {
    ghost var g, M := net[..], Reach(net[..], rk, root);
    var dom, ins := FindChains(root, net[..], rk);
    var puller := new Pullup.Puller(net, val, ins, dom);
    doms, edges := dom[..], ins[b];
    Pullup.DomsHeaded(g, rk, root, doms);
    if AllStateFree(g, M) {
      Pullup.StatelessSites(g, rk, M, doms, val[..], edges, or, b);
    }
    rk' := puller.Pullup(b, or, g, rk, root, M);
  }
}
