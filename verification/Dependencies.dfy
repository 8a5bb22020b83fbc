/** Graphs on which a pull-up changes the verdict, one for each way data can flow that it cuts.
    The generator makes no such chains, and the comparison of all atoms that stands in the code
    is compiled out. */
module Dependencies {
  import opened Bpf
  import opened Graph
  import opened Liveness
  import opened Stateless
  import opened ValueNumbers
  import opened Renumbering
  import opened Dominators
  import opened Crossing
  import opened Pullup
  import opened Conflicts

  const OTHER: Stmt := LdAbs(SizeB, 10)

  /** The numbers F gives out: the bytes at 9 and 10. */
  function Loads(): Table {
    [Triple(Abs(SizeB), 9, 0), Triple(Abs(SizeB), 10, 0)]
  }

  // ----- the blocks -----

  /** The words that a list of statements leaves in the accumulator and in slot 0. */
  ghost predicate Leaves(ss: seq<Stmt>, st: State, p: Packet, a: Word, m: Word) {
    var after := ExecAll(ss, st, p);
    after[A_ATOM] == a && after[0] == m
  }

  lemma Effects(st: State, p: Packet)
    ensures Leaves([BYTE], st, p, p.load(SizeB, 9), st[0])
    ensures Leaves([OTHER], st, p, p.load(SizeB, 10), st[0])
    ensures Leaves([LdMem(0)], st, p, st[0], st[0])
    ensures Leaves([BYTE, St(0)], st, p, p.load(SizeB, 9), p.load(SizeB, 9))
    ensures Leaves([OTHER, St(0)], st, p, p.load(SizeB, 10), p.load(SizeB, 10))
    ensures Leaves([BYTE, St(0), OTHER], st, p, p.load(SizeB, 10), p.load(SizeB, 9))
  {
    var byte := Exec(BYTE, st, p);
    OneStmt(BYTE, st, p);
    OneStmt(OTHER, st, p);
    OneStmt(LdMem(0), st, p);
    ExecFirst(BYTE, [St(0)], st, p);
    OneStmt(St(0), byte, p);
    ExecFirst(OTHER, [St(0)], st, p);
    OneStmt(St(0), Exec(OTHER, st, p), p);
    ExecFirst(BYTE, [St(0), OTHER], st, p);
    ExecFirst(St(0), [OTHER], byte, p);
    OneStmt(OTHER, Exec(St(0), byte, p), p);
  }

  lemma ExecFirst(s: Stmt, ss: seq<Stmt>, st: State, p: Packet)
    ensures ExecAll([s] + ss, st, p) == ExecAll(ss, Exec(s, st, p), p)
  {
    assert ([s] + ss)[1..] == ss;
  }

  /** The test that is passed and the test that moves, where the chain leads, and what is known
      between the two. */
  datatype Setup = Setup(passed: seq<Stmt>, k: Word, pulled: seq<Stmt>, k': Word, out: Id, rest: Id, mid: Numbers)

  function SetupOf(flow: Flow): Setup {
    match flow
    case Back => Setup([BYTE, St(0), OTHER], 6, [LdMem(0)], 6, 4, 5, Num(2, 1))
    case Ahead => Setup([LdMem(0)], 6, [BYTE, St(0)], 5, 4, 5, Num(0, 0))
    case PullOut => Setup([OTHER], 5, [BYTE, St(0)], 5, 3, 5, Num(2, 0))
    case TestsOut => Setup([BYTE, St(0), OTHER], 6, [BYTE], 6, 3, 5, Num(2, 1))
    case Onwards => Setup([OTHER, St(0)], 6, [BYTE, St(0)], 5, 4, 3, Num(2, 2))
  }

  /** A test of the byte at 9, the two tests in a chain of alternatives, a block that compares
      slot 0, and the two verdicts. */
  function Chained(x: Setup): Net {
    [Node([BYTE], JmpK(Jeq, 6), 1, 5), Node(x.passed, JmpK(Jeq, x.k), x.out, 2),
     Node(x.pulled, JmpK(Jeq, x.k'), x.out, x.rest), Node([LdMem(0)], JmpK(Jeq, 6), 4, 5),
     Node([], Ret(1), 0, 0), Node([], Ret(0), 0, 0)]
  }

  /** The second test comes first. */
  function Crossed(x: Setup): Net {
    [Node([BYTE], JmpK(Jeq, 6), 2, 5), Node(x.passed, JmpK(Jeq, x.k), x.out, x.rest),
     Node(x.pulled, JmpK(Jeq, x.k'), x.out, 1), Node([LdMem(0)], JmpK(Jeq, 6), 4, 5),
     Node([], Ret(1), 0, 0), Node([], Ret(0), 0, 0)]
  }

  const RANK: Rank := [4, 3, 2, 1, 0, 0]
  const CROSSED_RANK: Rank := [4, 2, 3, 1, 0, 0]
  const BLOCKS: set<Id> := {0, 1, 2, 3, 4, 5}

  lemma BothRanked(flow: Flow)
    ensures Ranked(Chained(SetupOf(flow)), RANK) && Closed(Chained(SetupOf(flow)), BLOCKS)
    ensures Ranked(Crossed(SetupOf(flow)), CROSSED_RANK)
  {
  }

  lemma CrossedMoved(flow: Flow)
    ensures var x := SetupOf(flow); Moved(Chained(x), Crossed(x), BLOCKS, true, [1, 2], 0, x.rest)
  {
  }

  // ----- the runs -----

  predicate Bytes(p: Packet) {
    p.load(SizeB, 9) == 6 && p.load(SizeB, 10) == 5
  }

  lemma RunStep(g: Net, rk: Rank, b: Id, st: State, p: Packet) returns (next: Id, after: State)
    requires Ranked(g, rk) && b < |g| && !g[b].term.Ret?
    ensures next == Choose(g[b], after) && after == ExecAll(g[b].stmts, st, p) && next < |g|
    ensures Run(g, rk, b, st, p) == Run(g, rk, next, after, p)
  {
    after := ExecAll(g[b].stmts, st, p);
    next := Choose(g[b], after);
    assert g[b] == g[b];
    Effects(st, p);
  }

  lemma Reads(g: Net, rk: Rank, st: State, p: Packet)
    requires Ranked(g, rk) && |g| == 6 && g[3..] == Chained(SetupOf(Back))[3..]
    ensures Run(g, rk, 3, st, p) == if st[0] == 6 then 1 else 0
    ensures Run(g, rk, 4, st, p) == 1 && Run(g, rk, 5, st, p) == 0
  {
    assert g[3] == g[3..][0] && g[4] == g[3..][1] && g[5] == g[3..][2];
    Effects(st, p);
  }

  ghost function Verdict(flow: Flow): Word {
    if flow.Back? || flow.TestsOut? || flow.Onwards? then 1 else 0
  }

  lemma ChainedRun(flow: Flow, p: Packet)
    requires Bytes(p) && Ranked(Chained(SetupOf(flow)), RANK)
    ensures Run(Chained(SetupOf(flow)), RANK, 0, Blank(), p) == Verdict(flow)
  {
    var g := Chained(SetupOf(flow));
    var b1, s1 := RunStep(g, RANK, 0, Blank(), p);
    assert b1 == 1 && s1[0] == 0 && s1[A_ATOM] == 6 by { Effects(Blank(), p); }
    var b2, s2 := RunStep(g, RANK, 1, s1, p);
    Effects(s1, p);
    Reads(g, RANK, s2, p);
    if !flow.PullOut? {
      assert b2 == 2;
      var b3, s3 := RunStep(g, RANK, 2, s2, p);
      Effects(s2, p);
      Reads(g, RANK, s3, p);
    }
  }

  lemma CrossedRun(flow: Flow, p: Packet)
    requires Bytes(p) && Ranked(Crossed(SetupOf(flow)), CROSSED_RANK)
    ensures Run(Crossed(SetupOf(flow)), CROSSED_RANK, 0, Blank(), p) == 1 - Verdict(flow)
  {
    var g := Crossed(SetupOf(flow));
    var b1, s1 := RunStep(g, CROSSED_RANK, 0, Blank(), p);
    assert b1 == 2 && s1[0] == 0 && s1[A_ATOM] == 6 by { Effects(Blank(), p); }
    var b2, s2 := RunStep(g, CROSSED_RANK, 2, s1, p);
    Effects(s1, p);
    Reads(g, CROSSED_RANK, s2, p);
    if !flow.TestsOut? {
      assert b2 == 1;
      var b3, s3 := RunStep(g, CROSSED_RANK, 1, s2, p);
      Effects(s2, p);
      Reads(g, CROSSED_RANK, s3, p);
    }
  }

  // ----- what the passes find -----

  /** What is known of slot 0 where the last block reads it. */
  function Kept(flow: Flow): nat {
    if flow.TestsOut? || flow.Onwards? then 1 else 0
  }

  function ValIn(flow: Flow): seq<Numbers> {
    [Num(0, 0), Num(1, 0), SetupOf(flow).mid, Num(0, Kept(flow)), Num(0, 0), Num(0, 0)]
  }

  function ValOut(flow: Flow): seq<Numbers> {
    [Num(1, 0), SetupOf(flow).mid, Num(1, 1), Num(Kept(flow), Kept(flow)), Num(0, 0), Num(0, 0)]
  }

  lemma LoadsDenote(p: Packet)
    ensures Solid(Loads(), 1) && Den(Loads(), 1, p) == p.load(SizeB, 9)
    ensures Solid(Loads(), 2) && Den(Loads(), 2, p) == p.load(SizeB, 10)
  {
  }

  lemma BlockFollows(flow: Flow, b: Id, st: State, p: Packet)
    requires b in BLOCKS && Describes(Loads(), ValIn(flow)[b], st, p)
    ensures Describes(Loads(), ValOut(flow)[b], ExecAll(Chained(SetupOf(flow))[b].stmts, st, p), p)
  {
    LoadsDenote(p);
    Effects(st, p);
    assert ValIn(flow)[b][0] == ValIn(flow)[b][0];
  }

  lemma ChainedAnnotated(flow: Flow)
    ensures Annotated(Chained(SetupOf(flow)), BLOCKS, Loads(), ValIn(flow), ValOut(flow)) && Unknown(ValIn(flow)[0])
  {
    var g := Chained(SetupOf(flow));
    forall b: Id | b in BLOCKS && b < |g| ensures FollowsAll(Loads(), ValIn(flow)[b], ValOut(flow)[b], g[b].stmts) {
      forall st: State, p: Packet | Describes(Loads(), ValIn(flow)[b], st, p)
        ensures Describes(Loads(), ValOut(flow)[b], ExecAll(g[b].stmts, st, p), p)
      {
        BlockFollows(flow, b, st, p);
      }
    }
  }

  ghost function Doms(g: Net): seq<set<Id>> {
    seq(|g|, c requires 0 <= c => DomSet(BlockStep(g), {0}, |g|, c))
  }

  lemma OneWayIn(flow: Flow, x: Id)
    ensures BlockStep(Chained(SetupOf(flow)))(x, 1) <==> x == 0
    ensures BlockStep(Chained(SetupOf(flow)))(x, 2) <==> x == 1
  {
    assert x == 0 || x == 1 || x == 2 || x == 3 || x == 4 || x == 5 || x > 5;
  }

  /** The first block of the chain dominates both. */
  lemma ChainDominated(flow: Flow)
    ensures var g := Chained(SetupOf(flow)); 1 in Doms(g)[1] && 1 in Doms(g)[2]
  {
    var g := Chained(SetupOf(flow));
    forall x: Id ensures (BlockStep(g)(x, 1) <==> x == 0) && (BlockStep(g)(x, 2) <==> x == 1) {
      OneWayIn(flow, x);
    }
    DominatesStep(BlockStep(g), {0}, 1, 1, {0});
    DominatesStep(BlockStep(g), {0}, 1, 2, {1});
  }

  lemma ChainWalked(flow: Flow)
    ensures var x := SetupOf(flow); var g := Chained(x);
      Walked(g, BLOCKS, Doms(g), true, 1, [1, 2], x.rest) && Onward(g[2], true) == x.rest
  {
    var x := SetupOf(flow);
    var g := Chained(x);
    ChainDominated(flow);
    forall i: nat | i < 2
      ensures [1, 2][i] < |g| && !g[[1, 2][i]].term.Ret? && Exit(g[[1, 2][i]], true) == x.out
      ensures Onward(g[[1, 2][i]], true) == Then([1, 2], x.rest, i)
    {
      assert i == 0 || i == 1;
    }
    assert Links(g, true, [1, 2], x.out, x.rest);
  }

  /** There is a place for a pull-up: the second block of the chain ends with the number that the
      accumulator has on the way in, and the first does not. */
  lemma ChainedSite(flow: Flow)
    ensures var g := Chained(SetupOf(flow)); Site(g, BLOCKS, Doms(g), ValOut(flow), [0], true, 1, 1, [1, 2], 0)
  {
    ChainWalked(flow);
    assert Common(ValOut(flow), [0], 1);
    assert Marks(ValOut(flow), [1, 2], 1, 0, 2);
  }

  // ----- the data flow -----

  lemma ScanFirst(s: Stmt, ss: seq<Stmt>, ud: Ud)
    ensures Scan([s] + ss, ud) == Scan(ss, Write(Read(ud, Uses(s)), Def(s)))
  {
    assert ([s] + ss)[1..] == ss;
  }

  lemma LoadUds(k: Word, a: Id, b: Id)
    ensures var ud := LocalUd(Node([BYTE], JmpK(Jeq, k), a, b)); ud.use == {} && ud.def == {A_ATOM}
    ensures var ud := LocalUd(Node([OTHER], JmpK(Jeq, k), a, b)); ud.use == {} && ud.def == {A_ATOM}
    ensures var ud := LocalUd(Node([LdMem(0)], JmpK(Jeq, k), a, b)); ud.use == {0} && ud.def == {A_ATOM}
  {
    ScanOne(BYTE, Ud({}, {}, {}));
    ScanOne(OTHER, Ud({}, {}, {}));
    ScanOne(LdMem(0), Ud({}, {}, {}));
  }

  lemma StoreUds(load: Stmt, k: Word, a: Id, b: Id)
    requires load == BYTE || load == OTHER
    ensures var ud := LocalUd(Node([load, St(0)], JmpK(Jeq, k), a, b)); ud.use == {} && ud.def == {A_ATOM, 0}
    ensures var ud := LocalUd(Node([load, St(0), OTHER], JmpK(Jeq, k), a, b)); ud.use == {} && ud.def == {A_ATOM, 0}
  {
    var ud := Write(Read(Ud({}, {}, {}), Uses(load)), Def(load));
    ScanOne(St(0), ud);
    ScanFirst(load, [St(0), OTHER], Ud({}, {}, {}));
    ScanOne(OTHER, Write(Read(ud, Uses(St(0))), Def(St(0))));
  }

  lemma LiveBehind(flow: Flow)
    requires Ranked(Chained(SetupOf(flow)), RANK)
    ensures var g := Chained(SetupOf(flow));
      LiveIn(g, RANK, 3) == {0} && LiveIn(g, RANK, 4) == {} && LiveIn(g, RANK, 5) == {}
  {
    var g := Chained(SetupOf(flow));
    LoadUds(6, 4, 5);
    assert LocalUd(g[4]).use == {} && LocalUd(g[5]).use == {};
    assert LiveOut(g, RANK, 4) == {} && LiveOut(g, RANK, 5) == {};
    assert LiveOut(g, RANK, 3) == {};
  }

  /** Data flows in this one way. */
  lemma OneFlow(flow: Flow)
    requires Ranked(Chained(SetupOf(flow)), RANK)
    ensures var x := SetupOf(flow); var g := Chained(x);
      OnlyFlow(flow, Nodes(g, [1]), At(g, 2), LiveIn(g, RANK, x.out), LiveIn(g, RANK, x.rest))
  {
    var x := SetupOf(flow);
    var g := Chained(x);
    LiveBehind(flow);
    LoadUds(x.k, 0, 0);
    LoadUds(x.k', 0, 0);
    StoreUds(BYTE, x.k, 0, 0);
    StoreUds(OTHER, x.k, 0, 0);
    StoreUds(BYTE, x.k', 0, 0);
    assert Nodes(g, [1]) == [At(g, 1)] && [At(g, 1)][1..] == [];
    assert AllDefs([At(g, 1)]) == Defs(At(g, 1));
  }

  /** So the test is not independent of the one it passes. */
  lemma NotIndependent(flow: Flow)
    requires Ranked(Chained(SetupOf(flow)), RANK)
    ensures var x := SetupOf(flow); var g := Chained(x);
      !(Apart(Nodes(g, [1]), At(g, 2))
        && Unseen(Nodes(g, [1]), At(g, 2), LiveIn(g, RANK, x.out), LiveIn(g, RANK, x.rest)))
  {
    var x := SetupOf(flow);
    var g := Chained(x);
    var ns, pull, out, rest := Nodes(g, [1]), At(g, 2), LiveIn(g, RANK, x.out), LiveIn(g, RANK, x.rest);
    OneFlow(flow);
    assert Flows(flow, ns, pull, out, rest);
    NoFlow(ns, pull, out, rest);
  }

  /** Whichever of the five ways data flows, even if it is the only one, the pull-up that the code
      makes can change the verdict. */
  lemma EveryFlowMatters(flow: Flow, p: Packet)
    requires Bytes(p)
    ensures var x, rk, rk' := SetupOf(flow), RANK, CROSSED_RANK;
      var g, g' := Chained(x), Crossed(x);
      && Ranked(g, rk) && Ranked(g', rk') && Closed(g, BLOCKS)
      && Annotated(g, BLOCKS, Loads(), ValIn(flow), ValOut(flow)) && Unknown(ValIn(flow)[0])
      && Site(g, BLOCKS, Doms(g), ValOut(flow), [0], true, 1, 1, [1, 2], 0)
      && OnlyFlow(flow, Nodes(g, [1]), At(g, 2), LiveIn(g, rk, x.out), LiveIn(g, rk, x.rest))
      && !(Apart(Nodes(g, [1]), At(g, 2))
           && Unseen(Nodes(g, [1]), At(g, 2), LiveIn(g, rk, x.out), LiveIn(g, rk, x.rest)))
      && Moved(g, g', BLOCKS, true, [1, 2], 0, x.rest)
      && Run(g', rk', 0, Blank(), p) != Run(g, rk, 0, Blank(), p)
  {
    BothRanked(flow);
    ChainedAnnotated(flow);
    ChainedSite(flow);
    OneFlow(flow);
    NotIndependent(flow);
    CrossedMoved(flow);
    ChainedRun(flow, p);
    CrossedRun(flow, p);
  }
}
