/** Graphs on which the redirections of opt_j change a verdict: one for each condition under
    which they provably do not. */
module Conflicts {
  import opened Bpf
  import opened Graph
  import opened Liveness
  import opened Stateless
  import opened ValueNumbers
  import opened Renumbering
  import opened Dominators
  import opened EdgeFold
  import opened Threading

  /** The numbers F gives out here: the byte at 9, and the constants. */
  function Table0(): Table {
    [Triple(Abs(SizeB), 9, 0), Triple(Imm, 6, 0), Triple(Imm, 5, 0), Triple(Imm, 1, 0), Triple(Imm, 0, 0)]
  }

  /** The accumulator has the number a, slot 0 the number m, and nothing else is known. */
  function Num(a: nat, m: nat): (val: Numbers)
    ensures val[A_ATOM] == a && val[0] == m && forall b: Atom :: b != A_ATOM && b != 0 ==> val[b] == 0
  {
    seq(18, i => if i == A_ATOM then a else if i == 0 then m else 0)
  }

  const BYTE: Stmt := LdAbs(SizeB, 9)

  lemma OneStmt(s: Stmt, st: State, p: Packet)
    ensures ExecAll([s], st, p) == Exec(s, st, p)
  {
  }

  lemma TwoStmts(s: Stmt, s': Stmt, st: State, p: Packet)
    ensures ExecAll([s, s'], st, p) == Exec(s', Exec(s, st, p), p)
  {
    assert [s, s'][1..] == [s'];
    OneStmt(s', Exec(s, st, p), p);
  }

  /** What the blocks below do to the numbers. */
  lemma BlocksFollow(a: nat, m: nat)
    requires a <= 1 && m <= 1
    ensures FollowsAll(Table0(), Num(a, m), Num(1, m), [BYTE])
    ensures FollowsAll(Table0(), Num(a, m), Num(1, 1), [BYTE, St(0)])
    ensures FollowsAll(Table0(), Num(a, m), Num(m, m), [LdMem(0)])
    ensures FollowsAll(Table0(), Num(a, m), Num(a, m), [])
  {
    var T := Table0();
    forall st: State, p: Packet | Describes(T, Num(a, m), st, p)
      ensures Describes(T, Num(1, m), ExecAll([BYTE], st, p), p)
      ensures Describes(T, Num(1, 1), ExecAll([BYTE, St(0)], st, p), p)
      ensures Describes(T, Num(m, m), ExecAll([LdMem(0)], st, p), p)
    {
      OneStmt(BYTE, st, p);
      TwoStmts(BYTE, St(0), st, p);
      OneStmt(LdMem(0), st, p);
    }
  }

  // ----- an atom use_conflict does not compare -----

  /** A test of the byte at 9 whose true edge leads to the same test again; that block also
      stores the byte in slot 0, and the block behind it loads the slot and compares it. */
  function Stored(): Net {
    [Node([BYTE], JmpK(Jeq, 6), 1, 4), Node([BYTE, St(0)], JmpK(Jeq, 6), 2, 4),
     Node([LdMem(0)], JmpK(Jgt, 5), 3, 4), Node([], Ret(1), 0, 0), Node([], Ret(0), 0, 0)]
  }

  const STORED_RANK: Rank := [3, 2, 1, 0, 0]
  const STORED_BLOCKS: set<Id> := {0, 1, 2, 3, 4}

  function StoredIn(): seq<Numbers> {
    [Num(0, 0), Num(1, 0), Num(1, 1), Num(1, 1), Num(1, 0)]
  }

  function StoredOut(): seq<Numbers> {
    [Num(1, 0), Num(1, 1), Num(1, 1), Num(1, 1), Num(1, 0)]
  }

  const STORED_OPERANDS: seq<nat> := [2, 2, 3, 4, 5]

  /** The graph once opt_j has moved the true edge of the first block. */
  function StoredMoved(): Net {
    Stored()[0 := Redirect(Stored()[0], true, 2)]
  }

  lemma StoredFollows(b: Id)
    requires b in STORED_BLOCKS
    ensures FollowsAll(Table0(), StoredIn()[b], StoredOut()[b], Stored()[b].stmts)
  {
    if b == 0 {
      BlocksFollow(0, 0);
    } else if b == 1 || b == 4 {
      BlocksFollow(1, 0);
    } else {
      BlocksFollow(1, 1);
    }
  }

  lemma StoredCarries(b: Id)
    requires b in STORED_BLOCKS && !Stored()[b].term.Ret?
    ensures Carries(StoredOut()[b], StoredIn()[Stored()[b].jt]) && Carries(StoredOut()[b], StoredIn()[Stored()[b].jf])
  {
  }

  /** These are right about the graph, and every test reads known values. */
  lemma StoredAnnotated()
    ensures Annotated(Stored(), STORED_BLOCKS, Table0(), StoredIn(), StoredOut()) && Unknown(StoredIn()[0])
    ensures TestsKnown(Stored(), STORED_BLOCKS, Table0(), StoredOut(), STORED_OPERANDS)
  {
    var g := Stored();
    forall b: Id | b in STORED_BLOCKS && b < |g|
      ensures FollowsAll(Table0(), StoredIn()[b], StoredOut()[b], g[b].stmts)
      ensures TestKnown(Table0(), g[b].term, StoredOut()[b], STORED_OPERANDS[b])
      ensures !g[b].term.Ret? ==>
        Carries(StoredOut()[b], StoredIn()[g[b].jt]) && Carries(StoredOut()[b], StoredIn()[g[b].jf])
    {
      StoredFollows(b);
      if !g[b].term.Ret? {
        StoredCarries(b);
      }
    }
  }

  lemma StoredLive()
    requires Ranked(Stored(), STORED_RANK)
    ensures LiveOut(Stored(), STORED_RANK, 2) == {} && 0 in LiveIn(Stored(), STORED_RANK, 2)
  {
    var g := Stored();
    assert LocalUd(g[3]).use == {} && LocalUd(g[4]).use == {};
    assert LiveIn(g, STORED_RANK, 3) == {} && LiveIn(g, STORED_RANK, 4) == {};
    BlockUses(g[2]);
  }

  lemma ScanOne(s: Stmt, ud: Ud)
    ensures Scan([s], ud) == Write(Read(ud, Uses(s)), Def(s))
  {
    var next := Write(Read(ud, Uses(s)), Def(s));
    assert [s][1..] == [] && Scan([], next) == next;
  }

  /** What a block reads that tests the accumulator against a constant. */
  lemma BlockUses(n: Node)
    requires n.term.JmpK?
    ensures n.stmts == [LdMem(0)] ==> LocalUd(n).use == {0}
    ensures n.stmts == [BYTE] ==> LocalUd(n).use == {}
    ensures n.stmts == [BYTE, St(0)] ==> LocalUd(n).use == {} && 0 in LocalUd(n).kill
  {
    var none := Ud({}, {}, {});
    ScanOne(LdMem(0), none);
    ScanOne(BYTE, none);
    ScanOne(St(0), Write(Read(none, Uses(BYTE)), Def(BYTE)));
  }

  /** The state in which the first block leaves a cleared machine on such a packet. */
  function Six(): State {
    Blank()[A_ATOM := 6]
  }

  lemma StoredRuns(p: Packet)
    requires p.load(SizeB, 9) == 6 && Ranked(Stored(), STORED_RANK) && Ranked(StoredMoved(), STORED_RANK)
    ensures Run(Stored(), STORED_RANK, 0, Blank(), p) == 1 && Run(StoredMoved(), STORED_RANK, 0, Blank(), p) == 0
  {
    var g, g' := Stored(), StoredMoved();
    OneStmt(BYTE, Blank(), p);
    OneStmt(LdMem(0), Six(), p);
    TwoStmts(BYTE, St(0), Six(), p);
    var stored: State := Six()[0 := 6];
    assert ExecAll(g[1].stmts, Six(), p) == stored by {
      assert Six()[A_ATOM := 6] == Six();
    }
    OneStmt(LdMem(0), stored, p);
    assert Run(g, STORED_RANK, 2, stored, p) == 1 && Run(g', STORED_RANK, 2, Six(), p) == 0;
    assert Run(g, STORED_RANK, 1, Six(), p) == 1;
  }

  /** Only edge 0 dominates edge 0: it leaves the root. */
  lemma RootEdgeAlone(g: Net)
    requires |g| > 0
    ensures DomSet(EdgeStep(g), RootEdges(|g|, 0), 2 * |g|, 0) == {0}
  {
    var step, starts := EdgeStep(g), RootEdges(|g|, 0);
    assert Path(step, starts, [0], 0);
    forall s | Path(step, starts, s, 0) ensures 0 in s {
      assert s[|s| - 1] == 0;
    }
  }

  /** The first block's true edge moves to the third block and no further. */
  lemma StoredFolds(outUse: seq<set<Atom>>)
    requires |outUse| == |Stored()|
    ensures FoldAt(Stored(), StoredOut(), STORED_OPERANDS, 1, 0) == Some(2)
    ensures Succ(StoredMoved(), 0) == 2
    ensures Stuck(StoredMoved(), StoredOut(), STORED_OPERANDS, outUse, {0}, 0, 2 * |Stored()|)
  {
    assert FoldAt(StoredMoved(), StoredOut(), STORED_OPERANDS, 2, 0) == None;
  }

  /** use_conflict compares the atoms that are live out of the target. An atom that is live into
      it only is not compared: here the first test fixes the second, no atom is live out of the
      third block, and slot 0, whose known value the third block reads, is not yet stored at the
      end of the first. opt_j moves the first block's true edge to the third block, no dominating
      edge moves it on, and the verdict has changed. */
  lemma UseConflictMisses(p: Packet, outUse: seq<set<Atom>>)
    requires p.load(SizeB, 9) == 6 && |outUse| == |Stored()|
    ensures var g, g', rk, T, vin, val, oval :=
        Stored(), StoredMoved(), STORED_RANK, Table0(), StoredIn(), StoredOut(), STORED_OPERANDS;
      && Ranked(g, rk) && Ranked(g', rk) && Closed(g, STORED_BLOCKS) && Annotated(g, STORED_BLOCKS, T, vin, val)
      && Unknown(vin[0]) && TestsKnown(g, STORED_BLOCKS, T, val, oval)
      && DomSet(EdgeStep(g), RootEdges(|g|, 0), 2 * |g|, 0) == {0}
      && FoldAt(g, val, oval, 1, 0) == Some(2) && !UseConflict(val[0], val[2], LiveOut(g, rk, 2))
      && Succ(g', 0) == 2 && Stuck(g', val, oval, outUse, {0}, 0, 2 * |g|)
      && 0 in LiveIn(g, rk, 2) && !Inherits(T, val[0], vin[2], LiveIn(g, rk, 2))
      && Run(g, rk, 0, Blank(), p) == 1 && Run(g', rk, 0, Blank(), p) == 0
  {
    StoredAnnotated();
    StoredLive();
    StoredRuns(p);
    RootEdgeAlone(Stored());
    StoredFolds(outUse);
  }

  // ----- tests of unknown values -----

  /** Tests of two slots nothing is known of. */
  function Unset(): Net {
    [Node([LdMem(0)], JmpK(Jeq, 6), 1, 3), Node([LdMem(1)], JmpK(Jeq, 6), 2, 3),
     Node([], Ret(1), 0, 0), Node([], Ret(0), 0, 0)]
  }

  const UNSET_RANK: Rank := [2, 1, 0, 0]
  const UNSET_OPERANDS: seq<nat> := [2, 2, 4, 5]

  function UnsetMoved(): Net {
    Unset()[0 := Redirect(Unset()[0], true, 2)]
  }

  function UnsetOut(): seq<Numbers> {
    seq(4, i => Num(0, 0))
  }

  lemma UnsetRanked()
    ensures Ranked(Unset(), UNSET_RANK) && Ranked(UnsetMoved(), UNSET_RANK)
  {
  }

  lemma UnsetAnnotated()
    ensures Annotated(Unset(), {0, 1, 2, 3}, Table0(), UnsetOut(), UnsetOut())
  {
    var g := Unset();
    forall b: Id | b < |g| ensures FollowsAll(Table0(), UnsetOut()[b], UnsetOut()[b], g[b].stmts) {
    }
  }

  lemma UnsetUnknown()
    ensures !TestsKnown(Unset(), {0, 1, 2, 3}, Table0(), UnsetOut(), UNSET_OPERANDS)
  {
    var g := Unset();
    assert A_ATOM in TermUses(g[0].term) && !TestKnown(Table0(), g[0].term, UnsetOut()[0], 2) && 0 in {0, 1, 2, 3};
  }

  lemma UnsetRuns(st: State, p: Packet)
    requires st[0] == 6 && st[1] != 6 && Ranked(Unset(), UNSET_RANK) && Ranked(UnsetMoved(), UNSET_RANK)
    ensures Run(Unset(), UNSET_RANK, 0, st, p) == 0 && Run(UnsetMoved(), UNSET_RANK, 0, st, p) == 1
  {
    OneStmt(LdMem(0), st, p);
    var st1: State := st[A_ATOM := 6];
    OneStmt(LdMem(1), st1, p);
    assert Run(Unset(), UNSET_RANK, 1, st1, p) == 0 && Run(UnsetMoved(), UNSET_RANK, 2, st1, p) == 1;
  }

  lemma UnsetFolds()
    requires Ranked(Unset(), UNSET_RANK)
    ensures forall b :: 0 <= b < 4 ==> OperandNumbered(Table0(), Unset()[b].term, UnsetOut()[b], UNSET_OPERANDS[b])
    ensures FoldAt(Unset(), UnsetOut(), UNSET_OPERANDS, 1, 0) == Some(2)
    ensures !UseConflict(UnsetOut()[0], UnsetOut()[2], LiveOut(Unset(), UNSET_RANK, 2))
    ensures !Settled(Table0(), Jeq, UnsetOut()[1][A_ATOM], UNSET_OPERANDS[1])
  {
    assert LiveOut(Unset(), UNSET_RANK, 2) == {};
    SettledConstant(Table0(), Unset()[1].term, UnsetOut()[1], UNSET_OPERANDS[1]);
  }

  /** fold_edge compares numbers, and two unknown values share the number 0: it takes the second
      test for the first, and the verdict changes from a state in which the slots differ. */
  lemma UnknownFolds(st: State, p: Packet)
    requires st[0] == 6 && st[1] != 6
    ensures var g, g', rk, val, oval := Unset(), UnsetMoved(), UNSET_RANK, UnsetOut(), UNSET_OPERANDS;
      && Ranked(g, rk) && Ranked(g', rk) && Annotated(g, {0, 1, 2, 3}, Table0(), val, val)
      && (forall b :: 0 <= b < 4 ==> OperandNumbered(Table0(), g[b].term, val[b], oval[b]))
      && !TestsKnown(g, {0, 1, 2, 3}, Table0(), val, oval) && !Settled(Table0(), Jeq, val[1][A_ATOM], oval[1])
      && FoldAt(g, val, oval, 1, 0) == Some(2) && !UseConflict(val[0], val[2], LiveOut(g, rk, 2))
      && Run(g, rk, 0, st, p) == 0 && Run(g', rk, 0, st, p) == 1
  {
    UnsetRanked();
    UnsetAnnotated();
    UnsetUnknown();
    UnsetFolds();
    UnsetRuns(st, p);
  }

  // ----- two redirections -----

  /** Two pairs of equal tests; the second block of each stores the byte in slot 0, and the last
      block reads that. */
  function Twice(): Net {
    [Node([BYTE], JmpK(Jeq, 6), 1, 6), Node([BYTE, St(0)], JmpK(Jeq, 6), 2, 6),
     Node([BYTE], JmpK(Jgt, 5), 3, 6), Node([BYTE, St(0)], JmpK(Jgt, 5), 4, 6),
     Node([LdMem(0)], JmpK(Jge, 6), 5, 6), Node([], Ret(1), 0, 0), Node([], Ret(0), 0, 0)]
  }

  const TWICE_RANK: Rank := [5, 4, 3, 2, 1, 0, 0]
  const TWICE_BLOCKS: set<Id> := {0, 1, 2, 3, 4, 5, 6}

  function TwiceIn(): seq<Numbers> {
    [Num(0, 0), Num(1, 0), Num(1, 1), Num(1, 1), Num(1, 1), Num(1, 1), Num(1, 0)]
  }

  function TwiceOut(): seq<Numbers> {
    [Num(1, 0), Num(1, 1), Num(1, 1), Num(1, 1), Num(1, 1), Num(1, 1), Num(1, 0)]
  }

  const TWICE_OPERANDS: seq<nat> := [2, 2, 3, 3, 2, 4, 5]

  /** The graph once opt_j has moved the true edges of the third and of the first block. */
  function TwiceMoved(): Net {
    Twice()[2 := Redirect(Twice()[2], true, 4)][0 := Redirect(Twice()[0], true, 2)]
  }

  lemma TwiceRanked()
    ensures Ranked(Twice(), TWICE_RANK) && Closed(Twice(), TWICE_BLOCKS)
  {
  }

  lemma TwiceMovedRanked()
    ensures Ranked(TwiceMoved(), TWICE_RANK)
  {
  }

  lemma TwiceFollows(b: Id)
    requires b in TWICE_BLOCKS
    ensures FollowsAll(Table0(), TwiceIn()[b], TwiceOut()[b], Twice()[b].stmts)
  {
    if b == 0 {
      BlocksFollow(0, 0);
    } else if b == 1 || b == 6 {
      BlocksFollow(1, 0);
    } else {
      BlocksFollow(1, 1);
    }
  }

  lemma TwiceCarries(b: Id)
    requires b in TWICE_BLOCKS && !Twice()[b].term.Ret?
    ensures Carries(TwiceOut()[b], TwiceIn()[Twice()[b].jt]) && Carries(TwiceOut()[b], TwiceIn()[Twice()[b].jf])
  {
  }

  lemma TwiceAnnotated()
    ensures Annotated(Twice(), TWICE_BLOCKS, Table0(), TwiceIn(), TwiceOut()) && Unknown(TwiceIn()[0])
    ensures TestsKnown(Twice(), TWICE_BLOCKS, Table0(), TwiceOut(), TWICE_OPERANDS)
  {
    var g := Twice();
    forall b: Id | b in TWICE_BLOCKS && b < |g|
      ensures FollowsAll(Table0(), TwiceIn()[b], TwiceOut()[b], g[b].stmts)
      ensures TestKnown(Table0(), g[b].term, TwiceOut()[b], TWICE_OPERANDS[b])
      ensures !g[b].term.Ret? ==>
        Carries(TwiceOut()[b], TwiceIn()[g[b].jt]) && Carries(TwiceOut()[b], TwiceIn()[g[b].jf])
    {
      TwiceFollows(b);
      if !g[b].term.Ret? {
        TwiceCarries(b);
      }
    }
  }

  lemma TwiceLive()
    requires Ranked(Twice(), TWICE_RANK)
    ensures var g, rk := Twice(), TWICE_RANK;
      LiveOut(g, rk, 2) == {} && LiveIn(g, rk, 2) == {} && LiveOut(g, rk, 4) == {} && LiveIn(g, rk, 4) <= {0}
  {
    var g, rk := Twice(), TWICE_RANK;
    assert LiveIn(g, rk, 5) == {} && LiveIn(g, rk, 6) == {};
    assert LiveOut(g, rk, 4) == {};
    BlockUses(g[4]);
    BlockUses(g[3]);
    assert LiveIn(g, rk, 3) == {};
    BlockUses(g[2]);
  }

  lemma TwiceRuns(p: Packet)
    requires p.load(SizeB, 9) == 6 && Ranked(Twice(), TWICE_RANK) && Ranked(TwiceMoved(), TWICE_RANK)
    ensures Run(Twice(), TWICE_RANK, 0, Blank(), p) == 1 && Run(TwiceMoved(), TWICE_RANK, 0, Blank(), p) == 0
  {
    var g, g', rk := Twice(), TwiceMoved(), TWICE_RANK;
    var stored: State := Six()[0 := 6];
    assert Six()[A_ATOM := 6] == Six() && stored[A_ATOM := 6] == stored && stored[0 := 6] == stored;
    OneStmt(BYTE, Blank(), p);
    OneStmt(BYTE, Six(), p);
    OneStmt(BYTE, stored, p);
    TwoStmts(BYTE, St(0), Six(), p);
    TwoStmts(BYTE, St(0), stored, p);
    OneStmt(LdMem(0), stored, p);
    OneStmt(LdMem(0), Six(), p);
    assert Run(g, rk, 4, stored, p) == 1 && Run(g', rk, 4, Six(), p) == 0;
    assert Run(g, rk, 3, stored, p) == 1;
    assert Run(g, rk, 2, stored, p) == 1 && Run(g', rk, 2, Six(), p) == 0;
    assert Run(g, rk, 1, Six(), p) == 1;
  }

  ghost function EdgeDoms(g: Net): seq<set<nat>>
    requires |g| > 0
  {
    seq(2 * |g|, e requires 0 <= e => DomSet(EdgeStep(g), RootEdges(|g|, 0), 2 * |g|, e))
  }

  lemma TwiceStep(b: nat)
    requires b < 3
    ensures EdgeStep(Twice())(b, b + 1)
  {
    var n := Twice()[b];
    assert n.jt == b + 1 && !n.term.Ret? && Succ(Twice(), b) == n.jt;
  }

  /** The true edges of the first four blocks are dominated by edges of blocks above only. */
  lemma TwiceDominators(e: nat, k: nat)
    requires e < 4 && Ranked(Twice(), TWICE_RANK) && k in EdgeDoms(Twice())[e]
    ensures k < 14 && Pred(7, k) <= e
  {
    var g := Twice();
    var step, starts, s := EdgeStep(g), RootEdges(|g|, 0), [0, 1, 2, 3][..e + 1];
    TwiceStep(0);
    TwiceStep(1);
    TwiceStep(2);
    assert Path(step, starts, [0], 0);
    PathExtend(step, starts, [0], 0, 1);
    PathExtend(step, starts, [0, 1], 1, 2);
    PathExtend(step, starts, [0, 1, 2], 2, 3);
    assert s == if e == 0 then [0] else if e == 1 then [0] + [1] else if e == 2 then [0, 1] + [2] else [0, 1, 2] + [3];
    assert [0] + [1] == [0, 1] && [0, 1] + [2] == [0, 1, 2];
    assert k in s;
    PathAbove(g, TWICE_RANK, starts, s, e, k);
  }

  lemma TwiceEdge(e: nat, outUse: seq<set<Atom>>)
    requires |outUse| == 7 && Ranked(Twice(), TWICE_RANK) && Branch(Twice(), TWICE_BLOCKS, e)
    ensures Settles(Twice(), TwiceMoved(), TwiceOut(), TWICE_OPERANDS, outUse, EdgeDoms(Twice())[e], e)
  {
    var g', edges := TwiceMoved(), EdgeDoms(Twice())[e];
    assert e < 5 || 7 <= e < 12;
    if e < 4 {
      forall k: nat | k in edges && k < 14 ensures Rejected(g', TwiceOut(), TWICE_OPERANDS, outUse, e, k) {
        TwiceDominators(e, k);
      }
    }
  }

  lemma TwiceSettles(outUse: seq<set<Atom>>)
    requires |outUse| == 7 && Ranked(Twice(), TWICE_RANK)
    ensures AllSettle(Twice(), TWICE_BLOCKS, Twice(), TwiceMoved(), TwiceOut(), TWICE_OPERANDS, outUse,
                      EdgeDoms(Twice()))
  {
    assert SameBlocks(Twice(), TwiceMoved());
    forall e: nat | Branch(Twice(), TWICE_BLOCKS, e)
      ensures Settles(Twice(), TwiceMoved(), TwiceOut(), TWICE_OPERANDS, outUse, EdgeDoms(Twice())[e], e)
    {
      TwiceEdge(e, outUse);
    }
  }

  /** Each of two redirections keeps the verdict, and both together change it: the first block
      now goes past the one store that the redirection of the third relied on, in an atom that
      was not live there. The second loop of opt_blks makes both, on sets found before either, and
      then nothing is left to do for any edge. */
  lemma TwoRedirectionsMiss(p: Packet, outUse: seq<set<Atom>>)
    requires p.load(SizeB, 9) == 6 && |outUse| == |Twice()|
    ensures var g, g', rk, T := Twice(), TwiceMoved(), TWICE_RANK, Table0();
      var vin, val, oval := TwiceIn(), TwiceOut(), TWICE_OPERANDS;
      && Ranked(g, rk) && Ranked(g', rk) && Closed(g, TWICE_BLOCKS) && Annotated(g, TWICE_BLOCKS, T, vin, val)
      && Unknown(vin[0]) && TestsKnown(g, TWICE_BLOCKS, T, val, oval)
      && FoldAt(g, val, oval, 3, 2) == Some(4) && Inherits(T, val[2], vin[4], LiveIn(g, rk, 4))
      && FoldAt(g, val, oval, 1, 0) == Some(2) && Inherits(T, val[0], vin[2], LiveIn(g, rk, 2))
      && !UseConflict(val[2], val[4], LiveOut(g, rk, 4)) && !UseConflict(val[0], val[2], LiveOut(g, rk, 2))
      && AllSettle(g, TWICE_BLOCKS, g, g', val, oval, outUse, EdgeDoms(g))
      && Run(g, rk, 0, Blank(), p) == 1 && Run(g', rk, 0, Blank(), p) == 0
  {
    TwiceRanked();
    TwiceMovedRanked();
    TwiceAnnotated();
    TwiceLive();
    TwiceRuns(p);
    TwiceSettles(outUse);
  }
}
