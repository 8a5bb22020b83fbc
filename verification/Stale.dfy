/** A graph on which opt_blk removes a store as dead, while a block behind it drops its own store of
    the same value: the value number has outlived the store it stood for. */
module Stale {
  import opened Bpf
  import opened Graph
  import opened Liveness
  import opened Stateless
  import opened ValueNumbers
  import opened Folding
  import opened Renumbering
  import opened Trimming
  import opened Conflicts

  /** A test of the byte at 9, then one of the same byte against the length of the packet. Both
      blocks store the byte in slot 0 and load it from there, and neither reads anything it has not
      defined. */
  function Twofold(): Net {
    [Node([BYTE, St(0), LdMem(0)], JmpK(Jeq, 6), 1, 3),
     Node([BYTE, St(0), LdLen, Tax, LdMem(0)], JmpX(Jgt), 2, 3), Node([], Ret(1), 0, 0), Node([], Ret(0), 0, 0)]
  }

  /** opt_stmt drops the load of the first block, and load and store of the second. */
  function Thinned(): Net {
    [Node([BYTE, St(0), Nop], JmpK(Jeq, 6), 1, 3), Node([Nop, Nop, LdLen, Tax, LdMem(0)], JmpX(Jgt), 2, 3),
     Node([], Ret(1), 0, 0), Node([], Ret(0), 0, 0)]
  }

  /** Now the store of the first block is dead. */
  function Trimmings(): Net {
    Thinned()[0 := Node([BYTE, Nop, Nop], JmpK(Jeq, 6), 1, 3)]
  }

  const RANKS: Rank := [2, 1, 0, 0]
  const ALL: set<Id> := {0, 1, 2, 3}
  const INS: seq<seq<nat>> := [[], [0], [1], [5, 4]]

  function Table1(): Table {
    [Triple(Abs(SizeB), 9, 0), Triple(Imm, 6, 0), Triple(Len, 0, 0), Triple(Imm, 1, 0), Triple(Imm, 0, 0)]
  }

  /** The numbers of accumulator, index register and slot 0; nothing else is known. */
  function Val(a: nat, x: nat, m: nat): (val: Numbers)
    ensures val[A_ATOM] == a && val[X_ATOM] == x && val[0] == m
    ensures forall b: Atom :: b != A_ATOM && b != X_ATOM && b != 0 ==> val[b] == 0
  {
    seq(18, i => if i == A_ATOM then a else if i == X_ATOM then x else if i == 0 then m else 0)
  }

  function Ins(): seq<Numbers> {
    [Val(0, 0, 0), Val(1, 0, 1), Val(1, 3, 1), Val(1, 0, 1)]
  }

  function Outs(): seq<Numbers> {
    [Val(1, 0, 1), Val(1, 3, 1), Val(1, 3, 1), Val(1, 0, 1)]
  }

  const OPERANDS: seq<nat> := [2, 3, 4, 5]
  const NONE_LIVE: seq<set<Atom>> := [{}, {}, {}, {}]

  // ----- the statements -----

  /** A transfer that brings a new number stays. */
  lemma Stays(val: Numbers, s: Stmt, v: nat, val': Numbers)
    requires Bounded(Table1(), val) && Transfers(s) && Numbered(Table1(), val, s, v) && val[Def(s).value] != v
    requires val' == val[Def(s).value := v] && (s.LdMem? ==> Konst(Table1(), v).None?) && !s.LdInd? && !s.LdxMem?
    ensures Leads(Table1(), val, s, val', s, true)
  {
    assert Ordered(Table1());
    StoreStep(Table1(), val, s, s, Def(s).value, v);
  }

  /** One that brings the number that is there is dropped. */
  lemma Goes(val: Numbers, s: Stmt)
    requires Bounded(Table1(), val) && Transfers(s) && Numbered(Table1(), val, s, val[Def(s).value])
    ensures Leads(Table1(), val, s, val, Nop, true)
  {
    assert Ordered(Table1());
    DropStep(Table1(), val, s, s, Def(s).value, val[Def(s).value]);
  }

  const FIRST_VALS: seq<Numbers> := [Val(0, 0, 0), Val(1, 0, 0), Val(1, 0, 1), Val(1, 0, 1)]

  lemma FirstLeads(i: nat)
    requires i < 3
    ensures Leads(Table1(), FIRST_VALS[i], Twofold()[0].stmts[i], FIRST_VALS[i + 1], Thinned()[0].stmts[i], true)
  {
    if i == 0 {
      Stays(Val(0, 0, 0), BYTE, 1, Val(1, 0, 0));
    } else if i == 1 {
      Stays(Val(1, 0, 0), St(0), 1, Val(1, 0, 1));
    } else {
      Goes(Val(1, 0, 1), LdMem(0));
    }
  }

  lemma FirstBlock()
    ensures BlockDone(Table1(), Twofold()[0], Thinned()[0], Ins()[0], Outs()[0], true)
  {
    forall i: nat | i < 3
      ensures Leads(Table1(), FIRST_VALS[i], Twofold()[0].stmts[i], FIRST_VALS[i + 1], Thinned()[0].stmts[i], true)
    {
      FirstLeads(i);
    }
    assert BlockTrail(Table1(), FIRST_VALS, Twofold()[0], Thinned()[0], Ins()[0], Outs()[0], true);
  }

  const SECOND_VALS: seq<Numbers> :=
    [Val(1, 0, 1), Val(1, 0, 1), Val(1, 0, 1), Val(3, 0, 1), Val(3, 3, 1), Val(1, 3, 1)]

  lemma SecondGoes(i: nat)
    requires i < 2
    ensures Leads(Table1(), SECOND_VALS[i], Twofold()[1].stmts[i], SECOND_VALS[i + 1], Thinned()[1].stmts[i], true)
  {
    Goes(Val(1, 0, 1), if i == 0 then BYTE else St(0));
  }

  lemma SecondStays(i: nat)
    requires 2 <= i < 5
    ensures Leads(Table1(), SECOND_VALS[i], Twofold()[1].stmts[i], SECOND_VALS[i + 1], Thinned()[1].stmts[i], true)
  {
    if i == 2 {
      Stays(Val(1, 0, 1), LdLen, 3, Val(3, 0, 1));
    } else if i == 3 {
      Stays(Val(3, 0, 1), Tax, 3, Val(3, 3, 1));
    } else {
      Stays(Val(3, 3, 1), LdMem(0), 1, Val(1, 3, 1));
    }
  }

  lemma SecondBlock()
    ensures BlockDone(Table1(), Twofold()[1], Thinned()[1], Ins()[1], Outs()[1], true)
  {
    forall i: nat | i < 5
      ensures Leads(Table1(), SECOND_VALS[i], Twofold()[1].stmts[i], SECOND_VALS[i + 1], Thinned()[1].stmts[i], true)
    {
      if i < 2 {
        SecondGoes(i);
      } else {
        SecondStays(i);
      }
    }
    assert BlockTrail(Table1(), SECOND_VALS, Twofold()[1], Thinned()[1], Ins()[1], Outs()[1], true);
  }

  lemma LastBlocks(b: Id)
    requires b == 2 || b == 3
    ensures BlockDone(Table1(), Twofold()[b], Thinned()[b], Ins()[b], Outs()[b], true)
  {
    assert BlockTrail(Table1(), [Ins()[b]], Twofold()[b], Thinned()[b], Ins()[b], Outs()[b], true);
  }

  /** What the predecessors agree on. */
  lemma EntryAt(b: Id)
    requires b in ALL
    ensures Entry(INS[b], Outs(), Ins()[b])
  {
    var edges := INS[b];
    forall a: Atom, v: nat | edges != [] && Agreed(Outs(), edges, |edges|, a, v) ensures Ins()[b][a] == v {
      assert Outs()[Pred(4, edges[0])][a] == v;
      if b == 3 {
        assert edges[1] == 4 && Outs()[Pred(4, edges[1])][a] == v;
      }
    }
  }

  lemma ThinnedNumbered()
    ensures BlocksNumbered(Twofold(), Thinned(), INS, ALL, Table1(), Ins(), Outs(), OPERANDS, true)
  {
    var g := Twofold();
    forall b: Id | b < |g| && b in ALL
      ensures NumberedAt(g, Thinned(), INS, Table1(), Ins(), Outs(), OPERANDS, true, b)
      ensures forall e :: e in INS[b] ==> From(g, e, ALL)
    {
      FirstBlock();
      SecondBlock();
      if b >= 2 {
        LastBlocks(b);
      }
      EntryAt(b);
    }
  }

  // ----- the stores -----

  lemma Steps3(s0: Stmt, s1: Stmt, s2: Stmt, st: State, p: Packet)
    ensures ExecAll([s0, s1, s2], st, p) == Exec(s2, Exec(s1, Exec(s0, st, p), p), p)
  {
    assert [s0, s1, s2][1..] == [s1, s2];
    TwoStmts(s1, s2, Exec(s0, st, p), p);
  }

  lemma Steps5(s0: Stmt, s1: Stmt, s2: Stmt, s3: Stmt, s4: Stmt, st: State, p: Packet)
    ensures var mid := Exec(s1, Exec(s0, st, p), p);
      ExecAll([s0, s1, s2, s3, s4], st, p) == Exec(s4, Exec(s3, Exec(s2, mid, p), p), p)
  {
    assert [s0, s1, s2, s3, s4] == [s0, s1] + [s2, s3, s4];
    ExecAllAppend([s0, s1], [s2, s3, s4], st, p);
    TwoStmts(s0, s1, st, p);
    Steps3(s2, s3, s4, ExecAll([s0, s1], st, p), p);
  }

  /** The first block has nothing dead before opt_stmt comes to it, and its store afterwards. */
  lemma FirstDead(k: nat)
    ensures !Dead(Twofold()[0].stmts, Twofold()[0].term, {}, k)
    ensures k < 3 ==> (Dead(Thinned()[0].stmts, Thinned()[0].term, {}, k) <==> k == 1)
  {
    var ss, mid := Twofold()[0].stmts, Thinned()[0].stmts;
    assert ss[1] == St(0) && ss[2] == LdMem(0) && mid[2] == Nop;
    assert Idle(mid, 1, 3, 0);
  }

  ghost predicate NoneDead(g: Net, outUse: seq<set<Atom>>) {
    |outUse| == |g| && forall b: Id, k: nat {:trigger Dead(g[b].stmts, g[b].term, outUse[b], k)} ::
      b < |g| ==> !Dead(g[b].stmts, g[b].term, outUse[b], k)
  }

  lemma TwofoldNoneDead()
    ensures NoneDead(Twofold(), NONE_LIVE)
  {
    forall b: Id, k: nat | b < 4 ensures !Dead(Twofold()[b].stmts, Twofold()[b].term, NONE_LIVE[b], k) {
      if b == 0 {
        FirstDead(k);
      } else if b == 1 {
        SecondDead(k);
      }
    }
  }

  lemma FirstCleared()
    ensures Trimmed(Thinned()[0], Trimmings()[0], Ins()[0], Outs()[0], {}, true)
    ensures 0 in Lost(Thinned()[0], Ins()[0], Outs()[0], {}, true)
  {
    var n, n' := Thinned()[0], Trimmings()[0];
    assert Idle(n.stmts, 1, 3, 0);
    assert 0 in Gone(n.stmts, n.term, {});
    forall k | 0 <= k < 3 ensures n'.stmts[k] == if Dead(n.stmts, n.term, {}, k) then Nop else n.stmts[k] {
      FirstDead(k);
    }
    forall st: State, p: Packet
      ensures EqualOutside(Gone(n.stmts, n.term, {}), ExecAll(n.stmts, st, p), ExecAll(n'.stmts, st, p))
    {
      Steps3(BYTE, St(0), Nop, st, p);
      Steps3(BYTE, Nop, Nop, st, p);
    }
  }

  /** In the second block nothing is dead. */
  lemma SecondDead(k: nat)
    ensures !Dead(Twofold()[1].stmts, Twofold()[1].term, {}, k)
    ensures !Dead(Thinned()[1].stmts, Thinned()[1].term, {}, k)
  {
    var ss, mid := Twofold()[1].stmts, Thinned()[1].stmts;
    assert ss[1] == St(0) && ss[3] == mid[3] == Tax && ss[4] == mid[4] == LdMem(0);
  }

  lemma RestTrimmed(b: Id)
    requires 1 <= b < 4
    ensures Trimmed(Thinned()[b], Trimmings()[b], Ins()[b], Outs()[b], {}, true)
  {
    if b == 1 {
      forall k | 0 <= k < 5 ensures !Dead(Thinned()[1].stmts, Thinned()[1].term, {}, k) {
        SecondDead(k);
      }
      ForgetsNothing(Thinned()[1].stmts);
    }
  }

  lemma TrimmingsDone()
    ensures BlocksDone(Twofold(), Thinned(), Trimmings(), INS, ALL, Table1(), Ins(), Outs(), OPERANDS, NONE_LIVE, true)
  {
    ThinnedNumbered();
    forall b: Id | b < 4 ensures Trimmed(Thinned()[b], Trimmings()[b], Ins()[b], Outs()[b], NONE_LIVE[b], true) {
      if b == 0 {
        FirstCleared();
      } else {
        RestTrimmed(b);
      }
    }
  }

  // ----- the sets -----

  lemma ScanNext(s: Stmt, ss: seq<Stmt>, ud: Ud)
    ensures Scan([s] + ss, ud) == Scan(ss, Write(Read(ud, Uses(s)), Def(s)))
  {
    assert ([s] + ss)[1..] == ss;
  }

  lemma ScanRest(ud: Ud)
    ensures Scan([LdLen, Tax, LdMem(0)], ud).use == ud.use + ({0} - ud.def)
    ensures {A_ATOM, X_ATOM} <= Scan([LdLen, Tax, LdMem(0)], ud).def
  {
    var len := Write(Read(ud, {}), Some(A_ATOM));
    ScanNext(LdLen, [Tax, LdMem(0)], ud);
    assert [LdLen, Tax, LdMem(0)] == [LdLen] + [Tax, LdMem(0)];
    ScanNext(Tax, [LdMem(0)], len);
    assert [Tax, LdMem(0)] == [Tax] + [LdMem(0)];
    ScanOne(LdMem(0), Write(Read(len, Uses(Tax)), Def(Tax)));
  }

  lemma ScanStore(ss: seq<Stmt>)
    ensures Scan([BYTE, St(0)] + ss, Ud({}, {}, {})) == Scan(ss, Ud({A_ATOM, 0}, {}, {A_ATOM, 0}))
  {
    var none, loaded, stored := Ud({}, {}, {}), Ud({A_ATOM}, {}, {A_ATOM}), Ud({A_ATOM, 0}, {}, {A_ATOM, 0});
    assert Write(Read(none, Uses(BYTE)), Def(BYTE)) == loaded;
    assert {A_ATOM} + {0} == {A_ATOM, 0} && loaded.use + (Uses(St(0)) - loaded.def) == {};
    assert Write(Read(loaded, Uses(St(0))), Def(St(0))) == stored;
    ScanNext(BYTE, [St(0)] + ss, none);
    ScanNext(St(0), ss, loaded);
    assert [BYTE, St(0)] + ss == [BYTE] + ([St(0)] + ss);
  }

  /** Neither block reads what it has not defined. */
  lemma BlocksStateFree()
    ensures StateFree(Twofold()[0]) && StateFree(Twofold()[1])
  {
    var rest := [LdLen, Tax, LdMem(0)];
    ScanStore([LdMem(0)]);
    ScanOne(LdMem(0), Ud({A_ATOM, 0}, {}, {A_ATOM, 0}));
    assert Twofold()[0].stmts == [BYTE, St(0)] + [LdMem(0)];
    ScanStore(rest);
    ScanRest(Ud({A_ATOM, 0}, {}, {A_ATOM, 0}));
    assert Twofold()[1].stmts == [BYTE, St(0)] + rest;
  }

  /** The second one does once it is thinned. */
  lemma ThinnedReads()
    ensures 0 in LocalUd(Trimmings()[1]).use
  {
    var rest, none := [LdLen, Tax, LdMem(0)], Ud({}, {}, {});
    ScanNext(Nop, [Nop] + rest, none);
    ScanNext(Nop, rest, none);
    assert Trimmings()[1].stmts == [Nop] + ([Nop] + rest);
    ScanRest(none);
  }

  lemma TwofoldRanked()
    ensures Ranked(Twofold(), RANKS) && Closed(Twofold(), ALL)
  {
  }

  lemma TrimmingsRanked()
    ensures Ranked(Trimmings(), RANKS)
  {
  }

  lemma TwofoldReach()
    requires Ranked(Twofold(), RANKS)
    ensures Reach(Twofold(), RANKS, 0) == ALL
  {
    var g := Twofold();
    assert Reach(g, RANKS, 2) == {2} && Reach(g, RANKS, 3) == {3};
    assert Reach(g, RANKS, 1) == {1, 2, 3};
  }

  lemma TwofoldEdges()
    ensures Inward(Twofold(), ALL, INS)
  {
    var g := Twofold();
    forall c, e: nat | 0 <= c < 4 ensures e in INS[c] <==> EdgeInto(g, ALL, e, c) {
      assert e == 0 || e == 1 || e == 2 || e == 3 || e == 4 || e == 5 || e == 6 || e == 7 || e > 7;
    }
  }

  lemma TwofoldLive()
    requires Ranked(Twofold(), RANKS) && Closed(Twofold(), ALL)
    ensures AllStateFree(Twofold(), ALL)
    ensures forall b: Id :: b in ALL ==> NONE_LIVE[b] == LiveOut(Twofold(), RANKS, b)
  {
    var g := Twofold();
    BlocksStateFree();
    assert StateFree(g[2]) && StateFree(g[3]);
    forall b: Id | b in ALL ensures NONE_LIVE[b] == LiveOut(g, RANKS, b) {
      if !g[b].term.Ret? {
        NothingLive(g, RANKS, ALL, g[b].jt);
        NothingLive(g, RANKS, ALL, g[b].jf);
      }
    }
  }

  lemma TrimmingsLive()
    requires Ranked(Trimmings(), RANKS)
    ensures 0 in LiveOut(Trimmings(), RANKS, 0)
  {
    ThinnedReads();
    assert 0 in LiveIn(Trimmings(), RANKS, 1);
  }

  // ----- the runs -----

  lemma TwofoldRun(p: Packet)
    requires Ranked(Twofold(), RANKS) && p.load(SizeB, 9) == 6 && p.len < 6
    ensures Run(Twofold(), RANKS, 0, Blank(), p) == 1
  {
    var g := Twofold();
    Steps3(BYTE, St(0), LdMem(0), Blank(), p);
    var after := ExecAll(g[0].stmts, Blank(), p);
    Steps5(BYTE, St(0), LdLen, Tax, LdMem(0), after, p);
    assert Run(g, RANKS, 1, after, p) == 1;
  }

  lemma TrimmedRun(p: Packet)
    requires Ranked(Trimmings(), RANKS) && p.load(SizeB, 9) == 6
    ensures Run(Trimmings(), RANKS, 0, Blank(), p) == 0
  {
    var g := Trimmings();
    Steps3(BYTE, Nop, Nop, Blank(), p);
    var after := ExecAll(g[0].stmts, Blank(), p);
    Steps5(Nop, Nop, LdLen, Tax, LdMem(0), after, p);
    assert Run(g, RANKS, 1, after, p) == 0;
  }

  /** The blocks read nothing they have not defined, and none of their stores is dead. But when
      opt_blk is done with the first one its store has gone; the number of slot 0 has not, so the
      second one drops its own store and reads what nobody has stored. A verdict changes. */
  lemma StoreMissed(p: Packet)
    requires p.load(SizeB, 9) == 6 && p.len < 6
    ensures var g, mid, net, T := Twofold(), Thinned(), Trimmings(), Table1();
      && Ranked(g, RANKS) && Ranked(net, RANKS) && Reach(g, RANKS, 0) == ALL && Inward(g, ALL, INS)
      && AllStateFree(g, ALL) && (forall b: Id :: b in ALL ==> NONE_LIVE[b] == LiveOut(g, RANKS, b))
      && NoneDead(g, NONE_LIVE)
      && BlocksDone(g, mid, net, INS, ALL, T, Ins(), Outs(), OPERANDS, NONE_LIVE, true)
      && 0 in Lost(mid[0], Ins()[0], Outs()[0], NONE_LIVE[0], true) && 0 in LiveOut(net, RANKS, 0)
      && Run(g, RANKS, 0, Blank(), p) == 1 && Run(net, RANKS, 0, Blank(), p) == 0
  {
    TwofoldRanked();
    TrimmingsRanked();
    TwofoldReach();
    TwofoldEdges();
    TwofoldLive();
    TrimmingsLive();
    TrimmingsDone();
    FirstCleared();
    TwofoldNoneDead();
    TwofoldRun(p);
    TrimmedRun(p);
  }
}
