/** The unoptimized path of pcap_compile: parser actions build the block graph of a filter,
    finish_parse closes it, icode_to_fcode lays it out. */
module Compile {
  import opened Bpf
  import opened Arith
  import opened Graph
  import opened Blocks
  import opened Registers
  import opened Wiring
  import opened Threads
  import opened Gencode
  import Layout

  // ----- what a filter means -----

  datatype Outcome = Outcome(verdict: bool, state: State)

  /** Short-circuit evaluation over the leaves' own code, left to right, threading the
      machine state from test to test. */
  ghost function Judge(f: Filter, lo: Id, g: Net, st: State, p: Packet): Outcome
    requires lo + Leaves(f) <= |g| && forall k: Id {:trigger g[k]} :: lo <= k < lo + Leaves(f) ==> !g[k].term.Ret?
    decreases f
  {
    match f
    case Prim(_, _) =>
      var after := ExecAll(g[lo].stmts, st, p);
      Outcome(Decide(g[lo].term, after), after)
    case Rel(_, _, _, reversed) =>
      var after := ExecAll(g[lo].stmts, st, p);
      Outcome(Decide(g[lo].term, after) != reversed, after)
    case Not(a) =>
      var first := Judge(a, lo, g, st, p);
      first.(verdict := !first.verdict)
    case Both(l, r) =>
      var first := Judge(l, lo, g, st, p);
      if first.verdict then Judge(r, lo + Leaves(l), g, first.state, p) else first
    case Either(l, r) =>
      var first := Judge(l, lo, g, st, p);
      if first.verdict then first else Judge(r, lo + Leaves(l), g, first.state, p)
  }

  /** The filter as a formula over the packet alone. A one-block test is judged from a
      cleared machine. */
  function Holds(f: Filter, offLl: Word, p: Packet): bool
    requires Wellformed(f)
  {
    match f
    case Prim(stmts, term) => Decide(term, ExecAll(stmts, CLEAR, p))
    case Rel(op, l, r, reversed) => Test(op, Eval(l, offLl, p), Eval(r, offLl, p)) != reversed
    case Not(a) => !Holds(a, offLl, p)
    case Both(l, r) => Holds(l, offLl, p) && Holds(r, offLl, p)
    case Either(l, r) => Holds(l, offLl, p) || Holds(r, offLl, p)
  }

  const CLEAR: State := [0, 0, 0, 0, 0, 0, 0, 0, 0, 0, 0, 0, 0, 0, 0, 0, 0, 0]

  /** One-block tests end in a test. */
  predicate Wellformed(f: Filter) {
    match f
    case Prim(_, term) => !term.Ret?
    case Rel(_, _, _, _) => true
    case Not(a) => Wellformed(a)
    case Both(l, r) => Wellformed(l) && Wellformed(r)
    case Either(l, r) => Wellformed(l) && Wellformed(r)
  }

  /** One-block tests define the atoms they read, so that their outcome depends on the
      packet only. */
  ghost predicate SelfContained(f: Filter)
    requires Wellformed(f)
  {
    match f
    case Prim(stmts, term) =>
      forall st: State, p: Packet :: Decide(term, ExecAll(stmts, st, p)) == Decide(term, ExecAll(stmts, CLEAR, p))
    case Rel(_, _, _, _) => true
    case Not(a) => SelfContained(a)
    case Both(l, r) => SelfContained(l) && SelfContained(r)
    case Either(l, r) => SelfContained(l) && SelfContained(r)
  }

  /** Every relation's operands fit the sixteen scratch slots, the left one's slot being
      held while the right one is compiled. */
  predicate RegsFit(f: Filter) {
    match f
    case Prim(_, _) => true
    case Rel(_, l, r, _) => Need(l) <= MEMWORDS && Need(r) + 1 <= MEMWORDS
    case Not(a) => RegsFit(a)
    case Both(l, r) => RegsFit(l) && RegsFit(r)
    case Either(l, r) => RegsFit(l) && RegsFit(r)
  }

  datatype Code = Code(stmts: seq<Stmt>, term: Term)

  /** Each leaf's code is the given test's, or decides the given relation. */
  ghost predicate LeafCode(f: Filter, lo: Id, code: seq<Code>, offLl: Word) {
    match f
    case Prim(stmts, term) => lo < |code| && code[lo] == Code(stmts, term)
    case Rel(op, l, r, _) => lo < |code| && Decides(code[lo].stmts, code[lo].term, op, l, r, offLl)
    case Not(a) => LeafCode(a, lo, code, offLl)
    case Both(l, r) => LeafCode(l, lo, code, offLl) && LeafCode(r, lo + Leaves(l), code, offLl)
    case Either(l, r) => LeafCode(l, lo, code, offLl) && LeafCode(r, lo + Leaves(l), code, offLl)
  }

  ghost predicate NodesOf(g: Net, code: seq<Code>) {
    |code| <= |g| && forall k {:trigger g[k]} :: 0 <= k < |code| ==>
      g[k].stmts == code[k].stmts && g[k].term == code[k].term
  }

  lemma {:induction false} LeafCodeExtends(f: Filter, lo: Id, code: seq<Code>, code': seq<Code>, offLl: Word)
    requires LeafCode(f, lo, code, offLl) && |code| <= |code'| && forall k :: 0 <= k < |code| ==> code'[k] == code[k]
    ensures LeafCode(f, lo, code', offLl)
  {
    match f
    case Prim(_, _) =>
    case Rel(_, _, _, _) =>
    case Not(a) =>
      LeafCodeExtends(a, lo, code, code', offLl);
    case Both(l, r) =>
      LeafCodeExtends(l, lo, code, code', offLl);
      LeafCodeExtends(r, lo + Leaves(l), code, code', offLl);
    case Either(l, r) =>
      LeafCodeExtends(l, lo, code, code', offLl);
      LeafCodeExtends(r, lo + Leaves(l), code, code', offLl);
  }

  lemma {:induction false} LeavesTest(f: Filter, lo: Id, code: seq<Code>, offLl: Word, k: Id)
    requires Wellformed(f) && LeafCode(f, lo, code, offLl) && Inside(f, lo, k)
    ensures k < |code| && !code[k].term.Ret?
  {
    match f
    case Prim(_, _) =>
    case Rel(_, _, _, _) =>
    case Not(a) =>
      LeavesTest(a, lo, code, offLl, k);
    case Both(l, r) =>
      if k < lo + Leaves(l) {
        LeavesTest(l, lo, code, offLl, k);
      } else {
        LeavesTest(r, lo + Leaves(l), code, offLl, k);
      }
    case Either(l, r) =>
      if k < lo + Leaves(l) {
        LeavesTest(l, lo, code, offLl, k);
      } else {
        LeavesTest(r, lo + Leaves(l), code, offLl, k);
      }
  }

  /** When every leaf is self-contained, evaluation over the code is the formula's truth. */
  lemma {:induction false} JudgeIsHolds(f: Filter, lo: Id, code: seq<Code>, g: Net, offLl: Word, st: State, p: Packet)
    requires Wellformed(f) && SelfContained(f) && LeafCode(f, lo, code, offLl) && NodesOf(g, code)
    requires lo + Leaves(f) <= |g| && forall k: Id {:trigger g[k]} :: lo <= k < lo + Leaves(f) ==> !g[k].term.Ret?
    ensures Judge(f, lo, g, st, p).verdict == Holds(f, offLl, p)
    decreases f
  {
    match f
    case Prim(_, _) =>
    case Rel(_, _, _, _) =>
    case Not(a) =>
      JudgeIsHolds(a, lo, code, g, offLl, st, p);
    case Both(l, r) =>
      JudgeIsHolds(l, lo, code, g, offLl, st, p);
      JudgeIsHolds(r, lo + Leaves(l), code, g, offLl, Judge(l, lo, g, st, p).state, p);
    case Either(l, r) =>
      JudgeIsHolds(l, lo, code, g, offLl, st, p);
      JudgeIsHolds(r, lo + Leaves(l), code, g, offLl, Judge(l, lo, g, st, p).state, p);
  }

  // ----- the wiring computes the meaning -----

  /** The leaves of f in g branch as wired to the exits t and x. */
  ghost predicate Wired(f: Filter, lo: Id, g: Net, t: Id, x: Id) {
    && lo + Leaves(f) <= |g| && t < |g| && x < |g|
    && forall k: Id {:trigger g[k]} :: Inside(f, lo, k) ==>
      !g[k].term.Ret? && (To(g[k].jt), To(g[k].jf)) == Wire(f, lo, k, To(t), To(x))
  }

  /** The operands of a wired connective are wired to its exits and to each other. */
  lemma WiredParts(f: Filter, lo: Id, g: Net, t: Id, x: Id)
    requires Wired(f, lo, g, t, x)
    ensures f.Not? ==> Wired(f.f, lo, g, x, t)
    ensures f.Both? ==> Wired(f.f0, lo, g, lo + Leaves(f.f0), x) && Wired(f.f1, lo + Leaves(f.f0), g, t, x)
    ensures f.Either? ==> Wired(f.f0, lo, g, t, lo + Leaves(f.f0)) && Wired(f.f1, lo + Leaves(f.f0), g, t, x)
  {
  }

  lemma LeafRuns(f: Filter, lo: Id, g: Net, rk: Rank, t: Id, x: Id, st: State, p: Packet)
    requires (f.Prim? || f.Rel?) && Ranked(g, rk) && Wired(f, lo, g, t, x)
    ensures var end := Judge(f, lo, g, st, p);
      Run(g, rk, lo, st, p) == Run(g, rk, if end.verdict then t else x, end.state, p)
  {
    assert Inside(f, lo, lo) && !g[lo].term.Ret?;
  }

  lemma {:induction false} WireRuns(f: Filter, lo: Id, g: Net, rk: Rank, t: Id, x: Id, st: State, p: Packet)
    requires Ranked(g, rk) && Wired(f, lo, g, t, x)
    ensures var end := Judge(f, lo, g, st, p);
      Run(g, rk, lo, st, p) == Run(g, rk, if end.verdict then t else x, end.state, p)
    decreases f
  {
    WiredParts(f, lo, g, t, x);
    match f
    case Prim(_, _) =>
      LeafRuns(f, lo, g, rk, t, x, st, p);
    case Rel(_, _, _, _) =>
      LeafRuns(f, lo, g, rk, t, x, st, p);
    case Not(a) =>
      WireRuns(a, lo, g, rk, x, t, st, p);
    case Both(l, r) =>
      var mid := lo + Leaves(l);
      WireRuns(l, lo, g, rk, mid, x, st, p);
      WireRuns(r, mid, g, rk, t, x, Judge(l, lo, g, st, p).state, p);
    case Either(l, r) =>
      var mid := lo + Leaves(l);
      WireRuns(l, lo, g, rk, t, mid, st, p);
      WireRuns(r, mid, g, rk, t, x, Judge(l, lo, g, st, p).state, p);
  }

  /** Wired branches go forward, to a later leaf or to an exit. */
  lemma {:induction false} WireForward(f: Filter, lo: Id, k: Id, t: Id, x: Id)
    requires Inside(f, lo, k) && t >= lo + Leaves(f) && x >= lo + Leaves(f)
    ensures var (a, b) := Wire(f, lo, k, To(t), To(x));
      && a.To? && k < a.id && (a.id < lo + Leaves(f) || a.id == t || a.id == x)
      && b.To? && k < b.id && (b.id < lo + Leaves(f) || b.id == t || b.id == x)
    decreases f
  {
    match f
    case Prim(_, _) =>
    case Rel(_, _, _, _) =>
    case Not(a) =>
      WireForward(a, lo, k, x, t);
    case Both(l, r) =>
      var mid := lo + Leaves(l);
      if k < mid {
        WireForward(l, lo, k, mid, x);
      } else {
        WireForward(r, mid, k, t, x);
      }
    case Either(l, r) =>
      var mid := lo + Leaves(l);
      if k < mid {
        WireForward(l, lo, k, t, mid);
      } else {
        WireForward(r, mid, k, t, x);
      }
  }

  // ----- building the graph -----

  /** The objects listed by hp carry the code listed, and no layout has touched them. */
  ghost predicate HeapCode(S: set<Block>, hp: Heap, code: seq<Code>)
    reads S`stmts, S`term, S`mark, S`longjt, S`longjf
  {
    && |hp| == |code|
    && forall k {:trigger code[k]} :: 0 <= k < |code| ==>
      && hp[k] in S && hp[k].stmts == code[k].stmts && hp[k].term == code[k].term
      && hp[k].mark == hp[k].longjt == hp[k].longjf == 0
  }

  /** A graph under construction: its objects, and their links and code as values. */
  datatype Arena = Arena(S: set<Block>, hp: Heap, cs: Cells, code: seq<Code>) {
    ghost predicate Valid()
      reads S`sense, S`jt, S`jf, S`stmts, S`term, S`mark, S`longjt, S`longjf
    {
      HeapIs(S, hp, cs) && HeapCode(S, hp, code)
    }

    /** Further objects have been added, and nothing else has changed. */
    ghost predicate Extends(a: Arena) {
      && a.S <= S && |a.hp| <= |hp| && |a.cs| <= |cs| && |a.code| <= |code|
      && (forall k :: 0 <= k < |a.hp| ==> hp[k] == a.hp[k])
      && (forall k :: 0 <= k < |a.cs| ==> cs[k] == a.cs[k])
      && (forall k :: 0 <= k < |a.code| ==> code[k] == a.code[k])
      && forall k :: |a.hp| <= k < |hp| ==> hp[k] in S - a.S
    }
  }

  /** A new one-block filter at the end of the arena. */
  method NewLeaf(stmts: seq<Stmt>, term: Term, sense: bool, ghost a: Arena) returns (b: Block, ghost a': Arena)
    requires a.Valid()
    ensures fresh(b) && a'.Valid() && a'.S == a.S + {b} && a'.hp == a.hp + [b] && b.head == b
    ensures b.key == |a.hp|
    ensures a'.cs == a.cs + [Cell(sense, Ptr.Null, Ptr.Null)] && a'.code == a.code + [Code(stmts, term)]
  {
    b := new Block(stmts, term, |a.hp|);
    if sense {
      b.sense := !b.sense;
    }
    a' := Arena(a.S + {b}, a.hp + [b], a.cs + [Cell(sense, Ptr.Null, Ptr.Null)], a.code + [Code(stmts, term)]);
    assert HeapIs(a'.S, a'.hp, a'.cs) by {
      forall k | 0 <= k < |a.cs| ensures Shows(a'.hp, a.hp[k].jt, a.cs[k].jt) && Shows(a'.hp, a.hp[k].jf, a.cs[k].jf) {
        assert a.cs[k].sense == a.hp[k].sense;
      }
    }
    assert HeapCode(a'.S, a'.hp, a'.code) by {
      forall k | 0 <= k < |a.code| ensures a.hp[k].stmts == a.code[k].stmts && a.hp[k].term == a.code[k].term {
        assert a.code[k].stmts == a.hp[k].stmts;
      }
    }
  }

  lemma LeafBuilt(f: Filter, lo: Id, cs: Cells)
    requires f.Prim? || f.Rel?
    requires |cs| == lo + 1 && cs[lo] == Cell(f.Rel? && f.reversed, Ptr.Null, Ptr.Null)
    ensures Threaded(f, lo, cs)
  {
    assert Expect(f, lo, lo) == cs[lo];
  }

  /** b stands for f, built at the end of arena a, which it has grown to a'. */
  ghost predicate Grown(b: Block, f: Filter, offLl: Word, a: Arena, a': Arena)
    reads b`head
  {
    && a'.Extends(a) && |a.hp| == |a.cs| == |a.code| && |a'.hp| == |a.hp| + Leaves(f)
    && Built(b, f, |a.hp|, a'.hp, a'.cs) && LeafCode(f, |a.hp|, a'.code, offLl)
  }

  /** The code of a relation's operands, left first, with their slots given back. */
  method GenOperands(op: JmpOp, l: Expr, r: Expr, regs: Registers) returns (stmts: Option<seq<Stmt>>)
    requires regs.Valid() && regs.Used() == {}
    modifies regs`curreg, regs.regused
    ensures regs.Valid() && (stmts.Some? <==> Need(l) <= MEMWORDS && Need(r) + 1 <= MEMWORDS)
    ensures stmts.Some? ==> regs.Used() == {}
    ensures stmts.Some? ==> Decides(stmts.value + Compare(op).0, Compare(op).1, op, l, r, regs.offLl)
  {
    var a0 := regs.GenExpr(l);
    if a0 == null {
      return None;
    }
    var a1 := regs.GenExpr(r);
    if a1 == null {
      return None;
    }
    RelationDecides(a0.s, a0.regno, l, a1.s, a1.regno, r, op, regs.offLl, {});
    stmts := Some(Operands(a0.s, a0.regno, a1.s, a1.regno));
    regs.FreeReg(a0.regno);
    regs.FreeReg(a1.regno);
  }

  /** gen_relation */
  method GenRelation(op: JmpOp, l: Expr, r: Expr, reversed: bool, regs: Registers, ghost a: Arena)
    returns (b: Block?, ghost a': Arena)
    requires regs.Valid() && regs.Used() == {} && a.Valid()
    modifies regs`curreg, regs.regused
    ensures regs.Valid() && (b != null <==> RegsFit(Rel(op, l, r, reversed)))
    ensures b != null ==> regs.Used() == {} && a'.Valid() && fresh(a'.S - a.S)
    ensures b != null ==> Grown(b, Rel(op, l, r, reversed), regs.offLl, a, a')
  {
    var stmts := GenOperands(op, l, r, regs);
    if stmts.None? {
      return null, a;
    }
    b, a' := NewLeaf(stmts.value + Compare(op).0, Compare(op).1, reversed, a);
    LeafBuilt(Rel(op, l, r, reversed), |a.hp|, a'.cs);
  }

  lemma ThreadedStays(f: Filter, lo: Id, cs: Cells, cs': Cells)
    requires Threaded(f, lo, cs) && lo + Leaves(f) <= |cs'| && forall k :: 0 <= k < lo + Leaves(f) ==> cs'[k] == cs[k]
    ensures Threaded(f, lo, cs')
  {
    forall k: Id | Inside(f, lo, k) ensures cs'[k] == Expect(f, lo, k) {
      assert cs[k] == Expect(f, lo, k);
    }
  }

  lemma BuiltStays(b: Block, f: Filter, lo: Id, a: Arena, a': Arena)
    requires Built(b, f, lo, a.hp, a.cs) && a'.Extends(a) && |a'.hp| == |a'.cs| && lo + Leaves(f) <= |a.cs|
    ensures Built(b, f, lo, a'.hp, a'.cs)
  {
    ThreadedStays(f, lo, a.cs, a'.cs);
  }

  /** The grammar's actions for a filter, left to right. Every block made is new. */
  method Gen(f: Filter, regs: Registers, ghost a: Arena) returns (b: Block?, ghost a': Arena)
    requires regs.Valid() && regs.Used() == {} && a.Valid()
    modifies regs`curreg, regs.regused
    ensures regs.Valid() && (b != null <==> RegsFit(f))
    ensures b != null ==> regs.Used() == {} && a'.Valid() && fresh(a'.S - a.S) && Grown(b, f, regs.offLl, a, a')
    decreases f, 2
  {
    match f
    case Prim(stmts, term) =>
      var leaf;
      leaf, a' := NewLeaf(stmts, term, false, a);
      b := leaf;
      LeafBuilt(f, |a.hp|, a'.cs);
    case Rel(op, l, r, reversed) =>
      b, a' := GenRelation(op, l, r, reversed, regs, a);
    case Not(g) =>
      b, a' := Gen(g, regs, a);
      if b != null {
        ghost var cs' := Flipped(a'.cs, b.key);
        GenNot(b, g, |a.hp|, a'.S, a'.hp, a'.cs);
        a' := a'.(cs := cs');
      }
    case Both(l, r) =>
      b, a' := GenPair(f, regs, a);
    case Either(l, r) =>
      b, a' := GenPair(f, regs, a);
  }

  /** Both operands of a conjunction or disjunction, the left one first. */
  method GenTwo(f: Filter, regs: Registers, ghost a: Arena) returns (b0: Block?, b1: Block?, ghost a': Arena)
    requires (f.Both? || f.Either?) && regs.Valid() && regs.Used() == {} && a.Valid()
    modifies regs`curreg, regs.regused
    ensures regs.Valid() && (b0 != null && b1 != null <==> RegsFit(f))
    ensures RegsFit(f) ==> regs.Used() == {} && a'.Valid() && fresh(a'.S - a.S) && a'.Extends(a)
    ensures RegsFit(f) ==> |a.hp| == |a.cs| == |a.code| && |a'.hp| == |a.hp| + Leaves(f)
    ensures RegsFit(f) ==> Built(b0, f.f0, |a.hp|, a'.hp, a'.cs) && Built(b1, f.f1, |a.hp| + Leaves(f.f0), a'.hp, a'.cs)
    ensures RegsFit(f) ==> LeafCode(f, |a.hp|, a'.code, regs.offLl)
    decreases f, 0
  {
    b0, a' := Gen(f.f0, regs, a);
    if b0 == null {
      return null, null, a;
    }
    ghost var a1 := a';
    b1, a' := Gen(f.f1, regs, a1);
    if b1 == null {
      return null, null, a;
    }
    BuiltStays(b0, f.f0, |a.hp|, a1, a');
    LeafCodeExtends(f.f0, |a.hp|, a1.code, a'.code, regs.offLl);
  }

  /** Both operands, then gen_and or gen_or. */
  method GenPair(f: Filter, regs: Registers, ghost a: Arena) returns (b: Block?, ghost a': Arena)
    requires (f.Both? || f.Either?) && regs.Valid() && regs.Used() == {} && a.Valid()
    modifies regs`curreg, regs.regused
    ensures regs.Valid() && (b != null <==> RegsFit(f))
    ensures b != null ==> regs.Used() == {} && a'.Valid() && fresh(a'.S - a.S) && Grown(b, f, regs.offLl, a, a')
    decreases f, 1
  {
    var b0;
    b0, b, a' := GenTwo(f, regs, a);
    if b0 == null || b == null {
      return null, a;
    }
    ghost var cs';
    if f.Both? {
      cs' := GenAnd(b0, b, f.f0, f.f1, |a.hp|, a'.S - a.S, a'.S, a'.hp, a'.cs);
    } else {
      cs' := GenOr(b0, b, f.f0, f.f1, |a.hp|, a'.S - a.S, a'.S, a'.hp, a'.cs);
    }
    a' := a'.(cs := cs');
  }

  // ----- closing it -----

  function Target(e: Exit): Id {
    if e.To? then e.id else 0
  }

  /** The finished graph of a filter whose leaves have the given code: the leaves, the
      accepting return and the rejecting one. */
  ghost function Finished(f: Filter, code: seq<Code>, snaplen: Word): (g: Net)
    requires |code| == Leaves(f)
    ensures |g| == Leaves(f) + 2 && NodesOf(g, code)
    ensures g[Leaves(f)] == Node([], Ret(snaplen), 0, 0) && g[Leaves(f) + 1] == Node([], Ret(0), 0, 0)
    ensures forall k: Id {:trigger g[k]} :: k < Leaves(f) ==>
      g[k] == FinishedNode(f, code[k], k)
  {
    seq(Leaves(f), k requires 0 <= k < Leaves(f) => FinishedNode(f, code[k], k))
    + [Node([], Ret(snaplen), 0, 0), Node([], Ret(0), 0, 0)]
  }

  function FinishedNode(f: Filter, c: Code, k: Id): Node
    requires k < Leaves(f)
  {
    var (a, b) := Wire(f, 0, k, To(Leaves(f)), To(Leaves(f) + 1));
    Node(c.stmts, c.term, Target(a), Target(b))
  }

  function CountDown(n: nat): (rk: Rank)
    ensures |rk| == n && forall k {:trigger rk[k]} :: 0 <= k < n ==> rk[k] == n - k
  {
    seq(n, k requires 0 <= k < n => n - k)
  }

  lemma {:induction false} FinishedWired(f: Filter, code: seq<Code>, offLl: Word, snaplen: Word)
    requires Wellformed(f) && |code| == Leaves(f) && LeafCode(f, 0, code, offLl)
    ensures Wired(f, 0, Finished(f, code, snaplen), Leaves(f), Leaves(f) + 1)
    ensures Ranked(Finished(f, code, snaplen), CountDown(Leaves(f) + 2))
  {
    var g, n := Finished(f, code, snaplen), Leaves(f);
    forall k: Id | k < n
      ensures !g[k].term.Ret? && (To(g[k].jt), To(g[k].jf)) == Wire(f, 0, k, To(n), To(n + 1))
      ensures k < g[k].jt < n + 2 && k < g[k].jf < n + 2
    {
      assert g[k] == FinishedNode(f, code[k], k);
      LeavesTest(f, 0, code, offLl, k);
      WireForward(f, 0, k, n, n + 1);
    }
  }

  /** The finished graph returns snaplen where the filter is judged true and 0 where it is
      judged false, whatever the tests read or leave in the machine. */
  lemma {:induction false} FinishedComputes(f: Filter, g: Net, rk: Rank, snaplen: Word, st: State, p: Packet)
    requires Ranked(g, rk) && Wired(f, 0, g, Leaves(f), Leaves(f) + 1)
    requires g[Leaves(f)].term == Ret(snaplen) && g[Leaves(f) + 1].term == Ret(0)
    ensures forall k: Id {:trigger g[k]} :: 0 <= k < 0 + Leaves(f) ==> !g[k].term.Ret?
    ensures Run(g, rk, 0, st, p) == if Judge(f, 0, g, st, p).verdict then snaplen else 0
  {
    WireRuns(f, 0, g, rk, Leaves(f), Leaves(f) + 1, st, p);
  }

  lemma OwnedByAll(a: Arena, hi: Id)
    requires a.Valid() && hi <= |a.hp|
    ensures Owned(a.S, a.S, a.hp, 0, hi)
  {
    forall k | 0 <= k < hi ensures a.hp[k] in a.S {
      assert a.cs[k].sense == a.hp[k].sense;
    }
  }

  lemma ChainExtends(cs: Cells, c: Cell, L: seq<Id>)
    requires Chain(cs, L)
    ensures Chain(cs + [c], L)
  {
  }

  /** The cells before finish_parse's last step and after it. */
  lemma FinalCells(f: Filter, cs: Cells, c0: Cell, c1: Cell) returns (cs1: Cells, cs2: Cells)
    requires Threaded(f, 0, cs) && |cs| == Leaves(f)
    ensures TList(f, 0) != [] && FList(f, 0) != [] && TList(f, 0)[0] == FList(f, 0)[0] == Rep(f, 0)
    ensures Descending(TList(f, 0), 0, Leaves(f)) && Descending(FList(f, 0), 0, Leaves(f))
    ensures Chain(cs + [c0], TList(f, 0)) && cs1 == Patched(cs + [c0], TList(f, 0), At(Leaves(f)))
    ensures Rep(f, 0) < |cs1| && |cs1| == |cs| + 1 && Chain(Flipped(cs1, Rep(f, 0)) + [c1], FList(f, 0))
    ensures cs2 == Patched(Flipped(cs1, Rep(f, 0)) + [c1], FList(f, 0), At(Leaves(f) + 1))
    ensures |cs2| == |cs| + 2 && cs2[|cs|] == c0 && cs2[|cs| + 1] == c1 && AllFinished(f, cs2)
  {
    var n := Leaves(f);
    ListsDescend(f, 0);
    ThreadedStays(f, 0, cs, cs + [c0]);
    ChainsHold(f, 0, cs + [c0]);
    FalseChainStays(f, 0, cs + [c0], At(n));
    cs1 := Patched(cs + [c0], TList(f, 0), At(n));
    ChainExtends(Flipped(cs1, Rep(f, 0)), c1, FList(f, 0));
    cs2 := Patched(Flipped(cs1, Rep(f, 0)) + [c1], FList(f, 0), At(n + 1));
    forall k: Id | k < n + 2
      ensures k < n ==> cs2[k] == FinishCell(f, 0, k, Expect(f, 0, k), n, n + 1)
      ensures k == n ==> cs2[k] == c0
      ensures k == n + 1 ==> cs2[k] == c1
    {
      PatchedAt(Flipped(cs1, Rep(f, 0)) + [c1], FList(f, 0), At(n + 1), k);
      if k <= n {
        PatchedAt(cs + [c0], TList(f, 0), At(n), k);
      }
      if k < n {
        assert (cs + [c0])[k] == Expect(f, 0, k);
      }
    }
  }

  /** The leaves' cells, once both lists are filled. */
  ghost predicate AllFinished(f: Filter, cs: Cells) {
    && |cs| >= Leaves(f)
    && forall k: Id {:trigger cs[k]} :: k < Leaves(f) ==>
      cs[k] == FinishCell(f, 0, k, Expect(f, 0, k), Leaves(f), Leaves(f) + 1)
  }

  lemma FinishedLeaf(f: Filter, a: Arena, code: seq<Code>, k: Id)
    requires |code| == Leaves(f) && a.Valid() && AllFinished(f, a.cs) && k < Leaves(f)
    requires |a.cs| == |a.code| == Leaves(f) + 2
    requires a.code[k] == code[k] && !code[k].term.Ret?
    ensures Blocks.Holds(a.S, a.hp, k, FinishedNode(f, code[k], k))
  {
    assert a.cs[k].sense == a.hp[k].sense && a.code[k].stmts == a.hp[k].stmts;
    FinishWires(f, 0, k, Leaves(f), Leaves(f) + 1);
  }

  lemma FinishedStored(f: Filter, a: Arena, code: seq<Code>, offLl: Word, snaplen: Word)
    requires Wellformed(f) && |code| == Leaves(f) && LeafCode(f, 0, code, offLl)
    requires a.Valid() && AllFinished(f, a.cs) && |a.cs| == Leaves(f) + 2
    requires a.code == code + [Code([], Ret(snaplen)), Code([], Ret(0))]
    requires a.cs[Leaves(f)] == a.cs[Leaves(f) + 1] == Cell(false, Ptr.Null, Ptr.Null)
    ensures Stored(a.S, a.hp, Finished(f, code, snaplen))
  {
    var g, n := Finished(f, code, snaplen), Leaves(f);
    forall k: Id | k < n + 2 ensures Blocks.Holds(a.S, a.hp, k, g[k]) {
      assert a.cs[k].sense == a.hp[k].sense && a.code[k].stmts == a.hp[k].stmts;
      if k < n {
        assert g[k] == FinishedNode(f, code[k], k);
        LeavesTest(f, 0, code, offLl, k);
        FinishedLeaf(f, a, code, k);
      }
    }
  }

  /** The end of finish_parse: the open false exits lead to a new rejecting return. */
  method FillFalse(p: Block, ghost f: Filter, ghost a: Arena, ghost cs': Cells) returns (ghost a': Arena)
    requires a.Valid() && |a.hp| == |a.code| == Leaves(f) + 1 && p in a.S && Points(a.hp, p, Rep(f, 0))
    requires FList(f, 0) != [] && FList(f, 0)[0] == Rep(f, 0) && Descending(FList(f, 0), 0, Leaves(f))
    requires Chain(a.cs + [Cell(false, Ptr.Null, Ptr.Null)], FList(f, 0))
    requires cs' == Patched(a.cs + [Cell(false, Ptr.Null, Ptr.Null)], FList(f, 0), At(Leaves(f) + 1))
    modifies a.S`jt, a.S`jf
    ensures a'.Valid() && fresh(a'.S - a.S) && a'.Extends(a.(cs := [])) && a'.cs == cs'
    ensures a'.code == a.code + [Code([], Ret(0))] && |a'.hp| == |a.hp| + 1
  {
    var reject;
    reject, a' := NewLeaf([], Ret(0), false, a);
    OwnedByAll(a', Leaves(f));
    Backpatch(p, reject, a'.S, a'.S, a'.hp, a'.cs, FList(f, 0), 0, Leaves(f));
    a' := a'.(cs := cs');
  }

  /** finish_parse: the graph left in the heap is the finished graph of the filter. */
  method FinishParse(p: Block, f: Filter, snaplen: Word, offLl: Word, ghost a: Arena)
    returns (root: Block, ghost a': Arena)
    requires Wellformed(f) && a.Valid() && Grown(p, f, offLl, Arena({}, [], [], []), a)
    modifies a.S`jt, a.S`jf, a.S`sense
    ensures |a.code| == Leaves(f) && LeafCode(f, 0, a.code, offLl)
    ensures a'.Valid() && fresh(a'.S - a.S) && Stored(a'.S, a'.hp, Finished(f, a.code, snaplen))
    ensures Points(a'.hp, root, 0)
  {
    root := p.head;
    ghost var n, none := Leaves(f), Cell(false, Ptr.Null, Ptr.Null);
    ghost var cs1, cs2 := FinalCells(f, a.cs, none, none);
    var accept;
    accept, a' := NewLeaf([], Ret(snaplen), false, a);
    OwnedByAll(a', n);
    Backpatch(p, accept, a'.S, a'.S, a'.hp, a'.cs, TList(f, 0), 0, n);
    FlipSense(p, a'.S, a'.hp, cs1);
    a' := FillFalse(p, f, a'.(cs := Flipped(cs1, Rep(f, 0))), cs2);
    FinishedStored(f, a', a.code, offLl, snaplen);
  }

  // ----- the whole path -----

  /** The two readings of the finished graph's verdict: test by test, and, when the tests are
      self-contained, as a formula over the packet. */
  lemma {:induction false} FinishedMeans(f: Filter, code: seq<Code>, offLl: Word, snaplen: Word)
    returns (g: Net, rk: Rank)
    requires Wellformed(f) && |code| == Leaves(f) && LeafCode(f, 0, code, offLl)
    ensures g == Finished(f, code, snaplen) && Ranked(g, rk)
    ensures forall k: Id {:trigger g[k]} :: 0 <= k < 0 + Leaves(f) ==> !g[k].term.Ret?
    ensures forall st: State, p: Packet ::
      Run(g, rk, 0, st, p) == if Judge(f, 0, g, st, p).verdict then snaplen else 0
    ensures SelfContained(f) ==> forall st: State, p: Packet ::
      Run(g, rk, 0, st, p) == if Holds(f, offLl, p) then snaplen else 0
  {
    FinishedWired(f, code, offLl, snaplen);
    g, rk := Finished(f, code, snaplen), CountDown(Leaves(f) + 2);
    forall st: State, p: Packet
      ensures Run(g, rk, 0, st, p) == if Judge(f, 0, g, st, p).verdict then snaplen else 0
      ensures SelfContained(f) ==> Judge(f, 0, g, st, p).verdict == Holds(f, offLl, p)
    {
      FinishedComputes(f, g, rk, snaplen, st, p);
      if SelfContained(f) {
        JudgeIsHolds(f, 0, code, g, offLl, st, p);
      }
    }
  }

  /** What a finished graph g for f with the code given means: its leaves carry that code, and it
      returns snaplen or 0 as the filter comes out test by test and, when the tests are
      self-contained, as a formula. */
  ghost predicate Means(f: Filter, code: seq<Code>, offLl: Word, snaplen: Word, g: Net, rk: Rank)
    requires Wellformed(f)
  {
    && Ranked(g, rk) && 0 < |g| && |code| == Leaves(f) && LeafCode(f, 0, code, offLl) && NodesOf(g, code) && Tests(f, g)
    && (forall st: State, p: Packet {:trigger Run(g, rk, 0, st, p)} ::
         Run(g, rk, 0, st, p) == if Judge(f, 0, g, st, p).verdict then snaplen else 0)
    && (SelfContained(f) ==> forall st: State, p: Packet {:trigger Run(g, rk, 0, st, p)} ::
         Run(g, rk, 0, st, p) == if Holds(f, offLl, p) then snaplen else 0)
  }

  /** The leaves are tests. */
  ghost predicate Tests(f: Filter, g: Net) {
    Leaves(f) <= |g| && forall k: Id {:trigger g[k]} :: 0 <= k < 0 + Leaves(f) ==> !g[k].term.Ret?
  }

  /** The parse: the graph is in the heap, and on every packet and from every state it
      returns snaplen or 0 as the filter, evaluated test by test, comes out. */
  method Parse(f: Filter, snaplen: Word, offLl: Word)
    returns (root: Block?, ghost a: Arena, ghost g: Net, ghost rk: Rank, ghost code: seq<Code>)
    requires Wellformed(f)
    ensures root != null <==> RegsFit(f)
    ensures root != null ==> a.Valid() && fresh(a.S) && Stored(a.S, a.hp, g) && Points(a.hp, root, 0)
    ensures root != null ==> Means(f, code, offLl, snaplen, g, rk)
  {
    var regs := new Registers(offLl);
    var b;
    g, rk, code := [], [], [];
    b, a := Gen(f, regs, Arena({}, [], [], []));
    if b == null {
      return null, a, g, rk, code;
    }
    code := a.code;
    root, a := FinishParse(b, f, snaplen, offLl, a);
    g, rk := FinishedMeans(f, code, offLl, snaplen);
  }

  /** icode_to_fcode on a fresh graph. */
  method Convert(root: Block, ghost a: Arena, ghost g: Net, ghost rk: Rank) returns (prog: array<Insn>)
    requires a.Valid() && Stored(a.S, a.hp, g) && Points(a.hp, root, 0) && Ranked(g, rk)
    modifies a.S`mark, a.S`offset, a.S`longjt, a.S`longjf
    ensures fresh(prog) && forall i: nat :: i < prog.Length ==> Layout.JumpsInside(prog[..], i)
    ensures forall st: State, p: Packet :: RunProg(prog[..], 0, st, p) == Some(Run(g, rk, 0, st, p))
  {
    var converter := new Layout.Converter();
    forall k | 0 <= k < |a.hp| ensures a.hp[k].mark == a.hp[k].longjt == a.hp[k].longjf == 0 {
      assert a.code[k].stmts == a.hp[k].stmts;
    }
    var len;
    ghost var w;
    prog, len, w := converter.IcodeToFcode(root, a.S, a.hp, g, rk);
  }

  /** The graph of the empty filter: one return. */
  method AcceptAll(snaplen: Word) returns (root: Block, ghost a: Arena)
    ensures a.Valid() && fresh(a.S) && Stored(a.S, a.hp, [Node([], Ret(snaplen), 0, 0)]) && Points(a.hp, root, 0)
  {
    root, a := NewLeaf([], Ret(snaplen), false, Arena({}, [], [], []));
    assert a.cs[0].sense == a.hp[0].sense && a.code[0].stmts == a.hp[0].stmts;
  }

  /** pcap_compile without the optimizer, on a filter or on none. It succeeds exactly when there
      is a snapshot length and every relation's operands fit the scratch slots. Without a filter
      the program returns snaplen on every packet. Otherwise it returns snaplen or 0 as the
      filter comes out test by test, from any machine state, over leaves that carry the tests
      given or decide the relations; and when the tests are self-contained, snaplen on exactly
      the packets the filter holds of. Every jump stays in the program. */
  method PcapCompile(f: Option<Filter>, snaplen: Word, offLl: Word)
    returns (fp: Option<array<Insn>>, ghost g: Net, ghost code: seq<Code>)
    requires f.Some? ==> Wellformed(f.value)
    ensures fp.Some? <==> snaplen != 0 && (f.Some? ==> RegsFit(f.value))
    ensures fp.Some? ==> forall i: nat :: i < fp.value.Length ==> Layout.JumpsInside(fp.value[..], i)
    ensures fp.Some? && f.None? ==> forall st: State, p: Packet :: RunProg(fp.value[..], 0, st, p) == Some(snaplen)
    ensures fp.Some? && f.Some? ==>
      && |code| == Leaves(f.value) && LeafCode(f.value, 0, code, offLl) && NodesOf(g, code) && Tests(f.value, g)
      && forall st: State, p: Packet ::
        RunProg(fp.value[..], 0, st, p) == Some(if Judge(f.value, 0, g, st, p).verdict then snaplen else 0)
    ensures fp.Some? && f.Some? && SelfContained(f.value) ==> forall st: State, p: Packet ::
      RunProg(fp.value[..], 0, st, p) == Some(if Holds(f.value, offLl, p) then snaplen else 0)
  {
    g, code, fp := [], [], None;
    if snaplen == 0 {
      return;
    }
    if f.None? {
      var accept;
      ghost var a;
      accept, a := AcceptAll(snaplen);
      g := [Node([], Ret(snaplen), 0, 0)];
      var all := Convert(accept, a, g, [0]);
      return Some(all), g, code;
    }
    var root;
    ghost var a, rk;
    root, a, g, rk, code := Parse(f.value, snaplen, offLl);
    if root == null {
      return;
    }
    var prog := Convert(root, a, g, rk);
    fp := Some(prog);
  }
}
