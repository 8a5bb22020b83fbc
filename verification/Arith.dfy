/** Arithmetic operands: the statements gen_loadi, gen_loadlen, gen_load, gen_neg and
    gen_arth emit, the scratch-slot allocator behind them, and gen_relation's test. */
module Arith {
  import opened Bpf

  /** An arithmetic expression of the filter language. Load reads at a link-layer offset. */
  datatype Expr =
    | Num(k: Word)
    | Length
    | Load(size: Size, index: Expr)
    | Minus(e: Expr)
    | Binary(op: AluOp, left: Expr, right: Expr)

  function Eval(e: Expr, offLl: Word, p: Packet): Word {
    match e
    case Num(k) => k
    case Length => p.len
    case Load(size, index) => p.load(size, Alu(Add, Eval(index, offLl, p), offLl))
    case Minus(a) => Alu(Sub, 0, Eval(a, offLl, p))
    case Binary(op, l, r) => Alu(op, Eval(l, offLl, p), Eval(r, offLl, p))
  }

  /** How many scratch slots compiling e needs free, its result's included. */
  function Need(e: Expr): nat {
    match e
    case Num(_) => 1
    case Length => 1
    case Load(_, index) => if Need(index) < 2 then 2 else Need(index)
    case Minus(a) => Need(a)
    case Binary(_, l, r) => if Need(l) < Need(r) + 1 then Need(r) + 1 else Need(l)
  }

  /** This run of s leaves e's value in slot r and does not disturb the slots of busy. */
  ghost predicate ComputesAt(s: seq<Stmt>, r: Slot, e: Expr, offLl: Word, busy: set<Slot>, st: State, p: Packet) {
    && ExecAll(s, st, p)[r] == Eval(e, offLl, p)
    && forall i :: i in busy ==> ExecAll(s, st, p)[i] == st[i]
  }

  /** Every run of s does. */
  ghost predicate Computes(s: seq<Stmt>, r: Slot, e: Expr, offLl: Word, busy: set<Slot>) {
    forall st: State, p: Packet :: ComputesAt(s, r, e, offLl, busy, st, p)
  }

  lemma {:induction false} LeafComputes(a: Stmt, r: Slot, e: Expr, offLl: Word, busy: set<Slot>)
    requires r !in busy && ((e.Num? && a == LdImm(e.k)) || (e.Length? && a == LdLen))
    ensures Computes([a] + [St(r)], r, e, offLl, busy)
  {
    forall st: State, p: Packet ensures ComputesAt([a] + [St(r)], r, e, offLl, busy, st, p) {
      RunOne([a], St(r), st, p);
      RunOne([], a, st, p);
      assert [] + [a] == [a];
    }
  }

  lemma LoadSteps(st: State, r: Slot, r': Slot, size: Size, k: Word, p: Packet) returns (st': State)
    ensures st' == Exec(St(r'), Exec(LdInd(size, k), Exec(LdxMem(r), st, p), p), p)
    ensures st'[r'] == p.load(size, Alu(Add, st[r], k)) && forall i: Slot :: i != r' ==> st'[i] == st[i]
  {
    st' := Exec(LdxMem(r), st, p);
    st' := Exec(LdInd(size, k), st', p);
    st' := Exec(St(r'), st', p);
  }

  lemma {:induction false} LoadComputes(s: seq<Stmt>, r: Slot, r': Slot, size: Size, index: Expr, offLl: Word,
                                        busy: set<Slot>)
    requires Computes(s, r, index, offLl, busy) && r' !in busy
    ensures Computes(s + [LdxMem(r)] + [LdInd(size, offLl)] + [St(r')], r', Load(size, index), offLl, busy)
  {
    var s' := s + [LdxMem(r)] + [LdInd(size, offLl)];
    forall st: State, p: Packet ensures ComputesAt(s' + [St(r')], r', Load(size, index), offLl, busy, st, p) {
      assert ComputesAt(s, r, index, offLl, busy, st, p);
      RunOne(s, LdxMem(r), st, p);
      RunOne(s + [LdxMem(r)], LdInd(size, offLl), st, p);
      RunOne(s', St(r'), st, p);
      var st' := LoadSteps(ExecAll(s, st, p), r, r', size, offLl, p);
    }
  }

  lemma {:induction false} MinusComputes(s: seq<Stmt>, r: Slot, e: Expr, offLl: Word, busy: set<Slot>)
    requires Computes(s, r, e, offLl, busy) && r !in busy
    ensures Computes(s + [LdMem(r)] + [Neg] + [St(r)], r, Minus(e), offLl, busy)
  {
    var s' := s + [LdMem(r)] + [Neg];
    forall st: State, p: Packet ensures ComputesAt(s' + [St(r)], r, Minus(e), offLl, busy, st, p) {
      assert ComputesAt(s, r, e, offLl, busy, st, p);
      RunOne(s, LdMem(r), st, p);
      RunOne(s + [LdMem(r)], Neg, st, p);
      RunOne(s', St(r), st, p);
    }
  }

  /** The code of both operands, left first, then X from the right slot and A from the left. */
  function Operands(s0: seq<Stmt>, r0: Slot, s1: seq<Stmt>, r1: Slot): seq<Stmt> {
    s0 + (s1 + ([LdxMem(r1)] + [LdMem(r0)]))
  }

  /** st' is st with both operands' values loaded and the busy slots as they were. */
  ghost predicate Loaded(st': State, v0: Word, v1: Word, busy: set<Slot>, st: State) {
    st'[A_ATOM] == v0 && st'[X_ATOM] == v1 && forall i :: i in busy ==> st'[i] == st[i]
  }

  /** After the operands' code A and X hold their values: the right operand's code has left
      the left one's slot alone. */
  lemma {:induction false} OperandsLoaded(s0: seq<Stmt>, r0: Slot, e0: Expr, s1: seq<Stmt>, r1: Slot, e1: Expr,
                                          offLl: Word, busy: set<Slot>, st: State, p: Packet)
    requires Computes(s0, r0, e0, offLl, busy) && Computes(s1, r1, e1, offLl, busy + {r0})
    ensures Loaded(ExecAll(Operands(s0, r0, s1, r1), st, p), Eval(e0, offLl, p), Eval(e1, offLl, p), busy, st)
  {
    var st0 := ExecAll(s0, st, p);
    var st1 := ExecAll(s1, st0, p);
    assert ComputesAt(s0, r0, e0, offLl, busy, st, p) && ComputesAt(s1, r1, e1, offLl, busy + {r0}, st0, p);
    assert Operands(s0, r0, s1, r1) == s0 + s1 + [LdxMem(r1)] + [LdMem(r0)];
    RunOne(s0 + s1 + [LdxMem(r1)], LdMem(r0), st, p);
    RunOne(s0 + s1, LdxMem(r1), st, p);
    ExecAllAppend(s0, s1, st, p);
    assert r0 in busy + {r0};
    assert forall i :: i in busy ==> i in busy + {r0};
  }

  lemma {:induction false} BinaryComputes(s0: seq<Stmt>, r0: Slot, e0: Expr, s1: seq<Stmt>, r1: Slot, e1: Expr,
                                          op: AluOp, r: Slot, offLl: Word, busy: set<Slot>)
    requires Computes(s0, r0, e0, offLl, busy) && Computes(s1, r1, e1, offLl, busy + {r0}) && r !in busy
    ensures Computes(Operands(s0, r0, s1, r1) + [AluX(op)] + [St(r)], r, Binary(op, e0, e1), offLl, busy)
  {
    var s := Operands(s0, r0, s1, r1);
    forall st: State, p: Packet
      ensures ComputesAt(s + [AluX(op)] + [St(r)], r, Binary(op, e0, e1), offLl, busy, st, p)
    {
      OperandsLoaded(s0, r0, e0, s1, r1, e1, offLl, busy, st, p);
      RunOne(s, AluX(op), st, p);
      RunOne(s + [AluX(op)], St(r), st, p);
    }
  }

  /** The terminator of a relation and the statement before it: equality is tested as a
      zero difference, the other comparisons directly against X. */
  function Compare(op: JmpOp): (seq<Stmt>, Term) {
    if op == Jeq then ([AluX(Sub)], JmpK(Jeq, 0)) else ([], JmpX(op))
  }

  /** stmts and term test the relation on every packet, whatever state they start from. */
  ghost predicate Decides(stmts: seq<Stmt>, term: Term, op: JmpOp, l: Expr, r: Expr, offLl: Word) {
    !term.Ret? && forall st: State, p: Packet ::
      Decide(term, ExecAll(stmts, st, p)) == Test(op, Eval(l, offLl, p), Eval(r, offLl, p))
  }

  lemma {:induction false} RelationDecides(s0: seq<Stmt>, r0: Slot, e0: Expr, s1: seq<Stmt>, r1: Slot, e1: Expr,
                                           op: JmpOp, offLl: Word, busy: set<Slot>)
    requires Computes(s0, r0, e0, offLl, busy) && Computes(s1, r1, e1, offLl, busy + {r0})
    ensures Decides(Operands(s0, r0, s1, r1) + Compare(op).0, Compare(op).1, op, e0, e1, offLl)
  {
    var s := Operands(s0, r0, s1, r1);
    forall st: State, p: Packet
      ensures Decide(Compare(op).1, ExecAll(s + Compare(op).0, st, p))
           == Test(op, Eval(e0, offLl, p), Eval(e1, offLl, p))
    {
      OperandsLoaded(s0, r0, e0, s1, r1, e1, offLl, busy, st, p);
      if op == Jeq {
        RunOne(s, AluX(Sub), st, p);
      } else {
        assert s + [] == s;
      }
    }
  }
}
