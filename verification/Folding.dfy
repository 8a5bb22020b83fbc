/** opt_stmt: number what a statement computes and, when asked to, simplify it. */
module Folding {
  import opened Bpf
  import opened Liveness
  import opened ValueNumbers
  import opened Words

  // ----- the rewrites -----

  /** A known constant is what its atom holds. */
  lemma KonstHolds(T: Table, val: Numbers, a: Atom, st: State, p: Packet)
    requires Describes(T, val, st, p) && Konst(T, val[a]).Some?
    ensures st[a] == Konst(T, val[a]).value
  {
    assert Solid(T, val[a]);
  }

  lemma FoldInd(T: Table, val: Numbers, size: Size, k: Word)
    requires Konst(T, val[X_ATOM]).Some?
    ensures Rewrites(T, val, LdInd(size, k), LdAbs(size, Alu(Add, k, Konst(T, val[X_ATOM]).value)))
  {
    forall st: State, p: Packet | Describes(T, val, st, p) ensures st[X_ATOM] == Konst(T, val[X_ATOM]).value {
      KonstHolds(T, val, X_ATOM, st, p);
    }
  }

  lemma FoldNeg(T: Table, val: Numbers)
    requires Konst(T, val[A_ATOM]).Some?
    ensures Rewrites(T, val, Neg, LdImm(Alu(Sub, 0, Konst(T, val[A_ATOM]).value)))
  {
    forall st: State, p: Packet | Describes(T, val, st, p) ensures st[A_ATOM] == Konst(T, val[A_ATOM]).value {
      KonstHolds(T, val, A_ATOM, st, p);
    }
  }

  /** x op 0 == x. */
  predicate RightUnit(op: AluOp) {
    op.Add? || op.Lsh? || op.Rsh? || op.Or?
  }

  lemma FoldK(T: Table, val: Numbers, op: AluOp, k: Word)
    requires Konst(T, val[A_ATOM]).Some?
    ensures Rewrites(T, val, AluK(op, k), LdImm(Alu(op, Konst(T, val[A_ATOM]).value, k)))
  {
    forall st: State, p: Packet | Describes(T, val, st, p) ensures st[A_ATOM] == Konst(T, val[A_ATOM]).value {
      KonstHolds(T, val, A_ATOM, st, p);
    }
  }

  lemma {:induction false} ShiftZero(n: nat)
    ensures ShiftLeft(0, n) == 0 && ShiftRight(0, n) == 0
  {
    if n > 0 {
      ShiftZero(n - 1);
    }
  }

  /** 0 op x == x, or 0 op x == 0. */
  lemma FoldZeroLeft(T: Table, val: Numbers, op: AluOp)
    requires Konst(T, val[A_ATOM]) == Some(0) && op != Sub
    ensures Rewrites(T, val, AluX(op), if op.Add? || op.Or? then Txa else LdImm(0))
  {
    forall st: State, p: Packet | Describes(T, val, st, p)
      ensures Alu(op, st[A_ATOM], st[X_ATOM]) == if op.Add? || op.Or? then st[X_ATOM] else 0
    {
      KonstHolds(T, val, A_ATOM, st, p);
      ShiftZero(st[X_ATOM]);
    }
  }

  /** fold_op gives up exactly on a division of one constant by another that is zero. */
  predicate DividesByZero(T: Table, val: Numbers, s: Stmt) {
    && Konst(T, val[A_ATOM]).Some?
    && (s == AluK(Div, 0) || (s == AluX(Div) && Konst(T, val[X_ATOM]) == Some(0)))
  }

  /** r reads no constant that s could have read from it: an operation on constants has become a
      constant, a constant operand part of the statement, and an operand that a zero makes
      irrelevant is gone. */
  predicate Lean(T: Table, val: Numbers, s: Stmt, r: Stmt) {
    && (s.Neg? || s.AluK? || s.AluX? || s.LdInd? || s.LdMem? || s.LdxMem? ==>
         (forall a: Atom :: a in Uses(s) ==> Konst(T, val[a]).Some?) ==> Uses(r) == {})
    && (s.AluX? && Konst(T, val[X_ATOM]).Some? ==> X_ATOM !in Uses(r))
    && (s.AluX? && Konst(T, val[A_ATOM]) == Some(0) && !s.op.Sub? ==> A_ATOM !in Uses(r))
  }

  /** x op 0 == 0. */
  predicate RightZero(op: AluOp) {
    op.Mul? || op.And?
  }

  /** What opt_stmt does besides being right: r is lean, an operation with a unit is gone, one with
      a zero has become that, and a transfer is gone exactly when the number it brings is there
      already. */
  predicate Simplified(T: Table, val: Numbers, s: Stmt, val': Numbers, r: Stmt) {
    && Lean(T, val, s, r)
    && (s.AluK? && s.k == 0 && RightUnit(s.op) ==> r == Nop)
    && (s.AluK? && s.k == 0 && RightZero(s.op) ==> r == LdImm(0))
    && (Transfers(s) ==> (r == Nop <==> val'[Def(s).value] == val[Def(s).value]))
  }

  /** In other words: an operation on two constants, a load of one or at an offset that is one, and
      the negation of one read nothing any more; an operand that is constant, or made irrelevant by
      a zero on the left, is not read; units and zeros on the right have gone; and a transfer is
      gone exactly when the number it brings is there. */
  lemma SimplifiedMeans(T: Table, val: Numbers, s: Stmt, val': Numbers, r: Stmt)
    requires Simplified(T, val, s, val', r)
    ensures var a, x := Konst(T, val[A_ATOM]), Konst(T, val[X_ATOM]);
      && (a.Some? && (s.Neg? || s.AluK? || (s.AluX? && x.Some?)) ==> Uses(r) == {})
      && (x.Some? && s.LdInd? ==> Uses(r) == {})
      && ((s.LdMem? || s.LdxMem?) && Konst(T, val[s.slot]).Some? ==> Uses(r) == {})
      && (x.Some? && s.AluX? ==> X_ATOM !in Uses(r))
      && (a == Some(0) && s.AluX? && s.op != Sub ==> A_ATOM !in Uses(r))
      && (s.AluK? && s.k == 0 && s.op in {Add, Or, Lsh, Rsh} ==> r == Nop)
      && (s.AluK? && s.k == 0 && s.op in {Mul, And} ==> r == LdImm(0))
      && (Def(s).Some? && s != Neg && !s.AluK? && !s.AluX? ==>
           (r == Nop <==> val'[Def(s).value] == val[Def(s).value]))
  {
  }

  class Folder {
    const table: Numbering
    /** The number of what each atom holds. */
    const val: array<nat>

    ghost predicate Valid()
      reads this, table, table.hashtbl, val
    {
      && table.Valid() && val.Length == 18 && val != table.hashtbl
      && Bounded(table.T(), val[..])
    }

    ghost predicate Done(T0: Table, val0: Numbers, s: Stmt, r: Option<Stmt>, alter: bool)
      requires Valid()
      reads this, table, table.hashtbl, val
    {
      && T0 <= table.T()
      && (r.None? <==> alter && DividesByZero(T0, val0, s))
      && (r.Some? ==> Step(table.T(), val0, s, val[..], r.value))
      && (r.Some? && !alter ==> r.value == s)
      && (r.Some? && alter ==> Simplified(T0, val0, s, val[..], r.value))
    }

    constructor (table: Numbering)
      requires table.Valid()
      ensures Valid() && this.table == table && fresh(val) && forall a: Atom :: val[a] == 0
    {
      this.table := table;
      val := new nat[18](_ => 0);
    }

    /** s is to become s', whose result has the number v. */
    ghost predicate Planned(T0: Table, s: Stmt, s': Stmt, v: nat, alter: bool)
      requires Valid()
      reads this, table, table.hashtbl, val
    {
      && T0 <= table.T() && Bounded(T0, val[..])
      && s' != Nop && Def(s') == Def(s) && Uses(s') <= Uses(s)
      && Numbered(table.T(), val[..], s', v) && Rewrites(T0, val[..], s, s')
      && (if alter then Lean(T0, val[..], s, s') else s' == s)
    }

    /** vstore when drop is set, a plain assignment to the number otherwise. */
    method Store(ghost T0: Table, ghost s: Stmt, s': Stmt, v: nat, drop: bool, ghost alter: bool)
      returns (r: Option<Stmt>)
      requires Valid() && Planned(T0, s, s', v, alter) && (drop ==> alter) && !(alter && DividesByZero(T0, val[..], s))
      requires alter ==> (Transfers(s) ==> drop) && !(s.AluK? && s.k == 0 && RightUnit(s.op))
      requires alter && s.AluK? && s.k == 0 && RightZero(s.op) ==> s' == LdImm(0) && !drop
      requires drop ==> Transfers(s) || Solid(table.T(), val[Def(s).value])
      modifies val
      ensures Valid() && Done(T0, old(val[..]), s, r, alter) && (!drop ==> r == Some(s'))
    {
      ghost var val0, T := val[..], table.T();
      RewritesKeeps(T0, T, val0, s, s');
      var a := Def(s').value;
      if drop && val[a] == v {
        DropStep(T, val0, s, s', a, v);
        r := Some(Nop);
      } else {
        StoreStep(T, val0, s, s', a, v);
        val[a] := v;
        assert val[..] == val0[a := v];
        r := Some(s');
      }
    }

    /** Number a load of A or X, from the packet or of a constant. */
    method NumberLoad(s: Stmt, alter: bool) returns (s': Stmt, v: nat)
      requires Valid() && (s.LdAbs? || s.LdInd? || s.LdLen? || s.LdImm? || s.LdxImm? || s.LdxMsh?)
      modifies table, table.hashtbl
      ensures Valid() && Planned(old(table.T()), s, s', v, alter)
    {
      s' := s;
      match s {
        case LdAbs(size, k) => v := table.F(Abs(size), k, 0);
        case LdInd(size, k) => s', v := NumberInd(size, k, alter);
        case LdLen => v := table.F(Len, 0, 0);
        case LdImm(k) => v := table.F(Imm, k, 0);
        case LdxImm(k) => v := table.F(Imm, k, 0);
        case LdxMsh(k) => v := table.F(Msh, k, 0);
      }
    }

    method NumberInd(size: Size, k: Word, alter: bool) returns (s': Stmt, v: nat)
      requires Valid()
      modifies table, table.hashtbl
      ensures Valid() && Planned(old(table.T()), LdInd(size, k), s', v, alter)
    {
      v := val[X_ATOM];
      if alter && table.vmap[v].Some? {
        FoldInd(table.T(), val[..], size, k);
        s' := LdAbs(size, Alu(Add, k, table.vmap[v].value));
        v := table.F(Abs(size), s'.k, 0);
      } else {
        s' := LdInd(size, k);
        v := table.F(Ind(size), k, v);
      }
    }

    method OptNeg(alter: bool) returns (r: Option<Stmt>)
      requires Valid()
      modifies val, table, table.hashtbl
      ensures Valid() && Done(old(table.T()), old(val[..]), Neg, r, alter)
    {
      ghost var T0, val0 := table.T(), val[..];
      var s', v := Neg, val[A_ATOM];
      if alter && table.vmap[v].Some? {
        FoldNeg(T0, val0);
        s' := LdImm(Alu(Sub, 0, table.vmap[v].value));
        v := table.F(Imm, s'.k, 0);
      } else {
        v := table.F(Minus, v, 0);
      }
      r := Store(T0, Neg, s', v, false, alter);
    }

    /** s is to become the load of the constant k into A. */
    method PlanImm(ghost s: Stmt, k: Word) returns (s': Stmt, v: nat)
      requires Valid() && Def(s) == Some(A_ATOM) && Rewrites(table.T(), val[..], s, LdImm(k))
      modifies table, table.hashtbl
      ensures Valid() && Planned(old(table.T()), s, s', v, true) && s' == LdImm(k)
    {
      s' := LdImm(k);
      v := table.F(Imm, k, 0);
    }

    /** s is to become an operation of A with the constant k. */
    method PlanAluK(ghost s: Stmt, op: AluOp, k: Word, ghost alter: bool) returns (s': Stmt, v: nat)
      requires Valid() && Def(s) == Some(A_ATOM) && A_ATOM in Uses(s)
      requires Rewrites(table.T(), val[..], s, AluK(op, k))
      requires if alter then Lean(table.T(), val[..], s, AluK(op, k)) else s == AluK(op, k)
      modifies table, table.hashtbl
      ensures Valid() && Planned(old(table.T()), s, s', v, alter)
    {
      ghost var T0 := table.T();
      s' := AluK(op, k);
      var kv := table.F(Imm, k, 0);
      ghost var T1 := table.T();
      v := table.F(WithK(op), val[A_ATOM], kv);
    }

    /** fold_op on two constants: the load of what the operation makes of them, and an error on a
        division by zero. */
    method FoldOp(ghost s: Stmt, op: AluOp, a: Word, b: Word) returns (r: Option<Stmt>)
      requires Valid() && Def(s) == Some(A_ATOM) && Rewrites(table.T(), val[..], s, LdImm(Alu(op, a, b)))
      requires DividesByZero(table.T(), val[..], s) <==> op.Div? && b == 0
      requires s.AluX? || (s.AluK? && !(s.k == 0 && (RightUnit(s.op) || RightZero(s.op))))
      modifies val, table, table.hashtbl
      ensures Valid() && Done(old(table.T()), old(val[..]), s, r, true)
      ensures r.None? <==> op.Div? && b == 0
      ensures r.Some? ==> r.value.LdImm? && Makes(op, a, b, r.value.k)
    {
      AluMakes(op, a, b);
      if op.Div? && b == 0 {
        return None;
      }
      ghost var T0 := table.T();
      var s', v := PlanImm(s, Alu(op, a, b));
      r := Store(T0, s, s', v, false, true);
    }

    method OptAluK(op: AluOp, k: Word, alter: bool) returns (r: Option<Stmt>)
      requires Valid()
      modifies val, table, table.hashtbl
      ensures Valid() && Done(old(table.T()), old(val[..]), AluK(op, k), r, alter)
    {
      ghost var T0, s := table.T(), AluK(op, k);
      if alter && k == 0 && RightUnit(op) {
        r := Some(Nop);
      } else if alter && k == 0 && RightZero(op) {
        var s', v := PlanImm(s, 0);
        r := Store(T0, s, s', v, false, alter);
      } else if alter && table.vmap[val[A_ATOM]].Some? {
        FoldK(T0, val[..], op, k);
        r := FoldOp(s, op, table.vmap[val[A_ATOM]].value, k);
      } else {
        var s', v := PlanAluK(s, op, k, alter);
        r := Store(T0, s, s', v, false, alter);
      }
    }

    method OptAluX(op: AluOp, alter: bool) returns (r: Option<Stmt>)
      requires Valid()
      modifies val, table, table.hashtbl
      ensures Valid() && Done(old(table.T()), old(val[..]), AluX(op), r, alter)
    {
      var a, x := table.vmap[val[A_ATOM]], table.vmap[val[X_ATOM]];
      if alter && x.Some? {
        r := OptConstX(op, a, x.value);
      } else if alter && a == Some(0) && !op.Sub? {
        FoldZeroLeft(table.T(), val[..], op);
        r := OptZeroLeft(op);
      } else {
        r := NumberAluX(op, alter);
      }
    }

    /** The statement stays as it is. */
    method NumberAluX(op: AluOp, alter: bool) returns (r: Option<Stmt>)
      requires Valid() && (alter ==> Lean(table.T(), val[..], AluX(op), AluX(op)))
      requires !(alter && DividesByZero(table.T(), val[..], AluX(op)))
      modifies val, table, table.hashtbl
      ensures Valid() && Done(old(table.T()), old(val[..]), AluX(op), r, alter)
    {
      ghost var T0 := table.T();
      var v := table.F(WithX(op), val[A_ATOM], val[X_ATOM]);
      SelfRewrite(T0, val[..], AluX(op));
      r := Store(T0, AluX(op), AluX(op), v, false, alter);
    }

    /** X is known to be x. */
    method OptConstX(op: AluOp, a: Option<Word>, x: Word) returns (r: Option<Stmt>)
      requires Valid() && Konst(table.T(), val[A_ATOM]) == a && Konst(table.T(), val[X_ATOM]) == Some(x)
      modifies val, table, table.hashtbl
      ensures Valid() && Done(old(table.T()), old(val[..]), AluX(op), r, true)
    {
      ghost var T0, s := table.T(), AluX(op);
      if a.Some? {
        r := FoldOp(s, op, a.value, x);
      } else {
        var s', v := PlanAluK(s, op, x, true);
        r := Store(T0, s, s', v, false, true);
      }
    }

    /** A is known to be zero. */
    method OptZeroLeft(op: AluOp) returns (r: Option<Stmt>)
      requires Valid() && Rewrites(table.T(), val[..], AluX(op), if op.Add? || op.Or? then Txa else LdImm(0))
      requires !DividesByZero(table.T(), val[..], AluX(op)) && Konst(table.T(), val[X_ATOM]).None?
      requires Konst(table.T(), val[A_ATOM]) == Some(0)
      modifies val, table, table.hashtbl
      ensures Valid() && Done(old(table.T()), old(val[..]), AluX(op), r, true)
    {
      ghost var T0 := table.T();
      var s', v := Txa, val[X_ATOM];
      if !op.Add? && !op.Or? {
        s', v := PlanImm(AluX(op), 0);
      }
      assert Solid(table.T(), val[A_ATOM]) by {
        DenKeeps(T0, table.T(), val[A_ATOM]);
      }
      r := Store(T0, AluX(op), s', v, true, true);
    }

    /** The moves between A, X and scratch memory. */
    method OptMove(s: Stmt, alter: bool) returns (r: Option<Stmt>)
      requires Valid() && (s.Txa? || s.Tax? || s.St? || s.Stx? || s.LdMem? || s.LdxMem?)
      modifies val
      ensures Valid() && Done(table.T(), old(val[..]), s, r, alter)
    {
      var s', v := s, val[if s.Txa? || s.Stx? then X_ATOM else if s.LdMem? || s.LdxMem? then s.slot else A_ATOM];
      if alter && table.vmap[v].Some? && (s.LdMem? || s.LdxMem?) {
        s' := if s.LdMem? then LdImm(table.vmap[v].value) else LdxImm(table.vmap[v].value);
      }
      r := Store(table.T(), s, s', v, alter, alter);
    }

    /** opt_stmt */
    method OptStmt(s: Stmt, alter: bool) returns (r: Option<Stmt>)
      requires Valid()
      modifies val, table, table.hashtbl
      ensures Valid() && Done(old(table.T()), old(val[..]), s, r, alter)
      ensures r.None? <==>
        && alter && Konst(old(table.T()), old(val[A_ATOM])).Some?
        && (s == AluK(Div, 0) || (s == AluX(Div) && Konst(old(table.T()), old(val[X_ATOM])) == Some(0)))
    {
      match s {
        case Nop => r := Some(Nop);
        case Neg => r := OptNeg(alter);
        case AluK(op, k) => r := OptAluK(op, k, alter);
        case AluX(op) => r := OptAluX(op, alter);
        case Txa => r := OptMove(s, alter);
        case Tax => r := OptMove(s, alter);
        case St(_) => r := OptMove(s, alter);
        case Stx(_) => r := OptMove(s, alter);
        case LdMem(_) => r := OptMove(s, alter);
        case LdxMem(_) => r := OptMove(s, alter);
        case _ =>
          ghost var T0 := table.T();
          var s', v := NumberLoad(s, alter);
          r := Store(T0, s, s', v, alter, alter);
      }
    }
  }

  lemma SelfRewrite(T: Table, val: Numbers, s: Stmt)
    ensures Rewrites(T, val, s, s)
  {
  }

  // ----- transfers of unknown values -----

  const QUIET := Packet(0, (size, k) => 0, k => 0)

  /** A state that T describes. */
  function Witness(T: Table, val: Numbers): State {
    seq(18, b requires 0 <= b < 18 => if Solid(T, val[b]) then Den(T, val[b], QUIET) else 0)
  }

  /** opt_stmt drops a transfer whose number its target has already. That is right exactly when
      the number is known: two unknown values share the number 0, and two results made of
      unknown values share a number as well. */
  lemma TransferDropped(T: Table, val: Numbers, s: Stmt)
    requires Ordered(T) && Bounded(T, val) && Transfers(s) && Numbered(T, val, s, val[Def(s).value])
    ensures Rewrites(T, val, s, Nop) <==> Solid(T, val[Def(s).value])
  {
    var dst := Def(s).value;
    if Solid(T, val[dst]) {
      forall st: State, p: Packet | Describes(T, val, st, p) ensures Exec(s, st, p) == st {
        NumberedDenotes(T, val, s, val[dst], st, p);
      }
    } else {
      var base := Witness(T, val);
      var w := Value(s, base, QUIET);
      var st: State := base[dst := if w == 0 then 1 else 0];
      assert Describes(T, val, st, QUIET);
      assert Value(s, st, QUIET) == w by {
        ExecRespectsUses(s, base, st, QUIET);
      }
      assert Exec(s, st, QUIET)[dst] == w;
    }
  }
}
