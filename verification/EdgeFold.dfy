/** fold_edge: the branch a test takes when another test of the same numbers has come out. */
module EdgeFold {
  import opened Bpf
  import opened Graph
  import opened Liveness
  import opened ValueNumbers
  import opened Renumbering

  predicate SameTest(s: Term, t: Term) {
    || (s.JmpK? && t.JmpK? && s.op == t.op)
    || (s.JmpX? && t.JmpX? && s.op == t.op)
  }

  /** The outcome of a test, when the outcome of another one fixes it: aval and oval number the
      accumulator and the operand of each. */
  function FoldSense(t0: Term, aval0: nat, oval0: nat, t1: Term, aval1: nat, oval1: nat, sense: bool): Option<bool> {
    if !SameTest(t0, t1) then None
    else if aval0 != aval1 then None
    else if oval0 == oval1 then Some(sense)
    else if sense && t0.JmpK? && t0.op == Jeq then Some(false)
    else None
  }

  /** The branch child takes, when the branch taken at the end of another block fixes it. */
  function FoldEdge(child: Node, aval0: nat, oval0: nat, term: Term, aval1: nat, oval1: nat, sense: bool): Option<Id> {
    match FoldSense(child.term, aval0, oval0, term, aval1, oval1, sense)
    case Some(outcome) => Some(if outcome then child.jt else child.jf)
    case None => None
  }

  /** What the test reads is known, and oval numbers its operand. */
  predicate TestKnown(T: Table, t: Term, val: Numbers, oval: nat) {
    Knows(T, val, TermUses(t)) && OperandNumbered(T, t, val, oval)
  }

  // ----- tests with one outcome -----

  /** Every word compares with k in the same way. */
  predicate FixedByOperand(op: JmpOp, k: Word) {
    match op
    case Jeq => false
    case Jgt => k == WORDS - 1
    case Jge => k == 0
    case Jset => k == 0
  }

  /** So does a with every word. */
  predicate FixedByValue(op: JmpOp, a: Word) {
    match op
    case Jeq => false
    case Jgt => a == 0
    case Jge => a == WORDS - 1
    case Jset => a == 0
  }

  lemma {:induction false} BitAndSelf(a: nat)
    ensures BitAnd(a, a) == a
  {
    if a > 0 {
      BitAndSelf(a / 2);
    }
  }

  lemma OperandFixes(op: JmpOp, k: Word) returns (yes: Word, no: Word)
    ensures FixedByOperand(op, k) ==> forall a: Word, b: Word :: Test(op, a, k) == Test(op, b, k)
    ensures !FixedByOperand(op, k) ==> Test(op, yes, k) && !Test(op, no, k)
  {
    BitAndSelf(k);
    yes := if op == Jgt then WORDS - 1 else k;
    no := if op == Jeq then (if k == 0 then 1 else 0) else if op == Jgt then k else 0;
  }

  lemma ValueFixes(op: JmpOp, a: Word) returns (yes: Word, no: Word)
    ensures FixedByValue(op, a) ==> forall x: Word, y: Word :: Test(op, a, x) == Test(op, a, y)
    ensures !FixedByValue(op, a) ==> Test(op, a, yes) && !Test(op, a, no)
  {
    BitAndSelf(a);
    yes := if op == Jgt then 0 else a;
    no := if op == Jeq then (if a == 0 then 1 else 0) else if op == Jgt then a else if op == Jge then WORDS - 1 else 0;
  }

  /** The outcome of the test is a matter of the packet: both words it reads are known, or the
      known one decides it, whatever the other is. */
  ghost predicate Settled(T: Table, op: JmpOp, aval: nat, oval: nat) {
    if Solid(T, aval) then Solid(T, oval) || forall p: Packet :: FixedByValue(op, Den(T, aval, p))
    else Solid(T, oval) && forall p: Packet :: FixedByOperand(op, Den(T, oval, p))
  }

  /** For a test against a constant that can be seen from the constant. */
  lemma SettledConstant(T: Table, t: Term, val: Numbers, oval: nat)
    requires t.JmpK? && OperandNumbered(T, t, val, oval)
    ensures Settled(T, t.op, val[A_ATOM], oval) <==> Solid(T, val[A_ATOM]) || FixedByOperand(t.op, t.k)
  {
    var quiet := Packet(0, (size, k) => 0, k => 0);
    assert Den(T, oval, quiet) == t.k;
  }

  // ----- when fold_edge has to name a branch -----

  /** Whatever the words compared are: when a test against one operand has come out as sense, the
      same test against another one comes out as o. Operands with the same number are equal, and
      constants with different ones are not. */
  ghost predicate Forced(op: JmpOp, constants: bool, same: bool, sense: bool, o: bool) {
    forall a: Word, k0: Word, k1: Word {:trigger Test(op, a, k0), Test(op, a, k1)} ::
      (same ==> k0 == k1) && (constants && !same ==> k0 != k1) && Test(op, a, k1) == sense ==> Test(op, a, k0) == o
  }

  /** Words for a test with the given outcome, after which a test against another operand may
      still come out either way. */
  lemma Undecided(op: JmpOp, sense: bool) returns (a: Word, k1: Word, yes: Word, no: Word)
    ensures Test(op, a, k1) == sense && Test(op, a, yes) && !Test(op, a, no) && k1 != no
    ensures yes == k1 ==> op == Jeq && sense
  {
    BitAndSelf(1);
    assert BitAnd(3, 2) == 2 && BitAnd(3, 1) == 1 && BitAnd(3, 4) == 0 && BitAnd(3, 8) == 0 by {
      assert BitAnd(1, 1) == 1 && BitAnd(1, 2) == 0 && BitAnd(1, 0) == 0 && BitAnd(1, 4) == 0;
    }
    match op
    case Jeq => a, k1, yes, no := 5, if sense then 5 else 6, 5, 7;
    case Jgt => a, k1, yes, no := 5, if sense then 3 else 6, 4, 7;
    case Jge => a, k1, yes, no := 5, if sense then 3 else 6, 4, 7;
    case Jset => a, k1, yes, no := 3, if sense then 1 else 4, 2, 8;
  }

  /** fold_edge names an outcome exactly when both blocks make the same test of the same number and
      the outcome of the one leaves only this for the other, as far as the numbers can tell. */
  lemma FoldNames(t0: Term, aval0: nat, oval0: nat, t1: Term, aval1: nat, oval1: nat, sense: bool, o: bool)
    ensures FoldSense(t0, aval0, oval0, t1, aval1, oval1, sense) == Some(o) <==>
      && !t0.Ret? && !t1.Ret? && t0.JmpK? == t1.JmpK? && t0.op == t1.op && aval0 == aval1
      && Forced(t0.op, t0.JmpK?, oval0 == oval1, sense, o)
  {
    if !t0.Ret? {
      var a, k1, yes, no := Undecided(t0.op, sense);
      assert Test(t0.op, a, k1) == sense && Test(t0.op, a, yes) && !Test(t0.op, a, no);
    }
  }

  // ----- when fold_edge is right -----

  /** Whatever states the numbers describe on a packet: when the other block has taken the given
      branch, the block takes the branch that fold_edge names. */
  ghost predicate FoldRight(T: Table, child: Node, val0: Numbers, oval0: nat, term: Term, val1: Numbers, oval1: nat,
                            sense: bool)
    requires !child.term.Ret? && !term.Ret?
  {
    forall st0: State, st1: State, p: Packet {:trigger Describes(T, val0, st0, p), Describes(T, val1, st1, p)} ::
      Describes(T, val0, st0, p) && Describes(T, val1, st1, p) && Decide(term, st1) == sense ==>
      FoldEdge(child, val0[A_ATOM], oval0, term, val1[A_ATOM], oval1, sense) == Some(Choose(child, st0))
  }

  /** The words a test compares. */
  function Operand(t: Term, st: State): Word
    requires !t.Ret?
  {
    if t.JmpK? then t.k else st[X_ATOM]
  }

  lemma OperandDenotes(T: Table, t: Term, val: Numbers, oval: nat, st: State, p: Packet)
    requires !t.Ret? && OperandNumbered(T, t, val, oval) && Describes(T, val, st, p)
    ensures Decide(t, st) == Test(t.op, st[A_ATOM], Operand(t, st))
    ensures Solid(T, val[A_ATOM]) ==> st[A_ATOM] == Den(T, val[A_ATOM], p)
    ensures Solid(T, oval) ==> Operand(t, st) == Den(T, oval, p)
    ensures t.JmpK? ==> Solid(T, oval)
  {
  }

  /** When a run took the given branch at the end of one block, the test at the end of the other
      comes out as FoldSense says, also when that compares the same word with another constant. */
  lemma FoldSound(T: Table, t0: Term, val0: Numbers, oval0: nat, after0: State,
                  t1: Term, val1: Numbers, oval1: nat, after1: State, p: Packet)
    requires Distinct(T) && !t0.Ret? && !t1.Ret? && Settled(T, t0.op, val0[A_ATOM], oval0)
    requires OperandNumbered(T, t0, val0, oval0) && Describes(T, val0, after0, p)
    requires OperandNumbered(T, t1, val1, oval1) && Describes(T, val1, after1, p)
    ensures var r := FoldSense(t0, val0[A_ATOM], oval0, t1, val1[A_ATOM], oval1, Decide(t1, after1));
      r.Some? ==> r.value == Decide(t0, after0)
  {
    OperandDenotes(T, t0, val0, oval0, after0, p);
    OperandDenotes(T, t1, val1, oval1, after1, p);
    if SameTest(t0, t1) {
      var yes, no := OperandFixes(t0.op, Operand(t0, after0));
      yes, no := ValueFixes(t0.op, after0[A_ATOM]);
    }
  }

  /** A state that val describes, with the given words in what is not known. */
  function Filled(T: Table, val: Numbers, p: Packet, a: Word, x: Word): (st: State)
    ensures Describes(T, val, st, p)
    ensures !Solid(T, val[A_ATOM]) ==> st[A_ATOM] == a
    ensures !Solid(T, val[X_ATOM]) ==> st[X_ATOM] == x
  {
    seq(18, b requires 0 <= b < 18 => if Solid(T, val[b]) then Den(T, val[b], p) else if b == A_ATOM then a else x)
  }

  /** Words that make an unsettled test come out one way, and words that make it come out the
      other way. */
  lemma Unsettled(T: Table, op: JmpOp, aval: nat, oval: nat)
    returns (p: Packet, a: Word, x: Word, a': Word, x': Word)
    requires !Settled(T, op, aval, oval)
    ensures Test(op, if Solid(T, aval) then Den(T, aval, p) else a, if Solid(T, oval) then Den(T, oval, p) else x)
    ensures !Test(op, if Solid(T, aval) then Den(T, aval, p) else a', if Solid(T, oval) then Den(T, oval, p) else x')
  {
    p, a, x, a', x' := Packet(0, (size, k) => 0, k => 0), 1, 1, 0, 1;
    if Solid(T, aval) {
      p :| !FixedByValue(op, Den(T, aval, p));
      x, x' := ValueFixes(op, Den(T, aval, p));
    } else if Solid(T, oval) {
      p :| !FixedByOperand(op, Den(T, oval, p));
      a, a' := OperandFixes(op, Den(T, oval, p));
    } else {
      BitAndSelf(1);
      if op == Jgt {
        x := 0;
      }
    }
  }

  /** Where fold_edge names one of two different branches, it is right exactly if the test is
      settled. */
  lemma FoldExactly(T: Table, child: Node, val0: Numbers, oval0: nat, term: Term, val1: Numbers, oval1: nat,
                    sense: bool)
    requires Distinct(T) && !child.term.Ret? && !term.Ret? && child.jt != child.jf
    requires OperandNumbered(T, child.term, val0, oval0) && OperandNumbered(T, term, val1, oval1)
    requires FoldEdge(child, val0[A_ATOM], oval0, term, val1[A_ATOM], oval1, sense).Some?
    ensures FoldRight(T, child, val0, oval0, term, val1, oval1, sense) <==>
      Settled(T, child.term.op, val0[A_ATOM], oval0)
  {
    if Settled(T, child.term.op, val0[A_ATOM], oval0) {
      forall st0: State, st1: State, p: Packet
        | Describes(T, val0, st0, p) && Describes(T, val1, st1, p) && Decide(term, st1) == sense
        ensures FoldEdge(child, val0[A_ATOM], oval0, term, val1[A_ATOM], oval1, sense) == Some(Choose(child, st0))
      {
        FoldSound(T, child.term, val0, oval0, st0, term, val1, oval1, st1, p);
      }
    } else {
      FoldWrong(T, child, val0, oval0, term, val1, oval1, sense);
    }
  }

  lemma FoldWrong(T: Table, child: Node, val0: Numbers, oval0: nat, term: Term, val1: Numbers, oval1: nat, sense: bool)
    requires Distinct(T) && !child.term.Ret? && !term.Ret? && child.jt != child.jf
    requires OperandNumbered(T, child.term, val0, oval0) && OperandNumbered(T, term, val1, oval1)
    requires FoldEdge(child, val0[A_ATOM], oval0, term, val1[A_ATOM], oval1, sense).Some?
    requires !Settled(T, child.term.op, val0[A_ATOM], oval0)
    ensures !FoldRight(T, child, val0, oval0, term, val1, oval1, sense)
  {
    var p, a, x, a', x' := Unsettled(T, child.term.op, val0[A_ATOM], oval0);
    var st0, st1;
    if oval0 == oval1 {
      st1 := if sense then Filled(T, val1, p, a, x) else Filled(T, val1, p, a', x');
      st0 := if sense then Filled(T, val0, p, a', x') else Filled(T, val0, p, a, x);
    } else {
      assert !Solid(T, val0[A_ATOM]);
      st1, st0 := Filled(T, val1, p, term.k, 0), Filled(T, val0, p, child.term.k, 0);
    }
    OperandDenotes(T, child.term, val0, oval0, st0, p);
    OperandDenotes(T, term, val1, oval1, st1, p);
    assert Describes(T, val0, st0, p) && Describes(T, val1, st1, p) && Decide(term, st1) == sense;
  }
}
