/** What the sets of atoms mean: which words a statement, a test, a block and everything behind a
    block depend on. */
module Reads {
  import opened Bpf
  import opened Graph
  import opened Words
  import opened Liveness
  import opened EdgeFold

  // ----- statements -----

  /** The states hold the same words but in a. */
  ghost predicate DifferIn(a: Atom, st: State, st': State) {
    forall c: Atom :: c != a ==> st'[c] == st[c]
  }

  /** An operation with a constant that makes the same word of whatever it is given. */
  predicate Constant(s: Stmt) {
    s.AluK? && match s.op
      case Add => false
      case Sub => false
      case Mul => s.k == 0
      case Div => s.k == 0
      case And => s.k == 0
      case Or => s.k == WORDS - 1
      case Lsh => s.k >= 32
      case Rsh => s.k >= 32
  }

  lemma {:induction false} OrOnes(n: nat, k: nat)
    requires k < Pow2(n)
    ensures BitOr(Pow2(n) - 1, k) == Pow2(n) - 1 && BitOr(k, Pow2(n) - 1) == Pow2(n) - 1
    decreases n
  {
    if n > 0 && k > 0 {
      OrOnes(n - 1, k / 2);
    }
  }

  lemma {:induction false} OneShifted(n: nat)
    requires n < 32
    ensures Pow2(n) < WORDS && ShiftLeft(1, n) == Pow2(n)
  {
    WordBits();
    Doubles(n, 32);
    LeftIsTimes(1, n);
  }

  lemma {:induction false} Doubles(n: nat, m: nat)
    requires n < m
    ensures 0 < Pow2(n) < Pow2(m)
    decreases m
  {
    PowerPositive(m - 1);
    if n < m - 1 {
      Doubles(n, m - 1);
    }
  }

  lemma WideQuotient(a: Word, k: Word)
    requires 0 < k <= a
    ensures a / k > 0
  {
  }

  lemma LeftVaries(k: Word)
    requires k < 32
    ensures Alu(Lsh, 0, k) != Alu(Lsh, 1, k)
  {
    OneShifted(k);
    LeftIsTimes(0, k);
    Doubles(k, 32);
  }

  lemma RightVaries(k: Word)
    requires k < 32
    ensures Alu(Rsh, 0, k) != Alu(Rsh, WORDS - 1, k)
  {
    WordBits();
    Doubles(k, 32);
    RightIsQuotient(0, k);
    RightIsQuotient(WORDS - 1, k);
    WideQuotient(WORDS - 1, Pow2(k));
  }

  lemma OrVaries(k: Word)
    requires k != WORDS - 1
    ensures Alu(Or, 0, k) != Alu(Or, WORDS - 1, k)
  {
    WordBits();
    OrOnes(32, k);
  }

  lemma DivVaries(k: Word)
    requires k > 0
    ensures Alu(Div, 0, k) != Alu(Div, WORDS - 1, k)
  {
    WideQuotient(WORDS - 1, k);
  }

  /** Two words of which an operation makes different ones. */
  lemma Varies(op: AluOp, k: Word) returns (a: Word, a': Word)
    requires !Constant(AluK(op, k))
    ensures Alu(op, a, k) != Alu(op, a', k)
  {
    a, a' := 0, if op.Div? || op.Rsh? || op.Or? then WORDS - 1 else if op.And? then k else 1;
    match op
    case Div => DivVaries(k);
    case And => BitAndSelf(k);
    case Or => OrVaries(k);
    case Lsh => LeftVaries(k);
    case Rsh => RightVaries(k);
    case _ =>
  }

  lemma SameAnyway(op: AluOp, k: Word, a: Word, a': Word)
    requires Constant(AluK(op, k))
    ensures Alu(op, a, k) == Alu(op, a', k)
  {
    WordBits();
    OrOnes(32, a);
    OrOnes(32, a');
  }

  /** The words in A and X for which one more word in the other register makes a difference. */
  lemma OtherVaries(op: AluOp) returns (a: Word, x: Word, x': Word)
    ensures Alu(op, a, x) != Alu(op, a, x')
  {
    a, x, x' := if op.Or? then 0 else 1, 0, 1;
    if op.Div? {
      x, x' := 1, 2;
    }
    BitAndSelf(1);
    match op
    case Lsh => assert ShiftLeft(1, 1) == ShiftLeft(2, 0);
    case Rsh => assert ShiftRight(1, 1) == ShiftRight(0, 0);
    case _ =>
  }

  /** Two states that differ in a, and a packet on which s then makes different words. */
  ghost predicate Matters(s: Stmt, a: Atom) {
    exists st: State, st': State, p: Packet :: DifferIn(a, st, st') && Value(s, st, p) != Value(s, st', p)
  }

  function Two(a: Word, x: Word): (st: State)
    ensures st[A_ATOM] == a && st[X_ATOM] == x
  {
    seq(18, b => if b == A_ATOM then a else x)
  }

  const ECHO: Packet := Packet(0, (size, k) => k, k => 0)

  lemma Shows(s: Stmt, a: Atom, st: State, st': State)
    requires DifferIn(a, st, st') && Value(s, st, ECHO) != Value(s, st', ECHO)
    ensures Matters(s, a)
  {
  }

  lemma UsesMatter(s: Stmt, a: Atom)
    requires a in Uses(s) && !Constant(s)
    ensures Matters(s, a)
  {
    var w, w', x: Word := 0, 1, 0;
    if s.AluK? {
      w, w' := Varies(s.op, s.k);
    } else if s.AluX? && a == A_ATOM {
      x := if s.op.Add? || s.op.Sub? || s.op.Or? || s.op.Lsh? || s.op.Rsh? then 0 else 1;
      BitAndSelf(1);
    } else if s.AluX? {
      x, w, w' := OtherVaries(s.op);
    }
    var st: State := if a == X_ATOM then Two(x, w) else Two(w, x)[a := w];
    Shows(s, a, st, st[a := w']);
  }

  /** A statement reads exactly the atoms that can make a difference to the word it computes; where
      an operation makes the same word of everything, none does. */
  lemma UsesExact(s: Stmt, a: Atom)
    requires s != Nop
    ensures Matters(s, a) <==> a in Uses(s) && !Constant(s)
  {
    if a in Uses(s) && !Constant(s) {
      UsesMatter(s, a);
    } else {
      forall st: State, st': State, p: Packet | DifferIn(a, st, st') ensures Value(s, st, p) == Value(s, st', p) {
        if s.AluK? && Constant(s) {
          SameAnyway(s.op, s.k, st[A_ATOM], st'[A_ATOM]);
        } else {
          ExecRespectsUses(s, st, st', p);
        }
      }
    }
  }

  // ----- tests -----

  ghost predicate TestMatters(t: Term, a: Atom)
    requires !t.Ret?
  {
    exists st: State, st': State :: DifferIn(a, st, st') && Decide(t, st) != Decide(t, st')
  }

  lemma TestShows(t: Term, a: Atom, st: State, st': State)
    requires !t.Ret? && DifferIn(a, st, st') && Decide(t, st) != Decide(t, st')
    ensures TestMatters(t, a)
  {
  }

  /** A test reads exactly the atoms that can make a difference to its outcome, unless its constant
      decides it. */
  lemma TermUsesExact(t: Term, a: Atom)
    requires !t.Ret?
    ensures TestMatters(t, a) <==> a in TermUses(t) && !(t.JmpK? && FixedByOperand(t.op, t.k))
  {
    if t.JmpK? {
      var yes, no := OperandFixes(t.op, t.k);
      if a == A_ATOM && !FixedByOperand(t.op, t.k) {
        TestShows(t, a, Two(yes, 0), Two(yes, 0)[A_ATOM := no]);
      }
    } else if a == A_ATOM {
      var yes, no := OperandFixes(t.op, 1);
      TestShows(t, a, Two(yes, 1), Two(yes, 1)[A_ATOM := no]);
    } else if a == X_ATOM {
      var yes, no := ValueFixes(t.op, 1);
      TestShows(t, a, Two(1, yes), Two(1, yes)[X_ATOM := no]);
    }
  }

  // ----- blocks -----

  /** None of the first i statements defines a. */
  ghost predicate Undefined(ss: seq<Stmt>, i: nat, a: Atom) {
    forall j: nat {:trigger ss[j]} :: j < i && j < |ss| ==> Def(ss[j]) != Some(a)
  }

  /** The block reads what a holds on entry. */
  ghost predicate ReadsEntry(n: Node, a: Atom) {
    || (exists i: nat {:trigger n.stmts[i]} :: i < |n.stmts| && a in Uses(n.stmts[i]) && Undefined(n.stmts, i, a))
    || (a in TermUses(n.term) && Undefined(n.stmts, |n.stmts|, a))
  }

  /** It writes a before it reads it. */
  ghost predicate WritesFirst(ss: seq<Stmt>, a: Atom) {
    exists i: nat {:trigger ss[i]} :: i < |ss| && Def(ss[i]) == Some(a)
      && forall j: nat {:trigger ss[j]} :: j <= i ==> a !in Uses(ss[j])
  }

  lemma TailUndefined(ss: seq<Stmt>, i: nat, a: Atom)
    requires ss != []
    ensures Undefined(ss, i + 1, a) <==> Def(ss[0]) != Some(a) && Undefined(ss[1..], i, a)
  {
    assert ss[0] == ss[0];
    assert forall j: nat {:trigger ss[1..][j]} :: j < |ss| - 1 ==> ss[1..][j] == ss[j + 1];
    assert forall j: nat {:trigger ss[j]} :: 0 < j < |ss| ==> ss[j] == ss[1..][j - 1];
  }

  /** The statements read what a holds before them. */
  ghost predicate StmtsRead(ss: seq<Stmt>, a: Atom) {
    exists i: nat {:trigger ss[i]} :: i < |ss| && a in Uses(ss[i]) && Undefined(ss, i, a)
  }

  lemma StmtsReadStep(ss: seq<Stmt>, a: Atom)
    requires ss != []
    ensures StmtsRead(ss, a) <==> a in Uses(ss[0]) || (Def(ss[0]) != Some(a) && StmtsRead(ss[1..], a))
  {
    if a in Uses(ss[0]) {
      assert Undefined(ss, 0, a);
    }
    if i: nat :| i < |ss| && a in Uses(ss[i]) && Undefined(ss, i, a) {
      if i > 0 {
        TailUndefined(ss, i - 1, a);
        assert ss[1..][i - 1] == ss[i];
      }
    }
    if Def(ss[0]) != Some(a) && StmtsRead(ss[1..], a) {
      var i: nat :| i < |ss[1..]| && a in Uses(ss[1..][i]) && Undefined(ss[1..], i, a);
      TailUndefined(ss, i, a);
      assert ss[i + 1] == ss[1..][i];
    }
  }

  lemma WritesFirstStep(ss: seq<Stmt>, a: Atom)
    requires ss != []
    ensures WritesFirst(ss, a) <==> a !in Uses(ss[0]) && (Def(ss[0]) == Some(a) || WritesFirst(ss[1..], a))
  {
    if i: nat :| i < |ss| && Def(ss[i]) == Some(a) && forall j: nat {:trigger ss[j]} :: j <= i ==> a !in Uses(ss[j]) {
      assert a !in Uses(ss[0]);
      if i > 0 {
        assert ss[1..][i - 1] == ss[i];
        forall j: nat | j <= i - 1 ensures a !in Uses(ss[1..][j]) {
          assert ss[1..][j] == ss[j + 1];
        }
        assert WritesFirst(ss[1..], a);
      }
    }
    if a !in Uses(ss[0]) && Def(ss[0]) == Some(a) {
      assert WritesFirst(ss, a);
    } else if a !in Uses(ss[0]) && WritesFirst(ss[1..], a) {
      var i: nat :| i < |ss[1..]| && Def(ss[1..][i]) == Some(a)
        && forall j: nat {:trigger ss[1..][j]} :: j <= i ==> a !in Uses(ss[1..][j]);
      assert ss[i + 1] == ss[1..][i];
      forall j: nat | j <= i + 1 ensures a !in Uses(ss[j]) {
        assert j > 0 ==> ss[j] == ss[1..][j - 1];
      }
      assert WritesFirst(ss, a);
    }
  }

  lemma {:induction false} ScanExact(ss: seq<Stmt>, ud: Ud, a: Atom)
    ensures var r := Scan(ss, ud);
      && (a in r.use <==> a in ud.use || (a !in ud.def && StmtsRead(ss, a)))
      && (a in r.def <==> a in ud.def || !Undefined(ss, |ss|, a))
      && (a !in ud.use && a !in ud.def ==> (a in r.kill <==> a in ud.kill || WritesFirst(ss, a)))
      && (a in ud.kill ==> a in r.kill) && (a in ud.use ==> (a in r.kill <==> a in ud.kill))
    decreases |ss|
  {
    if ss != [] {
      var next := Write(Read(ud, Uses(ss[0])), Def(ss[0]));
      ScanExact(ss[1..], next, a);
      StmtsReadStep(ss, a);
      WritesFirstStep(ss, a);
      TailUndefined(ss, |ss| - 1, a);
    }
  }

  /** compute_local_ud finds exactly what the block reads of the values on entry, and what it
      writes before it reads it. */
  lemma LocalUdExact(n: Node, a: Atom)
    ensures a in LocalUd(n).use <==> ReadsEntry(n, a)
    ensures a in LocalUd(n).kill <==> WritesFirst(n.stmts, a)
    ensures a !in LocalUd(n).use && a !in LocalUd(n).kill ==> Undefined(n.stmts, |n.stmts|, a)
  {
    ScanExact(n.stmts, Ud({}, {}, {}), a);
    NotFirst(n.stmts, a);
  }

  /** What is defined is either read before or written first. */
  lemma {:induction false} NotFirst(ss: seq<Stmt>, a: Atom)
    ensures Undefined(ss, |ss|, a) || StmtsRead(ss, a) || WritesFirst(ss, a)
    decreases |ss|
  {
    if ss != [] {
      StmtsReadStep(ss, a);
      WritesFirstStep(ss, a);
      TailUndefined(ss, |ss| - 1, a);
      NotFirst(ss[1..], a);
    }
  }

  /** Statement k defines a, and every later statement that reads a, and whoever needs it at the
      end, finds another definition in between. */
  ghost predicate Replaced(ss: seq<Stmt>, needed: set<Atom>, k: nat, a: Atom) {
    && k < |ss| && Def(ss[k]) == Some(a)
    && (forall i: nat {:trigger ss[i]} :: k < i < |ss| && a in Uses(ss[i]) ==> Redefined(ss, k, i, a))
    && (a in needed ==> Redefined(ss, k, |ss|, a))
  }

  ghost predicate Redefined(ss: seq<Stmt>, k: nat, i: nat, a: Atom) {
    exists j: nat {:trigger ss[j]} :: k < j < i && j < |ss| && Def(ss[j]) == Some(a)
  }

  lemma RedefinedLater(ss: seq<Stmt>, k: nat, i: nat, m: nat, a: Atom)
    requires i <= m
    ensures Redefined(ss, k, i, a) ==> Redefined(ss, k, m, a)
  {
  }

  /** The first statement after k that defines a. */
  lemma {:induction false} FirstAfter(ss: seq<Stmt>, k: nat, i: nat, a: Atom) returns (m: nat)
    requires i <= |ss| && Redefined(ss, k, i, a)
    ensures k < m < i && Def(ss[m]) == Some(a) && !Redefined(ss, k, m, a)
    decreases i
  {
    m :| k < m < i && m < |ss| && Def(ss[m]) == Some(a);
    if Redefined(ss, k, m, a) {
      m := FirstAfter(ss, k, m, a);
    }
  }

  /** opt_deadstores drops exactly the stores whose words nobody gets to see. */
  lemma DeadExactly(ss: seq<Stmt>, term: Term, outUse: set<Atom>, k: nat)
    ensures Dead(ss, term, outUse, k) <==> exists a: Atom :: Replaced(ss, TermUses(term) + outUse, k, a)
  {
    if Dead(ss, term, outUse, k) {
      var a := Def(ss[k]).value;
      if Overwritten(ss, k, |ss|) {
        var m: nat :| k < m < |ss| && OverwrittenBy(ss, k, m);
        forall i: nat | k < i < |ss| && a in Uses(ss[i]) ensures Redefined(ss, k, i, a) {
          assert Def(ss[m]) == Some(a) && (i == m || i < m || m < i);
        }
        assert Def(ss[m]) == Some(a);
      }
      assert Replaced(ss, TermUses(term) + outUse, k, a);
    }
    if a: Atom :| Replaced(ss, TermUses(term) + outUse, k, a) {
      if Redefined(ss, k, |ss|, a) {
        var m := FirstAfter(ss, k, |ss|, a);
        assert a !in Uses(ss[m]);
        assert Idle(ss, k, m, a) by {
          forall i | k < i < m ensures a !in Uses(ss[i]) && Def(ss[i]) != Some(a) {
            RedefinedLater(ss, k, i, m, a);
          }
        }
        assert OverwrittenBy(ss, k, m);
      } else {
        assert Idle(ss, k, |ss|, a);
      }
    }
  }

  // ----- graphs -----

  /** A way from b to a block that reads what a holds there, past blocks that do not write it. */
  ghost predicate WayToRead(g: Net, b: Id, a: Atom, s: seq<Id>) {
    && s != [] && s[0] == b && (forall i {:trigger s[i]} :: 0 <= i < |s| ==> s[i] < |g|)
    && ReadsEntry(g[s[|s| - 1]], a)
    && forall i: nat {:trigger g[s[i]]} :: i < |s| - 1 ==>
      && !g[s[i]].term.Ret? && (s[i + 1] == g[s[i]].jt || s[i + 1] == g[s[i]].jf)
      && Undefined(g[s[i]].stmts, |g[s[i]].stmts|, a)
  }

  lemma WayOn(g: Net, b: Id, c: Id, a: Atom, s: seq<Id>)
    requires b < |g| && !g[b].term.Ret? && (c == g[b].jt || c == g[b].jf) && WayToRead(g, c, a, s)
    requires Undefined(g[b].stmts, |g[b].stmts|, a)
    ensures WayToRead(g, b, a, [b] + s)
  {
    var s' := [b] + s;
    forall i: nat | i < |s'| - 1
      ensures s'[i] < |g| && !g[s'[i]].term.Ret? && (s'[i + 1] == g[s'[i]].jt || s'[i + 1] == g[s'[i]].jf)
      ensures Undefined(g[s'[i]].stmts, |g[s'[i]].stmts|, a)
    {
      if i > 0 {
        assert s'[i] == s[i - 1] && g[s[i - 1]] == g[s'[i]];
      }
    }
    assert forall i :: 0 <= i < |s'| ==> s'[i] < |g|;
  }

  lemma {:induction false} LiveWay(g: Net, rk: Rank, b: Id, a: Atom) returns (s: seq<Id>)
    requires Ranked(g, rk) && b < |g| && a in LiveIn(g, rk, b)
    ensures WayToRead(g, b, a, s)
    decreases rk[b]
  {
    LocalUdExact(g[b], a);
    s := [b];
    if a !in LocalUd(g[b]).use {
      assert a in LiveOut(g, rk, b);
      var c := if a in LiveIn(g, rk, g[b].jt) then g[b].jt else g[b].jf;
      var t := LiveWay(g, rk, c, a);
      WayOn(g, b, c, a, t);
      s := [b] + t;
    }
  }

  lemma {:induction false} WayLive(g: Net, rk: Rank, b: Id, a: Atom, s: seq<Id>)
    requires Ranked(g, rk) && b < |g| && WayToRead(g, b, a, s)
    ensures a in LiveIn(g, rk, b)
    decreases |s|
  {
    LocalUdExact(g[b], a);
    if |s| > 1 {
      var c, t := s[1], s[1..];
      assert g[s[0]] == g[b];
      forall i: nat | i < |t| - 1
        ensures !g[t[i]].term.Ret? && (t[i + 1] == g[t[i]].jt || t[i + 1] == g[t[i]].jf)
        ensures Undefined(g[t[i]].stmts, |g[t[i]].stmts|, a)
      {
        assert g[t[i]] == g[s[i + 1]];
      }
      WayLive(g, rk, c, a, t);
      assert a in LiveOut(g, rk, b);
    }
  }

  /** find_ud's sets are exact: an atom is live into a block if and only if there is a way from
      there to a block that reads it, past blocks that do not write it. */
  lemma LiveExactly(g: Net, rk: Rank, b: Id, a: Atom)
    requires Ranked(g, rk) && b < |g|
    ensures a in LiveIn(g, rk, b) <==> exists s: seq<Id> :: WayToRead(g, b, a, s)
  {
    if a in LiveIn(g, rk, b) {
      var s := LiveWay(g, rk, b, a);
    }
    if s: seq<Id> :| WayToRead(g, b, a, s) {
      WayLive(g, rk, b, a, s);
    }
  }
}
