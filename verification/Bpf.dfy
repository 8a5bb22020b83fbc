/** The BPF virtual machine: words, statements, packets and the reference interpreter
    for straight-line code and for linear programs. */
module Bpf {

  const WORDS := 0x1_0000_0000

  /** bpf_u_int32 */
  type Word = w: int | 0 <= w < WORDS

  datatype Option<+T> = None | Some(value: T)

  const MEMWORDS := 16

  /** A machine atom: scratch slots 0..15, then the accumulator A and the index register X. */
  type Atom = i: int | 0 <= i < 18

  type Slot = i: int | 0 <= i < MEMWORDS

  const A_ATOM: Atom := MEMWORDS
  const X_ATOM: Atom := MEMWORDS + 1
  const ATOMS: set<Atom> := set a: Atom | 0 <= a < 18

  datatype AluOp = Add | Sub | Mul | Div | And | Or | Lsh | Rsh
  datatype JmpOp = Jeq | Jgt | Jge | Jset
  datatype Size = SizeW | SizeH | SizeB

  datatype Stmt =
    | Nop
    | LdAbs(size: Size, k: Word)
    | LdInd(size: Size, k: Word)
    | LdLen
    | LdImm(k: Word)
    | LdMem(slot: Slot)
    | LdxImm(k: Word)
    | LdxMsh(k: Word)
    | LdxMem(slot: Slot)
    | St(slot: Slot)
    | Stx(slot: Slot)
    | AluK(op: AluOp, k: Word)
    | AluX(op: AluOp)
    | Neg
    | Tax
    | Txa

  /** The statement that ends a block: a return of a constant or a two-way test of A
      against a constant or against X. */
  datatype Term =
    | Ret(k: Word)
    | JmpK(op: JmpOp, k: Word)
    | JmpX(op: JmpOp)

  /** What a program can observe of a packet. Loads are total functions of size and offset. */
  datatype Packet = Packet(len: Word, load: (Size, Word) -> Word, msh: Word -> Word)

  /** A machine state: one word per atom. */
  type State = s: seq<Word> | |s| == 18 witness seq(18, i => 0)

  /** 32-bit wrapping arithmetic. Division by zero and shifts by 32 or more, which the
      C leaves undefined, are totalised to zero. */
  function Alu(op: AluOp, a: Word, b: Word): Word {
    match op
    case Add => if a + b < WORDS then a + b else a + b - WORDS
    case Sub => if b <= a then a - b else a - b + WORDS
    case Mul => Times(a, b)
    case Div => if b == 0 then 0 else Quotient(a, b)
    case And => BitAnd(a, b)
    case Or => (WordBits(); BitOrFits(a, b, 32); BitOr(a, b))
    case Lsh => if b < 32 then ShiftLeft(a, b) else 0
    case Rsh => if b < 32 then ShiftRight(a, b) else 0
  }

  function Times(a: Word, b: Word): Word {
    (a * b) % WORDS
  }

  function Quotient(a: Word, b: Word): Word
    requires b != 0
  {
    a / b
  }

  function ShiftLeft(a: Word, n: nat): Word
    decreases n
  {
    if n == 0 then a else ShiftLeft((a + a) % WORDS, n - 1)
  }

  function ShiftRight(a: Word, n: nat): Word
    decreases n
  {
    if n == 0 then a else ShiftRight(a / 2, n - 1)
  }

  function BitAnd(a: nat, b: nat): (r: nat)
    ensures r <= a && r <= b
  {
    if a == 0 || b == 0 then 0
    else 2 * BitAnd(a / 2, b / 2) + (if a % 2 == 1 && b % 2 == 1 then 1 else 0)
  }

  function BitOr(a: nat, b: nat): nat {
    if a == 0 then b
    else if b == 0 then a
    else 2 * BitOr(a / 2, b / 2) + (if a % 2 == 1 || b % 2 == 1 then 1 else 0)
  }

  function Pow2(n: nat): nat {
    if n == 0 then 1 else 2 * Pow2(n - 1)
  }

  lemma {:induction false} BitOrFits(a: nat, b: nat, n: nat)
    requires a < Pow2(n) && b < Pow2(n)
    ensures BitOr(a, b) < Pow2(n)
  {
    if n > 0 {
      BitOrFits(a / 2, b / 2, n - 1);
    }
  }

  lemma WordBits()
    ensures Pow2(32) == WORDS
  {
    assert Pow2(8) == 0x100 && Pow2(16) == 0x1_0000 && Pow2(24) == 0x100_0000;
  }

  predicate Test(op: JmpOp, a: Word, b: Word) {
    match op
    case Jeq => a == b
    case Jgt => a > b
    case Jge => a >= b
    case Jset => BitAnd(a, b) != 0
  }

  /** The atom a statement defines, if any (atomdef). */
  function Def(s: Stmt): Option<Atom> {
    match s
    case Nop => None
    case LdAbs(_, _) => Some(A_ATOM)
    case LdInd(_, _) => Some(A_ATOM)
    case LdLen => Some(A_ATOM)
    case LdImm(_) => Some(A_ATOM)
    case LdMem(_) => Some(A_ATOM)
    case LdxImm(_) => Some(X_ATOM)
    case LdxMsh(_) => Some(X_ATOM)
    case LdxMem(_) => Some(X_ATOM)
    case St(i) => Some(i as Atom)
    case Stx(i) => Some(i as Atom)
    case AluK(_, _) => Some(A_ATOM)
    case AluX(_) => Some(A_ATOM)
    case Neg => Some(A_ATOM)
    case Tax => Some(X_ATOM)
    case Txa => Some(A_ATOM)
  }

  /** The word a statement computes for the atom it defines. */
  function Value(s: Stmt, st: State, p: Packet): Word {
    match s
    case Nop => 0
    case LdAbs(size, k) => p.load(size, k)
    case LdInd(size, k) => p.load(size, Alu(Add, st[X_ATOM], k))
    case LdLen => p.len
    case LdImm(k) => k
    case LdMem(i) => st[i]
    case LdxImm(k) => k
    case LdxMsh(k) => p.msh(k)
    case LdxMem(i) => st[i]
    case St(_) => st[A_ATOM]
    case Stx(_) => st[X_ATOM]
    case AluK(op, k) => Alu(op, st[A_ATOM], k)
    case AluX(op) => Alu(op, st[A_ATOM], st[X_ATOM])
    case Neg => Alu(Sub, 0, st[A_ATOM])
    case Tax => st[A_ATOM]
    case Txa => st[X_ATOM]
  }

  function Exec(s: Stmt, st: State, p: Packet): State {
    if s == Nop then st else st[Def(s).value := Value(s, st, p)]
  }

  function ExecAll(ss: seq<Stmt>, st: State, p: Packet): State {
    if ss == [] then st else ExecAll(ss[1..], Exec(ss[0], st, p), p)
  }

  /** The outcome of a conditional terminator. */
  predicate Decide(t: Term, st: State)
    requires !t.Ret?
  {
    match t
    case JmpK(op, k) => Test(op, st[A_ATOM], k)
    case JmpX(op) => Test(op, st[A_ATOM], st[X_ATOM])
  }

  lemma {:induction false} ExecAllAppend(s: seq<Stmt>, t: seq<Stmt>, st: State, p: Packet)
    ensures ExecAll(s + t, st, p) == ExecAll(t, ExecAll(s, st, p), p)
  {
    if s == [] {
      assert s + t == t;
    } else {
      assert (s + t)[1..] == s[1..] + t;
      ExecAllAppend(s[1..], t, Exec(s[0], st, p), p);
    }
  }

  lemma {:induction false} RunOne(s: seq<Stmt>, a: Stmt, st: State, p: Packet)
    ensures ExecAll(s + [a], st, p) == Exec(a, ExecAll(s, st, p), p)
  {
    ExecAllAppend(s, [a], st, p);
    assert [a][1..] == [];
  }

  // ----- linear programs -----

  type Byte = i: int | 0 <= i < 256

  datatype Insn =
    | Plain(s: Stmt)
    | Cond(t: Term, jt: Byte, jf: Byte)
    | Always(dist: nat)
    | Return(k: Word)

  /** The interpreter for linear programs: from pc, the word returned, or None when
      control leaves the program. Every jump is relative to the next instruction. */
  function RunProg(prog: seq<Insn>, pc: nat, st: State, p: Packet): Option<Word>
    decreases |prog| - pc
  {
    if pc >= |prog| then None
    else match prog[pc]
      case Plain(s) => RunProg(prog, pc + 1, Exec(s, st, p), p)
      case Cond(t, jt, jf) =>
        if t.Ret? then None
        else RunProg(prog, pc + 1 + (if Decide(t, st) then jt else jf), st, p)
      case Always(k) => RunProg(prog, pc + 1 + k, st, p)
      case Return(k) => Some(k)
  }
}
