/** Value numbering: the table behind F, what a number stands for, and opt_stmt. */
module ValueNumbers {
  import opened Bpf
  import opened Liveness

  datatype Code = Abs(size: Size) | Ind(size: Size) | Len | Imm | Msh | Minus | WithK(op: AluOp) | WithX(op: AluOp)

  /** What F numbers: an operation with two operands, each a constant or another number. */
  datatype Triple = Triple(code: Code, v0: nat, v1: nat)

  /** Number v > 0 stands for triple v - 1; 0 stands for an unknown value. */
  type Table = seq<Triple>
  type Numbers = s: seq<nat> | |s| == 18 witness seq(18, i => 0)

  /** v is known all the way down: neither it nor any number it is made of is 0. */
  predicate Solid(T: Table, v: nat)
    decreases v
  {
    && 0 < v <= |T|
    && match T[v - 1]
       case Triple(Abs(_), k, _) => k < WORDS
       case Triple(Ind(_), k, x) => k < WORDS && x < v && Solid(T, x)
       case Triple(Len, _, _) => true
       case Triple(Imm, k, _) => k < WORDS
       case Triple(Msh, k, _) => k < WORDS
       case Triple(Minus, x, _) => x < v && Solid(T, x)
       case Triple(WithK(_), x, y) => x < v && y < v && Solid(T, x) && Solid(T, y)
       case Triple(WithX(_), x, y) => x < v && y < v && Solid(T, x) && Solid(T, y)
  }

  /** The one function of the packet that a known number stands for. */
  function Den(T: Table, v: nat, p: Packet): Word
    requires Solid(T, v)
    decreases v
  {
    match T[v - 1]
    case Triple(Abs(size), k, _) => p.load(size, k)
    case Triple(Ind(size), k, x) => p.load(size, Alu(Add, Den(T, x, p), k))
    case Triple(Len, _, _) => p.len
    case Triple(Imm, k, _) => k
    case Triple(Msh, k, _) => p.msh(k)
    case Triple(Minus, x, _) => Alu(Sub, 0, Den(T, x, p))
    case Triple(WithK(op), x, y) => Alu(op, Den(T, x, p), Den(T, y, p))
    case Triple(WithX(op), x, y) => Alu(op, Den(T, x, p), Den(T, y, p))
  }

  /** A number keeps its meaning while the table grows. */
  lemma {:induction false} DenKeeps(T: Table, T': Table, v: nat)
    requires T <= T' && v <= |T|
    ensures Solid(T', v) == Solid(T, v)
    ensures Solid(T, v) ==> forall p: Packet :: Den(T', v, p) == Den(T, v, p)
    decreases v
  {
    if v > 0 {
      assert T'[v - 1] == T[v - 1];
      var t := T[v - 1];
      if t.v0 < v {
        DenKeeps(T, T', t.v0);
      }
      if t.v1 < v {
        DenKeeps(T, T', t.v1);
      }
    }
  }

  /** The constant a number stands for, when F made it from K. */
  function Konst(T: Table, v: nat): Option<Word> {
    if 0 < v <= |T| && T[v - 1].code.Imm? && T[v - 1].v0 < WORDS then Some(T[v - 1].v0) else None
  }

  ghost predicate Distinct(T: Table) {
    forall i, j :: 0 <= i < j < |T| ==> T[i] != T[j]
  }

  /** The operands of t that are numbers are at most n. */
  predicate Fits(t: Triple, n: nat) {
    match t.code
    case Ind(_) => t.v1 <= n
    case Minus => t.v0 <= n
    case WithK(_) => t.v0 <= n && t.v1 <= n
    case WithX(_) => t.v0 <= n && t.v1 <= n
    case _ => true
  }

  /** A number is made of numbers that existed before it. */
  ghost predicate Ordered(T: Table) {
    forall i {:trigger T[i]} :: 0 <= i < |T| ==> Fits(T[i], i)
  }

  predicate Bounded(T: Table, val: Numbers) {
    forall a: Atom :: val[a] <= |T|
  }

  /** The machine state holds what the known numbers stand for. */
  ghost predicate Describes(T: Table, val: Numbers, st: State, p: Packet) {
    forall a: Atom {:trigger val[a]} :: Solid(T, val[a]) ==> st[a] == Den(T, val[a], p)
  }

  lemma DescribesKeeps(T: Table, T': Table, val: Numbers, st: State, p: Packet)
    requires T <= T' && Bounded(T, val)
    ensures Describes(T', val, st, p) == Describes(T, val, st, p)
  {
    forall a: Atom ensures Solid(T', val[a]) == Solid(T, val[a]) {
      DenKeeps(T, T', val[a]);
    }
    forall a: Atom | Solid(T, val[a]) ensures Den(T', val[a], p) == Den(T, val[a], p) {
      DenKeeps(T, T', val[a]);
    }
  }

  // ----- F -----

  const MODULUS := 213

  /** struct valnode; next is the number of the next node in the chain, 0 at its end. */
  datatype Valnode = Valnode(t: Triple, val: nat, next: nat)

  ghost predicate Linked(nodes: seq<Valnode>) {
    forall i {:trigger nodes[i]} :: 0 <= i < |nodes| ==> nodes[i].val == i + 1 && nodes[i].next <= i
  }

  ghost predicate OnChain(nodes: seq<Valnode>, ptr: nat, i: nat)
    requires Linked(nodes) && ptr <= |nodes|
    decreases ptr
  {
    ptr != 0 && (ptr - 1 == i || OnChain(nodes, nodes[ptr - 1].next, i))
  }

  lemma {:induction false} OnChainKeeps(nodes: seq<Valnode>, n: Valnode, ptr: nat, i: nat)
    requires Linked(nodes) && ptr <= |nodes| && n.val == |nodes| + 1 && n.next <= |nodes|
    requires OnChain(nodes, ptr, i)
    ensures Linked(nodes + [n]) && OnChain(nodes + [n], ptr, i)
    decreases ptr
  {
    assert (nodes + [n])[ptr - 1] == nodes[ptr - 1];
    if ptr - 1 != i {
      OnChainKeeps(nodes, n, nodes[ptr - 1].next, i);
    }
  }

  ghost function Triples(nodes: seq<Valnode>): (T: Table)
    ensures |T| == |nodes| && forall i {:trigger nodes[i]} {:trigger T[i]} :: 0 <= i < |T| ==> T[i] == nodes[i].t
  {
    seq(|nodes|, i requires 0 <= i < |nodes| => nodes[i].t)
  }

  ghost predicate Filed(nodes: seq<Valnode>, heads: seq<nat>, hash: Triple -> nat, i: nat)
    requires Linked(nodes) && |heads| == MODULUS && forall h :: 0 <= h < MODULUS ==> heads[h] <= |nodes|
  {
    i < |nodes| ==> OnChain(nodes, heads[hash(nodes[i].t) % MODULUS], i)
  }

  /** Every node is on the chain its hash selects. */
  ghost predicate Chains(nodes: seq<Valnode>, heads: seq<nat>, hash: Triple -> nat) {
    && |heads| == MODULUS && Linked(nodes)
    && (forall h :: 0 <= h < MODULUS ==> heads[h] <= |nodes|)
    && forall i: nat {:trigger Filed(nodes, heads, hash, i)} :: Filed(nodes, heads, hash, i)
  }

  lemma ChainsAdd(nodes: seq<Valnode>, heads: seq<nat>, hash: Triple -> nat, t: Triple)
    requires Chains(nodes, heads, hash)
    ensures var h := hash(t) % MODULUS;
      Chains(nodes + [Valnode(t, |nodes| + 1, heads[h])], heads[h := |nodes| + 1], hash)
  {
    var h := hash(t) % MODULUS;
    var n := Valnode(t, |nodes| + 1, heads[h]);
    var nodes', heads' := nodes + [n], heads[h := |nodes| + 1];
    forall i: nat ensures Filed(nodes', heads', hash, i) {
      if i < |nodes| {
        assert Filed(nodes, heads, hash, i);
        OnChainKeeps(nodes, n, heads[hash(nodes[i].t) % MODULUS], i);
      }
    }
  }

  /** A node for t, if there is one, is still ahead on the chain. */
  ghost predicate Sought(nodes: seq<Valnode>, t: Triple, ptr: nat, i: nat)
    requires Linked(nodes) && ptr <= |nodes|
  {
    i < |nodes| && nodes[i].t == t ==> OnChain(nodes, ptr, i)
  }

  // ----- one statement -----

  /** Executing s takes states that val describes to states that val' describes. */
  ghost predicate Follows(T: Table, val: Numbers, val': Numbers, s: Stmt) {
    forall st: State, p: Packet {:trigger Describes(T, val, st, p)} ::
      Describes(T, val, st, p) ==> Describes(T, val', Exec(s, st, p), p)
  }

  /** r does exactly what s does in every state that val describes. */
  ghost predicate Rewrites(T: Table, val: Numbers, s: Stmt, r: Stmt) {
    forall st: State, p: Packet {:trigger Describes(T, val, st, p)} ::
      Describes(T, val, st, p) ==> Exec(r, st, p) == Exec(s, st, p)
  }

  predicate Knows(T: Table, val: Numbers, atoms: set<Atom>) {
    forall a :: a in atoms ==> Solid(T, val[a])
  }

  /** Loads, stores and moves: everything that is numbered through vstore. */
  predicate Transfers(s: Stmt) {
    !s.Nop? && !s.Neg? && !s.AluK? && !s.AluX?
  }

  /** No transfer of an unknown value has been dropped. */
  predicate Lossless(T: Table, val: Numbers, s: Stmt, r: Stmt) {
    r == Nop && Transfers(s) ==> Solid(T, val[Def(s).value])
  }

  /** What opt_stmt promises for s: val' numbers what s leaves; r does what s does, unless it
      drops the transfer of an unknown value; if s reads only known atoms then what it defines
      is known. */
  ghost predicate Step(T: Table, val: Numbers, s: Stmt, val': Numbers, r: Stmt) {
    && Bounded(T, val) && Bounded(T, val') && Follows(T, val, val', s)
    && (Knows(T, val, Uses(s)) ==> Lossless(T, val, s, r))
    && (Lossless(T, val, s, r) ==> Rewrites(T, val, s, r))
    && (forall a: Atom :: Def(s) != Some(a) ==> val'[a] == val[a])
    && (Knows(T, val, Uses(s)) && Def(s).Some? ==> Solid(T, val'[Def(s).value]))
  }

  lemma SolidKeeps(T: Table, T': Table, val: Numbers)
    requires T <= T' && Bounded(T, val)
    ensures Bounded(T', val) && forall a: Atom :: Solid(T', val[a]) == Solid(T, val[a])
  {
    forall a: Atom ensures Solid(T', val[a]) == Solid(T, val[a]) {
      DenKeeps(T, T', val[a]);
    }
  }

  lemma FollowsKeeps(T: Table, T': Table, val: Numbers, val': Numbers, s: Stmt)
    requires T <= T' && Bounded(T, val) && Bounded(T, val') && Follows(T, val, val', s)
    ensures Follows(T', val, val', s)
  {
    forall st: State, p: Packet | Describes(T', val, st, p) ensures Describes(T', val', Exec(s, st, p), p) {
      DescribesKeeps(T, T', val, st, p);
      DescribesKeeps(T, T', val', Exec(s, st, p), p);
    }
  }

  lemma RewritesKeeps(T: Table, T': Table, val: Numbers, s: Stmt, r: Stmt)
    requires T <= T' && Bounded(T, val) && Rewrites(T, val, s, r)
    ensures Rewrites(T', val, s, r)
  {
    forall st: State, p: Packet | Describes(T', val, st, p) ensures Exec(r, st, p) == Exec(s, st, p) {
      DescribesKeeps(T, T', val, st, p);
    }
  }

  /** The promise does not depend on numbers given later. */
  lemma StepKeeps(T: Table, T': Table, val: Numbers, s: Stmt, val': Numbers, r: Stmt)
    requires T <= T' && Step(T, val, s, val', r)
    ensures Step(T', val, s, val', r)
  {
    SolidKeeps(T, T', val);
    SolidKeeps(T, T', val');
    FollowsKeeps(T, T', val, val', s);
    if Lossless(T, val, s, r) {
      RewritesKeeps(T, T', val, s, r);
    }
  }

  /** v is the number opt_stmt gives to what s computes. */
  predicate Numbered(T: Table, val: Numbers, s: Stmt, v: nat) {
    && v <= |T| && s != Nop
    && true == match s
       case LdMem(i) => v == val[i]
       case LdxMem(i) => v == val[i]
       case St(_) => v == val[A_ATOM]
       case Stx(_) => v == val[X_ATOM]
       case Tax => v == val[A_ATOM]
       case Txa => v == val[X_ATOM]
       case LdImm(k) => Konst(T, v) == Some(k)
       case LdxImm(k) => Konst(T, v) == Some(k)
       case LdAbs(size, k) => v > 0 && T[v - 1] == Triple(Abs(size), k, 0)
       case LdInd(size, k) => v > 0 && T[v - 1] == Triple(Ind(size), k, val[X_ATOM])
       case LdLen => v > 0 && T[v - 1] == Triple(Len, 0, 0)
       case LdxMsh(k) => v > 0 && T[v - 1] == Triple(Msh, k, 0)
       case Neg => v > 0 && T[v - 1] == Triple(Minus, val[A_ATOM], 0)
       case AluK(op, k) =>
         v > 0 && T[v - 1] == Triple(WithK(op), val[A_ATOM], T[v - 1].v1) && Konst(T, T[v - 1].v1) == Some(k)
       case AluX(op) => v > 0 && T[v - 1] == Triple(WithX(op), val[A_ATOM], val[X_ATOM])
       case Nop => false
  }

  lemma NumberedDenotes(T: Table, val: Numbers, s: Stmt, v: nat, st: State, p: Packet)
    requires Ordered(T) && Bounded(T, val) && Numbered(T, val, s, v) && Describes(T, val, st, p)
    ensures Solid(T, v) ==> Value(s, st, p) == Den(T, v, p)
  {
    if v > 0 {
      assert T[v - 1] == T[v - 1];
      var a, x := val[A_ATOM], val[X_ATOM];
    }
  }

  lemma NumberedSolid(T: Table, val: Numbers, s: Stmt, v: nat)
    requires Ordered(T) && Bounded(T, val) && Numbered(T, val, s, v) && Knows(T, val, Uses(s))
    ensures Solid(T, v)
  {
    if v > 0 {
      assert T[v - 1] == T[v - 1];
    }
  }

  lemma StoreAt(T: Table, val: Numbers, s: Stmt, r: Stmt, a: Atom, v: nat, st: State, p: Packet)
    requires Ordered(T) && Bounded(T, val) && Numbered(T, val, r, v) && Describes(T, val, st, p)
    requires r != Nop && Def(r) == Some(a) && Exec(r, st, p) == Exec(s, st, p)
    ensures Describes(T, val[a := v], Exec(s, st, p), p)
    ensures val[a] == v && Solid(T, v) ==> Exec(s, st, p) == st
  {
    NumberedDenotes(T, val, r, v, st, p);
  }

  /** One way opt_stmt ends: r computes the same word as s, and its number goes into the
      defined atom. */
  lemma StoreStep(T: Table, val: Numbers, s: Stmt, r: Stmt, a: Atom, v: nat)
    requires Ordered(T) && Bounded(T, val) && Numbered(T, val, r, v) && Rewrites(T, val, s, r)
    requires r != Nop && Def(r) == Def(s) == Some(a) && Uses(r) <= Uses(s)
    ensures Step(T, val, s, val[a := v], r) && Follows(T, val, val[a := v], s)
  {
    if Knows(T, val, Uses(s)) {
      NumberedSolid(T, val, r, v);
    }
    forall st: State, p: Packet | Describes(T, val, st, p)
      ensures Describes(T, val[a := v], Exec(s, st, p), p)
    {
      StoreAt(T, val, s, r, a, v, st, p);
    }
  }

  /** The other: the number is in the defined atom already, and the statement goes. */
  lemma DropStep(T: Table, val: Numbers, s: Stmt, r: Stmt, a: Atom, v: nat)
    requires Ordered(T) && Bounded(T, val) && Numbered(T, val, r, v) && Rewrites(T, val, s, r)
    requires r != Nop && Def(r) == Def(s) == Some(a) && Uses(r) <= Uses(s) && val[a] == v
    requires Transfers(s) || Solid(T, v)
    ensures Step(T, val, s, val, Nop)
  {
    StoreStep(T, val, s, r, a, v);
    assert val[a := v] == val;
    if Knows(T, val, Uses(s)) {
      NumberedSolid(T, val, r, v);
    }
    if Solid(T, v) {
      forall st: State, p: Packet | Describes(T, val, st, p) ensures Exec(Nop, st, p) == Exec(s, st, p) {
        StoreAt(T, val, s, r, a, v, st, p);
      }
    }
  }

  class Numbering {
    const hash: Triple -> nat
    const hashtbl: array<nat>
    var nodes: seq<Valnode>
    /** vmap: the constant a number stands for, if it stands for one. */
    var vmap: seq<Option<Word>>

    ghost function T(): Table
      reads this`nodes
    {
      Triples(nodes)
    }

    ghost predicate Constants()
      reads this`nodes, this`vmap
    {
      && |vmap| == |nodes| + 1
      && forall v {:trigger vmap[v]} :: 0 <= v < |vmap| ==> vmap[v] == Konst(T(), v)
    }

    ghost predicate Valid()
      reads this, hashtbl
    {
      Chains(nodes, hashtbl[..], hash) && Constants() && Distinct(T()) && Ordered(T())
    }

    /** init_val */
    constructor (hash: Triple -> nat)
      ensures Valid() && T() == [] && fresh(hashtbl)
    {
      this.hash := hash;
      hashtbl := new nat[MODULUS](_ => 0);
      nodes := [];
      vmap := [None];
    }

    /** F: the number of a triple, a new one if it has none yet. Whatever the hash, two calls
        give the same number exactly when the triples are the same. */
    method F(code: Code, v0: nat, v1: nat) returns (val: nat)
      requires Valid() && Fits(Triple(code, v0, v1), |T()|)
      modifies this, hashtbl
      ensures Valid()
      ensures 0 < val <= |T()| && T()[val - 1] == Triple(code, v0, v1)
      ensures T() == if Triple(code, v0, v1) in old(T()) then old(T()) else old(T()) + [Triple(code, v0, v1)]
    {
      var t := Triple(code, v0, v1);
      var h := hash(t) % MODULUS;
      var p: nat := hashtbl[h];
      forall i: nat ensures Sought(nodes, t, p, i) {
        assert Filed(nodes, hashtbl[..], hash, i);
      }
      while p != 0
        invariant p <= |nodes|
        invariant forall i: nat {:trigger Sought(nodes, t, p, i)} :: Sought(nodes, t, p, i)
      {
        var n := nodes[p - 1];
        if n.t == t {
          assert T()[p - 1] == t;
          return n.val;
        }
        forall i: nat ensures Sought(nodes, t, n.next, i) {
          assert Sought(nodes, t, p, i);
        }
        p := n.next;
      }
      forall i: nat | i < |nodes| ensures T()[i] != t {
        assert Sought(nodes, t, 0, i);
      }
      val := Insert(t, h);
    }

    method Insert(t: Triple, h: nat) returns (val: nat)
      requires Valid() && h == hash(t) % MODULUS
      requires t !in T() && Fits(t, |T()|)
      modifies this, hashtbl
      ensures Valid() && T() == old(T()) + [t] && val == |T()|
    {
      ghost var T0, heads := T(), hashtbl[..];
      ChainsAdd(nodes, heads, hash, t);
      val := |nodes| + 1;
      var n := Valnode(t, val, hashtbl[h]);
      vmap := vmap + [if t.code.Imm? && t.v0 < WORDS then Some(t.v0) else None];
      nodes := nodes + [n];
      hashtbl[h] := val;
      assert T() == T0 + [t] && hashtbl[..] == heads[h := val];
    }
  }
}
