/** The scratch-slot allocator of gencode.c and the code generators for arithmetic that
    draw on it. */
module Registers {
  import opened Bpf
  import opened Arith

  /** struct arth: the code so far and the slot that will hold its value. */
  class Arth {
    var s: seq<Stmt>
    var regno: Slot

    constructor (s: seq<Stmt>, regno: Slot)
      ensures this.s == s && this.regno == regno
    {
      this.s := s;
      this.regno := regno;
    }
  }

  function FirstSlots(n: nat): (r: set<Slot>)
    requires n <= MEMWORDS
    ensures |r| == n && forall s: Slot :: s in r <==> s < n
  {
    if n == 0 then {} else FirstSlots(n - 1) + {n - 1}
  }

  ghost predicate Full(used: set<Slot>) {
    forall s: Slot :: s in used
  }

  lemma CountBelow(used: set<Slot>, n: nat)
    requires n <= MEMWORDS && forall s :: s in used ==> s < n
    ensures |used| <= n && (|used| == n <==> forall s: Slot :: s < n ==> s in used)
  {
    var all := FirstSlots(n);
    assert all == used + (all - used);
    if |used| == n {
      assert all - used == {};
      assert forall s: Slot :: s < n ==> s in all;
    }
  }

  lemma CountSlots(used: set<Slot>)
    ensures |used| <= MEMWORDS && (|used| == MEMWORDS <==> Full(used))
  {
    CountBelow(used, MEMWORDS);
  }

  /** How many steps the allocator takes from start to reach slot s. */
  function Ahead(start: Slot, s: Slot): nat {
    if s >= start then s - start else s - start + MEMWORDS
  }

  class Registers {
    const regused: array<bool>
    var curreg: Slot
    const offLl: Word

    ghost predicate Valid()
      reads this, regused
    {
      regused.Length == MEMWORDS
    }

    ghost function Used(): set<Slot>
      requires Valid()
      reads this, regused
    {
      set i: Slot | 0 <= i < MEMWORDS && regused[i]
    }

    /** init_regs */
    constructor (offLl: Word)
      ensures Valid() && Used() == {} && fresh(regused) && this.offLl == offLl
    {
      regused := new bool[MEMWORDS](_ => false);
      curreg := 0;
      this.offLl := offLl;
    }

    /** A slot not in use, unless all are. */
    method AllocReg() returns (r: Option<Slot>)
      requires Valid()
      modifies `curreg, regused
      ensures Valid() && (r.None? <==> Full(old(Used())))
      ensures r.Some? ==> r.value !in old(Used()) && Used() == old(Used()) + {r.value}
    {
      var n := MEMWORDS;
      ghost var start := curreg;
      while n > 0
        invariant 0 <= n <= MEMWORDS && (n > 0 ==> Ahead(start, curreg) == MEMWORDS - n)
        invariant regused[..] == old(regused[..])
        invariant forall s: Slot :: Ahead(start, s) < MEMWORDS - n ==> regused[s]
      {
        n := n - 1;
        if regused[curreg] {
          curreg := (curreg + 1) % MEMWORDS;
        } else {
          assert curreg !in old(Used());
          regused[curreg] := true;
          assert forall s: Slot :: regused[s] == (old(regused[s]) || s == curreg);
          return Some(curreg);
        }
      }
      assert forall s: Slot :: Ahead(start, s) < MEMWORDS;
      return None;
    }

    method FreeReg(n: Slot)
      requires Valid()
      modifies regused
      ensures Valid() && Used() == old(Used()) - {n}
    {
      regused[n] := false;
    }

    /** gen_loadi and gen_loadlen: an immediate or the packet length, stored in a new slot. */
    method GenLeaf(load: Stmt, ghost e: Expr) returns (a: Arth?)
      requires Valid() && ((e.Num? && load == LdImm(e.k)) || (e.Length? && load == LdLen))
      modifies `curreg, regused
      ensures Valid() && (a == null <==> Full(old(Used())))
      ensures a != null ==> fresh(a) && Made(a, e, old(Used()))
    {
      var reg := AllocReg();
      if reg.None? {
        return null;
      }
      a := new Arth([load] + [St(reg.value)], reg.value);
      LeafComputes(load, reg.value, e, offLl, old(Used()));
    }

    /** a computes e into a slot of its own, sparing those busy before. */
    ghost predicate Made(a: Arth, e: Expr, busy: set<Slot>)
      requires Valid()
      reads this, regused, a
    {
      a.regno !in busy && Used() == busy + {a.regno} && Computes(a.s, a.regno, e, offLl, busy)
    }

    /** gen_load for a link-layer offset, without a variable-length prefix: the new slot is
        taken before the index's is freed. */
    method GenLoad(inst: Arth, size: Size, ghost index: Expr, ghost busy: set<Slot>) returns (a: Arth?)
      requires Valid() && Made(inst, index, busy)
      modifies `curreg, regused, inst
      ensures Valid() && (a == null <==> Full(old(Used())))
      ensures a != null ==> a == inst && Made(a, Load(size, index), busy)
    {
      var regno := AllocReg();
      if regno.None? {
        return null;
      }
      FreeReg(inst.regno);
      LoadComputes(inst.s, inst.regno, regno.value, size, index, offLl, busy);
      inst.s := inst.s + [LdxMem(inst.regno)] + [LdInd(size, offLl)] + [St(regno.value)];
      inst.regno := regno.value;
      return inst;
    }

    method GenNeg(a: Arth, ghost e: Expr, ghost busy: set<Slot>)
      requires Valid() && Made(a, e, busy)
      modifies a
      ensures Made(a, Minus(e), busy)
    {
      MinusComputes(a.s, a.regno, e, offLl, busy);
      a.s := a.s + [LdMem(a.regno)];
      a.s := a.s + [Neg];
      a.s := a.s + [St(a.regno)];
    }

    /** gen_arth, for operands compiled left first: the result's slot is taken after both
        operands' slots are freed. */
    method GenArth(op: AluOp, a0: Arth, a1: Arth, ghost e0: Expr, ghost e1: Expr, ghost busy: set<Slot>)
      requires Valid() && a0 != a1 && a0.regno !in busy && Computes(a0.s, a0.regno, e0, offLl, busy)
      requires Made(a1, e1, busy + {a0.regno})
      modifies `curreg, regused, a0
      ensures Valid() && Made(a0, Binary(op, e0, e1), busy)
    {
      BinarySlots(a0.s, a0.regno, e0, a1.s, a1.regno, e1, op, busy);
      a0.s := Operands(a0.s, a0.regno, a1.s, a1.regno) + [AluX(op)];
      FreeReg(a0.regno);
      FreeReg(a1.regno);
      assert Used() == busy;
      CountSlots(old(Used()));
      var r := AllocReg();
      assert a0.regno in old(Used()) && a0.regno !in busy;
      a0.regno := r.value;
      a0.s := a0.s + [St(a0.regno)];
    }

    lemma BinarySlots(s0: seq<Stmt>, r0: Slot, e0: Expr, s1: seq<Stmt>, r1: Slot, e1: Expr, op: AluOp, busy: set<Slot>)
      requires Computes(s0, r0, e0, offLl, busy) && Computes(s1, r1, e1, offLl, busy + {r0})
      ensures forall r: Slot :: r !in busy ==>
        Computes(Operands(s0, r0, s1, r1) + [AluX(op)] + [St(r)], r, Binary(op, e0, e1), offLl, busy)
    {
      forall r: Slot | r !in busy
        ensures Computes(Operands(s0, r0, s1, r1) + [AluX(op)] + [St(r)], r, Binary(op, e0, e1), offLl, busy)
      {
        BinaryComputes(s0, r0, e0, s1, r1, e1, op, r, offLl, busy);
      }
    }

    /** Compiling an expression succeeds exactly when its need fits the free slots, and then
        computes it into one more slot without touching any in use before. */
    method GenExpr(e: Expr) returns (a: Arth?)
      requires Valid()
      modifies `curreg, regused
      ensures Valid() && (a != null <==> Need(e) + |old(Used())| <= MEMWORDS)
      ensures a != null ==> fresh(a) && Made(a, e, old(Used()))
      decreases e
    {
      ghost var busy := Used();
      CountSlots(busy);
      match e
      case Num(k) =>
        a := GenLeaf(LdImm(k), e);
      case Length =>
        a := GenLeaf(LdLen, e);
      case Load(size, index) =>
        a := GenExpr(index);
        if a != null {
          CountSlots(Used());
          a := GenLoad(a, size, index, busy);
        }
      case Minus(operand) =>
        a := GenExpr(operand);
        if a != null {
          GenNeg(a, operand, busy);
        }
      case Binary(op, l, r) =>
        a := GenExpr(l);
        if a != null {
          var a1 := GenExpr(r);
          if a1 == null {
            return null;
          }
          GenArth(op, a, a1, l, r, busy);
        }
    }
  }
}
