/** opt_blk and the first loop of opt_blks: value numbers carried through the statements of a
    block and across the edges of the graph. */
module Renumbering {
  import opened Bpf
  import opened Graph
  import opened Levels
  import opened Liveness
  import opened ValueNumbers
  import opened Folding

  // ----- the statements of one block -----

  ghost predicate FollowsAll(T: Table, val: Numbers, val': Numbers, ss: seq<Stmt>) {
    forall st: State, p: Packet {:trigger Describes(T, val, st, p)} ::
      Describes(T, val, st, p) ==> Describes(T, val', ExecAll(ss, st, p), p)
  }

  ghost predicate RewritesAll(T: Table, val: Numbers, ss: seq<Stmt>, ss': seq<Stmt>) {
    forall st: State, p: Packet {:trigger Describes(T, val, st, p)} ::
      Describes(T, val, st, p) ==> ExecAll(ss', st, p) == ExecAll(ss, st, p)
  }

  function Defined(s: Stmt): set<Atom> {
    if Def(s).Some? then {Def(s).value} else {}
  }

  /** Every atom read is in K or was defined by an earlier statement. */
  predicate DefinedFirst(K: set<Atom>, ss: seq<Stmt>)
    decreases ss
  {
    ss == [] || (Uses(ss[0]) <= K && DefinedFirst(K + Defined(ss[0]), ss[1..]))
  }

  function KnownAtoms(T: Table, val: Numbers): set<Atom> {
    set a | a in ATOMS && Solid(T, val[a])
  }

  function DefinedAll(ss: seq<Stmt>): set<Atom>
    decreases ss
  {
    if ss == [] then {} else Defined(ss[0]) + DefinedAll(ss[1..])
  }

  /** Every number is 0 or known. */
  predicate Sound(T: Table, val: Numbers) {
    forall a: Atom :: val[a] == 0 || Solid(T, val[a])
  }

  /** One call of opt_stmt. */
  ghost predicate Leads(T: Table, val: Numbers, s: Stmt, val': Numbers, r: Stmt, alter: bool) {
    Step(T, val, s, val', r) && if alter then Simplified(T, val, s, val', r) else r == s
  }

  /** vals are the numbers before each of the statements ss and after the last, as opt_stmt makes
      them into ss'. */
  ghost predicate Trail(T: Table, vals: seq<Numbers>, ss: seq<Stmt>, ss': seq<Stmt>, alter: bool) {
    && |vals| == |ss| + 1 && |ss'| == |ss| && Bounded(T, vals[0])
    && forall i: nat {:trigger ss[i]} :: i < |ss| ==> Leads(T, vals[i], ss[i], vals[i + 1], ss'[i], alter)
  }

  /** No transfer of an unknown value has been dropped. */
  ghost predicate Kept(T: Table, vals: seq<Numbers>, ss: seq<Stmt>, ss': seq<Stmt>)
    requires |vals| > |ss| == |ss'|
  {
    forall i: nat {:trigger ss[i]} :: i < |ss| ==> Lossless(T, vals[i], ss[i], ss'[i])
  }

  lemma SimplifiedKeeps(T: Table, T': Table, val: Numbers, s: Stmt, val': Numbers, r: Stmt)
    requires T <= T' && Bounded(T, val) && Simplified(T, val, s, val', r)
    ensures Simplified(T', val, s, val', r)
  {
    assert forall a: Atom :: Konst(T', val[a]) == Konst(T, val[a]);
  }

  lemma TrailKeeps(T: Table, T': Table, vals: seq<Numbers>, ss: seq<Stmt>, ss': seq<Stmt>, alter: bool)
    requires T <= T' && Trail(T, vals, ss, ss', alter)
    ensures Trail(T', vals, ss, ss', alter)
  {
    forall i: nat | i < |ss| ensures Leads(T', vals[i], ss[i], vals[i + 1], ss'[i], alter) {
      assert Leads(T, vals[i], ss[i], vals[i + 1], ss'[i], alter);
      StepKeeps(T, T', vals[i], ss[i], vals[i + 1], ss'[i]);
      if alter {
        SimplifiedKeeps(T, T', vals[i], ss[i], vals[i + 1], ss'[i]);
      }
    }
  }

  lemma TrailAdd(T: Table, vals: seq<Numbers>, ss: seq<Stmt>, ss': seq<Stmt>, alter: bool, s: Stmt, val': Numbers,
                 r: Stmt)
    requires Trail(T, vals, ss, ss', alter) && Leads(T, vals[|ss|], s, val', r, alter)
    ensures Trail(T, vals + [val'], ss + [s], ss' + [r], alter)
  {
    forall i: nat | i < |ss| + 1
      ensures Leads(T, (vals + [val'])[i], (ss + [s])[i], (vals + [val'])[i + 1], (ss' + [r])[i], alter)
    {
      if i < |ss| {
        assert Leads(T, vals[i], ss[i], vals[i + 1], ss'[i], alter);
      }
    }
  }

  /** Along a trail the numbers stay right about the state, and the statements it makes do what
      the others did as long as nothing unknown is dropped. */
  lemma {:induction false} TrailMeans(T: Table, vals: seq<Numbers>, ss: seq<Stmt>, ss': seq<Stmt>, alter: bool,
                                      st: State, p: Packet)
    requires Trail(T, vals, ss, ss', alter) && Describes(T, vals[0], st, p)
    ensures Describes(T, vals[|ss|], ExecAll(ss, st, p), p)
    ensures Kept(T, vals, ss, ss') ==> ExecAll(ss', st, p) == ExecAll(ss, st, p)
    decreases |ss|
  {
    if ss != [] {
      var after := Exec(ss[0], st, p);
      TrailMeans(T, vals[1..], ss[1..], ss'[1..], alter, after, p);
      if Kept(T, vals, ss, ss') {
        forall i: nat | i < |ss[1..]| ensures Lossless(T, vals[1..][i], ss[1..][i], ss'[1..][i]) {
          assert ss[i + 1] == ss[1..][i];
        }
        assert Kept(T, vals[1..], ss[1..], ss'[1..]) && Lossless(T, vals[0], ss[0], ss'[0]);
      }
    }
  }

  /** When only known atoms are read, nothing unknown is dropped, all that is defined is known,
      and no number is made of unknown ones. */
  lemma {:induction false} TrailKnows(T: Table, vals: seq<Numbers>, ss: seq<Stmt>, ss': seq<Stmt>, alter: bool,
                                      K: set<Atom>)
    requires Trail(T, vals, ss, ss', alter) && Knows(T, vals[0], K) && DefinedFirst(K, ss)
    ensures Kept(T, vals, ss, ss') && Knows(T, vals[|ss|], K + DefinedAll(ss))
    ensures Sound(T, vals[0]) ==> Sound(T, vals[|ss|])
    decreases |ss|
  {
    if ss != [] {
      var s := ss[0];
      forall a | a in K + Defined(s) ensures Solid(T, vals[1][a]) {
        if Def(s) != Some(a) {
          assert vals[1][a] == vals[0][a];
        }
      }
      TrailKnows(T, vals[1..], ss[1..], ss'[1..], alter, K + Defined(s));
      assert K + DefinedAll(ss) == K + Defined(s) + DefinedAll(ss[1..]);
      forall i: nat | i < |ss| ensures Lossless(T, vals[i], ss[i], ss'[i]) {
        if i > 0 {
          assert ss[1..][i - 1] == ss[i];
        }
      }
    }
  }

  /** opt_stmt over the statements of a block: a trail, with every statement simplified when
      alter is set and none touched otherwise. It stops exactly at a division of a constant by
      the constant zero. */
  method OptStmts(f: Folder, ss: array<Stmt>, alter: bool) returns (ok: bool, ghost vals: seq<Numbers>)
    requires f.Valid() && ss as object != f.val && ss as object != f.table.hashtbl
    modifies f.val, f.table, f.table.hashtbl, ss
    ensures f.Valid() && old(f.table.T()) <= f.table.T()
    ensures |vals| > 0 && vals[0] == old(f.val[..])
    ensures ok ==> Trail(f.table.T(), vals, old(ss[..]), ss[..], alter) && vals[ss.Length] == f.val[..]
    ensures !ok ==> alter && |vals| <= ss.Length && Stopped(f.table.T(), vals, old(ss[..]), |vals| - 1)
  {
    ghost var T0, was := f.table.T(), ss[..];
    vals := [f.val[..]];
    for i := 0 to ss.Length
      invariant f.Valid() && T0 <= f.table.T() && ss[i..] == was[i..]
      invariant |vals| == i + 1 && vals[0] == old(f.val[..]) && vals[i] == f.val[..]
      invariant Trail(f.table.T(), vals, was[..i], ss[..i], alter)
    {
      ghost var more;
      ok, more := OptNextStmt(f, ss, i, alter, was, vals);
      if !ok {
        return;
      }
      vals := more;
    }
    assert was[..ss.Length] == was && ss[..ss.Length] == ss[..];
    ok := true;
  }

  /** One statement further. */
  method OptNextStmt(f: Folder, ss: array<Stmt>, i: nat, alter: bool, ghost was: seq<Stmt>, ghost vals: seq<Numbers>)
    returns (ok: bool, ghost vals': seq<Numbers>)
    requires f.Valid() && ss as object != f.val && ss as object != f.table.hashtbl
    requires i < ss.Length == |was| && ss[i..] == was[i..] && |vals| == i + 1 && vals[i] == f.val[..]
    requires Trail(f.table.T(), vals, was[..i], ss[..i], alter)
    modifies f.val, f.table, f.table.hashtbl, ss
    ensures f.Valid() && old(f.table.T()) <= f.table.T() && ss[i + 1..] == was[i + 1..]
    ensures ok ==> |vals'| == i + 2 && vals'[0] == vals[0] && vals'[i + 1] == f.val[..]
    ensures ok ==> Trail(f.table.T(), vals', was[..i + 1], ss[..i + 1], alter)
    ensures !ok ==> alter && Stopped(f.table.T(), vals, was, i)
  {
    ghost var T1, pre := f.table.T(), ss[..];
    assert ss[i] == ss[i..][0] == was[i..][0] == was[i];
    var r := f.OptStmt(ss[i], alter);
    TrailKeeps(T1, f.table.T(), vals, was[..i], pre[..i], alter);
    ok, vals' := r.Some?, vals;
    if ok {
      TrailAdd(f.table.T(), vals, was[..i], pre[..i], alter, was[i], f.val[..], r.value);
      vals' := vals + [f.val[..]];
      ss[i] := r.value;
      assert ss[..i + 1] == pre[..i] + [r.value] && was[..i + 1] == was[..i] + [was[i]];
    }
    assert ss[i + 1..] == pre[i..][1..] && was[i + 1..] == was[i..][1..];
  }

  /** The trail leads to statement k, which divides a constant by the constant zero. */
  ghost predicate Stopped(T: Table, vals: seq<Numbers>, ss: seq<Stmt>, k: nat) {
    && k < |ss| && |vals| == k + 1 && DividesByZero(T, vals[k], ss[k])
    && exists ss' :: Trail(T, vals, ss[..k], ss', true)
  }

  // ----- the blocks of a graph -----

  /** What is known of an atom into a block comes over every edge into it. */
  ghost predicate Carries(out: Numbers, vin: Numbers) {
    forall a: Atom {:trigger vin[a]} :: vin[a] == 0 || vin[a] == out[a]
  }

  ghost predicate Annotated(g: Net, M: set<Id>, T: Table, valIn: seq<Numbers>, valOut: seq<Numbers>) {
    && |valIn| == |valOut| == |g|
    && forall b: Id {:trigger g[b]} :: b in M && b < |g| ==>
      && FollowsAll(T, valIn[b], valOut[b], g[b].stmts)
      && (!g[b].term.Ret? ==>
        && g[b].jt in M && g[b].jt < |g| && Carries(valOut[b], valIn[g[b].jt])
        && g[b].jf in M && g[b].jf < |g| && Carries(valOut[b], valIn[g[b].jf]))
  }

  /** A known number denotes one function of the packet: in every run, wherever it goes and
      whatever state it starts in, an atom numbered v into a block or out of it holds Den(v). */
  lemma {:induction false} EveryRunDescribed(g: Net, rk: Rank, M: set<Id>, T: Table, valIn: seq<Numbers>,
                                             valOut: seq<Numbers>, a: Id, st: State, p: Packet, b: Id)
    requires Ranked(g, rk) && Annotated(g, M, T, valIn, valOut) && a in M && a < |g|
    requires Describes(T, valIn[a], st, p) && Visits(g, rk, a, st, p, b)
    ensures b in M && b < |g| && rk[b] <= rk[a]
    ensures var at := StateAt(g, rk, a, st, p, b);
      Describes(T, valIn[b], at, p) && Describes(T, valOut[b], ExecAll(g[b].stmts, at, p), p)
    decreases rk[a]
  {
    assert g[a] == g[a];
    if a != b {
      var st1 := ExecAll(g[a].stmts, st, p);
      var c := Choose(g[a], st1);
      EveryRunDescribed(g, rk, M, T, valIn, valOut, c, st1, p, b);
    }
  }

  /** Simplifying the statements of every block, each under the numbers known on entry to it,
      keeps the verdict. */
  lemma {:induction false} RewritesKeepVerdict(g: Net, g': Net, rk: Rank, M: set<Id>, T: Table, valIn: seq<Numbers>,
                                               valOut: seq<Numbers>, b: Id, st: State, p: Packet)
    requires Ranked(g, rk) && Annotated(g, M, T, valIn, valOut) && b in M && b < |g| == |g'|
    requires forall c: Id {:trigger g[c]} {:trigger g'[c]} :: c < |g| ==>
      && g'[c].term == g[c].term && g'[c].jt == g[c].jt && g'[c].jf == g[c].jf
      && (c in M ==> RewritesAll(T, valIn[c], g[c].stmts, g'[c].stmts))
    requires Describes(T, valIn[b], st, p)
    ensures Ranked(g', rk)
    ensures Run(g', rk, b, st, p) == Run(g, rk, b, st, p)
    decreases rk[b]
  {
    assert Ranked(g', rk) by {
      forall c | 0 <= c < |g'| ensures g'[c].term == g[c].term && g'[c].jt == g[c].jt && g'[c].jf == g[c].jf {
        assert g'[c] == g'[c];
      }
    }
    if !g[b].term.Ret? {
      var st' := ExecAll(g[b].stmts, st, p);
      assert ExecAll(g'[b].stmts, st, p) == st';
      var c := Choose(g[b], st');
      RewritesKeepVerdict(g, g', rk, M, T, valIn, valOut, c, st', p);
    }
  }

  // ----- find_inedges and opt_blks -----

  /** Edge e leaves a block of done for c. */
  ghost predicate EdgeInto(g: Net, done: set<Id>, e: nat, c: Id) {
    e < 2 * |g| && Pred(|g|, e) in done && !g[Pred(|g|, e)].term.Ret? && Succ(g, e) == c
  }

  /** ins lists, for every block, each edge into it from the blocks of done once. */
  ghost predicate Inward(g: Net, done: set<Id>, ins: seq<seq<nat>>) {
    && |ins| == |g|
    && (forall c, e: nat {:trigger e in ins[c]} :: 0 <= c < |g| ==> (e in ins[c] <==> EdgeInto(g, done, e, c)))
    && forall c :: 0 <= c < |g| ==> NoRepeats(ins[c])
  }

  lemma InwardAdd(g: Net, done: set<Id>, ins: seq<seq<nat>>, b: Id, mid: seq<seq<nat>>, ins': seq<seq<nat>>)
    requires Inward(g, done, ins) && b < |g| && b !in done && !g[b].term.Ret? && g[b].jt < |g| && g[b].jf < |g|
    requires mid == ins[g[b].jt := [b] + ins[g[b].jt]] && ins' == mid[g[b].jf := [|g| + b] + mid[g[b].jf]]
    ensures Inward(g, done + {b}, ins')
  {
    forall c, e: nat | 0 <= c < |g| ensures e in ins'[c] <==> EdgeInto(g, done + {b}, e, c) {
      assert e in ins[c] <==> EdgeInto(g, done, e, c);
      assert e in mid[c] <==> e in ins[c] || (e == b && c == g[b].jt);
      assert e in ins'[c] <==> e in mid[c] || (e == |g| + b && c == g[b].jf);
    }
    forall c | 0 <= c < |g| ensures NoRepeats(ins'[c]) {
      assert b !in ins[c] && |g| + b !in ins[c] && |g| + b !in mid[c];
      assert NoRepeats(mid[c]);
    }
  }

  method FindInedges(root: Id, g: Net, ghost rk: Rank, level: seq<nat>, levels: seq<seq<Id>>, ins: array<seq<nat>>)
    requires Ranked(g, rk) && root < |g| && Leveled(g, rk, Reach(g, rk, root), level, levels) && ins.Length == |g|
    modifies ins
    ensures Inward(g, Reach(g, rk, root), ins[..])
  {
    ghost var M := Reach(g, rk, root);
    LowerLevels(g, rk, root, level);
    for i := 0 to |g|
      invariant forall c :: 0 <= c < i ==> ins[c] == []
    {
      ins[i] := [];
    }
    ghost var done: set<Id> := {};
    for i := level[root] + 1 downto 1
      invariant forall b: Id :: b in done <==> b in M && level[b] >= i
      invariant Inward(g, done, ins[..])
    {
      LinkLevel(levels[i], g, ins, done);
      done := Plus(done, levels[i]);
    }
    forall c, e: nat | 0 <= c < |g| ensures e in ins[..][c] <==> EdgeInto(g, M, e, c) {
      assert e in ins[..][c] <==> EdgeInto(g, done, e, c);
    }
  }

  /** link_inedge for both edges of every block of ids. */
  method LinkLevel(ids: seq<Id>, g: Net, ins: array<seq<nat>>, ghost done: set<Id>)
    requires forall b :: b in ids ==> b < |g| && b !in done && !g[b].term.Ret? && g[b].jt < |g| && g[b].jf < |g|
    requires NoRepeats(ids) && ins.Length == |g| && Inward(g, done, ins[..])
    modifies ins
    ensures Inward(g, done + (set b | b in ids), ins[..])
  {
    ghost var now := done;
    for j := 0 to |ids|
      invariant forall b :: b in now <==> b in done || b in ids[..j]
      invariant Inward(g, now, ins[..])
    {
      var b := ids[j];
      assert b in ids && ids[..j + 1] == ids[..j] + [b] && b !in ids[..j];
      ghost var before := ins[..];
      ins[g[b].jt] := [b] + ins[g[b].jt];
      ghost var mid := ins[..];
      ins[g[b].jf] := [|g| + b] + ins[g[b].jf];
      InwardAdd(g, now, before, b, mid, ins[..]);
      now := now + {b};
    }
    assert ids[..|ids|] == ids && now == done + (set b | b in ids);
  }

  predicate Unknown(val: Numbers) {
    forall a: Atom :: val[a] == 0
  }

  /** The first k of the edges leave blocks that all end with the number v in a. */
  ghost predicate Agreed(valOut: seq<Numbers>, edges: seq<nat>, k: nat, a: Atom, v: nat) {
    forall j: nat {:trigger edges[j]} :: j < k && j < |edges| ==>
      Pred(|valOut|, edges[j]) < |valOut| && valOut[Pred(|valOut|, edges[j])][a] == v
  }

  /** The numbers on entry to a block with these edges into it: unknown when there are none,
      otherwise those on which all predecessors agree, and those only. */
  ghost predicate Entry(edges: seq<nat>, valOut: seq<Numbers>, vin: Numbers) {
    && (edges == [] ==> Unknown(vin))
    && (forall e :: e in edges ==> Pred(|valOut|, e) < |valOut| && Carries(valOut[Pred(|valOut|, e)], vin))
    && (edges != [] ==> forall a: Atom, v: nat :: Agreed(valOut, edges, |edges|, a, v) ==> vin[a] == v)
  }

  /** The numbers on entry to a block, predecessor by predecessor. */
  method MergePreds(f: Folder, edges: seq<nat>, valOut: array<Numbers>)
    requires f.Valid()
    requires forall e :: e in edges ==>
      var q := Pred(valOut.Length, e); q < valOut.Length && Bounded(f.table.T(), valOut[q])
    modifies f.val
    ensures f.Valid() && Entry(edges, valOut[..], f.val[..])
  {
    if edges == [] {
      forall a | 0 <= a < 18 {
        f.val[a] := 0;
      }
    } else {
      assert forall j :: 0 <= j < |edges| ==> edges[j] in edges;
      var first := valOut[Pred(valOut.Length, edges[0])];
      forall a | 0 <= a < 18 {
        f.val[a] := first[a];
      }
      assert edges[0] == edges[0];
      for k := 1 to |edges|
        invariant f.Valid() && f.val.Length == 18
        invariant forall j :: 0 <= j < k ==> Carries(valOut[Pred(valOut.Length, edges[j])], f.val[..])
        invariant forall a: Atom, v: nat :: Agreed(valOut[..], edges, k, a, v) ==> f.val[a] == v
      {
        ghost var before, out, k' := f.val[..], valOut[Pred(valOut.Length, edges[k])], k + 1;
        Unify(f, valOut[Pred(valOut.Length, edges[k])]);
        CarriesMore(before, f.val[..], out);
        forall a: Atom, v: nat | Agreed(valOut[..], edges, k', a, v) ensures f.val[a] == v {
          assert Agreed(valOut[..], edges, k, a, v) && edges[k] == edges[k];
        }
      }
    }
  }

  lemma CarriesMore(before: Numbers, val: Numbers, out: Numbers)
    requires forall a: Atom :: val[a] == if before[a] != out[a] then 0 else before[a]
    ensures Carries(out, val) && forall o: Numbers :: Carries(o, before) ==> Carries(o, val)
  {
  }

  /** Unknown where out differs. */
  method Unify(f: Folder, out: Numbers)
    requires f.Valid() && Bounded(f.table.T(), out)
    modifies f.val
    ensures f.Valid() && forall a: Atom :: f.val[a] == if old(f.val[a]) != out[a] then 0 else old(f.val[a])
  {
    ghost var before := f.val[..];
    for i := 0 to 18
      invariant forall a: Atom :: f.val[a] == if a < i && before[a] != out[a] then 0 else before[a]
    {
      if f.val[i] != out[i] {
        f.val[i] := 0;
      }
    }
  }

  /** oval numbers the operand of a block's test. */
  predicate OperandNumbered(T: Table, t: Term, val: Numbers, oval: nat) {
    if t.JmpX? then oval == val[X_ATOM] else 0 < oval <= |T| && T[oval - 1] == Triple(Imm, t.k, 0)
  }

  ghost predicate BlockTrail(T: Table, vals: seq<Numbers>, n: Node, n': Node, vin: Numbers, vout: Numbers, alter: bool)
  {
    && Trail(T, vals, n.stmts, n'.stmts, alter) && vals[0] == vin && vals[|n.stmts|] == vout
    && n'.term == n.term && n'.jt == n.jt && n'.jf == n.jf
  }

  /** What opt_stmt did to one block, with the numbers vin on entry and vout at the end. */
  ghost predicate BlockDone(T: Table, n: Node, n': Node, vin: Numbers, vout: Numbers, alter: bool) {
    exists vals :: BlockTrail(T, vals, n, n', vin, vout, alter)
  }

  /** With the numbers vin on entry the statements of the block come to a division of a constant by
      the constant zero. */
  ghost predicate Halts(T: Table, n: Node, vin: Numbers) {
    exists vals :: vals != [] && vals[0] == vin && Stopped(T, vals, n.stmts, |vals| - 1)
  }

  /** It may have dropped nothing unknown. */
  ghost predicate BlockKept(T: Table, n: Node, n': Node, vin: Numbers, vout: Numbers, alter: bool) {
    exists vals :: BlockTrail(T, vals, n, n', vin, vout, alter) && Kept(T, vals, n.stmts, n'.stmts)
  }

  lemma BlockDoneKeeps(T: Table, T': Table, n: Node, n': Node, vin: Numbers, vout: Numbers, alter: bool)
    requires T <= T' && BlockDone(T, n, n', vin, vout, alter)
    ensures BlockDone(T', n, n', vin, vout, alter)
  {
    var vals :| BlockTrail(T, vals, n, n', vin, vout, alter);
    TrailKeeps(T, T', vals, n.stmts, n'.stmts, alter);
    assert BlockTrail(T', vals, n, n', vin, vout, alter);
  }

  lemma BlockMeans(T: Table, n: Node, n': Node, vin: Numbers, vout: Numbers, alter: bool)
    requires BlockDone(T, n, n', vin, vout, alter)
    ensures FollowsAll(T, vin, vout, n.stmts) && n'.term == n.term && n'.jt == n.jt && n'.jf == n.jf
    ensures BlockKept(T, n, n', vin, vout, alter) ==> RewritesAll(T, vin, n.stmts, n'.stmts)
    ensures !alter ==> n' == n
  {
    var vals :| BlockTrail(T, vals, n, n', vin, vout, alter);
    forall st: State, p: Packet | Describes(T, vin, st, p) ensures Describes(T, vout, ExecAll(n.stmts, st, p), p) {
      TrailMeans(T, vals, n.stmts, n'.stmts, alter, st, p);
    }
    if BlockKept(T, n, n', vin, vout, alter) {
      var kept :| BlockTrail(T, kept, n, n', vin, vout, alter) && Kept(T, kept, n.stmts, n'.stmts);
      forall st: State, p: Packet | Describes(T, vin, st, p)
        ensures ExecAll(n'.stmts, st, p) == ExecAll(n.stmts, st, p)
      {
        TrailMeans(T, kept, n.stmts, n'.stmts, alter, st, p);
      }
    }
    if !alter {
      forall i: nat | i < |n.stmts| ensures n'.stmts[i] == n.stmts[i] {
        assert Leads(T, vals[i], n.stmts[i], vals[i + 1], n'.stmts[i], alter);
      }
      assert n'.stmts == n.stmts;
    }
  }

  /** The block reads only atoms that are known on entry to it or defined by it before. */
  predicate ReadsKnown(T: Table, vin: Numbers, n: Node) {
    && DefinedFirst(KnownAtoms(T, vin), n.stmts)
    && TermUses(n.term) <= KnownAtoms(T, vin) + DefinedAll(n.stmts)
  }

  lemma BlockKnows(T: Table, n: Node, n': Node, vin: Numbers, vout: Numbers, alter: bool)
    requires BlockDone(T, n, n', vin, vout, alter) && ReadsKnown(T, vin, n)
    ensures BlockKept(T, n, n', vin, vout, alter) && Knows(T, vout, KnownAtoms(T, vin) + DefinedAll(n.stmts))
    ensures Knows(T, vout, TermUses(n.term)) && (Sound(T, vin) ==> Sound(T, vout))
  {
    var vals :| BlockTrail(T, vals, n, n', vin, vout, alter);
    TrailKnows(T, vals, n.stmts, n'.stmts, alter, KnownAtoms(T, vin));
  }

  /** The statements of a block go altogether when it returns, and when nothing is read behind its
      test while accumulator and index register have the numbers they had on entry. */
  predicate Empties(t: Term, vin: Numbers, vout: Numbers, outUse: set<Atom>, alter: bool) {
    && alter
    && (t.Ret? || (outUse == {} && vin[A_ATOM] != 0 && vout[A_ATOM] == vin[A_ATOM] && vin[X_ATOM] != 0
                   && vout[X_ATOM] == vin[X_ATOM]))
  }

  /** Otherwise its dead stores do. */
  ghost predicate Trimmed(n: Node, n': Node, vin: Numbers, vout: Numbers, outUse: set<Atom>, alter: bool) {
    if Empties(n.term, vin, vout, outUse, alter) then n' == n.(stmts := []) else Cleared(n, n', outUse)
  }

  /** opt_blk on the block n with the numbers vin on entry: the loop of opt_stmt, which leaves mid,
      the statements nobody needs, and the number of the operand of the test. */
  method OptBlk(f: Folder, n: Node, outUse: set<Atom>, alter: bool)
    returns (n': Option<Node>, oval: nat, ghost mid: Node)
    requires f.Valid()
    modifies f.val, f.table, f.table.hashtbl
    ensures f.Valid() && old(f.table.T()) <= f.table.T()
    ensures n'.Some? ==> BlockDone(f.table.T(), n, mid, old(f.val[..]), f.val[..], alter)
    ensures n'.Some? ==> Trimmed(mid, n'.value, old(f.val[..]), f.val[..], outUse, alter)
    ensures n'.Some? ==> var a, x := old(f.val[A_ATOM]), old(f.val[X_ATOM]);
      if alter && (n.term.Ret? || (outUse == {} && f.val[A_ATOM] == a != 0 && f.val[X_ATOM] == x != 0))
      then n'.value.stmts == [] else Cleared(mid, n'.value, outUse)
    ensures n'.Some? ==> OperandNumbered(f.table.T(), n.term, f.val[..], oval)
    ensures n'.None? ==> alter && Halts(f.table.T(), n, old(f.val[..]))
  {
    var vin: Numbers := f.val[..];
    var ss := new Stmt[|n.stmts|](i requires 0 <= i < |n.stmts| => n.stmts[i]);
    assert ss[..] == n.stmts;
    var ok;
    ghost var vals;
    ok, vals := OptStmts(f, ss, alter);
    n', oval, mid := None, 0, n;
    if !ok {
      assert Stopped(f.table.T(), vals, n.stmts, |vals| - 1);
    } else {
      mid := n.(stmts := ss[..]);
      ghost var T := f.table.T();
      var vout: Numbers := f.val[..];
      assert BlockTrail(T, vals, n, mid, vin, vout, alter);
      if Empties(n.term, vin, vout, outUse, alter) {
        n' := Some(n.(stmts := []));
      } else {
        OptDeadstores(ss, n.term, outUse);
        n' := Some(n.(stmts := ss[..]));
      }
      if n.term.JmpX? {
        oval := f.val[X_ATOM];
      } else {
        oval := f.table.F(Imm, n.term.k, 0);
      }
      BlockDoneKeeps(T, f.table.T(), n, mid, vin, vout, alter);
    }
  }

  predicate From(g: Net, e: nat, done: set<Id>) {
    Pred(|g|, e) < |g| && Pred(|g|, e) in done
  }

  /** Block b has been numbered. */
  ghost predicate NumberedAt(g: Net, net: seq<Node>, ins: seq<seq<nat>>, T: Table, valIn: seq<Numbers>,
                             valOut: seq<Numbers>, oval: seq<nat>, alter: bool, b: Id)
    requires |net| == |ins| == |valIn| == |valOut| == |oval| == |g| && b < |g|
  {
    && BlockDone(T, g[b], net[b], valIn[b], valOut[b], alter)
    && OperandNumbered(T, g[b].term, valOut[b], oval[b])
    && Entry(ins[b], valOut, valIn[b])
  }

  /** The blocks of done have been numbered; ins lists their predecessors. */
  ghost predicate BlocksNumbered(g: Net, net: seq<Node>, ins: seq<seq<nat>>, done: set<Id>, T: Table,
                                 valIn: seq<Numbers>, valOut: seq<Numbers>, oval: seq<nat>, alter: bool)
  {
    && |net| == |ins| == |valIn| == |valOut| == |oval| == |g|
    && forall b: Id {:trigger net[b]} :: b < |g| && b in done ==>
      && NumberedAt(g, net, ins, T, valIn, valOut, oval, alter, b)
      && forall e :: e in ins[b] ==> From(g, e, done)
  }

  /** The blocks of done have been numbered, which left those of mid, and trimmed; the others are as
      they were. */
  ghost predicate BlocksDone(g: Net, mid: seq<Node>, net: seq<Node>, ins: seq<seq<nat>>, done: set<Id>, T: Table,
                             valIn: seq<Numbers>, valOut: seq<Numbers>, oval: seq<nat>, outUse: seq<set<Atom>>,
                             alter: bool)
  {
    && BlocksNumbered(g, mid, ins, done, T, valIn, valOut, oval, alter) && |net| == |outUse| == |g|
    && forall b: Id {:trigger net[b]} {:trigger mid[b]} :: b < |g| ==>
      if b in done then Trimmed(mid[b], net[b], valIn[b], valOut[b], outUse[b], alter)
      else net[b] == mid[b] == g[b]
  }

  /** The blocks of done have been numbered, and the next one halts. */
  ghost predicate Halted(g: Net, mid: seq<Node>, ins: seq<seq<nat>>, done: set<Id>, T: Table, valIn: seq<Numbers>,
                         valOut: seq<Numbers>, oval: seq<nat>, b: Id)
  {
    && BlocksNumbered(g, mid, ins, done, T, valIn, valOut, oval, true) && b < |g| && b !in done
    && (forall e :: e in ins[b] ==> From(g, e, done))
    && exists vin :: Entry(ins[b], valOut, vin) && Halts(T, g[b], vin)
  }

  /** Some block of M halts, once others of M have been numbered. */
  ghost predicate HaltedIn(g: Net, mid: seq<Node>, ins: seq<seq<nat>>, M: set<Id>, T: Table, valIn: seq<Numbers>,
                           valOut: seq<Numbers>, oval: seq<nat>)
  {
    exists done: set<Id>, b: Id {:trigger Halted(g, mid, ins, done, T, valIn, valOut, oval, b)} ::
      done <= M && b in M && Halted(g, mid, ins, done, T, valIn, valOut, oval, b)
  }

  /** What the sweep has done to a block of M, and on which numbers: those on which all its
      predecessors agree, then statement by statement what opt_stmt says, and in the end those of its
      test; after that its statements or its dead stores have gone. */
  lemma SweepMeans(g: Net, mid: seq<Node>, net: seq<Node>, ins: seq<seq<nat>>, M: set<Id>, T: Table,
                   valIn: seq<Numbers>, valOut: seq<Numbers>, oval: seq<nat>, outUse: seq<set<Atom>>, alter: bool,
                   b: Id) returns (vals: seq<Numbers>)
    requires BlocksDone(g, mid, net, ins, M, T, valIn, valOut, oval, outUse, alter) && b < |g| && b in M
    ensures |ins| == |valIn| == |valOut| == |mid| == |net| == |oval| == |outUse| == |g|
    ensures ins[b] == [] ==> forall a: Atom :: valIn[b][a] == 0
    ensures forall a: Atom, e :: e in ins[b] && valIn[b][a] != 0 ==>
      Pred(|g|, e) < |g| && valOut[Pred(|g|, e)][a] == valIn[b][a]
    ensures forall a: Atom, v: nat :: ins[b] != [] && Agreed(valOut, ins[b], |ins[b]|, a, v) ==> valIn[b][a] == v
    ensures |vals| == |g[b].stmts| + 1 && vals[0] == valIn[b] && vals[|g[b].stmts|] == valOut[b]
    ensures |mid[b].stmts| == |g[b].stmts| && forall i: nat {:trigger g[b].stmts[i]} :: i < |g[b].stmts| ==>
      && Step(T, vals[i], g[b].stmts[i], vals[i + 1], mid[b].stmts[i])
      && if alter then Simplified(T, vals[i], g[b].stmts[i], vals[i + 1], mid[b].stmts[i])
         else mid[b].stmts[i] == g[b].stmts[i]
    ensures if alter && (g[b].term.Ret? || (outUse[b] == {} && valOut[b][A_ATOM] == valIn[b][A_ATOM] != 0
                                            && valOut[b][X_ATOM] == valIn[b][X_ATOM] != 0))
            then net[b].stmts == [] else Cleared(mid[b], net[b], outUse[b])
    ensures net[b].term == g[b].term && net[b].jt == g[b].jt && net[b].jf == g[b].jf
    ensures g[b].term.JmpX? ==> oval[b] == valOut[b][X_ATOM]
    ensures g[b].term.JmpK? ==> Konst(T, oval[b]) == Some(g[b].term.k)
  {
    assert mid[b] == mid[b] && net[b] == net[b] && NumberedAt(g, mid, ins, T, valIn, valOut, oval, alter, b);
    vals :| BlockTrail(T, vals, g[b], mid[b], valIn[b], valOut[b], alter);
    forall i: nat | i < |g[b].stmts|
      ensures Leads(T, vals[i], g[b].stmts[i], vals[i + 1], mid[b].stmts[i], alter)
    {
      assert g[b].stmts[i] == g[b].stmts[i];
    }
  }

  /** Where the sweep has failed: at a statement that divides a constant by the constant zero. */
  lemma HaltMeans(g: Net, mid: seq<Node>, ins: seq<seq<nat>>, M: set<Id>, T: Table, valIn: seq<Numbers>,
                  valOut: seq<Numbers>, oval: seq<nat>)
    returns (b: Id, k: nat, val: Numbers)
    requires HaltedIn(g, mid, ins, M, T, valIn, valOut, oval)
    ensures b in M && b < |g| && k < |g[b].stmts| && Konst(T, val[A_ATOM]).Some?
    ensures g[b].stmts[k] == AluK(Div, 0) || (g[b].stmts[k] == AluX(Div) && Konst(T, val[X_ATOM]) == Some(0))
  {
    var done: set<Id>;
    done, b :| done <= M && b in M && Halted(g, mid, ins, done, T, valIn, valOut, oval, b);
    var vin :| Entry(ins[b], valOut, vin) && Halts(T, g[b], vin);
    var vals :| vals != [] && vals[0] == vin && Stopped(T, vals, g[b].stmts, |vals| - 1);
    k := |vals| - 1;
    val := vals[k];
  }

  lemma NumberingKeeps(g: Net, net: seq<Node>, ins: seq<seq<nat>>, done: set<Id>, T: Table, T': Table,
                       valIn: seq<Numbers>, valOut: seq<Numbers>, oval: seq<nat>, alter: bool)
    requires BlocksNumbered(g, net, ins, done, T, valIn, valOut, oval, alter) && T <= T'
    ensures BlocksNumbered(g, net, ins, done, T', valIn, valOut, oval, alter)
  {
    forall c: Id | c < |g| && c in done
      ensures NumberedAt(g, net, ins, T', valIn, valOut, oval, alter, c) && forall e :: e in ins[c] ==> From(g, e, done)
    {
      assert net[c] == net[c] && NumberedAt(g, net, ins, T, valIn, valOut, oval, alter, c);
      BlockDoneKeeps(T, T', g[c], net[c], valIn[c], valOut[c], alter);
    }
  }

  /** Numbers of blocks that are not before b do not matter to it. */
  lemma EntryElsewhere(edges: seq<nat>, valOut: seq<Numbers>, valOut': seq<Numbers>, vin: Numbers)
    requires Entry(edges, valOut, vin) && |valOut'| == |valOut|
    requires forall e :: e in edges ==>
      Pred(|valOut|, e) < |valOut| && valOut'[Pred(|valOut|, e)] == valOut[Pred(|valOut|, e)]
    ensures Entry(edges, valOut', vin)
  {
    forall a: Atom, v: nat | edges != [] && Agreed(valOut', edges, |edges|, a, v) ensures vin[a] == v {
      forall j: nat | j < |edges| ensures valOut[Pred(|valOut|, edges[j])][a] == v {
        assert edges[j] in edges;
      }
      assert Agreed(valOut, edges, |edges|, a, v);
    }
  }

  lemma NumberingAdd(g: Net, net: seq<Node>, ins: seq<seq<nat>>, done: set<Id>, T: Table, T': Table,
                     valIn: seq<Numbers>, valOut: seq<Numbers>, oval: seq<nat>, alter: bool, b: Id, n': Node,
                     vin: Numbers, vout: Numbers, ov: nat)
    requires BlocksNumbered(g, net, ins, done, T, valIn, valOut, oval, alter) && T <= T' && b < |g| && b !in done
    requires BlockDone(T', g[b], n', vin, vout, alter) && OperandNumbered(T', g[b].term, vout, ov)
    requires Entry(ins[b], valOut, vin) && forall e :: e in ins[b] ==> From(g, e, done)
    ensures BlocksNumbered(g, net[b := n'], ins, done + {b}, T', valIn[b := vin], valOut[b := vout], oval[b := ov],
      alter)
  {
    var net' := net[b := n'];
    forall c: Id | c < |g| && c in done + {b}
      ensures NumberedAt(g, net', ins, T', valIn[b := vin], valOut[b := vout], oval[b := ov], alter, c)
      ensures forall e :: e in ins[c] ==> From(g, e, done + {b})
    {
      if c != b {
        assert net[c] == net'[c] && NumberedAt(g, net, ins, T, valIn, valOut, oval, alter, c);
        BlockDoneKeeps(T, T', g[c], net[c], valIn[c], valOut[c], alter);
        EntryElsewhere(ins[c], valOut, valOut[b := vout], valIn[c]);
      } else {
        EntryElsewhere(ins[b], valOut, valOut[b := vout], vin);
      }
    }
  }

  lemma DoneAdd(g: Net, mid: seq<Node>, net: seq<Node>, ins: seq<seq<nat>>, done: set<Id>, T: Table, T': Table,
                 valIn: seq<Numbers>, valOut: seq<Numbers>, oval: seq<nat>, outUse: seq<set<Atom>>, alter: bool, b: Id,
                 m: Node, n': Node, vin: Numbers, vout: Numbers, ov: nat)
    requires BlocksDone(g, mid, net, ins, done, T, valIn, valOut, oval, outUse, alter) && T <= T' && b < |g|
    requires b !in done
    requires BlockDone(T', g[b], m, vin, vout, alter) && OperandNumbered(T', g[b].term, vout, ov)
    requires Trimmed(m, n', vin, vout, outUse[b], alter)
    requires Entry(ins[b], valOut, vin) && forall e :: e in ins[b] ==> From(g, e, done)
    ensures BlocksDone(g, mid[b := m], net[b := n'], ins, done + {b}, T', valIn[b := vin], valOut[b := vout],
      oval[b := ov], outUse, alter)
  {
    NumberingAdd(g, mid, ins, done, T, T', valIn, valOut, oval, alter, b, m, vin, vout, ov);
  }

  /** opt_blk on block b, whose predecessors have been done. */
  method OptBlkAt(f: Folder, b: Id, ghost g: Net, net: array<Node>, ins: array<seq<nat>>, valOut: array<Numbers>,
                  oval: array<nat>, outUse: seq<set<Atom>>, alter: bool, ghost done: set<Id>, ghost valIn: seq<Numbers>,
                  ghost mid: seq<Node>)
    returns (ok: bool, ghost valIn': seq<Numbers>, ghost mid': seq<Node>)
    requires f.Valid()
    requires BlocksDone(g, mid, net[..], ins[..], done, f.table.T(), valIn, valOut[..], oval[..], outUse, alter)
    requires oval as object != f.val && oval as object != f.table.hashtbl
    requires b < |g| && b !in done && forall e :: e in ins[b] ==> From(g, e, done)
    modifies f.val, f.table, f.table.hashtbl, net, valOut, oval
    ensures f.Valid()
    ensures ok ==>
      BlocksDone(g, mid', net[..], ins[..], done + {b}, f.table.T(), valIn', valOut[..], oval[..], outUse, alter)
    ensures !ok ==> alter && Halted(g, mid', ins[..], done, f.table.T(), valIn', valOut[..], oval[..], b)
  {
    ghost var T, before, outs, ovals, edges := f.table.T(), net[..], valOut[..], oval[..], ins[..];
    forall e | e in ins[b] ensures Bounded(T, valOut[Pred(|g|, e)]) {
      NumberedBounds(g, mid, edges, done, T, valIn, outs, ovals, alter, Pred(|g|, e));
    }
    MergePreds(f, ins[b], valOut);
    ghost var vin := f.val[..];
    assert before[b] == g[b];
    ghost var m;
    var n', ov;
    n', ov, m := OptBlk(f, net[b], outUse[b], alter);
    ok := n'.Some?;
    valIn', mid' := valIn, mid;
    if ok {
      var vout: Numbers := f.val[..];
      DoneAdd(g, mid, before, edges, done, T, f.table.T(), valIn, outs, ovals, outUse, alter, b, m, n'.value, vin,
               vout, ov);
      net[b] := n'.value;
      valOut[b] := vout;
      valIn', mid' := valIn[b := vin], mid[b := m];
      oval[b] := ov;
      assert net[..] == before[b := n'.value] && valOut[..] == outs[b := vout] && oval[..] == ovals[b := ov];
    } else {
      NumberingKeeps(g, mid, edges, done, T, f.table.T(), valIn, outs, ovals, alter);
    }
  }

  lemma NumberedBounds(g: Net, net: seq<Node>, ins: seq<seq<nat>>, done: set<Id>, T: Table, valIn: seq<Numbers>,
                       valOut: seq<Numbers>, oval: seq<nat>, alter: bool, b: Id)
    requires BlocksNumbered(g, net, ins, done, T, valIn, valOut, oval, alter) && b < |g| && b in done
    ensures Bounded(T, valIn[b]) && Bounded(T, valOut[b])
  {
    assert net[b] == net[b] && NumberedAt(g, net, ins, T, valIn, valOut, oval, alter, b);
    var vals :| BlockTrail(T, vals, g[b], net[b], valIn[b], valOut[b], alter);
    if g[b].stmts != [] {
      var last: nat := |g[b].stmts| - 1;
      var s := g[b].stmts[last];
    }
  }

  /** The edges into the blocks of ids leave blocks of done. */
  ghost predicate AllFrom(g: Net, ids: seq<Id>, ins: seq<seq<nat>>, done: set<Id>) {
    |ins| == |g| && forall b, e: nat {:trigger e in ins[b]} :: b in ids && b < |g| && e in ins[b] ==> From(g, e, done)
  }

  lemma LevelFrom(g: Net, rk: Rank, root: Id, level: seq<nat>, ids: seq<Id>, i: nat, ins: seq<seq<nat>>, done: set<Id>)
    requires Ranked(g, rk) && root < |g| && |level| == |g| && Inward(g, Reach(g, rk, root), ins)
    requires forall b :: b in Reach(g, rk, root) ==> level[b] == Height(g, rk, b)
    requires forall b: Id :: b in ids <==> b in Reach(g, rk, root) && level[b] == i
    requires forall b: Id :: b in done <==> b in Reach(g, rk, root) && level[b] > i
    ensures AllFrom(g, ids, ins, done)
  {
    LowerLevels(g, rk, root, level);
    forall b, e: nat | b in ids && b < |g| && e in ins[b] ensures From(g, e, done) {
      assert EdgeInto(g, Reach(g, rk, root), e, b);
    }
  }

  function Plus(done: set<Id>, ids: seq<Id>): set<Id> {
    done + set b | b in ids
  }

  /** The blocks of ids are still to come, and have what comes before them behind them. */
  ghost predicate Waiting(g: Net, ins: seq<seq<nat>>, M: set<Id>, done: set<Id>, ids: seq<Id>) {
    && |ins| == |g| && AllFrom(g, ids, ins, done) && NoRepeats(ids) && Plus(done, ids) <= M
    && forall b: Id :: b in ids ==> b < |g| && b !in done
  }

  /** opt_blk on the next block of a level. */
  method OptNext(f: Folder, ids: seq<Id>, j: nat, ghost g: Net, net: array<Node>, ins: array<seq<nat>>,
                 valOut: array<Numbers>, oval: array<nat>, outUse: seq<set<Atom>>, alter: bool, ghost M: set<Id>,
                 ghost done: set<Id>, ghost valIn: seq<Numbers>, ghost mid: seq<Node>)
    returns (ok: bool, ghost valIn': seq<Numbers>, ghost mid': seq<Node>)
    requires f.Valid() && j < |ids| && Waiting(g, ins[..], M, done, ids)
    requires BlocksDone(g, mid, net[..], ins[..], Plus(done, ids[..j]), f.table.T(), valIn, valOut[..], oval[..],
                        outUse, alter)
    requires oval as object != f.val && oval as object != f.table.hashtbl
    modifies f.val, f.table, f.table.hashtbl, net, valOut, oval
    ensures f.Valid()
    ensures ok ==>
      BlocksDone(g, mid', net[..], ins[..], Plus(done, ids[..j + 1]), f.table.T(), valIn', valOut[..], oval[..], outUse,
                 alter)
    ensures !ok ==> alter && HaltedIn(g, mid', ins[..], M, f.table.T(), valIn', valOut[..], oval[..])
  {
    var b := ids[j];
    ghost var now := Plus(done, ids[..j]);
    assert b in ids && ids[..j + 1] == ids[..j] + [b] && b !in ids[..j];
    forall e | e in ins[b] ensures From(g, e, now) {
      assert e in ins[..][b] && From(g, e, done);
    }
    assert now <= M && Plus(done, ids[..j + 1]) == now + {b} by {
      assert forall c: Id :: c in ids[..j] ==> c in ids;
    }
    ok, valIn', mid' := OptBlkAt(f, b, g, net, ins, valOut, oval, outUse, alter, now, valIn, mid);
  }

  /** opt_blk on the blocks of one level. */
  method OptLevel(f: Folder, ids: seq<Id>, ghost g: Net, net: array<Node>, ins: array<seq<nat>>, valOut: array<Numbers>,
                  oval: array<nat>, outUse: seq<set<Atom>>, alter: bool, ghost M: set<Id>, ghost done: set<Id>,
                  ghost valIn: seq<Numbers>, ghost mid: seq<Node>)
    returns (ok: bool, ghost valIn': seq<Numbers>, ghost mid': seq<Node>)
    requires f.Valid()
    requires BlocksDone(g, mid, net[..], ins[..], done, f.table.T(), valIn, valOut[..], oval[..], outUse, alter)
    requires oval as object != f.val && oval as object != f.table.hashtbl
    requires Waiting(g, ins[..], M, done, ids)
    modifies f.val, f.table, f.table.hashtbl, net, valOut, oval
    ensures f.Valid()
    ensures ok ==>
      BlocksDone(g, mid', net[..], ins[..], Plus(done, ids), f.table.T(), valIn', valOut[..], oval[..], outUse, alter)
    ensures !ok ==> alter && HaltedIn(g, mid', ins[..], M, f.table.T(), valIn', valOut[..], oval[..])
  {
    valIn', mid', ok := valIn, mid, true;
    assert Plus(done, ids[..0]) == done;
    for j := 0 to |ids|
      invariant f.Valid()
      invariant BlocksDone(g, mid', net[..], ins[..], Plus(done, ids[..j]), f.table.T(), valIn', valOut[..], oval[..],
                           outUse, alter)
    {
      ok, valIn', mid' := OptNext(f, ids, j, g, net, ins, valOut, oval, outUse, alter, M, done, valIn', mid');
      if !ok {
        return;
      }
    }
    assert ids[..|ids|] == ids;
  }

  /** The first loop of opt_blks: every block, highest level first. It fails exactly when it comes
      to a block that divides a constant by the constant zero. */
  method OptBlks(f: Folder, root: Id, net: array<Node>, ghost rk: Rank, level: seq<nat>, levels: seq<seq<Id>>,
                 ins: array<seq<nat>>, valOut: array<Numbers>, oval: array<nat>, outUse: seq<set<Atom>>, alter: bool)
    returns (ok: bool, ghost valIn: seq<Numbers>, ghost mid: seq<Node>)
    requires f.Valid() && Ranked(net[..], rk) && root < net.Length == ins.Length == valOut.Length == oval.Length
    requires |outUse| == net.Length && oval as object != f.val && oval as object != f.table.hashtbl
    requires Leveled(net[..], rk, Reach(net[..], rk, root), level, levels)
    modifies f.val, f.table, f.table.hashtbl, net, ins, valOut, oval
    ensures f.Valid() && Inward(old(net[..]), Reach(old(net[..]), rk, root), ins[..])
    ensures ok ==> var g := old(net[..]);
      BlocksDone(g, mid, net[..], ins[..], Reach(g, rk, root), f.table.T(), valIn, valOut[..], oval[..], outUse, alter)
    ensures !ok ==> var g := old(net[..]);
      alter && HaltedIn(g, mid, ins[..], Reach(g, rk, root), f.table.T(), valIn, valOut[..], oval[..])
  {
    ghost var g, M := net[..], Reach(net[..], rk, root);
    FindInedges(root, net[..], rk, level, levels, ins);
    LowerLevels(g, rk, root, level);
    ghost var done: set<Id>, edges, none := {}, ins[..], f.val[..];
    valIn, mid := seq(|g|, _ => none), g;
    for i := level[root] + 1 downto 0
      invariant forall b: Id :: b in done <==> b in M && level[b] >= i
      invariant f.Valid() && ins[..] == edges
      invariant BlocksDone(g, mid, net[..], edges, done, f.table.T(), valIn, valOut[..], oval[..], outUse, alter)
    {
      LevelFrom(g, rk, root, level, levels[i], i, edges, done);
      ok, valIn, mid := OptLevel(f, levels[i], g, net, ins, valOut, oval, outUse, alter, M, done, valIn, mid);
      if !ok {
        return;
      }
      done := Plus(done, levels[i]);
    }
    assert done == M;
    ok := true;
  }

  /** What opt_blks leaves is right about every run: nothing is claimed into the root, and
      what is claimed into a block comes over each edge into it. */
  lemma NumberingAnnotates(g: Net, rk: Rank, root: Id, net: seq<Node>, ins: seq<seq<nat>>, T: Table,
                           valIn: seq<Numbers>, valOut: seq<Numbers>, oval: seq<nat>, alter: bool)
    requires Ranked(g, rk) && root < |g| && Inward(g, Reach(g, rk, root), ins)
    requires BlocksNumbered(g, net, ins, Reach(g, rk, root), T, valIn, valOut, oval, alter)
    ensures Annotated(g, Reach(g, rk, root), T, valIn, valOut) && Unknown(valIn[root])
  {
    var M := Reach(g, rk, root);
    if ins[root] != [] {
      var e := ins[root][0];
      assert e in ins[root];
      ReachDescends(g, rk, root, Pred(|g|, e));
      assert false;
    }
    assert net[root] == net[root] && NumberedAt(g, net, ins, T, valIn, valOut, oval, alter, root);
    forall b: Id | b in M && b < |g| && !g[b].term.Ret? ensures g[b].jt in M && g[b].jf in M {
      ReachTransitive(g, rk, root, b);
    }
    ClosedAnnotates(g, rk, M, net, ins, T, valIn, valOut, oval, alter);
  }

  lemma ClosedAnnotates(g: Net, rk: Rank, M: set<Id>, net: seq<Node>, ins: seq<seq<nat>>, T: Table, valIn: seq<Numbers>,
                        valOut: seq<Numbers>, oval: seq<nat>, alter: bool)
    requires Ranked(g, rk) && Inward(g, M, ins) && BlocksNumbered(g, net, ins, M, T, valIn, valOut, oval, alter)
    requires forall b: Id {:trigger g[b]} :: b in M && b < |g| && !g[b].term.Ret? ==> g[b].jt in M && g[b].jf in M
    ensures Annotated(g, M, T, valIn, valOut)
  {
    forall b: Id | b in M && b < |g|
      ensures FollowsAll(T, valIn[b], valOut[b], g[b].stmts)
      ensures !g[b].term.Ret? ==> Carries(valOut[b], valIn[g[b].jt]) && Carries(valOut[b], valIn[g[b].jf])
    {
      assert net[b] == net[b] && NumberedAt(g, net, ins, T, valIn, valOut, oval, alter, b);
      BlockMeans(T, g[b], net[b], valIn[b], valOut[b], alter);
      if !g[b].term.Ret? {
        var jt, jf := g[b].jt, g[b].jf;
        assert EdgeInto(g, M, b, jt) && EdgeInto(g, M, |g| + b, jf);
        assert b in ins[jt] && |g| + b in ins[jf];
        assert net[jt] == net[jt] && net[jf] == net[jf];
        assert NumberedAt(g, net, ins, T, valIn, valOut, oval, alter, jt) &&
          NumberedAt(g, net, ins, T, valIn, valOut, oval, alter, jf);
      }
    }
  }

  /** opt_stmt over the whole graph keeps the verdict of every packet, from whatever state
      the program starts in, if it has dropped no transfer of an unknown value. */
  lemma OptBlksKeepsVerdict(g: Net, rk: Rank, root: Id, net: seq<Node>, ins: seq<seq<nat>>, T: Table,
                            valIn: seq<Numbers>, valOut: seq<Numbers>, oval: seq<nat>, alter: bool, st: State,
                            p: Packet)
    requires Ranked(g, rk) && root < |g| && Inward(g, Reach(g, rk, root), ins)
    requires BlocksNumbered(g, net, ins, Reach(g, rk, root), T, valIn, valOut, oval, alter)
    requires forall b: Id {:trigger net[b]} :: b < |g| && b !in Reach(g, rk, root) ==> net[b] == g[b]
    requires forall b: Id {:trigger net[b]} :: b < |g| && b in Reach(g, rk, root) ==>
      BlockKept(T, g[b], net[b], valIn[b], valOut[b], alter)
    ensures Ranked(net, rk) && Run(net, rk, root, st, p) == Run(g, rk, root, st, p)
  {
    NumberingAnnotates(g, rk, root, net, ins, T, valIn, valOut, oval, alter);
    assert Describes(T, valIn[root], st, p);
    forall c: Id | c < |g|
      ensures net[c].term == g[c].term && net[c].jt == g[c].jt && net[c].jf == g[c].jf
      ensures c in Reach(g, rk, root) ==> RewritesAll(T, valIn[c], g[c].stmts, net[c].stmts)
    {
      assert net[c] == net[c];
      if c in Reach(g, rk, root) {
        assert NumberedAt(g, net, ins, T, valIn, valOut, oval, alter, c);
        BlockMeans(T, g[c], net[c], valIn[c], valOut[c], alter);
      }
    }
    RewritesKeepVerdict(g, net, rk, Reach(g, rk, root), T, valIn, valOut, root, st, p);
  }

  // ----- graphs that read nothing unknown -----

  ghost predicate AllReadKnown(g: Net, M: set<Id>, T: Table, valIn: seq<Numbers>)
    requires |valIn| == |g|
  {
    forall b: Id {:trigger g[b]} :: b < |g| && b in M ==> ReadsKnown(T, valIn[b], g[b])
  }

  /** Then a number is 0 or known. */
  lemma {:induction false} NumbersSound(g: Net, rk: Rank, root: Id, net: seq<Node>, ins: seq<seq<nat>>, T: Table,
                                        valIn: seq<Numbers>, valOut: seq<Numbers>, oval: seq<nat>, alter: bool, b: Id)
    requires Ranked(g, rk) && root < |g| && Inward(g, Reach(g, rk, root), ins)
    requires BlocksNumbered(g, net, ins, Reach(g, rk, root), T, valIn, valOut, oval, alter)
    requires AllReadKnown(g, Reach(g, rk, root), T, valIn)
    requires b in Reach(g, rk, root)
    ensures rk[b] <= rk[root] && Sound(T, valIn[b]) && Sound(T, valOut[b])
    ensures BlockKept(T, g[b], net[b], valIn[b], valOut[b], alter) && Knows(T, valOut[b], TermUses(g[b].term))
    decreases rk[root] as int - rk[b] as int
  {
    ReachDescends(g, rk, root, b);
    assert net[b] == net[b] && g[b] == g[b] && NumberedAt(g, net, ins, T, valIn, valOut, oval, alter, b);
    if ins[b] != [] {
      var e := ins[b][0];
      assert e in ins[b] && EdgeInto(g, Reach(g, rk, root), e, b);
      var q := Pred(|g|, e);
      assert g[q] == g[q];
      NumbersSound(g, rk, root, net, ins, T, valIn, valOut, oval, alter, q);
      forall a: Atom ensures valIn[b][a] == 0 || Solid(T, valIn[b][a]) {
        assert Carries(valOut[q], valIn[b]);
      }
    }
    BlockKnows(T, g[b], net[b], valIn[b], valOut[b], alter);
  }

  /** Each nonzero number denotes one function of the packet: in every run of such a graph, an
      atom with a nonzero number, into a block or at its end, holds the value of that function. */
  lemma NonzeroDenotes(g: Net, rk: Rank, root: Id, net: seq<Node>, ins: seq<seq<nat>>, T: Table, valIn: seq<Numbers>,
                       valOut: seq<Numbers>, oval: seq<nat>, alter: bool, st: State, p: Packet, b: Id, a: Atom)
    requires Ranked(g, rk) && root < |g| && Inward(g, Reach(g, rk, root), ins)
    requires BlocksNumbered(g, net, ins, Reach(g, rk, root), T, valIn, valOut, oval, alter)
    requires AllReadKnown(g, Reach(g, rk, root), T, valIn)
    requires Visits(g, rk, root, st, p, b)
    ensures b < |g| && b in Reach(g, rk, root)
    ensures var at := StateAt(g, rk, root, st, p, b);
      && (valIn[b][a] != 0 ==> Solid(T, valIn[b][a]) && at[a] == Den(T, valIn[b][a], p))
      && (valOut[b][a] != 0 ==> Solid(T, valOut[b][a]) && ExecAll(g[b].stmts, at, p)[a] == Den(T, valOut[b][a], p))
  {
    NumberingAnnotates(g, rk, root, net, ins, T, valIn, valOut, oval, alter);
    assert Describes(T, valIn[root], st, p);
    EveryRunDescribed(g, rk, Reach(g, rk, root), T, valIn, valOut, root, st, p, b);
    NumbersSound(g, rk, root, net, ins, T, valIn, valOut, oval, alter, b);
  }
}
