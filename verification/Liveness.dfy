/** find_ud and opt_deadstores: which atoms a block needs on entry, and the removal of
    statements whose results nobody needs. */
module Liveness {
  import opened Bpf
  import opened Graph
  import opened Levels

  /** The atoms a statement reads (atomuse). */
  function Uses(s: Stmt): set<Atom> {
    match s
    case Nop => {}
    case LdAbs(_, _) => {}
    case LdInd(_, _) => {X_ATOM}
    case LdLen => {}
    case LdImm(_) => {}
    case LdMem(i) => {i as Atom}
    case LdxImm(_) => {}
    case LdxMsh(_) => {}
    case LdxMem(i) => {i as Atom}
    case St(_) => {A_ATOM}
    case Stx(_) => {X_ATOM}
    case AluK(_, _) => {A_ATOM}
    case AluX(_) => {A_ATOM, X_ATOM}
    case Neg => {A_ATOM}
    case Tax => {A_ATOM}
    case Txa => {X_ATOM}
  }

  function TermUses(t: Term): set<Atom> {
    match t
    case Ret(_) => {}
    case JmpK(_, _) => {A_ATOM}
    case JmpX(_) => {A_ATOM, X_ATOM}
  }

  /** The two states hold the same words in the atoms of X. */
  ghost predicate Agree(X: set<Atom>, st: State, st': State) {
    forall a :: a in X ==> st[a] == st'[a]
  }

  lemma ExecRespectsUses(s: Stmt, st: State, st': State, p: Packet)
    requires s != Nop && Agree(Uses(s), st, st')
    ensures Value(s, st, p) == Value(s, st', p)
  {
    assert forall a :: a in Uses(s) ==> st[a] == st'[a];
  }

  // ----- compute_local_ud -----

  datatype Ud = Ud(def: set<Atom>, use: set<Atom>, kill: set<Atom>)

  function Read(ud: Ud, atoms: set<Atom>): Ud {
    ud.(use := ud.use + (atoms - ud.def))
  }

  function Write(ud: Ud, atom: Option<Atom>): Ud {
    match atom
    case None => ud
    case Some(a) => Ud(ud.def + {a}, ud.use, if a in ud.use then ud.kill else ud.kill + {a})
  }

  function Scan(ss: seq<Stmt>, ud: Ud): Ud {
    if ss == [] then ud else Scan(ss[1..], Write(Read(ud, Uses(ss[0])), Def(ss[0])))
  }

  function LocalUd(n: Node): Ud {
    Read(Scan(n.stmts, Ud({}, {}, {})), TermUses(n.term))
  }

  /** A scan only adds: what is used, and what is killed beyond the kills it starts from was
      defined on the way. */
  lemma {:induction false} ScanGrows(ss: seq<Stmt>, ud: Ud)
    requires ud.kill <= ud.def
    ensures var r := Scan(ss, ud); ud.use <= r.use && ud.def <= r.def && r.kill <= r.def
    decreases ss
  {
    if ss != [] {
      ScanGrows(ss[1..], Write(Read(ud, Uses(ss[0])), Def(ss[0])));
    }
  }

  /** States that agree on E, which covers what the scan finds used, agree after the
      statements on E and on everything defined. */
  lemma {:induction false} ScanSound(ss: seq<Stmt>, ud: Ud, E: set<Atom>, st: State, st': State, p: Packet)
    requires ud.kill <= ud.def && Scan(ss, ud).use <= E && Agree(ud.def + E, st, st')
    ensures Agree(Scan(ss, ud).def + E, ExecAll(ss, st, p), ExecAll(ss, st', p))
    decreases ss
  {
    if ss != [] {
      var ud' := Write(Read(ud, Uses(ss[0])), Def(ss[0]));
      ScanGrows(ss[1..], ud');
      assert Uses(ss[0]) <= ud.def + E;
      if ss[0] != Nop {
        ExecRespectsUses(ss[0], st, st', p);
      }
      assert Agree(ud'.def + E, Exec(ss[0], st, p), Exec(ss[0], st', p));
      ScanSound(ss[1..], ud', E, Exec(ss[0], st, p), Exec(ss[0], st', p), p);
    }
  }

  // ----- the sets of find_ud -----

  ghost function LiveIn(g: Net, rk: Rank, b: Id): set<Atom>
    requires Ranked(g, rk) && b < |g|
    decreases rk[b], 1
  {
    LocalUd(g[b]).use + (LiveOut(g, rk, b) - LocalUd(g[b]).kill)
  }

  ghost function LiveOut(g: Net, rk: Rank, b: Id): set<Atom>
    requires Ranked(g, rk) && b < |g|
    decreases rk[b], 0
  {
    if g[b].term.Ret? then {} else LiveIn(g, rk, g[b].jt) + LiveIn(g, rk, g[b].jf)
  }

  /** Past a block, states that agreed on what is live into it agree on what is live out of
      it, and take the same branch. */
  lemma {:induction false} LiveThrough(g: Net, rk: Rank, b: Id, st: State, st': State, p: Packet)
    requires Ranked(g, rk) && b < |g| && Agree(LiveIn(g, rk, b), st, st')
    ensures Agree(LiveOut(g, rk, b), ExecAll(g[b].stmts, st, p), ExecAll(g[b].stmts, st', p))
    ensures !g[b].term.Ret? ==>
      Decide(g[b].term, ExecAll(g[b].stmts, st, p)) == Decide(g[b].term, ExecAll(g[b].stmts, st', p))
  {
    var empty := Ud({}, {}, {});
    var scan, ud, E := Scan(g[b].stmts, empty), LocalUd(g[b]), LiveIn(g, rk, b);
    ScanGrows(g[b].stmts, empty);
    assert ud.def == scan.def && ud.kill == scan.kill && scan.use <= ud.use;
    assert Agree(empty.def + E, st, st');
    ScanSound(g[b].stmts, empty, E, st, st', p);
    assert LiveOut(g, rk, b) <= scan.def + E && TermUses(g[b].term) <= scan.def + E;
  }

  /** The verdict from a block depends only on the atoms live into it. */
  lemma {:induction false} LiveSound(g: Net, rk: Rank, b: Id, st: State, st': State, p: Packet)
    requires Ranked(g, rk) && b < |g| && Agree(LiveIn(g, rk, b), st, st')
    ensures Run(g, rk, b, st, p) == Run(g, rk, b, st', p)
    decreases rk[b]
  {
    LiveThrough(g, rk, b, st, st', p);
    if !g[b].term.Ret? {
      var after, after' := ExecAll(g[b].stmts, st, p), ExecAll(g[b].stmts, st', p);
      LiveSound(g, rk, Choose(g[b], after), after, after', p);
    }
  }

  method ComputeLocalUd(n: Node) returns (def: set<Atom>, use: set<Atom>, kill: set<Atom>)
    ensures Ud(def, use, kill) == LocalUd(n)
  {
    def, use, kill := {}, {}, {};
    for i := 0 to |n.stmts|
      invariant Scan(n.stmts[i..], Ud(def, use, kill)) == Scan(n.stmts, Ud({}, {}, {}))
    {
      assert n.stmts[i..][1..] == n.stmts[i + 1..];
      var s := n.stmts[i];
      use := use + (Uses(s) - def);
      if Def(s).Some? {
        var atom := Def(s).value;
        if atom !in use {
          kill := kill + {atom};
        }
        def := def + {atom};
      }
    }
    use := use + (TermUses(n.term) - def);
  }

  class UdFinder {
    const inUse: array<set<Atom>>
    const outUse: array<set<Atom>>
    const kill: array<set<Atom>>

    ghost predicate Sized(n: nat)
      reads this
    {
      inUse.Length == outUse.Length == kill.Length == n && inUse != outUse && inUse != kill && outUse != kill
    }

    constructor (n: nat)
      ensures Sized(n) && fresh(inUse) && fresh(outUse) && fresh(kill)
    {
      inUse := new set<Atom>[n];
      outUse := new set<Atom>[n];
      kill := new set<Atom>[n];
    }

    /** The blocks of done have their final sets, the others of M their local ones. */
    ghost predicate Swept(g: Net, rk: Rank, M: set<Id>, done: set<Id>)
      requires Ranked(g, rk) && Sized(|g|)
      reads this, inUse, outUse, kill
    {
      && (forall b :: b in M ==> b < |g|)
      && forall b: Id {:trigger g[b]} :: b in M ==>
        && kill[b] == LocalUd(g[b]).kill
        && (b in done ==> inUse[b] == LiveIn(g, rk, b) && outUse[b] == LiveOut(g, rk, b))
        && (b !in done ==> inUse[b] == LocalUd(g[b]).use && outUse[b] == {})
    }

    /** find_ud: lowest level first, so that successors are final when they are read. */
    method FindUd(root: Id, g: Net, ghost rk: Rank, level: seq<nat>, levels: seq<seq<Id>>)
      requires Ranked(g, rk) && root < |g| && Sized(|g|) && Leveled(g, rk, Reach(g, rk, root), level, levels)
      modifies inUse, outUse, kill
      ensures forall b: Id :: b in Reach(g, rk, root) ==> inUse[b] == LiveIn(g, rk, b) && outUse[b] == LiveOut(g, rk, b)
    {
      ghost var M := Reach(g, rk, root);
      LowerLevels(g, rk, root, level);
      LocalSets(root, g, rk, level, levels);
      ghost var done := set b | b in M && level[b] < 1;
      assert forall b: Id :: b in done ==> g[b].term.Ret?;
      for i := 1 to level[root] + 1
        invariant forall b: Id :: b in done <==> b in M && level[b] < i
        invariant Swept(g, rk, M, done)
      {
        done := PropagateLevel(i, root, g, rk, level, levels, done);
      }
    }

    method PropagateLevel(i: nat, ghost root: Id, g: Net, ghost rk: Rank, ghost level: seq<nat>, levels: seq<seq<Id>>,
                          ghost done: set<Id>)
      returns (ghost done': set<Id>)
      requires Ranked(g, rk) && root < |g| && Sized(|g|) && Leveled(g, rk, Reach(g, rk, root), level, levels)
      requires 0 < i < |levels|
      requires Swept(g, rk, Reach(g, rk, root), done)
      requires forall b: Id :: b in done <==> b in Reach(g, rk, root) && level[b] < i
      modifies inUse, outUse
      ensures Swept(g, rk, Reach(g, rk, root), done')
      ensures forall b: Id :: b in done' <==> b in Reach(g, rk, root) && level[b] < i + 1
    {
      ghost var M := Reach(g, rk, root);
      LowerLevels(g, rk, root, level);
      done' := done;
      for j := 0 to |levels[i]|
        invariant UpTo(done', M, level, levels, i, j) && Swept(g, rk, M, done')
      {
        UpToNext(done', M, level, levels, i, j);
        PropagateUse(levels[i][j], g, rk, M, done');
        done' := done' + {levels[i][j]};
      }
      assert levels[i][..|levels[i]|] == levels[i];
    }

    /** One block of find_ud's second pass. */
    method PropagateUse(p: Id, g: Net, ghost rk: Rank, ghost M: set<Id>, ghost done: set<Id>)
      requires Ranked(g, rk) && Sized(|g|) && Swept(g, rk, M, done) && p in M && p !in done && p < |g|
      requires !g[p].term.Ret? && g[p].jt in done && g[p].jf in done && done <= M
      modifies inUse, outUse
      ensures Swept(g, rk, M, done + {p})
    {
      var jt, jf := g[p].jt, g[p].jf;
      assert g[jt].jt == g[jt].jt && g[jf].jt == g[jf].jt;
      assert g[p].term == g[p].term;
      outUse[p] := outUse[p] + (inUse[jt] + inUse[jf]);
      assert outUse[p] == LiveOut(g, rk, p);
      inUse[p] := inUse[p] + (outUse[p] - kill[p]);
      assert inUse[p] == LiveIn(g, rk, p);
      forall b: Id | b in M && b != p
        ensures inUse[b] == old(inUse[b]) && outUse[b] == old(outUse[b])
      {
        assert g[b].term == g[b].term;
      }
    }

    /** The first pass of find_ud. */
    method LocalSets(root: Id, g: Net, ghost rk: Rank, level: seq<nat>, levels: seq<seq<Id>>)
      requires Ranked(g, rk) && root < |g| && Sized(|g|) && Leveled(g, rk, Reach(g, rk, root), level, levels)
      modifies inUse, outUse, kill
      ensures Swept(g, rk, Reach(g, rk, root), {})
    {
      ghost var M := Reach(g, rk, root);
      LowerLevels(g, rk, root, level);
      for i := level[root] + 1 downto 0
        invariant forall b: Id {:trigger g[b]} :: b in M && level[b] >= i ==>
          kill[b] == LocalUd(g[b]).kill && inUse[b] == LocalUd(g[b]).use && outUse[b] == {}
      {
        for j := 0 to |levels[i]|
          invariant forall b: Id {:trigger g[b]} :: b in M && (level[b] > i || b in levels[i][..j]) ==>
            kill[b] == LocalUd(g[b]).kill && inUse[b] == LocalUd(g[b]).use && outUse[b] == {}
        {
          var p := levels[i][j];
          assert p in levels[i] && levels[i][..j + 1] == levels[i][..j] + [p];
          var def;
          def, inUse[p], kill[p] := ComputeLocalUd(g[p]);
          outUse[p] := {};
        }
        assert levels[i][..|levels[i]|] == levels[i];
      }
    }
  }

  // ----- which stores are dead -----

  /** Statement j defines a, which nothing between j and i reads or defines again. */
  ghost predicate Idle(ss: seq<Stmt>, j: nat, i: nat, a: Atom) {
    j < i <= |ss| && Def(ss[j]) == Some(a) && forall k {:trigger ss[k]} :: j < k < i ==>
      a !in Uses(ss[k]) && Def(ss[k]) != Some(a)
  }

  /** Before statement i, statement m overwrites the atom that statement k defines before
      anything has read it. */
  ghost predicate Overwritten(ss: seq<Stmt>, k: nat, i: nat) {
    exists m: nat :: k < m < i && m < |ss| && OverwrittenBy(ss, k, m)
  }

  ghost predicate OverwrittenBy(ss: seq<Stmt>, k: nat, m: nat)
    requires m < |ss|
  {
    && k < m && Def(ss[k]).Some? && Idle(ss, k, m, Def(ss[k]).value)
    && Def(ss[m]) == Def(ss[k]) && Def(ss[k]).value !in Uses(ss[m])
  }

  /** A store the block and what follows it can do without. */
  ghost predicate Dead(ss: seq<Stmt>, term: Term, outUse: set<Atom>, k: nat) {
    || Overwritten(ss, k, |ss|)
    || (k < |ss| && Def(ss[k]).Some? && Idle(ss, k, |ss|, Def(ss[k]).value)
        && Def(ss[k]).value !in TermUses(term) + outUse)
  }

  /** The atoms whose last definition the block does without. */
  ghost function Gone(ss: seq<Stmt>, term: Term, outUse: set<Atom>): set<Atom> {
    set a | a in ATOMS && a !in TermUses(term) + outUse && exists j: nat :: Idle(ss, j, |ss|, a)
  }

  /** last holds exactly the idle definitions, one at most for an atom. */
  ghost predicate Exact(ss: seq<Stmt>, i: nat, last: seq<Option<nat>>) {
    i <= |ss| && |last| == 18 && forall a: Atom, j: nat :: last[a] == Some(j) <==> Idle(ss, j, i, a)
  }

  /** now is ss without the stores overwritten before i. */
  ghost predicate Marked(ss: seq<Stmt>, now: seq<Stmt>, i: nat) {
    |now| == |ss| && forall k {:trigger now[k]} :: 0 <= k < |ss| ==>
      now[k] == if Overwritten(ss, k, i) then Nop else ss[k]
  }

  function Noted(last: seq<Option<nat>>, s: Stmt, i: nat): (r: seq<Option<nat>>)
    requires |last| == 18
    ensures |r| == 18
  {
    var l := Forget(last, Uses(s));
    if Def(s).Some? then l[Def(s).value := Some(i)] else l
  }

  lemma LastOverwritten(ss: seq<Stmt>, i: nat, last: seq<Option<nat>>, k: nat)
    requires i < |ss| && Exact(ss, i, last) && k < |ss|
    ensures OverwrittenBy(ss, k, i) <==> (Def(ss[i]).Some? && Forget(last, Uses(ss[i]))[Def(ss[i]).value] == Some(k))
  {
    if Def(ss[i]).Some? {
      assert last[Def(ss[i]).value] == Some(k) <==> Idle(ss, k, i, Def(ss[i]).value);
    }
  }

  lemma MarkedNext(ss: seq<Stmt>, now: seq<Stmt>, i: nat, last: seq<Option<nat>>, now': seq<Stmt>)
    requires i < |ss| && Exact(ss, i, last) && Marked(ss, now, i)
    requires var d := Def(ss[i]);
      if d.Some? && Forget(last, Uses(ss[i]))[d.value].Some?
      then
        var k := Forget(last, Uses(ss[i]))[d.value].value;
        k < |now| && now' == now[k := Nop]
      else now' == now
    ensures Marked(ss, now', i + 1)
  {
    forall k: nat | k < |ss| ensures now'[k] == if Overwritten(ss, k, i + 1) then Nop else ss[k] {
      assert now[k] == if Overwritten(ss, k, i) then Nop else ss[k];
      LastOverwritten(ss, i, last, k);
    }
  }

  // ----- opt_deadstores -----

  /** What last records, for each atom, is a statement before i that defines it and that
      nothing before i reads. */
  ghost predicate Pending(ss: seq<Stmt>, i: nat, last: seq<Option<nat>>) {
    && i <= |ss| && |last| == 18
    && forall a: Atom {:trigger last[a]} :: last[a].Some? ==> Unread(ss, last[a].value, i, a)
  }

  /** Statement j defines a, and a is not read from there up to i. */
  ghost predicate Unread(ss: seq<Stmt>, j: nat, i: nat, a: Atom) {
    j < i <= |ss| && Def(ss[j]) == Some(a) && forall k :: j < k < i ==> a !in Uses(ss[k])
  }

  function Without(ss: seq<Stmt>, j: nat): seq<Stmt>
    requires j < |ss|
  {
    ss[j := Nop]
  }

  /** Dropping an unread definition changes nothing but its atom. */
  lemma {:induction false} DropsOnly(ss: seq<Stmt>, j: nat, i: nat, a: Atom, st: State, p: Packet)
    requires Unread(ss, j, i, a)
    ensures forall c: Atom :: c != a ==> ExecAll(Without(ss, j)[..i], st, p)[c] == ExecAll(ss[..i], st, p)[c]
    decreases i
  {
    var ss' := Without(ss, j);
    assert ss[..i] == ss[..i - 1] + [ss[i - 1]] && ss'[..i] == ss'[..i - 1] + [ss'[i - 1]];
    RunOne(ss[..i - 1], ss[i - 1], st, p);
    RunOne(ss'[..i - 1], ss'[i - 1], st, p);
    if i - 1 == j {
      assert ss'[..j] == ss[..j];
    } else {
      DropsOnly(ss, j, i - 1, a, st, p);
      var before, before' := ExecAll(ss[..i - 1], st, p), ExecAll(ss'[..i - 1], st, p);
      if ss[i - 1] != Nop {
        assert a !in Uses(ss[i - 1]);
        assert Agree(Uses(ss[i - 1]), before', before);
        ExecRespectsUses(ss[i - 1], before', before, p);
      }
    }
  }

  /** The two statement lists leave the same words in the atoms outside X. */
  ghost predicate SameOutside(X: set<Atom>, ss: seq<Stmt>, ss': seq<Stmt>) {
    forall st: State, p: Packet :: EqualOutside(X, ExecAll(ss, st, p), ExecAll(ss', st, p))
  }

  ghost predicate EqualOutside(X: set<Atom>, st: State, st': State) {
    forall a: Atom :: a !in X ==> st'[a] == st[a]
  }

  /** Dropping a definition that the very next definition of its atom makes dead changes
      nothing at all. */
  lemma {:induction false} DropOverwritten(ss: seq<Stmt>, j: nat, i: nat, a: Atom)
    requires i < |ss| && Unread(ss, j, i, a) && Def(ss[i]) == Some(a) && a !in Uses(ss[i])
    ensures SameOutside({}, ss[..i + 1], Without(ss, j)[..i + 1])
  {
    var ss' := Without(ss, j);
    var upto, upto' := ss[..i + 1], ss'[..i + 1];
    forall st: State, p: Packet ensures EqualOutside({}, ExecAll(upto, st, p), ExecAll(upto', st, p)) {
      DropsOnly(ss, j, i, a, st, p);
      assert upto == ss[..i] + [ss[i]] && upto' == ss'[..i] + [ss[i]];
      RunOne(ss[..i], ss[i], st, p);
      RunOne(ss'[..i], ss[i], st, p);
      assert Agree(Uses(ss[i]), ExecAll(ss'[..i], st, p), ExecAll(ss[..i], st, p));
      ExecRespectsUses(ss[i], ExecAll(ss'[..i], st, p), ExecAll(ss[..i], st, p), p);
    }
  }

  /** Dropping a definition that is unread at the end changes only its atom. */
  lemma {:induction false} DropAtEnd(ss: seq<Stmt>, j: nat, a: Atom)
    requires Unread(ss, j, |ss|, a)
    ensures SameOutside({a}, ss, Without(ss, j))
  {
    forall st: State, p: Packet ensures EqualOutside({a}, ExecAll(ss, st, p), ExecAll(Without(ss, j), st, p)) {
      DropsOnly(ss, j, |ss|, a, st, p);
      assert ss[..|ss|] == ss && Without(ss, j)[..|ss|] == Without(ss, j);
    }
  }

  function Forget(last: seq<Option<nat>>, atoms: set<Atom>): (r: seq<Option<nat>>)
    requires |last| == 18
    ensures |r| == 18
  {
    seq(18, a requires 0 <= a < 18 => if a in atoms then None else last[a])
  }

  /** Which statement deadstmt drops when it comes to statement i. */
  method DropPending(ss: array<Stmt>, i: nat, last: array<Option<nat>>, ghost before: seq<Option<nat>>)
    requires i < ss.Length && last.Length == 18 && Pending(ss[..], i, before)
    requires last[..] == Forget(before, Uses(ss[i])) && Pending(ss[..], i + 1, last[..])
    modifies ss, last
    ensures Pending(ss[..], i + 1, last[..]) && ss[i..] == old(ss[i..])
    ensures SameOutside({}, old(ss[..])[..i + 1], ss[..][..i + 1])
    ensures last[..] == Noted(before, old(ss[i]), i)
    ensures var d := Def(old(ss[i]));
      ss[..] == if d.Some? && old(last[d.value]).Some? then old(ss[..])[old(last[d.value]).value := Nop]
                else old(ss[..])
  {
    ghost var was, pend := ss[..], last[..];
    if Def(ss[i]).Some? {
      var a := Def(ss[i]).value;
      if last[a].Some? {
        assert last[..][a] == last[a] && Unread(was, before[a].value, i, a);
        DropOverwritten(was, last[a].value, i, a);
        ss[last[a].value] := Nop;
        assert ss[..] == Without(was, pend[a].value);
      }
      last[a] := Some(i);
      assert last[..] == pend[a := Some(i)];
    } else {
      ForgetsNothing(was[..i + 1]);
    }
  }

  lemma ForgetsNothing(ss: seq<Stmt>)
    ensures SameOutside({}, ss, ss)
  {
  }

  /** deadstmt at statement i: forget the atoms it reads, then drop the pending definition of
      the atom it defines and make this one pending. */
  method DeadStmt(ss: array<Stmt>, i: nat, last: array<Option<nat>>, ghost was: seq<Stmt>)
    requires i < ss.Length == |was| && last.Length == 18 && Pending(ss[..], i, last[..]) && ss[i..] == was[i..]
    requires Exact(was, i, last[..]) && Marked(was, ss[..], i)
    modifies ss, last
    ensures Pending(ss[..], i + 1, last[..]) && ss[i..] == old(ss[i..])
    ensures SameOutside({}, old(ss[..])[..i + 1], ss[..][..i + 1])
    ensures Exact(was, i + 1, last[..]) && Marked(was, ss[..], i + 1)
  {
    ghost var before, now := last[..], ss[..];
    assert ss[i] == ss[i..][0] == was[i..][0] == was[i];
    ForgetAtoms(last, Uses(ss[i]));
    ghost var kept := last[..];
    DropPending(ss, i, last, before);
    MarkedNext(was, now, i, before, ss[..]);
  }

  method ForgetAtoms(last: array<Option<nat>>, atoms: set<Atom>)
    requires last.Length == 18
    modifies last
    ensures last[..] == Forget(old(last[..]), atoms)
  {
    ghost var before := last[..];
    for a := 0 to 18
      invariant forall b: Atom :: last[b] == if b in atoms && b < a then None else before[b]
    {
      if a in atoms {
        last[a] := None;
      }
    }
  }

  lemma SameStep(was: seq<Stmt>, mid: seq<Stmt>, ss: seq<Stmt>, i: nat)
    requires i < |was| == |mid| == |ss| && was[i..] == mid[i..]
    requires SameOutside({}, was[..i], mid[..i]) && SameOutside({}, mid[..i + 1], ss[..i + 1])
    ensures SameOutside({}, was[..i + 1], ss[..i + 1])
  {
    var w, m, s := was[..i + 1], mid[..i + 1], ss[..i + 1];
    assert was[i] == was[i..][0] == mid[i..][0] == mid[i];
    assert w == was[..i] + [was[i]] && m == mid[..i] + [was[i]];
    forall st: State, p: Packet ensures EqualOutside({}, ExecAll(w, st, p), ExecAll(s, st, p)) {
      assert EqualOutside({}, ExecAll(was[..i], st, p), ExecAll(mid[..i], st, p));
      assert ExecAll(was[..i], st, p) == ExecAll(mid[..i], st, p);
      RunOne(was[..i], was[i], st, p);
      RunOne(mid[..i], was[i], st, p);
      assert EqualOutside({}, ExecAll(m, st, p), ExecAll(s, st, p));
    }
  }

  /** The atoms below hi that have a pending definition nobody needs. */
  function Unneeded(last: seq<Option<nat>>, outUse: set<Atom>, hi: nat): set<Atom>
    requires |last| == 18
  {
    set a | a in ATOMS && a < hi && a !in outUse && last[a].Some?
  }

  lemma DropNext(was: seq<Stmt>, mid: seq<Stmt>, last: seq<Option<nat>>, outUse: set<Atom>, a: Atom)
    requires |last| == 18 && a !in outUse && last[a].Some? && Unread(mid, last[a].value, |mid|, a)
    requires SameOutside(Unneeded(last, outUse, a), was, mid)
    ensures SameOutside(Unneeded(last, outUse, a + 1), was, Without(mid, last[a].value))
  {
    var ss := Without(mid, last[a].value);
    DropAtEnd(mid, last[a].value, a);
    forall st: State, p: Packet
      ensures EqualOutside(Unneeded(last, outUse, a + 1), ExecAll(was, st, p), ExecAll(ss, st, p))
    {
      assert EqualOutside(Unneeded(last, outUse, a), ExecAll(was, st, p), ExecAll(mid, st, p));
      assert EqualOutside({a}, ExecAll(mid, st, p), ExecAll(ss, st, p));
      assert Unneeded(last, outUse, a + 1) == Unneeded(last, outUse, a) + {a};
    }
  }

  /** Statement k is the pending definition of an unneeded atom below hi. */
  ghost predicate Left(last: seq<Option<nat>>, outUse: set<Atom>, hi: nat, k: nat) {
    |last| == 18 && exists a: Atom {:trigger last[a]} :: a < hi && a !in outUse && last[a] == Some(k)
  }

  /** The final loop of opt_deadstores: definitions still pending at the end of the block go
      when their atom is not live out of it. */
  method DropUnneeded(ss: array<Stmt>, last: array<Option<nat>>, outUse: set<Atom>)
    requires last.Length == 18 && Pending(ss[..], ss.Length, last[..])
    modifies ss
    ensures SameOutside(Unneeded(last[..], outUse, 18), old(ss[..]), ss[..])
    ensures forall k :: 0 <= k < ss.Length ==> ss[k] == if Left(last[..], outUse, 18, k) then Nop else old(ss[k])
  {
    ghost var was, pend := ss[..], last[..];
    for atom := 0 to 18
      invariant forall a: Atom {:trigger pend[a]} :: atom <= a && pend[a].Some? ==>
        Unread(ss[..], pend[a].value, ss.Length, a)
      invariant forall k :: 0 <= k < ss.Length ==> ss[k] == if Left(pend, outUse, atom, k) then Nop else was[k]
      invariant SameOutside(Unneeded(pend, outUse, atom), was, ss[..])
    {
      assert pend[atom] == last[atom];
      forall k: nat
        ensures Left(pend, outUse, atom + 1, k) <==>
          (Left(pend, outUse, atom, k) || (atom !in outUse && pend[atom] == Some(k)))
      {
      }
      if last[atom].Some? && atom !in outUse {
        ghost var mid := ss[..];
        DropNext(was, mid, pend, outUse, atom);
        ss[last[atom].value] := Nop;
        assert ss[..] == Without(mid, pend[atom].value);
      } else {
        assert Unneeded(pend, outUse, atom + 1) == Unneeded(pend, outUse, atom);
      }
    }
  }

  /** ss' computes what ss does for everything live out of the block and everything its
      terminator tests. */
  ghost predicate SameLive(X: set<Atom>, ss: seq<Stmt>, ss': seq<Stmt>) {
    forall st: State, p: Packet :: Agree(X, ExecAll(ss, st, p), ExecAll(ss', st, p))
  }

  lemma DeadSplit(ss: seq<Stmt>, term: Term, outUse: set<Atom>, last: seq<Option<nat>>, last': seq<Option<nat>>, k: nat)
    requires Exact(ss, |ss|, last) && last' == Forget(last, TermUses(term)) && k < |ss|
    ensures Dead(ss, term, outUse, k) <==> (Overwritten(ss, k, |ss|) || Left(last', outUse, 18, k))
  {
    if Def(ss[k]).Some? {
      assert last[Def(ss[k]).value] == Some(k) <==> Idle(ss, k, |ss|, Def(ss[k]).value);
      assert last'[Def(ss[k]).value] == Some(k) <==>
        last[Def(ss[k]).value] == Some(k) && Def(ss[k]).value !in TermUses(term);
    }
    forall a: Atom | last'[a] == Some(k) ensures Def(ss[k]) == Some(a) {
      assert last[a] == Some(k) && Idle(ss, k, |ss|, a);
    }
  }

  /** opt_deadstores: exactly the dead stores go, and the block leaves the same words in every
      atom live out of it and in every atom its terminator tests. */
  method OptDeadstores(ss: array<Stmt>, term: Term, outUse: set<Atom>)
    modifies ss
    ensures SameOutside(Gone(old(ss[..]), term, outUse), old(ss[..]), ss[..])
    ensures forall k :: 0 <= k < ss.Length ==> ss[k] == if Dead(old(ss[..]), term, outUse, k) then Nop else old(ss[k])
  {
    var last := new Option<nat>[18](_ => None);
    ghost var was := ss[..];
    for i := 0 to ss.Length
      invariant Pending(ss[..], i, last[..]) && ss[i..] == was[i..]
      invariant Exact(was, i, last[..]) && Marked(was, ss[..], i)
      invariant SameOutside({}, was[..i], ss[..][..i])
    {
      ghost var mid := ss[..];
      DeadStmt(ss, i, last, was);
      SameStep(was, mid, ss[..], i);
    }
    assert was[..ss.Length] == was && ss[..][..ss.Length] == ss[..];
    ghost var pend, mid := last[..], ss[..];
    ForgetAtoms(last, TermUses(term));
    ghost var kept := last[..];
    DropUnneeded(ss, last, outUse);
    forall k | 0 <= k < ss.Length ensures ss[k] == if Dead(was, term, outUse, k) then Nop else was[k] {
      DeadSplit(was, term, outUse, pend, kept, k);
      assert mid[k] == if Overwritten(was, k, |was|) then Nop else was[k];
    }
    assert Unneeded(kept, outUse, 18) <= Gone(was, term, outUse) by {
      forall a | a in Unneeded(kept, outUse, 18) ensures a in Gone(was, term, outUse) {
        assert Idle(was, pend[a].value, |was|, a);
      }
    }
    forall st: State, p: Packet
      ensures EqualOutside(Gone(was, term, outUse), ExecAll(was, st, p), ExecAll(ss[..], st, p))
    {
      assert EqualOutside({}, ExecAll(was, st, p), ExecAll(mid, st, p));
      assert EqualOutside(Unneeded(kept, outUse, 18), ExecAll(mid, st, p), ExecAll(ss[..], st, p));
    }
  }

  /** n' is n without its dead stores. */
  ghost predicate Cleared(n: Node, n': Node, outUse: set<Atom>) {
    && n'.term == n.term && n'.jt == n.jt && n'.jf == n.jf && |n'.stmts| == |n.stmts|
    && (forall k :: 0 <= k < |n.stmts| ==> n'.stmts[k] == if Dead(n.stmts, n.term, outUse, k) then Nop else n.stmts[k])
    && SameOutside(Gone(n.stmts, n.term, outUse), n.stmts, n'.stmts)
  }

  /** What is tested or read behind it stays the same. */
  lemma ClearedLive(n: Node, n': Node, outUse: set<Atom>)
    requires Cleared(n, n', outUse)
    ensures SameLive(outUse + TermUses(n.term), n.stmts, n'.stmts)
  {
    forall st: State, p: Packet
      ensures Agree(outUse + TermUses(n.term), ExecAll(n.stmts, st, p), ExecAll(n'.stmts, st, p))
    {
      assert EqualOutside(Gone(n.stmts, n.term, outUse), ExecAll(n.stmts, st, p), ExecAll(n'.stmts, st, p));
    }
  }

  /** Removing dead stores, with the sets of find_ud, from any number of blocks keeps the
      verdict of every run from every block. */
  lemma {:induction false} DeadstoresKeepVerdict(g: Net, g': Net, rk: Rank, b: Id, st: State, p: Packet)
    requires Ranked(g, rk) && b < |g| && |g'| == |g|
    requires forall c {:trigger g[c]} {:trigger g'[c]} :: 0 <= c < |g| ==>
      && g'[c].term == g[c].term && g'[c].jt == g[c].jt && g'[c].jf == g[c].jf
      && SameLive(LiveOut(g, rk, c) + TermUses(g[c].term), g[c].stmts, g'[c].stmts)
    ensures Ranked(g', rk)
    ensures Run(g', rk, b, st, p) == Run(g, rk, b, st, p)
    decreases rk[b]
  {
    assert Ranked(g', rk) by {
      forall c | 0 <= c < |g'| ensures g'[c].term == g[c].term && g'[c].jt == g[c].jt && g'[c].jf == g[c].jf {
        assert g'[c] == g'[c];
      }
    }
    if !g[b].term.Ret? {
      var after, after' := ExecAll(g[b].stmts, st, p), ExecAll(g'[b].stmts, st, p);
      var X := LiveOut(g, rk, b) + TermUses(g[b].term);
      assert Agree(X, after, after');
      assert forall a :: a in X ==> after[a] == after'[a];
      var c := Choose(g[b], after);
      DeadstoresKeepVerdict(g, g', rk, c, after', p);
      LiveSound(g, rk, c, after, after', p);
    }
  }
}
