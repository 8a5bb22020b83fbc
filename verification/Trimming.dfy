/** opt_blk as a whole: what the stores and statements it leaves out do to the numbers that it has
    given to the atoms they defined. */
module Trimming {
  import opened Bpf
  import opened Graph
  import opened Liveness
  import opened ValueNumbers
  import opened Renumbering

  /** The atoms in which a block may leave other words once it has been trimmed. */
  ghost function Lost(n: Node, vin: Numbers, vout: Numbers, outUse: set<Atom>, alter: bool): set<Atom> {
    if Empties(n.term, vin, vout, outUse, alter) then DefinedAll(n.stmts) - {A_ATOM, X_ATOM}
    else Gone(n.stmts, n.term, outUse)
  }

  lemma {:induction false} UndefinedStays(ss: seq<Stmt>, a: Atom, st: State, p: Packet)
    requires a !in DefinedAll(ss)
    ensures ExecAll(ss, st, p)[a] == st[a]
    decreases ss
  {
    if ss != [] {
      UndefinedStays(ss[1..], a, Exec(ss[0], st, p), p);
    }
  }

  /** The registers of an emptied block hold known values. */
  predicate Refilled(T: Table, n: Node, vin: Numbers, vout: Numbers, outUse: set<Atom>, alter: bool) {
    Empties(n.term, vin, vout, outUse, alter) && !n.term.Ret? ==> Solid(T, vin[A_ATOM]) && Solid(T, vin[X_ATOM])
  }

  /** Only the lost atoms change, and nothing that is tested or live is lost. */
  lemma TrimMeans(T: Table, n: Node, n': Node, vin: Numbers, vout: Numbers, outUse: set<Atom>, alter: bool, st: State,
                  p: Packet)
    requires Trimmed(n, n', vin, vout, outUse, alter) && Refilled(T, n, vin, vout, outUse, alter) && !n.term.Ret?
    requires Describes(T, vin, st, p) && Describes(T, vout, ExecAll(n.stmts, st, p), p)
    ensures EqualOutside(Lost(n, vin, vout, outUse, alter), ExecAll(n.stmts, st, p), ExecAll(n'.stmts, st, p))
    ensures Lost(n, vin, vout, outUse, alter) !! outUse + TermUses(n.term)
  {
    if Empties(n.term, vin, vout, outUse, alter) {
      forall a: Atom | a !in Lost(n, vin, vout, outUse, alter) ensures ExecAll(n.stmts, st, p)[a] == st[a] {
        if a != A_ATOM && a != X_ATOM {
          UndefinedStays(n.stmts, a, st, p);
        }
      }
    } else {
      assert SameOutside(Gone(n.stmts, n.term, outUse), n.stmts, n'.stmts);
    }
  }

  /** mid is what the statements became under the numbers of opt_blk, net what is left of them. */
  ghost predicate TrimmedAll(mid: Net, M: set<Id>, T: Table, net: Net, valIn: seq<Numbers>, valOut: seq<Numbers>,
                             outUse: seq<set<Atom>>, alter: bool)
  {
    && |net| == |valIn| == |valOut| == |outUse| == |mid|
    && forall b: Id {:trigger net[b]} {:trigger mid[b]} :: b < |mid| ==>
      if b in M then
        && Trimmed(mid[b], net[b], valIn[b], valOut[b], outUse[b], alter)
        && Refilled(T, mid[b], valIn[b], valOut[b], outUse[b], alter)
      else net[b] == mid[b]
  }

  /** What a block has lost nothing reads behind it any more. */
  ghost predicate NothingMissed(mid: Net, rk: Rank, M: set<Id>, net: Net, valIn: seq<Numbers>, valOut: seq<Numbers>,
                                outUse: seq<set<Atom>>, alter: bool)
    requires Ranked(net, rk) && |net| == |valIn| == |valOut| == |outUse| == |mid|
  {
    forall b: Id {:trigger net[b]} {:trigger mid[b]} :: b < |mid| && b in M && !mid[b].term.Ret? ==>
      Lost(mid[b], valIn[b], valOut[b], outUse[b], alter) !! LiveOut(net, rk, b)
  }

  /** Past a trimmed block the state is like the other one in what is read from there. */
  lemma TrimmedThrough(mid: Net, rk: Rank, M: set<Id>, T: Table, net: Net, valIn: seq<Numbers>, valOut: seq<Numbers>,
                       outUse: seq<set<Atom>>, alter: bool, b: Id, st: State, st': State, p: Packet)
    requires Ranked(mid, rk) && Ranked(net, rk) && Annotated(mid, M, T, valIn, valOut) && b in M && b < |mid|
    requires TrimmedAll(mid, M, T, net, valIn, valOut, outUse, alter)
    requires NothingMissed(mid, rk, M, net, valIn, valOut, outUse, alter) && !mid[b].term.Ret?
    requires Agree(LiveIn(net, rk, b), st, st') && Describes(T, valIn[b], st, p)
    ensures var after, after' := ExecAll(mid[b].stmts, st, p), ExecAll(net[b].stmts, st', p);
      var c := Choose(mid[b], after);
      && net[b].term == mid[b].term && Choose(net[b], after') == c && c in M && c < |mid|
      && Agree(LiveIn(net, rk, c), after, after') && Describes(T, valIn[c], after, p)
  {
    assert mid[b] == mid[b] && net[b] == net[b];
    var after, kept := ExecAll(mid[b].stmts, st, p), ExecAll(net[b].stmts, st, p);
    var after' := ExecAll(net[b].stmts, st', p);
    var lost := Lost(mid[b], valIn[b], valOut[b], outUse[b], alter);
    LiveThrough(net, rk, b, st, st', p);
    TrimMeans(T, mid[b], net[b], valIn[b], valOut[b], outUse[b], alter, st, p);
    assert forall a: Atom :: a !in lost ==> kept[a] == after[a];
    assert A_ATOM in TermUses(mid[b].term) && (mid[b].term.JmpX? ==> X_ATOM in TermUses(mid[b].term));
    var c := Choose(mid[b], after);
    forall a | a in LiveIn(net, rk, c) ensures after[a] == after'[a] {
      assert a in LiveOut(net, rk, b);
    }
  }

  /** Trimming keeps every verdict when nothing is missed. */
  lemma {:induction false} TrimmedKeepsVerdict(mid: Net, rk: Rank, M: set<Id>, T: Table, net: Net, valIn: seq<Numbers>,
                                               valOut: seq<Numbers>, outUse: seq<set<Atom>>, alter: bool, b: Id,
                                               st: State, st': State, p: Packet)
    requires Ranked(mid, rk) && Ranked(net, rk) && Annotated(mid, M, T, valIn, valOut) && b in M && b < |mid|
    requires TrimmedAll(mid, M, T, net, valIn, valOut, outUse, alter)
    requires NothingMissed(mid, rk, M, net, valIn, valOut, outUse, alter)
    requires Agree(LiveIn(net, rk, b), st, st') && Describes(T, valIn[b], st, p)
    ensures Run(net, rk, b, st', p) == Run(mid, rk, b, st, p)
    decreases rk[b]
  {
    assert mid[b] == mid[b] && net[b] == net[b];
    if !mid[b].term.Ret? {
      TrimmedThrough(mid, rk, M, T, net, valIn, valOut, outUse, alter, b, st, st', p);
      var after, after' := ExecAll(mid[b].stmts, st, p), ExecAll(net[b].stmts, st', p);
      TrimmedKeepsVerdict(mid, rk, M, T, net, valIn, valOut, outUse, alter, Choose(mid[b], after), after, after', p);
    }
  }

  /** Where nothing was known of the atoms whose last store goes, and no other store of them stays,
      the numbers left for the block are right about it exactly if they claim nothing of these. */
  lemma StaleExactly(T: Table, n: Node, n': Node, vin: Numbers, vout: Numbers, outUse: set<Atom>)
    requires Cleared(n, n', outUse) && FollowsAll(T, vin, vout, n.stmts)
    requires forall a :: a in Gone(n.stmts, n.term, outUse) ==> !Solid(T, vin[a]) && a !in DefinedAll(n'.stmts)
    ensures FollowsAll(T, vin, vout, n'.stmts) <==>
      forall a :: a in Gone(n.stmts, n.term, outUse) ==> !Solid(T, vout[a])
  {
    var gone := Gone(n.stmts, n.term, outUse);
    if forall a :: a in gone ==> !Solid(T, vout[a]) {
      forall st: State, p: Packet | Describes(T, vin, st, p) ensures Describes(T, vout, ExecAll(n'.stmts, st, p), p) {
        assert EqualOutside(gone, ExecAll(n.stmts, st, p), ExecAll(n'.stmts, st, p));
        assert Describes(T, vout, ExecAll(n.stmts, st, p), p);
      }
    } else {
      var a :| a in gone && Solid(T, vout[a]);
      var p := Packet(0, (size, k) => 0, k => 0);
      var other: Word := if Den(T, vout[a], p) == 0 then 1 else 0;
      var st: State := seq(18, b requires 0 <= b < 18 => if Solid(T, vin[b]) then Den(T, vin[b], p) else other);
      assert Describes(T, vin, st, p);
      UndefinedStays(n'.stmts, a, st, p);
      assert !Describes(T, vout, ExecAll(n'.stmts, st, p), p);
    }
  }
}
